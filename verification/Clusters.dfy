/** Turning a segmenter's answer into clusters of atoms, and the audit that splits over-merged tasks. */
module Clusters {
  import opened Events
  import opened Lists
  import opened Sorting

  /** One task of the answer; `members` are the 1-based atom numbers as read, in any order, with any repeats. */
  datatype Task = Task(title: string, members: seq<nat>)
  datatype Cluster = Cluster(title: string, segs: seq<nat>, rows: seq<Event>)

  const ORPHAN := "(LLM 未归类·孤段)"

  function Least(xs: seq<nat>): int {
    if xs == [] then 1_000_000_000 else
      var rest := Least(xs[1..]);
      if |xs| == 1 || xs[0] < rest then xs[0] else rest
  }

  const ByLeast: Task -> int := (t: Task) => Least(t.members)
  const ByFirstRow: Cluster -> int := (c: Cluster) => if c.rows == [] then 0 else c.rows[0].ts

  /** The least member, far back when there is none. */
  lemma {:induction false} LeastIs(xs: seq<nat>)
    ensures if xs == [] then Least(xs) == 1_000_000_000 else Least(xs) in xs && forall x :: x in xs ==> Least(xs) <= x
  {
    if |xs| > 1 {
      LeastIs(xs[1..]);
      assert forall x :: x in xs ==> x == xs[0] || x in xs[1..];
    }
  }

  /** The first task that mentions x, |tasks| if none does. */
  function Owner(tasks: seq<Task>, x: nat): (i: nat)
    ensures i <= |tasks| && (i < |tasks| ==> x in tasks[i].members)
    ensures forall j :: 0 <= j < i ==> x !in tasks[j].members
  {
    if tasks == [] then 0 else if x in tasks[0].members then 0 else 1 + Owner(tasks[1..], x)
  }

  /** Atoms with the same label belong together: same first task, or the same unmentioned atom. */
  function Label(tasks: seq<Task>, x: nat): nat {
    if Owner(tasks, x) < |tasks| then Owner(tasks, x) else |tasks| + x
  }

  function Segs(cs: seq<Cluster>): seq<seq<nat>> {
    Map((c: Cluster) => c.segs, cs)
  }

  function RowsOf(cs: seq<Cluster>): seq<seq<Event>> {
    Map((c: Cluster) => c.rows, cs)
  }

  function Atom(atoms: seq<seq<Event>>, x: nat): seq<Event> {
    if 1 <= x <= |atoms| then atoms[x - 1] else []
  }

  /** The rows of the atoms with the given numbers, one after the other. */
  function Gather(atoms: seq<seq<Event>>, xs: seq<nat>): seq<Event> {
    if xs == [] then [] else Atom(atoms, xs[0]) + Gather(atoms, xs[1..])
  }

  ghost predicate LeastOf(t: Task, m: nat) {
    m in t.members && forall x :: x in t.members ==> m <= x
  }

  /** Of the tasks that claim x, the one whose least member is smallest gets it. */
  lemma {:induction false} OwnerStartsFirst(answer: seq<Task>, x: nat, u: Task)
    requires u in answer && x in u.members
    ensures var tasks := SortBy(answer, ByLeast); var i := Owner(tasks, x);
            i < |tasks| && tasks[i] in answer && x in tasks[i].members && forall m: nat, n: nat :: LeastOf(tasks[i], m) && LeastOf(u, n) ==> m <= n
  {
    hide SortBy, Least;
    var tasks := SortBy(answer, ByLeast);
    SortSorts(answer, ByLeast);
    SortMembers(answer, ByLeast);
    var k :| 0 <= k < |tasks| && tasks[k] == u;
    var i := Owner(tasks, x);
    assert tasks[i] in tasks;
    assert ByLeast(tasks[i]) <= ByLeast(tasks[k]);
    LeastIs(tasks[i].members);
    LeastIs(u.members);
  }

  // ---- what holds of the clusters made so far ---------------------------------------------------

  /** Each seen atom is in exactly one cluster, once; clusters are the label classes of the seen atoms. */
  ghost predicate Grouped(tasks: seq<Task>, segs: seq<seq<nat>>, seen: set<nat>) {
    && multiset(Flat(segs)) == multiset(seen)
    && (forall s :: s in segs ==> s != [])
    && (forall s, x, y :: s in segs && x in s && y in s ==> Label(tasks, x) == Label(tasks, y))
    && (forall x, y :: x in seen && y in seen && Label(tasks, x) == Label(tasks, y) ==> Together(segs, x, y))
  }

  function Members(idxs: seq<nat>): set<nat> {
    set x | x in idxs
  }

  ghost predicate Fresh(tasks: seq<Task>, seen: set<nat>, idxs: seq<nat>) {
    && idxs != []
    && multiset(idxs) == multiset(Members(idxs))
    && (forall x, y :: x in idxs && y in idxs ==> Label(tasks, x) == Label(tasks, y))
    && (forall x, y :: x in idxs && y in seen ==> Label(tasks, x) != Label(tasks, y))
  }

  lemma {:induction false} GroupNext(tasks: seq<Task>, segs: seq<seq<nat>>, seen: set<nat>, idxs: seq<nat>)
    requires Grouped(tasks, segs, seen) && Fresh(tasks, seen, idxs)
    ensures Grouped(tasks, segs + [idxs], seen + Members(idxs))
  {
    hide Label;
    var segs', new' := segs + [idxs], Members(idxs);
    FlatSnoc(segs, idxs);
    assert seen !! new';
    assert multiset(seen + new') == multiset(seen) + multiset(new');
    assert idxs in segs' && forall s :: s in segs' ==> s == idxs || s in segs;
    forall x, y | x in seen + new' && y in seen + new' && Label(tasks, x) == Label(tasks, y)
      ensures Together(segs', x, y)
    {
      if x in seen && y in seen {
        var s :| s in segs && x in s && y in s;
        assert s in segs';
      }
    }
  }

  function Title(tasks: seq<Task>, x: nat): string {
    if Owner(tasks, x) < |tasks| then tasks[Owner(tasks, x)].title else ORPHAN
  }

  /** The rows of a cluster are the rows of its atoms, in time order if each atom is; its title is its task's. */
  ghost predicate Holds(tasks: seq<Task>, atoms: seq<seq<Event>>, c: Cluster) {
    && c.segs != [] && c.title == Title(tasks, c.segs[0])
    && multiset(c.rows) == multiset(Gather(atoms, c.segs))
    && ((forall a :: a in atoms ==> SortedBy(a, ByTs)) ==> SortedBy(c.rows, ByTs))
  }

  ghost predicate AllHold(tasks: seq<Task>, atoms: seq<seq<Event>>, cs: seq<Cluster>) {
    forall c :: c in cs ==> Holds(tasks, atoms, c)
  }

  lemma {:induction false} GatherAppend(atoms: seq<seq<Event>>, a: seq<nat>, b: seq<nat>)
    ensures Gather(atoms, a + b) == Gather(atoms, a) + Gather(atoms, b)
  {
    if a == [] {
      assert a + b == b;
    } else {
      GatherAppend(atoms, a[1..], b);
      assert (a + b)[1..] == a[1..] + b;
    }
  }

  lemma {:induction false} GatherWithout(atoms: seq<seq<Event>>, b: seq<nat>, k: nat)
    requires k < |b|
    ensures multiset(Gather(atoms, b)) == multiset(Atom(atoms, b[k])) + multiset(Gather(atoms, b[..k] + b[k + 1..]))
  {
    assert b == b[..k] + b[k..] && b[k..][1..] == b[k + 1..];
    GatherAppend(atoms, b[..k], b[k..]);
    GatherAppend(atoms, b[..k], b[k + 1..]);
  }

  lemma {:induction false} GatherPermute(atoms: seq<seq<Event>>, a: seq<nat>, b: seq<nat>)
    requires multiset(a) == multiset(b)
    ensures multiset(Gather(atoms, a)) == multiset(Gather(atoms, b))
    decreases |a|
  {
    if a == [] {
      assert |b| == |multiset(b)| == 0;
    } else {
      assert a[0] in multiset(b);
      var k :| 0 <= k < |b| && b[k] == a[0];
      WithoutOne(b, k);
      HeadTail(a);
      GatherWithout(atoms, b, k);
      GatherPermute(atoms, a[1..], b[..k] + b[k + 1..]);
    }
  }

  lemma {:induction false} RowsAreGathered(tasks: seq<Task>, atoms: seq<seq<Event>>, cs: seq<Cluster>)
    requires AllHold(tasks, atoms, cs)
    ensures multiset(Flat(RowsOf(cs))) == multiset(Gather(atoms, Flat(Segs(cs))))
  {
    if cs != [] {
      RowsAreGathered(tasks, atoms, cs[1..]);
      assert cs[0] in cs && Holds(tasks, atoms, cs[0]);
      assert Segs(cs)[1..] == Segs(cs[1..]) && RowsOf(cs)[1..] == RowsOf(cs[1..]);
      GatherAppend(atoms, cs[0].segs, Flat(Segs(cs[1..])));
    }
  }

  function UpTo(n: nat): (r: seq<nat>)
    ensures |r| == n && forall i :: 0 <= i < n ==> r[i] == i + 1
  {
    seq(n, i requires 0 <= i < n => i + 1)
  }

  /** The atom numbers 1..n. */
  function Numbers(n: nat): (r: set<nat>)
    ensures forall x :: x in r <==> 1 <= x <= n
  {
    if n == 0 then {} else Numbers(n - 1) + {n}
  }

  lemma {:induction false} UpToIsNumbers(n: nat)
    ensures multiset(UpTo(n)) == multiset(Numbers(n))
  {
    if n > 0 {
      UpToIsNumbers(n - 1);
      assert UpTo(n) == UpTo(n - 1) + [n];
    }
  }

  lemma {:induction false} GatherAll(atoms: seq<seq<Event>>, n: nat)
    requires n <= |atoms|
    ensures Gather(atoms, UpTo(n)) == Flat(atoms[..n])
  {
    if n > 0 {
      GatherAll(atoms, n - 1);
      assert UpTo(n) == UpTo(n - 1) + [n];
      GatherAppend(atoms, UpTo(n - 1), [n]);
      assert [n][1..] == [] && Gather(atoms, [n]) == atoms[n - 1];
      assert atoms[..n] == atoms[..n - 1] + [atoms[n - 1]];
      FlatSnoc(atoms[..n - 1], atoms[n - 1]);
    }
  }

  /** Every event of every atom is in the clusters as often as it is in the atoms. */
  lemma {:induction false} Conserved(tasks: seq<Task>, atoms: seq<seq<Event>>, cs: seq<Cluster>)
    requires AllHold(tasks, atoms, cs) && multiset(Flat(Segs(cs))) == multiset(Numbers(|atoms|))
    ensures multiset(Flat(RowsOf(cs))) == multiset(Flat(atoms))
  {
    hide Flat, Gather, AllHold;
    RowsAreGathered(tasks, atoms, cs);
    UpToIsNumbers(|atoms|);
    GatherPermute(atoms, Flat(Segs(cs)), UpTo(|atoms|));
    GatherAll(atoms, |atoms|);
    assert atoms[..|atoms|] == atoms;
  }

  // ---- assemble_clusters ------------------------------------------------------------------------

  /** The members of one task that are in range and not yet taken, in order, without repeats. */
  method Unclaimed(members: seq<nat>, n: nat, seen: set<nat>) returns (idxs: seq<nat>)
    ensures forall x :: x in idxs <==> x in members && 1 <= x <= n && x !in seen
    ensures multiset(idxs) == multiset(Members(idxs))
  {
    idxs := [];
    var taken := seen;
    for j := 0 to |members|
      invariant forall x :: x in idxs <==> x in members[..j] && 1 <= x <= n && x !in seen
      invariant taken == seen + Members(idxs)
      invariant multiset(idxs) == multiset(Members(idxs))
    {
      var x := members[j];
      assert members[..j + 1] == members[..j] + [x];
      if 1 <= x <= n && x !in taken {
        assert Members(idxs + [x]) == Members(idxs) + {x};
        taken := taken + {x};
        idxs := idxs + [x];
      }
    }
    assert members[..|members|] == members;
  }

  /** The atoms claimed by the first i tasks. */
  ghost predicate ClaimedBy(tasks: seq<Task>, n: nat, i: nat, seen: set<nat>) {
    forall x :: x in seen <==> 1 <= x <= n && Owner(tasks, x) < i
  }

  lemma {:induction false} ClaimNext(tasks: seq<Task>, n: nat, i: nat, seen: set<nat>, idxs: seq<nat>)
    requires i < |tasks| && ClaimedBy(tasks, n, i, seen)
    requires forall x :: x in idxs <==> x in tasks[i].members && 1 <= x <= n && x !in seen
    requires multiset(idxs) == multiset(Members(idxs))
    ensures ClaimedBy(tasks, n, i + 1, seen + Members(idxs))
    ensures idxs != [] ==> Fresh(tasks, seen, idxs) && Title(tasks, idxs[0]) == tasks[i].title
  {
    forall x: nat | 1 <= x <= n && x !in seen ensures x in idxs <==> Owner(tasks, x) == i {
    }
  }

  lemma {:induction false} ClaimOrphan(tasks: seq<Task>, seen: set<nat>, x: nat)
    requires Owner(tasks, x) == |tasks| && x !in seen
    requires forall y :: y in seen && Owner(tasks, y) == |tasks| ==> y < x
    ensures Fresh(tasks, seen, [x]) && Members([x]) == {x}
  {
    assert Members([x]) == {x};
  }

  lemma {:induction false} HoldNext(tasks: seq<Task>, atoms: seq<seq<Event>>, cs: seq<Cluster>, c: Cluster)
    requires AllHold(tasks, atoms, cs) && Holds(tasks, atoms, c)
    ensures AllHold(tasks, atoms, cs + [c]) && Segs(cs + [c]) == Segs(cs) + [c.segs]
  {
    hide Holds;
    assert forall d :: d in cs + [c] ==> d == c || d in cs;
  }

  method GatherRows(atoms: seq<seq<Event>>, idxs: seq<nat>) returns (rows: seq<Event>)
    requires forall x :: x in idxs ==> 1 <= x <= |atoms|
    ensures rows == Gather(atoms, idxs)
  {
    rows := [];
    for j := 0 to |idxs|
      invariant rows == Gather(atoms, idxs[..j])
    {
      assert idxs[..j + 1] == idxs[..j] + [idxs[j]];
      GatherAppend(atoms, idxs[..j], [idxs[j]]);
      assert idxs[j] in idxs && [idxs[j]][1..] == [];
      rows := rows + atoms[idxs[j] - 1];
    }
    assert idxs[..|idxs|] == idxs;
  }

  /** First stage: one cluster per task that still has an atom of its own. */
  method ClaimTasks(atoms: seq<seq<Event>>, tasks: seq<Task>) returns (cs: seq<Cluster>, seen: set<nat>)
    ensures Grouped(tasks, Segs(cs), seen) && AllHold(tasks, atoms, cs) && ClaimedBy(tasks, |atoms|, |tasks|, seen)
  {
    hide Grouped, Fresh, AllHold, ClaimedBy, Owner, SortBy, Title, SortedBy, Map;
    cs, seen := [], {};
    Nothing(atoms, tasks);
    for i := 0 to |tasks|
      invariant Grouped(tasks, Segs(cs), seen) && AllHold(tasks, atoms, cs) && ClaimedBy(tasks, |atoms|, i, seen)
    {
      var idxs := Unclaimed(tasks[i].members, |atoms|, seen);
      ClaimNext(tasks, |atoms|, i, seen, idxs);
      if idxs == [] {
        assert seen + Members(idxs) == seen;
      } else {
        var rows := GatherRows(atoms, idxs);
        SortSorts(rows, ByTs);
        GroupNext(tasks, Segs(cs), seen, idxs);
        HoldNext(tasks, atoms, cs, Cluster(tasks[i].title, idxs, SortBy(rows, ByTs)));
        cs := cs + [Cluster(tasks[i].title, idxs, SortBy(rows, ByTs))];
        seen := seen + Members(idxs);
      }
    }
  }

  lemma {:induction false} Nothing(atoms: seq<seq<Event>>, tasks: seq<Task>)
    ensures Grouped(tasks, Segs([]), {}) && AllHold(tasks, atoms, []) && ClaimedBy(tasks, |atoms|, 0, {})
  {
  }

  /** Second stage: every atom no task claimed becomes a cluster of its own. */
  method AddOrphans(atoms: seq<seq<Event>>, ghost tasks: seq<Task>, cs0: seq<Cluster>, seen: set<nat>) returns (cs: seq<Cluster>)
    requires Grouped(tasks, Segs(cs0), seen) && AllHold(tasks, atoms, cs0) && ClaimedBy(tasks, |atoms|, |tasks|, seen)
    ensures Grouped(tasks, Segs(cs), Numbers(|atoms|)) && AllHold(tasks, atoms, cs)
  {
    hide Grouped, Fresh, AllHold, ClaimedBy, Owner, Title, SortedBy, Map, Label;
    cs := cs0;
    SeenAlready(tasks, |atoms|, seen);
    for x: nat := 1 to |atoms| + 1
      invariant Grouped(tasks, Segs(cs), seen + Numbers(x - 1)) && AllHold(tasks, atoms, cs)
    {
      NumbersNext(seen, x);
      if x !in seen {
        OrphanStep(tasks, atoms, cs, seen, x);
        cs := cs + [Cluster(ORPHAN, [x], atoms[x - 1])];
      }
    }
    assert seen + Numbers(|atoms|) == Numbers(|atoms|);
  }

  lemma {:induction false} NumbersNext(seen: set<nat>, x: nat)
    requires x > 0
    ensures seen + Numbers(x) == seen + Numbers(x - 1) + {x}
    ensures x in seen ==> seen + Numbers(x) == seen + Numbers(x - 1)
  {
  }

  lemma {:induction false} OrphanStep(tasks: seq<Task>, atoms: seq<seq<Event>>, cs: seq<Cluster>, seen: set<nat>, x: nat)
    requires ClaimedBy(tasks, |atoms|, |tasks|, seen) && 1 <= x <= |atoms| && x !in seen
    requires Grouped(tasks, Segs(cs), seen + Numbers(x - 1)) && AllHold(tasks, atoms, cs)
    ensures Grouped(tasks, Segs(cs + [Cluster(ORPHAN, [x], atoms[x - 1])]), seen + Numbers(x - 1) + {x})
    ensures AllHold(tasks, atoms, cs + [Cluster(ORPHAN, [x], atoms[x - 1])])
  {
    hide Grouped, Fresh, AllHold, ClaimedBy, Owner, Title, SortedBy, Map, Label;
    OrphanNext(tasks, atoms, seen, x, seen + Numbers(x - 1));
    GroupNext(tasks, Segs(cs), seen + Numbers(x - 1), [x]);
    HoldNext(tasks, atoms, cs, Cluster(ORPHAN, [x], atoms[x - 1]));
  }

  lemma {:induction false} SeenAlready(tasks: seq<Task>, n: nat, seen: set<nat>)
    requires ClaimedBy(tasks, n, |tasks|, seen)
    ensures seen <= Numbers(n) && seen + Numbers(0) == seen
  {
  }

  lemma {:induction false} OrphanNext(tasks: seq<Task>, atoms: seq<seq<Event>>, seen: set<nat>, x: nat, done: set<nat>)
    requires ClaimedBy(tasks, |atoms|, |tasks|, seen) && 1 <= x <= |atoms| && x !in seen && done == seen + Numbers(x - 1)
    ensures Fresh(tasks, done, [x]) && Members([x]) == {x}
    ensures Holds(tasks, atoms, Cluster(ORPHAN, [x], atoms[x - 1]))
  {
    ClaimOrphan(tasks, done, x);
    assert [x][1..] == [] && Gather(atoms, [x]) == atoms[x - 1];
  }

  /** Two atoms share a cluster exactly when they have the same label. */
  ghost predicate Labelled(tasks: seq<Task>, n: nat, segs: seq<seq<nat>>) {
    forall x: nat, y: nat {:trigger Together(segs, x, y)} :: 1 <= x <= n && 1 <= y <= n ==>
      (Together(segs, x, y) <==> Label(tasks, x) == Label(tasks, y))
  }

  /** Each atom once, clusters exactly the label classes, events conserved, clusters in time order. */
  ghost predicate Assembled(tasks: seq<Task>, atoms: seq<seq<Event>>, cs: seq<Cluster>) {
    && multiset(Flat(Segs(cs))) == multiset(Numbers(|atoms|))
    && Labelled(tasks, |atoms|, Segs(cs))
    && AllHold(tasks, atoms, cs)
    && multiset(Flat(RowsOf(cs))) == multiset(Flat(atoms))
    && SortedBy(cs, ByFirstRow)
  }

  method AssembleClusters(atoms: seq<seq<Event>>, answer: seq<Task>) returns (cs: seq<Cluster>)
    requires forall a :: a in atoms ==> a != []
    ensures Assembled(SortBy(answer, ByLeast), atoms, cs)
    ensures forall c :: c in cs ==> c.rows != []
  {
    hide Grouped, AllHold, ClaimedBy, Assembled, SortBy, SortedBy;
    var tasks := SortBy(answer, ByLeast);
    var claimed, seen := ClaimTasks(atoms, tasks);
    var all := AddOrphans(atoms, tasks, claimed, seen);
    OrderClusters(tasks, atoms, all);
    cs := SortBy(all, ByFirstRow);
    NoEmptyCluster(tasks, atoms, cs);
  }

  lemma {:induction false} OrderClusters(tasks: seq<Task>, atoms: seq<seq<Event>>, all: seq<Cluster>)
    requires Grouped(tasks, Segs(all), Numbers(|atoms|)) && AllHold(tasks, atoms, all)
    ensures Assembled(tasks, atoms, SortBy(all, ByFirstRow))
  {
    hide Holds, Label, SortBy, SortedBy, Flat, Numbers, Map;
    var cs := SortBy(all, ByFirstRow);
    SortSorts(all, ByFirstRow);
    SortMembers(all, ByFirstRow);
    MapPermute((c: Cluster) => c.segs, cs, all);
    FlatPermute(Segs(cs), Segs(all));
    SameElements(Segs(cs), Segs(all));
    forall x: nat, y: nat | 1 <= x <= |atoms| && 1 <= y <= |atoms|
      ensures Together(Segs(cs), x, y) <==> Label(tasks, x) == Label(tasks, y)
    {
      assert Together(Segs(cs), x, y) <==> Together(Segs(all), x, y);
    }
    Conserved(tasks, atoms, cs);
  }

  lemma {:induction false} NoEmptyCluster(tasks: seq<Task>, atoms: seq<seq<Event>>, cs: seq<Cluster>)
    requires Assembled(tasks, atoms, cs) && forall a :: a in atoms ==> a != []
    ensures forall c :: c in cs ==> c.rows != []
  {
    forall c | c in cs ensures c.rows != [] {
      assert Holds(tasks, atoms, c);
      var k :| 0 <= k < |cs| && cs[k] == c;
      assert Segs(cs)[k] == c.segs && c.segs in Segs(cs);
      FlatMembers(Segs(cs), c.segs[0]);
      assert c.segs[0] in multiset(Flat(Segs(cs)));
      assert atoms[c.segs[0] - 1] in atoms;
      assert |multiset(c.rows)| > 0;
    }
  }

  // ---- what a cluster is ------------------------------------------------------------------------

  /** A cluster has exactly the events of the atoms whose numbers it lists. */
  lemma {:induction false} RowsAreAtoms(tasks: seq<Task>, atoms: seq<seq<Event>>, cs: seq<Cluster>, c: Cluster, e: Event)
    requires Assembled(tasks, atoms, cs) && c in cs
    ensures e in c.rows <==> exists x: nat :: x in c.segs && AtomHas(atoms, x, e)
  {
    hide Labelled, SortedBy, Flat, Segs, RowsOf, Gather, Title;
    assert Holds(tasks, atoms, c);
    assert e in multiset(c.rows) <==> e in multiset(Gather(atoms, c.segs));
    GatherHas(atoms, c.segs, e);
  }

  lemma {:induction false} GatherHas(atoms: seq<seq<Event>>, xs: seq<nat>, e: Event)
    ensures e in Gather(atoms, xs) <==> exists x: nat :: x in xs && AtomHas(atoms, x, e)
  {
    if xs != [] {
      GatherHas(atoms, xs[1..], e);
      assert AtomHas(atoms, xs[0], e) <==> e in Atom(atoms, xs[0]);
      assert xs[0] in xs && forall x :: x in xs ==> x == xs[0] || x in xs[1..];
    }
  }

  ghost predicate AtomHas(atoms: seq<seq<Event>>, x: nat, e: Event) {
    1 <= x <= |atoms| && e in atoms[x - 1]
  }

  /** Task t claims atom x and starts no later than any other task that does. */
  ghost predicate Claims(answer: seq<Task>, t: Task, x: nat) {
    t in answer && x in t.members &&
    forall u: Task, m: nat, n: nat :: u in answer && x in u.members && LeastOf(t, m) && LeastOf(u, n) ==> m <= n
  }

  /** A cluster has the title of the task that claims its atoms; an atom nobody mentions is alone, and marked so. */
  lemma {:induction false} TitleIs(answer: seq<Task>, atoms: seq<seq<Event>>, cs: seq<Cluster>, c: Cluster)
    requires Assembled(SortBy(answer, ByLeast), atoms, cs) && c in cs
    ensures |c.segs| > 0
    ensures (exists t :: t in answer && c.segs[0] in t.members) ==> exists t :: Claims(answer, t, c.segs[0]) && c.title == t.title
    ensures (forall t :: t in answer ==> c.segs[0] !in t.members) ==> c.title == "(LLM 未归类·孤段)" && forall x :: x in c.segs ==> x == c.segs[0]
  {
    hide SortedBy, Flat, RowsOf, Gather, SortBy, LeastOf;
    var tasks := SortBy(answer, ByLeast);
    assert Holds(tasks, atoms, c);
    var x := c.segs[0];
    SortMembers(answer, ByLeast);
    var i := Owner(tasks, x);
    if u :| u in answer && x in u.members {
      forall v | v in answer && x in v.members
        ensures i < |tasks| && tasks[i] in answer && x in tasks[i].members && forall m: nat, n: nat :: LeastOf(tasks[i], m) && LeastOf(v, n) ==> m <= n
      {
        OwnerStartsFirst(answer, x, v);
      }
      assert Claims(answer, tasks[i], x);
    } else {
      NoOwner(answer, tasks, x);
      forall y | y in c.segs ensures y == x {
        SegsLabelled(tasks, atoms, cs, c, x, y);
      }
    }
  }

  lemma {:induction false} NoOwner(answer: seq<Task>, tasks: seq<Task>, x: nat)
    requires (forall t :: t in tasks <==> t in answer) && forall t :: t in answer ==> x !in t.members
    ensures Owner(tasks, x) == |tasks|
  {
    assert forall i :: 0 <= i < |tasks| ==> tasks[i] in answer;
  }

  lemma {:induction false} SegsLabelled(tasks: seq<Task>, atoms: seq<seq<Event>>, cs: seq<Cluster>, c: Cluster, x: nat, y: nat)
    requires Assembled(tasks, atoms, cs) && c in cs && x in c.segs && y in c.segs && Owner(tasks, x) == |tasks|
    ensures y == x
  {
    hide SortedBy, Flat, RowsOf, Gather, AllHold;
    var k :| 0 <= k < |cs| && cs[k] == c;
    assert Segs(cs)[k] == c.segs && c.segs in Segs(cs);
    SegsInRange(atoms, cs, c, x);
    SegsInRange(atoms, cs, c, y);
    assert Together(Segs(cs), x, y);
  }

  lemma {:induction false} SegsInRange(atoms: seq<seq<Event>>, cs: seq<Cluster>, c: Cluster, x: nat)
    requires multiset(Flat(Segs(cs))) == multiset(Numbers(|atoms|)) && c.segs in Segs(cs) && x in c.segs
    ensures 1 <= x <= |atoms|
  {
    hide Flat, Numbers;
    FlatMembers(Segs(cs), x);
    assert x in multiset(Flat(Segs(cs)));
    assert x in Numbers(|atoms|);
  }
}
