/** The split audit: a second look that may break a task of several atoms into groups. */
module SplitGuard {
  import opened Events
  import opened Lists
  import opened Sorting
  import opened Clusters

  /** None stands for a failed or unreadable audit. */
  datatype Option<T> = None | Some(value: T)
  type Audit = Option<seq<seq<nat>>>

  /** `sorted(set(xs))`. */
  function Ids(xs: seq<nat>): (r: seq<nat>)
    ensures forall x :: x in r <==> x in xs
    ensures forall i, j :: 0 <= i < j < |r| ==> r[i] < r[j]
  {
    if xs == [] then [] else
      var rest := Ids(xs[1..]);
      if xs[0] in xs[1..] then rest else Place(xs[0], rest)
  }

  function Place(x: nat, s: seq<nat>): (r: seq<nat>)
    requires x !in s && forall i, j :: 0 <= i < j < |s| ==> s[i] < s[j]
    ensures forall y :: y in r <==> y == x || y in s
    ensures forall i, j :: 0 <= i < j < |r| ==> r[i] < r[j]
  {
    if s == [] || x < s[0] then [x] + s else
      var t := Place(x, s[1..]);
      AllAbove(x, s, t);
      [s[0]] + t
  }

  lemma {:induction false} AllAbove(x: nat, s: seq<nat>, t: seq<nat>)
    requires s != [] && x !in s && x >= s[0] && (forall i, j :: 0 <= i < j < |s| ==> s[i] < s[j])
    requires forall y :: y in t <==> y == x || y in s[1..]
    ensures forall k :: 0 <= k < |t| ==> s[0] < t[k]
  {
    forall k | 0 <= k < |t| ensures s[0] < t[k] {
      assert t[k] in t;
      if t[k] != x {
        var i :| 0 <= i < |s[1..]| && s[1..][i] == t[k];
        assert s[i + 1] == t[k];
      } else {
        assert s[0] in s;
      }
    }
  }

  ghost predicate Separate(groups: seq<seq<nat>>) {
    forall i, j, x :: 0 <= i < j < |groups| && x in groups[i] ==> x !in groups[j]
  }

  /** The groups part the ids: every id in exactly one group, nothing else, no empty group. */
  ghost predicate Parts(ids: seq<nat>, groups: seq<seq<nat>>) {
    && Separate(groups)
    && (forall g, x :: g in groups && x in g ==> x in ids)
    && (forall x :: x in ids ==> exists g :: g in groups && x in g)
    && (forall g :: g in groups ==> g != [])
  }

  function Kept(g: seq<nat>, ids: seq<nat>, seen: set<nat>): (r: seq<nat>)
    ensures forall x :: x in r <==> x in g && x in ids && x !in seen
  {
    if g == [] then [] else (if g[0] in ids && g[0] !in seen then [g[0]] else []) + Kept(g[1..], ids, seen)
  }

  /** Everything placed so far. */
  function Placed(out: seq<seq<nat>>): (r: set<nat>)
    ensures forall x :: x in r <==> exists g :: g in out && x in g
  {
    set g, x | g in out && x in g :: x
  }

  /** What is kept of the first n groups: each id where it is named first. */
  function Dealt(ids: seq<nat>, groups: seq<seq<nat>>, n: nat): seq<seq<nat>>
    requires n <= |groups|
  {
    if n == 0 then [] else
      var before := Dealt(ids, groups, n - 1);
      var ints := Kept(groups[n - 1], ids, Placed(before));
      if ints == [] then before else before + [ints]
  }

  function Audited(ids: seq<nat>, audit: Audit): seq<seq<nat>> {
    if |ids| < 2 || audit.None? then [ids] else
      var out := Dealt(ids, audit.value, |audit.value|);
      var missing := Kept(ids, ids, Placed(out));
      var all := if missing == [] then out else out + [missing];
      if all == [] then [ids] else all
  }

  /** Asking about two or more ids looks each of them up; one beyond the last atom raises. */
  ghost predicate Raises(ids: seq<nat>, atoms: nat) {
    |ids| >= 2 && exists x :: x in ids && x > atoms
  }

  /** None stands for the lookup having raised. */
  method SplitAudit(atoms: nat, ids: seq<nat>, audit: Audit) returns (r: Option<seq<seq<nat>>>)
    ensures r.None? <==> Raises(ids, atoms)
    ensures r.Some? ==> r.value == Audited(ids, audit) && (|ids| >= 2 ==> Parts(ids, r.value))
  {
    hide Placed, Kept;
    SoleGroup(ids);
    if |ids| < 2 {
      return Some([ids]);
    }
    for k := 0 to |ids|
      invariant forall x :: x in ids[..k] ==> x <= atoms
    {
      assert ids[..k + 1] == ids[..k] + [ids[k]];
      if ids[k] > atoms {
        assert ids[k] in ids;
        return None;
      }
    }
    assert ids[..|ids|] == ids;
    if audit.None? {
      return Some([ids]);
    }
    var out: seq<seq<nat>>, seen: set<nat> := [], {};
    var groups := audit.value;
    NonePlaced();
    for k := 0 to |groups|
      invariant Partway(ids, out, seen) && out == Dealt(ids, groups, k) && seen == Placed(out)
    {
      var ints := Kept(groups[k], ids, seen);
      if ints != [] {
        AddGroup(ids, out, seen, ints);
        out := out + [ints];
        seen := seen + Members(ints);
      }
    }
    var missing := Kept(ids, ids, seen);
    if missing != [] {
      AddGroup(ids, out, seen, missing);
      out := out + [missing];
      seen := seen + Members(missing);
    }
    if out == [] {
      out := [ids];
    }
    r := Some(out);
  }

  lemma {:induction false} NonePlaced()
    ensures Placed([]) == {}
  {
  }

  ghost predicate Partway(ids: seq<nat>, out: seq<seq<nat>>, seen: set<nat>) {
    && Separate(out)
    && (forall g :: g in out ==> g != [])
    && (forall g, x :: g in out && x in g ==> x in ids && x in seen)
    && (forall x :: x in seen ==> exists g :: g in out && x in g)
  }

  lemma {:induction false} AddGroup(ids: seq<nat>, out: seq<seq<nat>>, seen: set<nat>, ints: seq<nat>)
    requires Partway(ids, out, seen) && ints != []
    requires forall x :: x in ints ==> x in ids && x !in seen
    ensures Partway(ids, out + [ints], seen + Members(ints))
    ensures seen == Placed(out) ==> seen + Members(ints) == Placed(out + [ints])
  {
    var out' := out + [ints];
    assert ints in out' && forall g :: g in out' ==> g == ints || g in out;
    forall x | x in seen + Members(ints) ensures exists g :: g in out' && x in g {
      if x in seen {
        var g :| g in out && x in g;
        assert g in out';
      }
    }
    forall i, j, x | 0 <= i < j < |out'| && x in out'[i] ensures x !in out'[j] {
      if j == |out| {
        assert out[i] in out;
      }
    }
  }

  lemma {:induction false} SoleGroup(ids: seq<nat>)
    ensures ids != [] ==> Parts(ids, [ids])
  {
    assert ids in [ids];
  }

  /** Group k is the first that names x. */
  ghost predicate FirstNamed(groups: seq<seq<nat>>, x: nat, k: nat) {
    k < |groups| && x in groups[k] && forall j :: 0 <= j < k ==> x !in groups[j]
  }

  ghost predicate Named(groups: seq<seq<nat>>, n: nat, x: nat) {
    exists k: nat :: k < n && k < |groups| && x in groups[k]
  }

  ghost predicate NamedTogether(groups: seq<seq<nat>>, n: nat, x: nat, y: nat) {
    exists k: nat :: k < n && FirstNamed(groups, x, k) && FirstNamed(groups, y, k)
  }

  lemma {:induction false} DealtIs(ids: seq<nat>, groups: seq<seq<nat>>, n: nat, x: nat, y: nat)
    requires n <= |groups| && x in ids && y in ids
    ensures x in Placed(Dealt(ids, groups, n)) <==> Named(groups, n, x)
    ensures y in Placed(Dealt(ids, groups, n)) <==> Named(groups, n, y)
    ensures Together(Dealt(ids, groups, n), x, y) <==> NamedTogether(groups, n, x, y)
  {
    hide Placed, Kept, Together, FirstNamed, Named;
    if n == 0 {
      NonePlaced();
      NoneNamed(groups, x, y);
    } else {
      DealtIs(ids, groups, n - 1, x, y);
      var before := Dealt(ids, groups, n - 1);
      var ints := Kept(groups[n - 1], ids, Placed(before));
      NamedNext(groups, n - 1, x);
      NamedNext(groups, n - 1, y);
      TogetherNext(before, ints, x, y);
      NamedTogetherNext(groups, n - 1, x, y);
      PlacedNext(before, ints, x);
      PlacedNext(before, ints, y);
    }
  }

  lemma {:induction false} NoneNamed(groups: seq<seq<nat>>, x: nat, y: nat)
    ensures !Named(groups, 0, x) && !Named(groups, 0, y) && !Together([], x, y)
  {
  }

  lemma {:induction false} NamedNext(groups: seq<seq<nat>>, n: nat, x: nat)
    requires n < |groups|
    ensures Named(groups, n + 1, x) <==> Named(groups, n, x) || x in groups[n]
    ensures FirstNamed(groups, x, n) <==> x in groups[n] && !Named(groups, n, x)
  {
    if k: nat :| k < n && x in groups[k] {
      assert Named(groups, n + 1, x);
    }
  }

  lemma {:induction false} NamedTogetherNext(groups: seq<seq<nat>>, n: nat, x: nat, y: nat)
    requires n < |groups|
    ensures NamedTogether(groups, n + 1, x, y) <==> NamedTogether(groups, n, x, y) || (FirstNamed(groups, x, n) && FirstNamed(groups, y, n))
  {
    hide FirstNamed;
    if k: nat :| k < n && FirstNamed(groups, x, k) && FirstNamed(groups, y, k) {
      assert k < n + 1;
    }
  }

  lemma {:induction false} TogetherNext(out: seq<seq<nat>>, g: seq<nat>, x: nat, y: nat)
    ensures Together(out + [g], x, y) <==> Together(out, x, y) || (x in g && y in g)
  {
    var out' := out + [g];
    assert g in out' && forall h :: h in out' <==> h == g || h in out;
  }

  lemma {:induction false} PlacedNext(out: seq<seq<nat>>, g: seq<nat>, x: nat)
    ensures x in Placed(out + [g]) <==> x in Placed(out) || x in g
  {
    var out' := out + [g];
    assert g in out' && forall h :: h in out' <==> h == g || h in out;
  }

  /** Ids are grouped as the audit says, each by the first group that names it; those it does not name stay together. */
  lemma {:induction false} AuditFollowed(ids: seq<nat>, groups: seq<seq<nat>>, x: nat, y: nat)
    requires |ids| >= 2 && x in ids && y in ids
    ensures Together(Audited(ids, Some(groups)), x, y) <==>
              NamedTogether(groups, |groups|, x, y) || (!Named(groups, |groups|, x) && !Named(groups, |groups|, y))
  {
    hide Placed, Kept, Together, Named, Dealt, NamedTogether;
    var n := |groups|;
    var out := Dealt(ids, groups, n);
    DealtIs(ids, groups, n, x, y);
    var missing := Kept(ids, ids, Placed(out));
    TogetherNext(out, missing, x, y);
    if missing == [] {
      HasOne(ids, out, x);
    }
    NoneNamed(groups, x, y);
  }

  lemma {:induction false} HasOne(ids: seq<nat>, out: seq<seq<nat>>, x: nat)
    requires x in ids && Kept(ids, ids, Placed(out)) == []
    ensures out != [] && x in Placed(out)
  {
    hide Kept;
    assert x !in Kept(ids, ids, Placed(out));
  }

  /** Every new task is part of an old one and keeps its title, and no number is lost. */
  ghost predicate Refines(tasks: seq<Task>, split: seq<Task>) {
    && (forall s :: s in split ==> exists t :: t in tasks && PartOf(s, t))
    && (forall t, x :: t in tasks && x in t.members ==> exists s :: s in split && x in s.members)
  }

  ghost predicate PartOf(s: Task, t: Task) {
    s.title == t.title && forall x :: x in s.members ==> x in t.members
  }

  /** Tasks that share an atom are the same task. */
  ghost predicate Apart(tasks: seq<Task>) {
    forall s, t, x :: s in tasks && t in tasks && x in s.members && x in t.members ==> s == t
  }

  function SplitOf(t: Task, audit: Audit): seq<Task> {
    var ids := Ids(t.members);
    var groups := Audited(ids, audit);
    if |ids| < 2 || |groups| <= 1 then [t] else Map((g: seq<nat>) => Task(t.title, g), groups)
  }

  method SplitTask(atoms: nat, t: Task, audit: Audit) returns (r: Option<seq<Task>>)
    ensures r.None? <==> Raises(Ids(t.members), atoms)
    ensures r.Some? ==> r.value == SplitOf(t, audit) && Refines([t], r.value) && Apart(r.value)
  {
    hide Parts, Refines, Apart, Map, Audited;
    WholeTask(t);
    var ids := Ids(t.members);
    if |ids| < 2 {
      return Some([t]);
    }
    var groups := SplitAudit(atoms, ids, audit);
    if groups.None? {
      return None;
    }
    if |groups.value| <= 1 {
      return Some([t]);
    }
    var parts := Map((g: seq<nat>) => Task(t.title, g), groups.value);
    PartsRefine(t, ids, groups.value, parts);
    r := Some(parts);
  }

  lemma {:induction false} WholeTask(t: Task)
    ensures Refines([t], [t]) && Apart([t])
  {
    hide PartOf;
    assert t in [t] && PartOf(t, t) by { SelfPart([t]); }
    forall s | s in [t] ensures s == t && PartOf(s, t) {
    }
    forall u, x | u in [t] && x in u.members ensures exists s :: s in [t] && x in s.members {
      assert t in [t] && x in t.members;
    }
  }

  lemma {:induction false} PartsRefine(t: Task, ids: seq<nat>, groups: seq<seq<nat>>, parts: seq<Task>)
    requires Parts(ids, groups) && forall x :: x in ids <==> x in t.members
    requires |parts| == |groups| && forall k :: 0 <= k < |groups| ==> parts[k] == Task(t.title, groups[k])
    ensures Refines([t], parts) && Apart(parts)
  {
    forall s | s in parts ensures PartOf(s, t) {
      var k :| 0 <= k < |parts| && parts[k] == s;
      assert groups[k] in groups;
    }
    assert t in [t];
    forall x | x in t.members ensures exists s :: s in parts && x in s.members {
      var g :| g in groups && x in g;
      var k :| 0 <= k < |groups| && groups[k] == g;
      assert parts[k] in parts;
    }
    PartsApart(groups, parts);
  }

  lemma {:induction false} PartsApart(groups: seq<seq<nat>>, parts: seq<Task>)
    requires Separate(groups)
    requires |parts| == |groups| && forall k :: 0 <= k < |groups| ==> parts[k].members == groups[k]
    ensures Apart(parts)
  {
    forall s, u, x | s in parts && u in parts && x in s.members && x in u.members ensures s == u {
      var k :| 0 <= k < |parts| && parts[k] == s;
      var m :| 0 <= m < |parts| && parts[m] == u;
      assert k == m;
    }
  }

  lemma {:induction false} RefinesNext(tasks: seq<Task>, split: seq<Task>, t: Task, parts: seq<Task>)
    requires Refines(tasks, split) && Refines([t], parts)
    ensures Refines(tasks + [t], split + parts)
  {
    hide PartOf;
    var tasks', split' := tasks + [t], split + parts;
    forall s | s in split' ensures exists u :: u in tasks' && PartOf(s, u) {
      if s in split {
        var u :| u in tasks && PartOf(s, u);
        assert u in tasks';
      } else {
        var u :| u in [t] && PartOf(s, u);
        assert u in tasks';
      }
    }
    forall u, x | u in tasks' && x in u.members ensures exists s :: s in split' && x in s.members {
      if u in tasks {
        var s :| s in split && x in s.members;
        assert s in split';
      } else {
        assert u in [t];
        var s :| s in parts && x in s.members;
        assert s in split';
      }
    }
  }

  function SplitAll(tasks: seq<Task>, audits: seq<Audit>, n: nat): seq<Task>
    requires n <= |tasks| == |audits|
  {
    if n == 0 then [] else SplitAll(tasks, audits, n - 1) + SplitOf(tasks[n - 1], audits[n - 1])
  }

  method ApplySplitGuard(atoms: nat, tasks: seq<Task>, audits: seq<Audit>, enabled: bool) returns (r: Option<seq<Task>>)
    requires |audits| == |tasks|
    ensures r.None? <==> enabled && exists t :: t in tasks && Raises(Ids(t.members), atoms)
    ensures r.Some? ==> r.value == (if enabled then SplitAll(tasks, audits, |tasks|) else tasks) && Refines(tasks, r.value)
  {
    hide PartOf, Raises, SplitOf, Apart;
    if !enabled {
      assert forall t :: t in tasks ==> PartOf(t, t) by { SelfPart(tasks); }
      return Some(tasks);
    }
    var split: seq<Task> := [];
    for k := 0 to |tasks|
      invariant split == SplitAll(tasks, audits, k) && Refines(tasks[..k], split)
      invariant forall t :: t in tasks[..k] ==> !Raises(Ids(t.members), atoms)
    {
      var parts := SplitTask(atoms, tasks[k], audits[k]);
      if parts.None? {
        return None;
      }
      RefinesNext(tasks[..k], split, tasks[k], parts.value);
      assert tasks[..k + 1] == tasks[..k] + [tasks[k]];
      split := split + parts.value;
    }
    assert tasks[..|tasks|] == tasks;
    r := Some(split);
  }

  lemma {:induction false} SelfPart(tasks: seq<Task>)
    ensures forall t :: t in tasks ==> PartOf(t, t)
  {
  }

  // ---- splitting first refines the clustering ---------------------------------------------------

  /** With tasks apart, atoms are labelled alike exactly when some task has both. */
  lemma {:induction false} OneTask(tasks: seq<Task>, t: Task, x: nat, y: nat)
    requires Apart(tasks) && t in tasks && x in t.members && y in t.members
    ensures Label(tasks, x) == Label(tasks, y)
  {
    var k :| 0 <= k < |tasks| && tasks[k] == t;
    assert tasks[Owner(tasks, x)] == t == tasks[Owner(tasks, y)];
  }

  /**
   * If the tasks share no atom, clustering the split answer refines clustering the unsplit one:
   * atoms end up together after the split only if they were together before.
   */
  lemma {:induction false} SplitRefines(tasks: seq<Task>, split: seq<Task>, atoms: seq<seq<Event>>, cs: seq<Cluster>, cs': seq<Cluster>)
    requires Apart(tasks) && Refines(tasks, split)
    requires Assembled(SortBy(tasks, ByLeast), atoms, cs) && Assembled(SortBy(split, ByLeast), atoms, cs')
    ensures forall x: nat, y: nat :: 1 <= x <= |atoms| && 1 <= y <= |atoms| && Together(Segs(cs'), x, y) ==> Together(Segs(cs), x, y)
  {
    hide AllHold, SortBy, SortedBy, Flat, Segs, RowsOf, Together, Numbers, Label, Refines, Apart;
    forall x: nat, y: nat | 1 <= x <= |atoms| && 1 <= y <= |atoms| && Together(Segs(cs'), x, y)
      ensures Together(Segs(cs), x, y)
    {
      LabelsRefine(tasks, split, x, y);
    }
  }

  lemma {:induction false} LabelsRefine(tasks: seq<Task>, split: seq<Task>, x: nat, y: nat)
    requires Apart(tasks) && Refines(tasks, split)
    requires Label(SortBy(split, ByLeast), x) == Label(SortBy(split, ByLeast), y)
    ensures Label(SortBy(tasks, ByLeast), x) == Label(SortBy(tasks, ByLeast), y)
  {
    hide SortBy;
    var ts, ss := SortBy(tasks, ByLeast), SortBy(split, ByLeast);
    SortMembers(tasks, ByLeast);
    SortMembers(split, ByLeast);
    if x != y {
      var s := ss[Owner(ss, x)];
      assert x in s.members && y in s.members && s in ss;
      var t :| t in tasks && PartOf(s, t);
      OneTask(ts, t, x, y);
    }
  }

  lemma {:induction false} SortPair(b: Task, a: Task)
    requires ByLeast(a) < ByLeast(b)
    ensures SortBy([b, a], ByLeast) == [a, b]
  {
    assert [a][1..] == [] && SortBy([a], ByLeast) == [a];
    assert [b, a][1..] == [a] && Insert(b, [], ByLeast) == [b];
  }

  /**
   * Without that condition it fails: splitting {1,2,3} as the audit asks hands atom 2 to the other task that
   * claimed it. No number is beyond the fourth atom, so nothing raises.
   */
  lemma {:induction false} SplitNeedsApart()
    ensures var tasks := [Task("b", [2, 4]), Task("a", [1, 2, 3])];
            var split := SplitAll(tasks, [None, Some([[1], [2, 3]])], 2);
            && (forall t :: t in tasks ==> !Raises(Ids(t.members), 4))
            && Label(SortBy(split, ByLeast), 2) == Label(SortBy(split, ByLeast), 4)
            && Label(SortBy(tasks, ByLeast), 2) != Label(SortBy(tasks, ByLeast), 4)
  {
    hide SortBy, Label, SplitAll, Ids;
    var b, a, a1, a2 := Task("b", [2, 4]), Task("a", [1, 2, 3]), Task("a", [1]), Task("a", [2, 3]);
    TheSplit(b, a, a1, a2);
    TheLabels(b, a, a1, a2);
  }

  lemma {:induction false} TheLabels(b: Task, a: Task, a1: Task, a2: Task)
    requires b.members == [2, 4] && a.members == [1, 2, 3] && a1.members == [1] && a2.members == [2, 3]
    ensures Label(SortBy([b, a1, a2], ByLeast), 2) == Label(SortBy([b, a1, a2], ByLeast), 4)
    ensures Label(SortBy([b, a], ByLeast), 2) != Label(SortBy([b, a], ByLeast), 4)
  {
    hide SortBy, Label;
    Leasts();
    SortPair(b, a);
    SortTriple(b, a1, a2);
    LabelSecond(a, b, [], 2, 4);
    LabelSecond(a1, b, [a2], 2, 4);
    assert [a, b] + [] == [a, b] && [a1, b] + [a2] == [a1, b, a2];
  }

  lemma {:induction false} TheSplit(b: Task, a: Task, a1: Task, a2: Task)
    requires b == Task("b", [2, 4]) && a == Task("a", [1, 2, 3]) && a1 == Task("a", [1]) && a2 == Task("a", [2, 3])
    ensures SplitAll([b, a], [None, Some([[1], [2, 3]])], 2) == [b, a1, a2]
  {
    hide Ids, Dealt, Kept, Placed;
    var audits: seq<Audit> := [None, Some([[1], [2, 3]])];
    var tasks := [b, a];
    IdsSorted([1, 2, 3]);
    TheGroups();
    assert SplitOf(b, None) == [b];
    assert SplitOf(a, audits[1]) == [a1, a2];
    assert SplitAll(tasks, audits, 0) == [] && SplitAll(tasks, audits, 1) == [] + [b];
  }

  lemma {:induction false} IdsSorted(xs: seq<nat>)
    requires forall i, j :: 0 <= i < j < |xs| ==> xs[i] < xs[j]
    ensures Ids(xs) == xs
  {
    if xs != [] {
      IdsSorted(xs[1..]);
      assert xs[0] !in xs[1..];
    }
  }

  lemma {:induction false} TheGroups()
    ensures Audited([1, 2, 3], Some([[1], [2, 3]])) == [[1], [2, 3]]
  {
    hide Placed, Kept;
    var ids, g1, g2 := [1, 2, 3], [1], [2, 3];
    var groups := [g1, g2];
    NonePlaced();
    KeptWhole(g1, ids, {});
    assert Dealt(ids, groups, 0) == [] && Dealt(ids, groups, 1) == [] + [g1];
    OnePlaced(g1);
    KeptWhole(g2, ids, Members(g1));
    assert [] + [g1] == [g1] && groups[1] == g2;
    assert Dealt(ids, groups, 2) == [g1] + [g2] == groups;
    assert g1 in groups && g2 in groups;
    KeptNone(ids, groups);
  }

  lemma {:induction false} KeptWhole(g: seq<nat>, ids: seq<nat>, seen: set<nat>)
    requires forall x :: x in g ==> x in ids && x !in seen
    ensures Kept(g, ids, seen) == g
  {
    if g != [] {
      KeptWhole(g[1..], ids, seen);
    }
  }

  lemma {:induction false} HasFirst(xs: seq<nat>)
    ensures xs == [] || xs[0] in xs
  {
  }

  lemma {:induction false} KeptNone(ids: seq<nat>, groups: seq<seq<nat>>)
    requires forall x :: x in ids ==> exists g :: g in groups && x in g
    ensures Kept(ids, ids, Placed(groups)) == []
  {
    hide Kept;
    HasFirst(Kept(ids, ids, Placed(groups)));
  }

  lemma {:induction false} OnePlaced(g: seq<nat>)
    ensures Placed([g]) == Members(g)
  {
    assert g in [g];
  }

  lemma {:induction false} Leasts()
    ensures Least([2, 4]) == 2 && Least([1, 2, 3]) == 1 && Least([1]) == 1 && Least([2, 3]) == 2
  {
    assert [2, 4][1..] == [4] && [1, 2, 3][1..] == [2, 3] && [2, 3][1..] == [3];
    assert Least([2, 3]) == 2;
  }

  lemma {:induction false} SortTriple(b: Task, a: Task, c: Task)
    requires ByLeast(a) < ByLeast(b) == ByLeast(c)
    ensures SortBy([b, a, c], ByLeast) == [a, b, c]
  {
    assert [c][1..] == [] && SortBy([c], ByLeast) == [c];
    assert [a, c][1..] == [c] && SortBy([a, c], ByLeast) == [a, c];
    assert [b, a, c][1..] == [a, c] && Insert(b, [c], ByLeast) == [b, c];
  }

  /** Atoms x and y of the second task are labelled alike exactly when the first task does not take x. */
  lemma {:induction false} LabelSecond(s: Task, t: Task, rest: seq<Task>, x: nat, y: nat)
    requires x in t.members && y in t.members && y !in s.members
    ensures Label([s, t] + rest, x) == Label([s, t] + rest, y) <==> x !in s.members
  {
    var ts := [s, t] + rest;
    assert ts[0] == s && ts[1] == t;
    assert Owner(ts, y) == 1;
    assert Owner(ts, x) == if x in s.members then 0 else 1;
  }
}
