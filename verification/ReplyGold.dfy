/** Reply-chain gold components: the path-compressing disjoint-set structure and the numbering built on it. */
module ReplyGold {
  import opened Reachability
  import opened Forests

  /** Python's order on strings. */
  predicate Before(a: string, b: string) {
    b != [] && (a == [] || a[0] < b[0] || (a[0] == b[0] && Before(a[1..], b[1..])))
  }

  lemma {:induction false} BeforeTotal(a: string, b: string)
    ensures !(Before(a, b) && Before(b, a)) && !Before(a, a)
    ensures a == b || Before(a, b) || Before(b, a)
  {
    if a != [] && b != [] {
      BeforeTotal(a[1..], b[1..]);
      assert a == [a[0]] + a[1..] && b == [b[0]] + b[1..];
    }
    if a != [] {
      BeforeTotal(a[1..], a[1..]);
    }
  }

  lemma {:induction false} BeforeTransitive(a: string, b: string, c: string)
    requires Before(a, b) && Before(b, c)
    ensures Before(a, c)
  {
    if a != [] && a[0] == b[0] && b[0] == c[0] {
      BeforeTransitive(a[1..], b[1..], c[1..]);
    }
  }

  ghost predicate Ascending(s: seq<string>) {
    forall i, j :: 0 <= i < j < |s| ==> Before(s[i], s[j])
  }

  /** `sorted(...)` of a set of ids. */
  method SortedIds(ids: set<string>) returns (r: seq<string>)
    ensures Ascending(r)
    ensures forall x :: x in r <==> x in ids
  {
    r := [];
    var rest := ids;
    while rest != {}
      invariant rest <= ids && Ascending(r)
      invariant forall x :: x in r <==> x in ids - rest
      decreases rest
    {
      var x :| x in rest;
      var k := 0;
      while k < |r| && Before(r[k], x)
        invariant 0 <= k <= |r|
        invariant forall i :: 0 <= i < k ==> Before(r[i], x)
      {
        k := k + 1;
      }
      forall i | k <= i < |r| ensures Before(x, r[i]) {
        assert r[k] in r && r[k] != x;
        BeforeTotal(r[k], x);
        if i > k {
          BeforeTransitive(x, r[k], r[i]);
        }
      }
      rest := rest - {x};
      ghost var before := r;
      r := r[..k] + [x] + r[k..];
      assert forall y :: y in r <==> y == x || y in before by {
        assert before == before[..k] + before[k..];
      }
    }
  }

  lemma {:induction false} StillClosed(p: map<string, string>, x: string, y: string)
    requires p.Values <= p.Keys && (y in p || y == x)
    ensures p[x := y].Values <= p[x := y].Keys
  {
    var q := p[x := y];
    forall v | v in q.Values ensures v in q.Keys {
      assert v == y || v in p.Values;
    }
  }

  class Dsu {
    var p: map<string, string>
    ghost var rep: map<string, string>
    ghost var depth: map<string, nat>
    ghost var edges: set<(string, string)>

    ghost predicate Valid()
      reads this
    {
      && Represents(p, rep, depth)
      && Classes(rep, edges)
      && p.Values <= p.Keys
    }

    constructor ()
      ensures Valid() && p == map[] && edges == {} && rep == map[]
    {
      p, rep, depth, edges := map[], map[], map[], {};
      new;
      forall x ensures Connected(edges, x, Up(rep, x)) {
        Reflexive(edges, x);
      }
    }

    /** An id not seen before is its own parent. */
    method Enter(start: string)
      requires Valid()
      modifies this`p
      ensures Valid() && start in p && p.Keys == old(p.Keys) + {start}
    {
      if start !in p {
        ghost var q := p;
        StillClosed(p, start, start);
        p := p[start := start];
        assert forall x {:trigger Up(p, x)} :: Up(p, x) == Up(q, x);
      }
    }

    /** Two walks: one to the root, one that hangs the whole path directly under it. */
    method Find(start: string) returns (root: string)
      requires Valid()
      modifies this`p
      ensures Valid() && root == Up(rep, start) && root in p
      ensures p.Keys == old(p.Keys) + {start}
    {
      Enter(start);
      ghost var keys := p.Keys;
      root := start;
      while p[root] != root
        invariant root in p && Up(rep, root) == Up(rep, start)
        decreases Low(depth, root)
      {
        assert p[root] == Up(p, root) && p[root] in p.Values;
        root := p[root];
      }
      assert Up(p, root) == root;
      var x := start;
      while p[x] != root
        invariant p.Keys == keys && x in p && root in p && Valid()
        invariant Up(rep, x) == root && Up(p, root) == root
        decreases Low(depth, x)
      {
        assert p[x] == Up(p, x) && p[x] in p.Values;
        assert x != root;
        RepIsRoot(p, rep, depth, x);
        Shortcut(p, rep, depth, x, root);
        StillClosed(p, x, root);
        p, x := p[x := root], p[x];
      }
    }

    method Union(a: string, b: string)
      requires Valid()
      modifies this
      ensures Valid() && edges == old(edges) + {(a, b)}
      ensures p.Keys == old(p.Keys) + {a, b}
      ensures Merged(old(rep), rep, a, b)
    {
      var ra := Find(a);
      var rb := Find(b);
      if ra != rb {
        Attach(a, b, ra, rb);
      } else {
        ClassesInner(rep, edges, a, b);
        edges := edges + {(a, b)};
      }
    }

    method Attach(ghost a: string, ghost b: string, ra: string, rb: string)
      requires Valid() && ra in p && rb in p
      requires ra == Up(rep, a) && rb == Up(rep, b) && ra != rb
      modifies this
      ensures Valid() && edges == old(edges) + {(a, b)}
      ensures p.Keys == old(p.Keys) && Merged(old(rep), rep, a, b)
    {
      RepIsRoot(p, rep, depth, a);
      RepIsRoot(p, rep, depth, b);
      Hang(p, rep, depth, ra, rb);
      ClassesJoin(rep, edges, a, b);
      ghost var q := p;
      p := p[ra := rb];
      rep, depth := MergedRep(rep, ra, rb), MergedDepth(rep, depth, ra, rb);
      edges := edges + {(a, b)};
      assert p.Values <= p.Keys by {
        forall v | v in p.Values ensures v in p.Keys {
          assert v == rb || v in q.Values;
        }
      }
    }
  }

  /** The class of a has been renamed to the representative of b, and nothing else changed. */
  ghost predicate Merged(rep: map<string, string>, rep': map<string, string>, a: string, b: string) {
    forall x {:trigger Up(rep', x)} :: Up(rep', x) == if Up(rep, x) == Up(rep, a) then Up(rep, b) else Up(rep, x)
  }

  datatype Message = Message(id: string, parent: string)
  /** child, parent */
  type Reply = (string, string)

  function AllIds(events: seq<Message>): set<string> {
    set m | m in events && m.id != "" :: m.id
  }

  /** One reply per message, in the order of the messages, if its parent is among the given ids. */
  function RepliesIn(events: seq<Message>, ids: set<string>): seq<Reply> {
    if events == [] then [] else
      var n := |events| - 1;
      var e := events[n];
      RepliesIn(events[..n], ids) + (if e.parent != "" && e.id != "" && e.parent in ids then [(e.id, e.parent)] else [])
  }

  /** Replies whose parent is in the set; messages without an id or a parent give none. */
  method ExtractEdges(events: seq<Message>) returns (edges: seq<Reply>)
    ensures edges == RepliesIn(events, AllIds(events))
    ensures forall c, q :: (c, q) in edges <==>
              c != "" && q != "" && Message(c, q) in events && exists m :: m in events && m.id == q
  {
    var byId := AllIds(events);
    edges := [];
    for i := 0 to |events|
      invariant edges == RepliesIn(events[..i], byId)
      invariant forall c, q :: (c, q) in edges <==>
                  c != "" && q != "" && Message(c, q) in events[..i] && q in byId
    {
      var e := events[i];
      assert events[..i + 1] == events[..i] + [e] && events[..i + 1][..i] == events[..i];
      if e.parent != "" && e.id != "" && e.parent in byId {
        edges := edges + [(e.id, e.parent)];
      }
    }
    assert events[..|events|] == events;
  }

  ghost function EdgeSet(edges: seq<Reply>): set<Reply> {
    set e | e in edges
  }

  /** Every message id an edge mentions, in order, child before parent. */
  function Mentioned(edges: seq<Reply>): (ids: seq<string>)
    ensures forall e :: e in edges ==> e.0 in ids && e.1 in ids
  {
    if edges == [] then [] else [edges[0].0, edges[0].1] + Mentioned(edges[1..])
  }

  ghost predicate Dense(comp: map<string, nat>) {
    exists k: nat :: NumbersAre(comp, k)
  }

  ghost predicate NumbersAre(comp: map<string, nat>, k: nat) {
    forall c: nat {:trigger c in comp.Values} :: c in comp.Values <==> c < k
  }

  ghost predicate OneParentEach(edges: seq<Reply>) {
    forall i, j :: 0 <= i < j < |edges| ==> edges[i].0 != edges[j].0
  }

  ghost predicate Climbs(edges: seq<Reply>, p: seq<string>) {
    |p| > 0 && forall i :: 0 <= i < |p| - 1 ==> (p[i], p[i + 1]) in edges
  }

  ghost predicate IsChild(edges: seq<Reply>, x: string) {
    exists e :: e in edges && e.0 == x
  }

  /** Following replies upwards from x ends at t, which replies to nothing. */
  ghost predicate Opens(edges: seq<Reply>, t: string, x: string) {
    !IsChild(edges, t) && exists p :: Climbs(edges, p) && p[0] == x && p[|p| - 1] == t
  }

  ghost predicate ChildlessAreRoots(edges: seq<Reply>, rep: map<string, string>) {
    OneParentEach(edges) ==> forall x :: !IsChild(edges, x) ==> Up(rep, x) == x
  }

  lemma {:induction false} RootsAfterUnion(edges: seq<Reply>, e: Reply, rep: map<string, string>, rep': map<string, string>)
    requires ChildlessAreRoots(edges, rep) && Merged(rep, rep', e.0, e.1)
    ensures ChildlessAreRoots(edges + [e], rep')
  {
    var all := edges + [e];
    if OneParentEach(all) {
      forall i, j | 0 <= i < j < |edges| ensures edges[i].0 != edges[j].0 {
        assert all[i].0 != all[j].0;
      }
      forall f | f in edges ensures f.0 != e.0 {
        var i :| 0 <= i < |edges| && edges[i] == f;
        assert all[i].0 != all[|edges|].0;
      }
      forall x | !IsChild(all, x) ensures Up(rep', x) == x {
        assert e in all && forall f :: f in edges ==> f in all;
      }
    }
  }

  /** Every reply sorts after what it replies to. */
  ghost predicate RepliesLater(edges: seq<Reply>) {
    forall e :: e in edges ==> Before(e.1, e.0)
  }

  ghost predicate IsParent(edges: seq<Reply>, x: string) {
    exists e :: e in edges && e.1 == x
  }

  ghost predicate AtLeast(x: string, y: string) {
    x == y || Before(y, x)
  }

  /** Representatives are replied to; if replies sort after their parents, they are the least of their class. */
  ghost predicate RootsLeast(edges: seq<Reply>, rep: map<string, string>) {
    && (forall x {:trigger Up(rep, x)} :: Up(rep, x) == x || IsParent(edges, Up(rep, x)))
    && (OneParentEach(edges) && RepliesLater(edges) ==> forall x {:trigger Up(rep, x)} :: AtLeast(x, Up(rep, x)))
  }

  lemma {:induction false} LeastAfterUnion(edges: seq<Reply>, e: Reply, rep: map<string, string>, rep': map<string, string>)
    requires RootsLeast(edges, rep) && ChildlessAreRoots(edges, rep) && Merged(rep, rep', e.0, e.1)
    ensures RootsLeast(edges + [e], rep')
  {
    hide Before;
    var all := edges + [e];
    assert e in all && forall f :: f in edges ==> f in all;
    forall x ensures Up(rep', x) == x || IsParent(all, Up(rep', x)) {
      assert Up(rep, x) == x || IsParent(edges, Up(rep, x));
      assert Up(rep, e.1) == e.1 || IsParent(edges, Up(rep, e.1));
    }
    if OneParentEach(all) && RepliesLater(all) {
      NotChildYet(edges, e);
      forall x ensures AtLeast(x, Up(rep', x)) {
        assert AtLeast(x, Up(rep, x)) && AtLeast(e.1, Up(rep, e.1)) && Up(rep, e.0) == e.0;
        if Up(rep, x) == e.0 {
          LeastTrans(x, e.0, e.1, Up(rep, e.1));
        }
      }
    }
  }

  lemma {:induction false} NotChildYet(edges: seq<Reply>, e: Reply)
    requires OneParentEach(edges + [e]) && RepliesLater(edges + [e])
    ensures OneParentEach(edges) && RepliesLater(edges) && !IsChild(edges, e.0) && Before(e.1, e.0)
  {
    hide Before;
    var all := edges + [e];
    assert e in all && forall f :: f in edges ==> f in all;
    forall i, j | 0 <= i < j < |edges| ensures edges[i].0 != edges[j].0 {
      assert all[i].0 != all[j].0;
    }
    forall f | f in edges ensures f.0 != e.0 {
      var i :| 0 <= i < |edges| && edges[i] == f;
      assert all[i].0 != all[|edges|].0;
    }
  }

  lemma {:induction false} LeastTrans(x: string, c: string, q: string, r: string)
    requires AtLeast(x, c) && Before(q, c) && AtLeast(q, r)
    ensures AtLeast(x, r)
  {
    hide Before;
    if r != q {
      BeforeTransitive(r, q, c);
    }
    if x != c {
      BeforeTransitive(r, c, x);
    }
  }

  /** With one parent per message, the representative of a thread is its opening message. */
  lemma {:induction false} OpenerIsRoot(edges: seq<Reply>, rep: map<string, string>, p: seq<string>)
    requires ChildlessAreRoots(edges, rep) && Classes(rep, EdgeSet(edges)) && OneParentEach(edges)
    requires Climbs(edges, p) && !IsChild(edges, p[|p| - 1])
    ensures Up(rep, p[0]) == p[|p| - 1]
  {
    if |p| > 1 {
      var q := p[1..];
      assert (p[0], p[0 + 1]) in edges;
      forall i | 0 <= i < |q| - 1 ensures (q[i], q[i + 1]) in edges {
        assert (p[i + 1], p[i + 1 + 1]) in edges;
      }
      OpenerIsRoot(edges, rep, q);
      assert (p[0], q[0]) in EdgeSet(edges);
    }
  }

  lemma {:induction false} NoneUnited()
    ensures ChildlessAreRoots([], map[]) && RootsLeast([], map[])
  {
  }

  method UnionAll(edges: seq<Reply>) returns (dsu: Dsu)
    ensures fresh(dsu) && dsu.Valid() && dsu.edges == EdgeSet(edges)
    ensures ChildlessAreRoots(edges, dsu.rep) && RootsLeast(edges, dsu.rep)
  {
    hide Represents, Classes, ChildlessAreRoots, Merged, RootsLeast;
    NoneUnited();
    dsu := new Dsu();
    for i := 0 to |edges|
      invariant fresh(dsu) && dsu.Valid() && dsu.edges == EdgeSet(edges[..i])
      invariant ChildlessAreRoots(edges[..i], dsu.rep) && RootsLeast(edges[..i], dsu.rep)
    {
      assert edges[..i + 1] == edges[..i] + [edges[i]];
      ghost var rep := dsu.rep;
      dsu.Union(edges[i].0, edges[i].1);
      RootsAfterUnion(edges[..i], edges[i], rep, dsu.rep);
      LeastAfterUnion(edges[..i], edges[i], rep, dsu.rep);
      assert dsu.edges == EdgeSet(edges[..i + 1]);
    }
    assert edges[..|edges|] == edges;
  }

  method RootsOf(dsu: Dsu, ids: seq<string>) returns (found: set<string>)
    requires dsu.Valid()
    modifies dsu`p
    ensures dsu.Valid()
    ensures found == set x | x in ids :: Up(dsu.rep, x)
  {
    found := {};
    for i := 0 to |ids|
      invariant dsu.Valid()
      invariant found == set x | x in ids[..i] :: Up(dsu.rep, x)
    {
      var r := dsu.Find(ids[i]);
      found := found + {r};
      assert ids[..i + 1] == ids[..i] + [ids[i]];
    }
    assert ids[..|ids|] == ids;
  }

  method Number(dsu: Dsu, ids: seq<string>, cid: map<string, nat>) returns (comp: map<string, nat>)
    requires dsu.Valid()
    requires forall x :: x in ids ==> Up(dsu.rep, x) in cid
    modifies dsu`p
    ensures forall x :: x in comp <==> x in ids
    ensures forall x :: x in comp ==> comp[x] == cid[Up(dsu.rep, x)]
  {
    comp := map[];
    for i := 0 to |ids|
      invariant dsu.Valid()
      invariant forall x :: x in comp <==> x in ids[..i]
      invariant forall x :: x in comp ==> Up(dsu.rep, x) in cid && comp[x] == cid[Up(dsu.rep, x)]
    {
      assert ids[i] in ids;
      var r := dsu.Find(ids[i]);
      comp := comp[ids[i] := cid[r]];
      assert ids[..i + 1] == ids[..i] + [ids[i]];
    }
    assert ids[..|ids|] == ids;
  }

  /**
   * Same number exactly when connected by replies; the numbers in use are 0..k-1; when every message replies
   * to at most one other, components are numbered in the order of their opening messages; and when moreover
   * every reply sorts after what it replies to, in the order of their smallest ids.
   */
  method GoldComponents(edges: seq<Reply>) returns (comp: map<string, nat>)
    ensures forall x :: x in comp <==> x in Mentioned(edges)
    ensures forall x, y :: x in comp && y in comp ==> (comp[x] == comp[y] <==> Connected(EdgeSet(edges), x, y))
    ensures Dense(comp)
    ensures OneParentEach(edges) ==> forall x, y, s, t ::
              x in comp && y in comp && Opens(edges, s, x) && Opens(edges, t, y) ==>
                (comp[x] < comp[y] <==> Before(s, t))
    ensures OneParentEach(edges) && RepliesLater(edges) ==> BySmallest(comp)
  {
    hide Classes, Connected, ChildlessAreRoots, RootsLeast, Represents, Before, BySmallest;
    var dsu := UnionAll(edges);
    ghost var rep := dsu.rep;
    var found := RootsOf(dsu, Mentioned(edges));
    var roots := SortedIds(found);
    var cid: map<string, nat> := map[];
    for i := 0 to |roots|
      invariant forall r :: r in cid <==> r in roots[..i]
      invariant forall j :: 0 <= j < i ==> roots[j] in cid && cid[roots[j]] == j
    {
      forall j | 0 <= j < i ensures roots[j] != roots[i] {
        BeforeTotal(roots[j], roots[i]);
      }
      cid := cid[roots[i] := i];
      assert roots[..i + 1] == roots[..i] + [roots[i]];
    }
    assert roots[..|roots|] == roots;
    comp := Number(dsu, Mentioned(edges), cid);
    NumberingFacts(edges, Mentioned(edges), rep, roots, cid, comp);
    if OneParentEach(edges) && RepliesLater(edges) {
      SmallestNumbers(edges, rep, roots, cid, comp);
    }
  }

  /** s is the smallest id of the component of x. */
  ghost predicate Smallest(comp: map<string, nat>, s: string, x: string) {
    x in comp && s in comp && comp[s] == comp[x] && forall z :: z in comp && comp[z] == comp[x] ==> AtLeast(z, s)
  }

  ghost predicate BySmallest(comp: map<string, nat>) {
    forall x, y, s, t :: Smallest(comp, s, x) && Smallest(comp, t, y) ==> (comp[x] < comp[y] <==> Before(s, t))
  }

  lemma {:induction false} SmallestNumbers(edges: seq<Reply>, rep: map<string, string>, roots: seq<string>, cid: map<string, nat>, comp: map<string, nat>)
    requires Classes(rep, EdgeSet(edges)) && RootsLeast(edges, rep) && OneParentEach(edges) && RepliesLater(edges) && Ascending(roots)
    requires forall r :: r in cid <==> r in roots
    requires forall j :: 0 <= j < |roots| ==> roots[j] in cid && cid[roots[j]] == j
    requires forall x :: x in comp <==> x in Mentioned(edges)
    requires forall x :: x in comp ==> Up(rep, x) in cid && comp[x] == cid[Up(rep, x)]
    ensures BySmallest(comp)
  {
    hide Classes, RootsLeast, Before, AtLeast, RepliesLater, OneParentEach, Mentioned;
    forall x, y, s, t | Smallest(comp, s, x) && Smallest(comp, t, y) ensures comp[x] < comp[y] <==> Before(s, t) {
      SmallestIsRoot(edges, rep, roots, cid, comp, s, x);
      SmallestIsRoot(edges, rep, roots, cid, comp, t, y);
      SortedPositions(roots, cid[s], cid[t]);
    }
  }

  lemma {:induction false} SmallestIsRoot(edges: seq<Reply>, rep: map<string, string>, roots: seq<string>, cid: map<string, nat>,
                                          comp: map<string, nat>, s: string, x: string)
    requires Classes(rep, EdgeSet(edges)) && RootsLeast(edges, rep) && OneParentEach(edges) && RepliesLater(edges)
    requires forall r :: r in cid <==> r in roots
    requires forall j :: 0 <= j < |roots| ==> roots[j] in cid && cid[roots[j]] == j
    requires forall x :: x in comp <==> x in Mentioned(edges)
    requires forall x :: x in comp ==> Up(rep, x) in cid && comp[x] == cid[Up(rep, x)]
    requires Smallest(comp, s, x)
    ensures x in comp && s in cid && cid[s] < |roots| && roots[cid[s]] == s && comp[x] == cid[s]
  {
    hide Before, RepliesLater, OneParentEach;
    var r := Up(rep, s);
    var j :| 0 <= j < |roots| && roots[j] == r;
    assert r == s || IsParent(edges, r);
    assert r in comp;
    SameClass(rep, EdgeSet(edges), s, r);
    assert comp[r] == comp[s];
    assert AtLeast(r, s) && AtLeast(s, r);
    BeforeTotal(r, s);
  }


  lemma {:induction false} NumberingFacts(edges: seq<Reply>, ids: seq<string>, rep: map<string, string>, roots: seq<string>,
                       cid: map<string, nat>, comp: map<string, nat>)
    requires Classes(rep, EdgeSet(edges)) && ChildlessAreRoots(edges, rep) && Ascending(roots)
    requires forall r :: r in roots <==> r in set x | x in ids :: Up(rep, x)
    requires forall r :: r in cid <==> r in roots
    requires forall j :: 0 <= j < |roots| ==> roots[j] in cid && cid[roots[j]] == j
    requires forall x :: x in comp <==> x in ids
    requires forall x :: x in comp ==> Up(rep, x) in cid && comp[x] == cid[Up(rep, x)]
    ensures forall x, y :: x in comp && y in comp ==> (comp[x] == comp[y] <==> Connected(EdgeSet(edges), x, y))
    ensures Dense(comp)
    ensures OneParentEach(edges) ==> forall x, y, s, t ::
              x in comp && y in comp && Opens(edges, s, x) && Opens(edges, t, y) ==>
                (comp[x] < comp[y] <==> Before(s, t))
  {
    hide Classes, ChildlessAreRoots, Before;
    forall x, y | x in comp && y in comp ensures comp[x] == comp[y] <==> Connected(EdgeSet(edges), x, y) {
      SameClass(rep, EdgeSet(edges), x, y);
    }
    assert NumbersAre(comp, |roots|) by {
      forall c: nat ensures c in comp.Values <==> c < |roots| {
        NumberInUse(ids, rep, roots, cid, comp, c);
      }
    }
    if OneParentEach(edges) {
      forall x, y, s, t | x in comp && y in comp && Opens(edges, s, x) && Opens(edges, t, y)
        ensures comp[x] < comp[y] <==> Before(s, t)
      {
        OpenerFound(edges, rep, s, x);
        OpenerFound(edges, rep, t, y);
        SortedPositions(roots, cid[s], cid[t]);
      }
    }
  }

  lemma {:induction false} OpenerFound(edges: seq<Reply>, rep: map<string, string>, t: string, x: string)
    requires ChildlessAreRoots(edges, rep) && Classes(rep, EdgeSet(edges)) && OneParentEach(edges) && Opens(edges, t, x)
    ensures Up(rep, x) == t
  {
    var p :| Climbs(edges, p) && p[0] == x && p[|p| - 1] == t;
    OpenerIsRoot(edges, rep, p);
  }

  lemma {:induction false} SortedPositions(s: seq<string>, i: nat, j: nat)
    requires Ascending(s) && i < |s| && j < |s|
    ensures Before(s[i], s[j]) <==> i < j
  {
    BeforeTotal(s[i], s[j]);
  }

  lemma {:induction false} NumberInUse(ids: seq<string>, rep: map<string, string>, roots: seq<string>,
                    cid: map<string, nat>, comp: map<string, nat>, c: nat)
    requires forall r :: r in roots <==> r in set x | x in ids :: Up(rep, x)
    requires forall r :: r in cid <==> r in roots
    requires forall j :: 0 <= j < |roots| ==> roots[j] in cid && cid[roots[j]] == j
    requires forall x :: x in comp <==> x in ids
    requires forall x :: x in comp ==> Up(rep, x) in cid && comp[x] == cid[Up(rep, x)]
    ensures c in comp.Values <==> c < |roots|
  {
    if c < |roots| {
      assert roots[c] in roots;
      var y :| y in ids && Up(rep, y) == roots[c];
      assert y in comp && comp[y] == c;
    }
    if c in comp.Values {
      var x :| x in comp && comp[x] == c;
      var j :| 0 <= j < |roots| && roots[j] == Up(rep, x);
    }
  }

  lemma {:induction false} TwoThreads(edges: seq<Reply>)
    requires edges == [("a", "z"), ("b", "c")]
    ensures OneParentEach(edges) && Opens(edges, "z", "a") && Opens(edges, "c", "b")
    ensures Connected(EdgeSet(edges), "a", "z") && Connected(EdgeSet(edges), "b", "c")
  {
    hide Connected;
    assert edges[0] in edges && edges[1] in edges;
    assert Climbs(edges, ["a", "z"]) && ["a", "z"][1] == "z";
    assert Climbs(edges, ["b", "c"]) && ["b", "c"][1] == "c";
    Step(EdgeSet(edges), "a", "z");
    Step(EdgeSet(edges), "b", "c");
  }

  /** The numbers do not follow the smallest id of each component, although "a" is the smallest id here. */
  method SmallestIdDoesNotNumber() returns (comp: map<string, nat>)
    ensures "a" in comp && "z" in comp && "b" in comp && "c" in comp
    ensures comp["a"] == comp["z"] > comp["b"] == comp["c"]
  {
    hide Connected, Dense, Opens, OneParentEach;
    var edges := [("a", "z"), ("b", "c")];
    assert edges[0] in edges && edges[1] in edges;
    comp := GoldComponents(edges);
    TwoThreads(edges);
  }
}
