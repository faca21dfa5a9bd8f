/** Undirected reachability, the reference notion both union-find structures are measured against. */
module Reachability {

  ghost predicate Linked<T>(es: set<(T, T)>, x: T, y: T) {
    x == y || (x, y) in es || (y, x) in es
  }

  ghost predicate Path<T>(es: set<(T, T)>, p: seq<T>) {
    |p| > 0 && forall i :: 0 <= i < |p| - 1 ==> Linked(es, p[i], p[i + 1])
  }

  ghost predicate Connected<T(!new)>(es: set<(T, T)>, x: T, y: T) {
    exists p :: Path(es, p) && p[0] == x && p[|p| - 1] == y
  }

  lemma {:induction false} Reflexive<T(!new)>(es: set<(T, T)>, x: T)
    ensures Connected(es, x, x)
  {
    assert Path(es, [x]);
  }

  lemma {:induction false} Step<T(!new)>(es: set<(T, T)>, x: T, y: T)
    requires Linked(es, x, y)
    ensures Connected(es, x, y)
  {
    var p := [x, y];
    assert Path(es, p);
    assert p[0] == x && p[|p| - 1] == y;
  }

  lemma {:induction false} Symmetric<T(!new)>(es: set<(T, T)>, x: T, y: T)
    requires Connected(es, x, y)
    ensures Connected(es, y, x)
  {
    var p :| Path(es, p) && p[0] == x && p[|p| - 1] == y;
    var q := seq(|p|, i requires 0 <= i < |p| => p[|p| - 1 - i]);
    forall i | 0 <= i < |q| - 1 ensures Linked(es, q[i], q[i + 1]) {
      assert Linked(es, p[|p| - 2 - i], p[|p| - 2 - i + 1]);
    }
    assert Path(es, q) && q[0] == y && q[|q| - 1] == x;
  }

  lemma {:induction false} Transitive<T(!new)>(es: set<(T, T)>, x: T, y: T, z: T)
    requires Connected(es, x, y) && Connected(es, y, z)
    ensures Connected(es, x, z)
  {
    var p :| Path(es, p) && p[0] == x && p[|p| - 1] == y;
    var q :| Path(es, q) && q[0] == y && q[|q| - 1] == z;
    var r := p + q;
    forall i | 0 <= i < |r| - 1 ensures Linked(es, r[i], r[i + 1]) {
      if i < |p| - 1 {
        assert Linked(es, p[i], p[i + 1]);
      } else if i >= |p| {
        assert Linked(es, q[i - |p|], q[i - |p| + 1]);
      }
    }
    assert Path(es, r) && r[0] == x && r[|r| - 1] == z;
  }

  lemma {:induction false} Monotone<T(!new)>(es: set<(T, T)>, fs: set<(T, T)>, x: T, y: T)
    requires es <= fs && Connected(es, x, y)
    ensures Connected(fs, x, y)
  {
    var p :| Path(es, p) && p[0] == x && p[|p| - 1] == y;
    forall i | 0 <= i < |p| - 1 ensures Linked(fs, p[i], p[i + 1]) {
      assert Linked(es, p[i], p[i + 1]);
    }
    assert Path(fs, p);
  }

  /** Looks x up in a table whose absent keys stand for themselves. */
  function Up<T>(m: map<T, T>, x: T): T {
    if x in m then m[x] else x
  }

  /** A labelling constant along every edge is constant along every path. */
  lemma {:induction false} LabelConstant<T(!new)>(es: set<(T, T)>, rep: map<T, T>, p: seq<T>)
    requires Path(es, p)
    requires forall e :: e in es ==> Up(rep, e.0) == Up(rep, e.1)
    ensures Up(rep, p[|p| - 1]) == Up(rep, p[0])
  {
    if |p| > 1 {
      assert Linked(es, p[0], p[0 + 1]);
      var q := p[1..];
      forall i | 0 <= i < |q| - 1 ensures Linked(es, q[i], q[i + 1]) {
        assert Linked(es, p[i + 1], p[i + 1 + 1]);
      }
      LabelConstant(es, rep, q);
    }
  }
}

/** What a parent table means: a representative for each element, and a depth that every parent step lowers. */
module Forests {
  import opened Reachability

  function Low<T>(depth: map<T, nat>, x: T): nat {
    if x in depth then depth[x] else 0
  }

  ghost predicate Represents<T(!new)>(p: map<T, T>, rep: map<T, T>, depth: map<T, nat>) {
    forall x {:trigger Up(p, x)} ::
      && Up(rep, Up(p, x)) == Up(rep, x)
      && (Up(p, x) == x <==> Up(rep, x) == x)
      && (Up(p, x) != x ==> Low(depth, Up(p, x)) < Low(depth, x))
  }

  /** The classes of `rep` are the connected components of `es`. */
  ghost predicate Classes<T(!new)>(rep: map<T, T>, es: set<(T, T)>) {
    && (forall e :: e in es ==> Up(rep, e.0) == Up(rep, e.1))
    && (forall x :: Connected(es, x, Up(rep, x)))
  }

  lemma {:induction false} RepIsRoot<T(!new)>(p: map<T, T>, rep: map<T, T>, depth: map<T, nat>, x: T)
    requires Represents(p, rep, depth)
    ensures Up(rep, Up(rep, x)) == Up(rep, x) && Up(p, Up(rep, x)) == Up(rep, x)
    ensures Up(rep, x) != x ==> Low(depth, Up(rep, x)) < Low(depth, x)
    decreases Low(depth, x)
  {
    if Up(p, x) != x {
      RepIsRoot(p, rep, depth, Up(p, x));
    }
  }

  /** Shortcutting a non-root to a lower element of its own class changes no representative. */
  lemma {:induction false} Shortcut<T(!new)>(p: map<T, T>, rep: map<T, T>, depth: map<T, nat>, x: T, y: T)
    requires Represents(p, rep, depth)
    requires Up(p, x) != x && Up(rep, y) == Up(rep, x) && Low(depth, y) < Low(depth, x)
    ensures Represents(p[x := y], rep, depth)
  {
    forall z ensures
      && Up(rep, Up(p[x := y], z)) == Up(rep, z)
      && (Up(p[x := y], z) == z <==> Up(rep, z) == z)
      && (Up(p[x := y], z) != z ==> Low(depth, Up(p[x := y], z)) < Low(depth, z))
    {
      assert Up(p[x := y], z) == if z == x then y else Up(p, z);
    }
  }

  ghost function MergedRep<T(!new)>(rep: map<T, T>, ra: T, rb: T): map<T, T> {
    map x | x in rep.Keys + {ra} :: if Up(rep, x) == ra then rb else Up(rep, x)
  }

  ghost function MergedDepth<T(!new)>(rep: map<T, T>, depth: map<T, nat>, ra: T, rb: T): map<T, nat> {
    map x | x in rep.Keys + depth.Keys + {ra} ::
      if Up(rep, x) == ra then Low(depth, x) + Low(depth, rb) + 1 else Low(depth, x)
  }

  /** Hanging root ra under root rb merges exactly their two classes. */
  lemma {:induction false} Hang<T(!new)>(p: map<T, T>, rep: map<T, T>, depth: map<T, nat>, ra: T, rb: T)
    requires Represents(p, rep, depth)
    requires Up(rep, ra) == ra && Up(rep, rb) == rb && ra != rb
    ensures Represents(p[ra := rb], MergedRep(rep, ra, rb), MergedDepth(rep, depth, ra, rb))
    ensures forall x {:trigger Up(MergedRep(rep, ra, rb), x)} ::
              Up(MergedRep(rep, ra, rb), x) == if Up(rep, x) == ra then rb else Up(rep, x)
  {
    var q, rep', depth' := p[ra := rb], MergedRep(rep, ra, rb), MergedDepth(rep, depth, ra, rb);
    forall z ensures
      && Up(rep', Up(q, z)) == Up(rep', z)
      && (Up(q, z) == z <==> Up(rep', z) == z)
      && (Up(q, z) != z ==> Low(depth', Up(q, z)) < Low(depth', z))
    {
      assert Up(q, z) == if z == ra then rb else Up(p, z);
    }
  }

  lemma {:induction false} ClassesJoin<T(!new)>(rep: map<T, T>, es: set<(T, T)>, a: T, b: T)
    requires Classes(rep, es)
    ensures Classes(MergedRep(rep, Up(rep, a), Up(rep, b)), es + {(a, b)})
  {
    var fs, ra, rb := es + {(a, b)}, Up(rep, a), Up(rep, b);
    forall x ensures Connected(fs, x, Up(MergedRep(rep, ra, rb), x)) {
      Monotone(es, fs, x, Up(rep, x));
      if Up(rep, x) == ra {
        Monotone(es, fs, a, ra);
        Symmetric(fs, a, ra);
        Monotone(es, fs, b, rb);
        Step(fs, a, b);
        Transitive(fs, x, ra, a);
        Transitive(fs, x, a, b);
        Transitive(fs, x, b, rb);
      }
    }
  }

  /** An edge inside one class adds nothing to connectivity. */
  lemma {:induction false} ClassesInner<T(!new)>(rep: map<T, T>, es: set<(T, T)>, a: T, b: T)
    requires Classes(rep, es) && Up(rep, a) == Up(rep, b)
    ensures Classes(rep, es + {(a, b)})
  {
    forall x ensures Connected(es + {(a, b)}, x, Up(rep, x)) {
      Monotone(es, es + {(a, b)}, x, Up(rep, x));
    }
  }

  /** Equal representatives say exactly: connected. */
  lemma {:induction false} SameClass<T(!new)>(rep: map<T, T>, es: set<(T, T)>, x: T, y: T)
    requires Classes(rep, es)
    ensures Up(rep, x) == Up(rep, y) <==> Connected(es, x, y)
  {
    if Up(rep, x) == Up(rep, y) {
      Symmetric(es, y, Up(rep, y));
      Transitive(es, x, Up(rep, x), y);
    }
    if Connected(es, x, y) {
      var p :| Path(es, p) && p[0] == x && p[|p| - 1] == y;
      LabelConstant(es, rep, p);
    }
  }

  /** An array of parents, read as a table. */
  ghost function AsMap(s: seq<nat>): (m: map<nat, nat>)
    ensures forall i: nat :: Up(m, i) == if i < |s| then s[i] else i
  {
    map i: nat | i < |s| :: s[i]
  }

  /** Path halving: each step points x at its grandparent. */
  method FindHalving(uf: array<nat>, ghost rep: map<nat, nat>, ghost depth: map<nat, nat>, start: nat) returns (r: nat)
    requires start < uf.Length && forall i :: 0 <= i < uf.Length ==> uf[i] < uf.Length
    requires Represents(AsMap(uf[..]), rep, depth)
    modifies uf
    ensures forall i :: 0 <= i < uf.Length ==> uf[i] < uf.Length
    ensures Represents(AsMap(uf[..]), rep, depth)
    ensures r == Up(rep, start) && r < uf.Length
  {
    var x := start;
    while uf[x] != x
      invariant x < uf.Length && forall i :: 0 <= i < uf.Length ==> uf[i] < uf.Length
      invariant Represents(AsMap(uf[..]), rep, depth)
      invariant Up(rep, x) == Up(rep, start)
      decreases Low(depth, x)
    {
      ghost var s := uf[..];
      ghost var y := uf[x];
      assert Up(AsMap(s), x) == y && Up(AsMap(s), y) == uf[y];
      Shortcut<nat>(AsMap(s), rep, depth, x, uf[y]);
      uf[x] := uf[uf[x]];
      assert uf[..] == s[x := s[y]];
      assert AsMap(uf[..]) == AsMap(s)[x := s[y]];
      x := uf[x];
    }
    assert Up(AsMap(uf[..]), x) == x;
    r := x;
  }
}
