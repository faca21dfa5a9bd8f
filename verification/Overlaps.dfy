/** Sub-requirements that claim the same message: telling pivots from real overlaps, and resolving both. */
module Overlaps {
  import opened SplitGuard

  /** A member as the model wrote it: a number in some spelling, or text with no number in it. */
  datatype Entry = Num(n: nat) | Junk

  datatype Sub = Sub(id: string, title: string, kind: string, status: string, members: seq<Entry>)
  datatype Edge = Edge(from: string, to: string, label': string)

  const PIVOT_MAX := 2
  const PIVOT_EDGE := "⤼枢纽(搁置转接)"

  /** The message numbers of a segment. */
  function Nums(es: seq<Entry>): (r: set<nat>)
    ensures forall n :: n in r <==> Num(n) in es
  {
    set e | e in es && e.Num? :: e.n
  }

  function Has(s: Sub): set<nat> {
    Nums(s.members)
  }

  // ---- shrinking --------------------------------------------------------------------------------

  /** Without the given numbers; everything else keeps its place. */
  function Strip(es: seq<Entry>, drop: set<nat>): (r: seq<Entry>)
    ensures forall e :: e in r <==> e in es && !(e.Num? && e.n in drop)
  {
    if es == [] then [] else
      (if es[0].Num? && es[0].n in drop then [] else [es[0]]) + Strip(es[1..], drop)
  }

  lemma {:induction false} StripCons(h: Entry, t: seq<Entry>, drop: set<nat>)
    ensures Strip([], drop) == [] && Strip([h] + t, drop) == (if h.Num? && h.n in drop then [] else [h]) + Strip(t, drop)
  {
    assert ([h] + t)[1..] == t;
  }

  /** Entries stay in order, one by one. */
  lemma {:induction false} StripSnoc(es: seq<Entry>, e: Entry, drop: set<nat>)
    ensures Strip(es + [e], drop) == if e.Num? && e.n in drop then Strip(es, drop) else Strip(es, drop) + [e]
  {
    hide Strip;
    StripCons(e, [], drop);
    if es == [] {
      assert es + [e] == [e] + [];
    } else {
      var h, t := es[0], es[1..];
      StripSnoc(t, e, drop);
      StripCons(h, t, drop);
      StripCons(h, t + [e], drop);
      assert es == [h] + t && es + [e] == [h] + (t + [e]);
    }
  }

  lemma {:induction false} StripShrinks(es: seq<Entry>, drop: set<nat>)
    ensures multiset(Strip(es, drop)) <= multiset(es)
  {
    if es != [] {
      StripShrinks(es[1..], drop);
      assert es == [es[0]] + es[1..];
    }
  }

  lemma {:induction false} StripNums(es: seq<Entry>, drop: set<nat>)
    ensures Nums(Strip(es, drop)) == Nums(es) - drop
  {
  }

  /** Drops repeats of a number already seen. */
  function Dedup(es: seq<Entry>, seen: set<nat>): (r: seq<Entry>)
    ensures forall e :: e in r <==> e in es && !(e.Num? && e.n in seen)
  {
    if es == [] then [] else
      match es[0]
      case Junk => [Junk] + Dedup(es[1..], seen)
      case Num(n) => if n in seen then Dedup(es[1..], seen) else [es[0]] + Dedup(es[1..], seen + {n})
  }

  /** Of a repeated number the first one stays, and the others keep their order. */
  lemma {:induction false} DedupSnoc(es: seq<Entry>, e: Entry, seen: set<nat>)
    ensures Dedup([], seen) == []
    ensures Dedup(es + [e], seen) == if e.Num? && (e.n in seen || e in es) then Dedup(es, seen) else Dedup(es, seen) + [e]
  {
    if es == [] {
      assert [] + [e] == [e] && [e][1..] == [] && Dedup([], seen) == [];
      assert e.Num? ==> Dedup([], seen + {e.n}) == [];
    } else {
      assert (es + [e])[1..] == es[1..] + [e] && (es + [e])[0] == es[0];
      assert e in es <==> e == es[0] || e in es[1..];
      if es[0].Num? && es[0].n !in seen {
        DedupSnoc(es[1..], e, seen + {es[0].n});
      } else {
        DedupSnoc(es[1..], e, seen);
      }
    }
  }

  /** Once de-duplicated, each number is there once. */
  lemma {:induction false} DedupOnce(es: seq<Entry>, seen: set<nat>, n: nat)
    ensures multiset(Dedup(es, seen))[Num(n)] <= 1
    ensures multiset(Dedup(es, seen)) <= multiset(es)
  {
    if es != [] {
      assert es == [es[0]] + es[1..];
      match es[0]
      case Junk => DedupOnce(es[1..], seen, n);
      case Num(k) =>
        DedupOnce(es[1..], seen, n);
        DedupOnce(es[1..], seen + {k}, n);
        assert Num(k) !in Dedup(es[1..], seen + {k});
    }
  }

  /** The same segments in the same order, with fewer members or as many. */
  ghost predicate Shrunk(subs: seq<Sub>, subs': seq<Sub>) {
    |subs| == |subs'| && forall i :: 0 <= i < |subs| ==> Less(subs[i], subs'[i])
  }

  ghost predicate Less(s: Sub, s': Sub) {
    s' == s.(members := s'.members) && multiset(s'.members) <= multiset(s.members)
  }

  lemma {:induction false} LessHas(s: Sub, s': Sub)
    requires Less(s, s')
    ensures Has(s') <= Has(s)
  {
    forall n | n in Has(s') ensures n in Has(s) {
      assert Num(n) in multiset(s'.members);
    }
  }

  lemma {:induction false} ShrunkStep(subs: seq<Sub>, subs': seq<Sub>, i: nat, drop: set<nat>)
    requires Shrunk(subs, subs') && i < |subs|
    ensures Shrunk(subs, subs'[i := subs'[i].(members := Strip(subs'[i].members, drop))])
  {
    StripShrinks(subs'[i].members, drop);
  }

  // ---- who shares what --------------------------------------------------------------------------

  ghost predicate Exclusive(subs: seq<Sub>) {
    forall i, j :: 0 <= i < j < |subs| ==> Has(subs[i]) !! Has(subs[j])
  }

  ghost predicate Covered(subs: seq<Sub>, n: nat) {
    exists i :: 0 <= i < |subs| && n in Has(subs[i])
  }

  datatype Pair = Pair(i: nat, j: nat, shared: set<nat>)

  ghost predicate IsPair(subs: seq<Sub>, p: Pair) {
    p.i < p.j < |subs| && p.shared == Has(subs[p.i]) * Has(subs[p.j]) && p.shared != {}
  }

  /** Every two segments that share something, each once. */
  ghost predicate AllPairs(subs: seq<Sub>, pairs: seq<Pair>) {
    && (forall k :: 0 <= k < |pairs| ==> IsPair(subs, pairs[k]))
    && (forall k, m :: 0 <= k < m < |pairs| ==> (pairs[k].i, pairs[k].j) != (pairs[m].i, pairs[m].j))
    && (forall i, j :: 0 <= i < j < |subs| && Has(subs[i]) * Has(subs[j]) != {} ==>
          exists k :: 0 <= k < |pairs| && pairs[k].i == i && pairs[k].j == j)
  }

  function NumList(es: seq<Entry>): (r: seq<nat>)
    ensures forall n :: n in r <==> Num(n) in es
  {
    if es == [] then [] else (if es[0].Num? then [es[0].n] else []) + NumList(es[1..])
  }

  /** The numbers of a segment, ascending. */
  function Listed(s: Sub): (r: seq<nat>)
    ensures forall n :: n in r <==> n in Has(s)
    ensures forall i, j :: 0 <= i < j < |r| ==> r[i] < r[j]
  {
    Ids(NumList(s.members))
  }

  /** The segments among the first n that have number v. */
  function Holders(subs: seq<Sub>, v: nat, n: nat): seq<nat>
    requires n <= |subs|
  {
    if n == 0 then [] else Holders(subs, v, n - 1) + (if v in Has(subs[n - 1]) then [n - 1] else [])
  }

  ghost predicate Ascends(r: seq<nat>) {
    forall a, b :: 0 <= a < b < |r| ==> r[a] < r[b]
  }

  lemma {:induction false} HoldersHave(subs: seq<Sub>, v: nat, n: nat)
    requires n <= |subs|
    ensures forall i: nat :: i in Holders(subs, v, n) <==> i < n && v in Has(subs[i])
    ensures Ascends(Holders(subs, v, n))
  {
    hide Has;
    if n > 0 {
      HoldersHave(subs, v, n - 1);
      var before := Holders(subs, v, n - 1);
      forall a | 0 <= a < |before| ensures before[a] < n - 1 {
        assert before[a] in before;
      }
      var r := Holders(subs, v, n);
      forall a, b | 0 <= a < b < |r| ensures r[a] < r[b] {
        assert r[a] == before[a];
        if b < |before| {
          assert r[b] == before[b] && before[a] < before[b];
        } else {
          assert r[b] == n - 1;
        }
      }
    }
  }

  function Get(table: map<nat, seq<nat>>, v: nat): seq<nat> {
    if v in table then table[v] else []
  }

  ghost predicate Table(subs: seq<Sub>, n: nat, keys: seq<nat>, table: map<nat, seq<nat>>)
    requires n <= |subs|
  {
    && Distinct(keys)
    && (forall v :: v in table <==> v in keys)
    && (forall v :: Get(table, v) == Holders(subs, v, n))
  }

  ghost predicate Distinct(keys: seq<nat>) {
    forall a, b :: 0 <= a < b < |keys| ==> keys[a] != keys[b]
  }

  /** Number to segments, keys in the order they are first met. */
  method MsgToSubs(subs: seq<Sub>) returns (keys: seq<nat>, table: map<nat, seq<nat>>)
    ensures Table(subs, |subs|, keys, table) && KeysMet(subs, |subs|, keys)
  {
    keys, table := [], map[];
    for n := 0 to |subs|
      invariant Table(subs, n, keys, table) && KeysMet(subs, n, keys)
    {
      keys, table := AddSub(subs, n, keys, table);
    }
  }

  method AddSub(subs: seq<Sub>, n: nat, keys0: seq<nat>, table0: map<nat, seq<nat>>) returns (keys: seq<nat>, table: map<nat, seq<nat>>)
    requires n < |subs| && Table(subs, n, keys0, table0) && KeysMet(subs, n, keys0)
    ensures Table(subs, n + 1, keys, table) && KeysMet(subs, n + 1, keys)
  {
    hide Has, Holders, Listed, MidTable, KeysMet, KeysMid;
    keys, table := keys0, table0;
    var vs := Listed(subs[n]);
    MidStart(subs, n, keys, table);
    KeysStart(subs, n, keys);
    for k := 0 to |vs|
      invariant MidTable(subs, n, keys, table, vs[..k]) && KeysMid(subs, n, keys, vs[..k])
    {
      var v := vs[k];
      MidStep(subs, n, keys, table, vs, k);
      KeysKnown(subs, n, keys, vs, k);
      if v in table {
        table := table[v := table[v] + [n]];
      } else {
        NewNumber(subs, n, keys, table, vs, k);
        KeysNext(subs, n, keys, vs, k);
        keys, table := keys + [v], table[v := [n]];
      }
    }
    assert vs[..|vs|] == vs;
    MidEnd(subs, n, keys, table);
    KeysEnd(subs, n, keys, vs);
  }

  /** Number u is met before v: in an earlier segment, or in the same one and smaller. */
  ghost predicate MetBefore(subs: seq<Sub>, u: nat, v: nat) {
    exists i :: 0 <= i < |subs| && u in Has(subs[i]) && (forall j :: 0 <= j < i ==> v !in Has(subs[j])) && (v in Has(subs[i]) ==> u < v)
  }

  ghost predicate InKeyOrder(subs: seq<Sub>, keys: seq<nat>) {
    forall x, y :: 0 <= x < y < |keys| ==> MetBefore(subs, keys[x], keys[y])
  }

  ghost predicate MetBy(subs: seq<Sub>, n: nat, u: nat) {
    n <= |subs| && exists i :: 0 <= i < n && u in Has(subs[i])
  }

  /** The keys are numbers of the first n segments, in the order they are met. */
  ghost predicate KeysMet(subs: seq<Sub>, n: nat, keys: seq<nat>) {
    InKeyOrder(subs, keys) && forall x :: 0 <= x < |keys| ==> MetBy(subs, n, keys[x])
  }

  ghost predicate KeysMid(subs: seq<Sub>, n: nat, keys: seq<nat>, done: seq<nat>) {
    InKeyOrder(subs, keys) && forall x :: 0 <= x < |keys| ==> MetBy(subs, n, keys[x]) || keys[x] in done
  }

  lemma {:induction false} KeysStart(subs: seq<Sub>, n: nat, keys: seq<nat>)
    requires KeysMet(subs, n, keys)
    ensures KeysMid(subs, n, keys, [])
  {
    hide InKeyOrder, MetBy;
  }

  lemma {:induction false} KeysKnown(subs: seq<Sub>, n: nat, keys: seq<nat>, vs: seq<nat>, k: nat)
    requires k < |vs| && KeysMid(subs, n, keys, vs[..k])
    ensures KeysMid(subs, n, keys, vs[..k + 1])
  {
    hide InKeyOrder, MetBy;
    assert vs[..k + 1] == vs[..k] + [vs[k]];
  }

  lemma {:induction false} NewNumber(subs: seq<Sub>, n: nat, keys: seq<nat>, table: map<nat, seq<nat>>, vs: seq<nat>, k: nat)
    requires k < |vs| && MidTable(subs, n, keys, table, vs[..k]) && vs[k] !in table && (forall i, j :: 0 <= i < j < |vs| ==> vs[i] < vs[j])
    ensures n < |subs| && !MetBy(subs, n, vs[k])
  {
    hide Has, Holders;
    assert vs[k] !in vs[..k];
    assert Get(table, vs[k]) == Holders(subs, vs[k], n) + [] == Holders(subs, vs[k], n);
    HoldersHave(subs, vs[k], n);
  }

  lemma {:induction false} KeysNext(subs: seq<Sub>, n: nat, keys: seq<nat>, vs: seq<nat>, k: nat)
    requires n < |subs| && k < |vs| && KeysMid(subs, n, keys, vs[..k]) && !MetBy(subs, n, vs[k]) && (forall v :: v in vs <==> v in Has(subs[n]))
    requires forall i, j :: 0 <= i < j < |vs| ==> vs[i] < vs[j]
    ensures KeysMid(subs, n, keys + [vs[k]], vs[..k + 1])
  {
    hide Has, MetBefore;
    var v, keys' := vs[k], keys + [vs[k]];
    assert vs[..k + 1] == vs[..k] + [v] && v in vs;
    forall x, y | 0 <= x < y < |keys'| ensures MetBefore(subs, keys'[x], keys'[y]) {
      if y < |keys| {
        assert MetBefore(subs, keys[x], keys[y]);
      } else {
        NewIsLater(subs, n, keys[x], vs, k);
      }
    }
  }

  lemma {:induction false} NewIsLater(subs: seq<Sub>, n: nat, u: nat, vs: seq<nat>, k: nat)
    requires n < |subs| && k < |vs| && (MetBy(subs, n, u) || u in vs[..k]) && !MetBy(subs, n, vs[k]) && (forall v :: v in vs <==> v in Has(subs[n]))
    requires forall i, j :: 0 <= i < j < |vs| ==> vs[i] < vs[j]
    ensures MetBefore(subs, u, vs[k])
  {
    hide Has;
    if i :| 0 <= i < n && u in Has(subs[i]) {
      assert vs[k] !in Has(subs[i]);
    } else {
      var m :| 0 <= m < k && vs[m] == u;
      assert u in vs && u in Has(subs[n]);
    }
  }

  lemma {:induction false} KeysEnd(subs: seq<Sub>, n: nat, keys: seq<nat>, vs: seq<nat>)
    requires n < |subs| && KeysMid(subs, n, keys, vs) && (forall v :: v in vs <==> v in Has(subs[n]))
    ensures KeysMet(subs, n + 1, keys)
  {
    hide Has, InKeyOrder;
    forall x | 0 <= x < |keys| ensures MetBy(subs, n + 1, keys[x]) {
      if MetBy(subs, n, keys[x]) {
        var i :| 0 <= i < n && keys[x] in Has(subs[i]);
      } else {
        assert keys[x] in Has(subs[n]);
      }
    }
  }

  /** Segment n has been entered for the numbers in `done`. */
  ghost predicate MidTable(subs: seq<Sub>, n: nat, keys: seq<nat>, table: map<nat, seq<nat>>, done: seq<nat>) {
    && n < |subs| && Distinct(keys)
    && (forall v :: v in table <==> v in keys)
    && (forall v :: Get(table, v) == Holders(subs, v, n) + (if v in done then [n] else []))
  }

  lemma {:induction false} MidStart(subs: seq<Sub>, n: nat, keys: seq<nat>, table: map<nat, seq<nat>>)
    requires n < |subs| && Table(subs, n, keys, table)
    ensures MidTable(subs, n, keys, table, [])
  {
    hide Holders;
    forall v ensures Get(table, v) == Holders(subs, v, n) + [] {
    }
  }

  lemma {:induction false} MidStep(subs: seq<Sub>, n: nat, keys: seq<nat>, table: map<nat, seq<nat>>, vs: seq<nat>, k: nat)
    requires k < |vs| && (forall i, j :: 0 <= i < j < |vs| ==> vs[i] < vs[j]) && MidTable(subs, n, keys, table, vs[..k])
    ensures var v := vs[k];
            if v in table then MidTable(subs, n, keys, table[v := table[v] + [n]], vs[..k + 1])
            else MidTable(subs, n, keys + [v], table[v := [n]], vs[..k + 1])
  {
    hide Holders;
    var v := vs[k];
    assert vs[..k + 1] == vs[..k] + [v] && v !in vs[..k];
    assert Get(table, v) == Holders(subs, v, n) + [] == Holders(subs, v, n);
    var table' := if v in table then table[v := table[v] + [n]] else table[v := [n]];
    forall u ensures Get(table', u) == Holders(subs, u, n) + (if u in vs[..k + 1] then [n] else []) {
      assert u != v ==> Get(table', u) == Get(table, u);
    }
  }

  lemma {:induction false} MidEnd(subs: seq<Sub>, n: nat, keys: seq<nat>, table: map<nat, seq<nat>>)
    requires n < |subs| && MidTable(subs, n, keys, table, Listed(subs[n]))
    ensures Table(subs, n + 1, keys, table)
  {
    hide Has, Holders;
    forall v ensures Get(table, v) == Holders(subs, v, n + 1) {
      HoldersNext(subs, v, n);
    }
  }

  lemma {:induction false} HoldersNext(subs: seq<Sub>, v: nat, n: nat)
    requires n < |subs|
    ensures Holders(subs, v, n + 1) == Holders(subs, v, n) + (if v in Has(subs[n]) then [n] else [])
  {
  }

  /** Pairs found by the first messages: each once, with all they share. */
  ghost predicate SomePairs(subs: seq<Sub>, pairs: seq<Pair>, seen: set<(nat, nat)>) {
    && (forall k :: 0 <= k < |pairs| ==> IsPair(subs, pairs[k]) && (pairs[k].i, pairs[k].j) in seen)
    && (forall k, m :: 0 <= k < m < |pairs| ==> (pairs[k].i, pairs[k].j) != (pairs[m].i, pairs[m].j))
    && (forall ij :: ij in seen ==> exists k :: 0 <= k < |pairs| && (pairs[k].i, pairs[k].j) == ij)
  }

  lemma {:induction false} PairNext(subs: seq<Sub>, pairs: seq<Pair>, seen: set<(nat, nat)>, p: Pair)
    requires SomePairs(subs, pairs, seen) && IsPair(subs, p) && (p.i, p.j) !in seen
    ensures SomePairs(subs, pairs + [p], seen + {(p.i, p.j)})
  {
    hide IsPair;
    var pairs' := pairs + [p];
    forall ij | ij in seen + {(p.i, p.j)} ensures exists k :: 0 <= k < |pairs'| && (pairs'[k].i, pairs'[k].j) == ij {
      if ij in seen {
        var k :| 0 <= k < |pairs| && (pairs[k].i, pairs[k].j) == ij;
        assert pairs'[k] == pairs[k];
      } else {
        assert pairs'[|pairs|] == p;
      }
    }
  }

  /** Every two of these segments have been paired. */
  ghost predicate Paired(list: seq<nat>, seen: set<(nat, nat)>) {
    forall a, b :: 0 <= a < b < |list| ==> (list[a], list[b]) in seen
  }

  /** The first message, in the order of the keys, that a pair shares. */
  ghost predicate RankIs(keys: seq<nat>, p: Pair, x: nat) {
    x < |keys| && keys[x] in p.shared && forall y :: 0 <= y < x ==> keys[y] !in p.shared
  }

  predicate Lex(p: Pair, q: Pair) {
    p.i < q.i || (p.i == q.i && p.j < q.j)
  }

  /** Pairs in the order of the message that reveals them, and for one message in order of their segments. */
  ghost predicate Ranked(keys: seq<nat>, pairs: seq<Pair>, ranks: seq<nat>) {
    && |ranks| == |pairs| && (forall m :: 0 <= m < |pairs| ==> RankIs(keys, pairs[m], ranks[m]))
    && (forall l, m :: 0 <= l < m < |pairs| ==> ranks[l] < ranks[m] || (ranks[l] == ranks[m] && Lex(pairs[l], pairs[m])))
  }

  /** All pairs, in the order in which they are first met. */
  ghost predicate Met(subs: seq<Sub>, pairs: seq<Pair>) {
    AllPairs(subs, pairs) && exists keys, ranks :: KeysMet(subs, |subs|, keys) && Ranked(keys, pairs, ranks)
  }

  /** Pairs of list[..a] with anything, and of list[a] with list[a + 1..b]. */
  ghost predicate Behind(p: Pair, list: seq<nat>, a: nat, b: nat) {
    || (exists x :: 0 <= x < a && x < |list| && p.i == list[x])
    || (a < |list| && p.i == list[a] && exists y :: a < y < b && y < |list| && p.j == list[y])
  }

  ghost predicate RanksUpTo(pairs: seq<Pair>, ranks: seq<nat>, k: nat, list: seq<nat>, a: nat, b: nat) {
    |ranks| == |pairs| && forall m :: 0 <= m < |pairs| ==> ranks[m] < k || (ranks[m] == k && Behind(pairs[m], list, a, b))
  }

  lemma {:induction false} RanksOn(pairs: seq<Pair>, ranks: seq<nat>, k: nat, list: seq<nat>, a: nat, b: nat)
    requires RanksUpTo(pairs, ranks, k, list, a, b)
    ensures RanksUpTo(pairs, ranks, k, list, a, b + 1) && RanksUpTo(pairs, ranks, k, list, a + 1, a + 2)
  {
    forall m | 0 <= m < |pairs| && ranks[m] == k ensures Behind(pairs[m], list, a, b + 1) && Behind(pairs[m], list, a + 1, a + 2) {
      assert Behind(pairs[m], list, a, b);
    }
  }

  lemma {:induction false} RankNext(keys: seq<nat>, pairs: seq<Pair>, ranks: seq<nat>, k: nat, list: seq<nat>, a: nat, b: nat, p: Pair)
    requires Ranked(keys, pairs, ranks) && RanksUpTo(pairs, ranks, k, list, a, b) && RankIs(keys, p, k)
    requires a < b < |list| && p.i == list[a] && p.j == list[b] && Ascends(list)
    ensures Ranked(keys, pairs + [p], ranks + [k]) && RanksUpTo(pairs + [p], ranks + [k], k, list, a, b + 1)
  {
    hide RankIs;
    RanksOn(pairs, ranks, k, list, a, b);
    forall m | 0 <= m < |pairs| && ranks[m] == k ensures Lex(pairs[m], p) {
      assert Behind(pairs[m], list, a, b);
    }
  }

  /** Pairs up the segments that hold key k. */
  method AddPairs(subs: seq<Sub>, ghost keys: seq<nat>, ghost k: nat, list: seq<nat>, pairs0: seq<Pair>, ghost ranks0: seq<nat>, seen0: set<(nat, nat)>)
    returns (pairs: seq<Pair>, ghost ranks: seq<nat>, seen: set<(nat, nat)>)
    requires SomePairs(subs, pairs0, seen0) && Ranked(keys, pairs0, ranks0) && RanksUpTo(pairs0, ranks0, k, list, 0, 0)
    requires k < |keys| && PairedUpTo(subs, keys, k, seen0)
    requires (forall a :: 0 <= a < |list| ==> list[a] < |subs| && keys[k] in Has(subs[list[a]]))
    requires Ascends(list)
    ensures SomePairs(subs, pairs, seen) && seen0 <= seen && Paired(list, seen)
    ensures Ranked(keys, pairs, ranks) && RanksUpTo(pairs, ranks, k, list, |list|, |list| + 1)
  {
    hide SomePairs, Has, Ranked, RanksUpTo, PairedUpTo, RankIs;
    pairs, ranks, seen := pairs0, ranks0, seen0;
    RanksOn(pairs, ranks, k, list, 0, 0);
    for a := 0 to |list|
      invariant SomePairs(subs, pairs, seen) && seen0 <= seen && Ranked(keys, pairs, ranks) && RanksUpTo(pairs, ranks, k, list, a, a + 1)
      invariant forall x, b :: 0 <= x < a && x < b < |list| ==> (list[x], list[b]) in seen
    {
      for b := a + 1 to |list|
        invariant SomePairs(subs, pairs, seen) && seen0 <= seen && Ranked(keys, pairs, ranks) && RanksUpTo(pairs, ranks, k, list, a, b)
        invariant forall x, y :: 0 <= x < a && x < y < |list| ==> (list[x], list[y]) in seen
        invariant forall y :: a < y < b ==> (list[a], list[y]) in seen
      {
        var i, j := list[a], list[b];
        RanksOn(pairs, ranks, k, list, a, b);
        if (i, j) !in seen {
          var p := Pair(i, j, Has(subs[i]) * Has(subs[j]));
          assert keys[k] in p.shared;
          PairNext(subs, pairs, seen, p);
          NewRank(subs, keys, k, seen0, p);
          RankNext(keys, pairs, ranks, k, list, a, b, p);
          pairs, ranks, seen := pairs + [p], ranks + [k], seen + {(i, j)};
        }
      }
      RanksOn(pairs, ranks, k, list, a, if |list| > a + 1 then |list| else a + 1);
    }
  }

  /** A pair not seen before shares nothing met earlier. */
  lemma {:induction false} NewRank(subs: seq<Sub>, keys: seq<nat>, k: nat, seen: set<(nat, nat)>, p: Pair)
    requires k < |keys| && PairedUpTo(subs, keys, k, seen) && IsPair(subs, p) && keys[k] in p.shared && (p.i, p.j) !in seen
    ensures RankIs(keys, p, k)
  {
    hide Has, Holders, Paired;
    forall y | 0 <= y < k ensures keys[y] !in p.shared {
      if keys[y] in p.shared {
        HoldersPaired(subs, keys[y], seen, p.i, p.j);
      }
    }
  }

  /** Gathers shared messages by pair of segments, in the order the pairs are first met. */
  method FindPairs(subs: seq<Sub>) returns (pairs: seq<Pair>)
    ensures Met(subs, pairs)
  {
    hide SomePairs, PairedUpTo, Has, Table, Holders, AllPairs, Ranked, RanksUpTo, KeysMet;
    var keys, table := MsgToSubs(subs);
    pairs := [];
    ghost var ranks: seq<nat> := [];
    var seen: set<(nat, nat)> := {};
    NoPairs(subs, keys);
    for k := 0 to |keys|
      invariant SomePairs(subs, pairs, seen) && PairedUpTo(subs, keys, k, seen)
      invariant Ranked(keys, pairs, ranks) && RanksUpTo(pairs, ranks, k, [], 0, 0)
    {
      RowAt(subs, keys, table, k);
      ghost var was := seen;
      RanksFresh(pairs, ranks, k, table[keys[k]]);
      pairs, ranks, seen := AddPairs(subs, keys, k, table[keys[k]], pairs, ranks, seen);
      RanksDone(pairs, ranks, k, table[keys[k]]);
      PairedNext(subs, keys, k, was, seen);
    }
    PairsComplete(subs, keys, table, pairs, seen);
  }

  lemma {:induction false} RanksFresh(pairs: seq<Pair>, ranks: seq<nat>, k: nat, list: seq<nat>)
    requires RanksUpTo(pairs, ranks, k, [], 0, 0)
    ensures RanksUpTo(pairs, ranks, k, list, 0, 0)
  {
    forall m | 0 <= m < |pairs| ensures ranks[m] < k {
      assert !Behind(pairs[m], [], 0, 0);
    }
  }

  lemma {:induction false} RanksDone(pairs: seq<Pair>, ranks: seq<nat>, k: nat, list: seq<nat>)
    requires RanksUpTo(pairs, ranks, k, list, |list|, |list| + 1)
    ensures RanksUpTo(pairs, ranks, k + 1, [], 0, 0)
  {
    hide Behind;
  }

  ghost predicate PairedUpTo(subs: seq<Sub>, keys: seq<nat>, k: nat, seen: set<(nat, nat)>) {
    k <= |keys| && forall x :: 0 <= x < k ==> Paired(Holders(subs, keys[x], |subs|), seen)
  }

  lemma {:induction false} RowAt(subs: seq<Sub>, keys: seq<nat>, table: map<nat, seq<nat>>, k: nat)
    requires Table(subs, |subs|, keys, table) && k < |keys|
    ensures keys[k] in table && table[keys[k]] == Holders(subs, keys[k], |subs|)
    ensures var list := table[keys[k]];
            && (forall a :: 0 <= a < |list| ==> list[a] < |subs| && keys[k] in Has(subs[list[a]]))
            && Ascends(list)
  {
    hide Has, Holders;
    HoldersHave(subs, keys[k], |subs|);
    var list := table[keys[k]];
    assert keys[k] in keys && Get(table, keys[k]) == list;
    assert forall a :: 0 <= a < |list| ==> list[a] in list;
  }

  lemma {:induction false} PairedNext(subs: seq<Sub>, keys: seq<nat>, k: nat, seen: set<(nat, nat)>, seen': set<(nat, nat)>)
    requires k < |keys| && PairedUpTo(subs, keys, k, seen) && seen <= seen' && Paired(Holders(subs, keys[k], |subs|), seen')
    ensures PairedUpTo(subs, keys, k + 1, seen')
  {
    hide Holders, Paired;
    forall x | 0 <= x < k ensures Paired(Holders(subs, keys[x], |subs|), seen') {
      StillPaired(Holders(subs, keys[x], |subs|), seen, seen');
    }
  }

  lemma {:induction false} NoPairs(subs: seq<Sub>, keys: seq<nat>)
    ensures SomePairs(subs, [], {}) && PairedUpTo(subs, keys, 0, {})
    ensures Ranked(keys, [], []) && RanksUpTo([], [], 0, [], 0, 0)
  {
  }

  lemma {:induction false} StillPaired(list: seq<nat>, seen: set<(nat, nat)>, seen': set<(nat, nat)>)
    requires Paired(list, seen) && seen <= seen'
    ensures Paired(list, seen')
  {
  }

  lemma {:induction false} PairsComplete(subs: seq<Sub>, keys: seq<nat>, table: map<nat, seq<nat>>, pairs: seq<Pair>, seen: set<(nat, nat)>)
    requires Table(subs, |subs|, keys, table) && SomePairs(subs, pairs, seen)
    requires PairedUpTo(subs, keys, |keys|, seen)
    ensures AllPairs(subs, pairs)
  {
    hide Has, IsPair, Paired, Holders, Get;
    forall i, j | 0 <= i < j < |subs| && Has(subs[i]) * Has(subs[j]) != {}
      ensures exists k :: 0 <= k < |pairs| && pairs[k].i == i && pairs[k].j == j
    {
      var v :| v in Has(subs[i]) * Has(subs[j]);
      KeyOf(subs, keys, table, v, i);
      var x :| 0 <= x < |keys| && keys[x] == v;
      HoldersPaired(subs, v, seen, i, j);
      var k :| 0 <= k < |pairs| && (pairs[k].i, pairs[k].j) == (i, j);
    }
  }

  lemma {:induction false} KeyOf(subs: seq<Sub>, keys: seq<nat>, table: map<nat, seq<nat>>, v: nat, i: nat)
    requires Table(subs, |subs|, keys, table) && i < |subs| && v in Has(subs[i])
    ensures v in keys
  {
    hide Has;
    HoldersHave(subs, v, |subs|);
    assert i in Holders(subs, v, |subs|) && Get(table, v) == Holders(subs, v, |subs|);
  }

  lemma {:induction false} HoldersPaired(subs: seq<Sub>, v: nat, seen: set<(nat, nat)>, i: nat, j: nat)
    requires i < j < |subs| && v in Has(subs[i]) && v in Has(subs[j]) && Paired(Holders(subs, v, |subs|), seen)
    ensures (i, j) in seen
  {
    hide Has, Holders;
    HoldersHave(subs, v, |subs|);
    var list := Holders(subs, v, |subs|);
    var a :| 0 <= a < |list| && list[a] == i;
    var b :| 0 <= b < |list| && list[b] == j;
    assert a < b;
  }

  // ---- first pass: pivots -----------------------------------------------------------------------

  /** Which of two segments that start with the same number counts as the earlier one. */
  type Ties = (nat, nat) -> bool

  const NO_START := 1_000_000_000

  /** Where a segment starts; one with no numbers left is put far back. */
  function Start(s: Sub): nat {
    if Listed(s) == [] then NO_START else Listed(s)[0]
  }

  /** The start is the least number. */
  lemma {:induction false} StartIs(s: Sub)
    ensures Has(s) == {} ==> Start(s) == NO_START
    ensures Has(s) != {} ==> Start(s) in Has(s) && forall n :: n in Has(s) ==> Start(s) <= n
  {
    hide Listed, Has;
    var list := Listed(s);
    FirstListed(list);
    forall n | n in Has(s) ensures Start(s) <= n {
      assert n in list;
      var k :| 0 <= k < |list| && list[k] == n;
    }
    if Has(s) != {} {
      var n :| n in Has(s);
      assert n in list;
    }
  }

  lemma {:induction false} FirstListed(list: seq<nat>)
    ensures list == [] || list[0] in list
  {
  }

  predicate Small(p: Pair) {
    |p.shared| <= PIVOT_MAX
  }

  ghost predicate NotBoth(subs: seq<Sub>, p: Pair) {
    p.i < |subs| && p.j < |subs| && forall v :: v in p.shared ==> v !in Has(subs[p.i]) || v !in Has(subs[p.j])
  }

  /** Only segment g has u. */
  ghost predicate Unshared(subs: seq<Sub>, g: nat, u: nat) {
    g < |subs| && u in Has(subs[g]) && forall i :: 0 <= i < |subs| && i != g ==> u !in Has(subs[i])
  }

  /** Segment g has a message of its own from before h starts. */
  ghost predicate Yields(subs: seq<Sub>, g: nat, h: nat)
    requires h < |subs|
  {
    exists u: nat :: Unshared(subs, g, u) && u < Start(subs[h])
  }

  /** Segments h and k have v, and every other one that has it starts, with a message of its own, before both. */
  ghost predicate SafeWith(subs: seq<Sub>, v: nat, h: nat, k: nat) {
    && h < |subs| && k < |subs| && v in Has(subs[h]) && v in Has(subs[k])
    && forall g: nat :: g < |subs| && v in Has(subs[g]) && g != h && g != k ==> Yields(subs, g, h) && Yields(subs, g, k)
  }

  /** At most two of the segments that share v do not open before the others with a message of their own. */
  ghost predicate Safe(subs: seq<Sub>, v: nat) {
    exists h: nat, k: nat :: SafeWith(subs, v, h, k)
  }

  ghost predicate KeepsSafe(subs: seq<Sub>, subs': seq<Sub>) {
    forall v :: Safe(subs, v) ==> Safe(subs', v)
  }

  /** No three segments have the number. */
  ghost predicate AtMostTwo(subs: seq<Sub>, v: nat) {
    forall i, j, k :: 0 <= i < j < k < |subs| ==> v !in Has(subs[i]) || v !in Has(subs[j]) || v !in Has(subs[k])
  }

  /** Sharing between two is always safe. */
  lemma {:induction false} TwoAreSafe(subs: seq<Sub>, v: nat)
    requires AtMostTwo(subs, v) && Covered(subs, v)
    ensures Safe(subs, v)
  {
    hide Has, Start;
    var h: nat :| h < |subs| && v in Has(subs[h]);
    if k: nat :| k < |subs| && k != h && v in Has(subs[k]) {
      forall g: nat | g < |subs| && v in Has(subs[g]) ensures g == h || g == k {
      }
      assert SafeWith(subs, v, h, k);
    } else {
      assert SafeWith(subs, v, h, h);
    }
  }

  /** What is in one segment only is safe. */
  lemma {:induction false} ExclusiveSafe(subs: seq<Sub>, v: nat)
    requires Exclusive(subs) && Covered(subs, v)
    ensures Safe(subs, v)
  {
    hide Has, Start;
    forall i, j, k | 0 <= i < j < k < |subs| ensures v !in Has(subs[i]) || v !in Has(subs[j]) || v !in Has(subs[k]) {
      assert Has(subs[i]) !! Has(subs[j]);
    }
    TwoAreSafe(subs, v);
  }

  lemma {:induction false} SafeCovered(subs: seq<Sub>, v: nat)
    requires Safe(subs, v)
    ensures Covered(subs, v)
  {
    hide Has, Start;
    var h: nat, k: nat :| SafeWith(subs, v, h, k);
    assert v in Has(subs[h]);
  }

  /** What segments have to themselves is still there. */
  ghost predicate OwnKept(subs0: seq<Sub>, subs: seq<Sub>) {
    |subs| == |subs0| && forall g: nat, u: nat :: Unshared(subs0, g, u) ==> u in Has(subs[g])
  }

  /** Both safe holders still have v, or their own pair has been dealt with and one of them has it. */
  ghost predicate Held(subs: seq<Sub>, pairs: seq<Pair>, n: nat, v: nat, h: nat, k: nat) {
    && h < |subs| && k < |subs| && n <= |pairs|
    && ((v in Has(subs[h]) && v in Has(subs[k])) || (Dealt(pairs, n, h, k) && (v in Has(subs[h]) || v in Has(subs[k]))))
  }

  ghost predicate Dealt(pairs: seq<Pair>, n: nat, h: nat, k: nat) {
    exists m :: 0 <= m < n && m < |pairs| && SamePair(pairs[m], h, k)
  }

  predicate SamePair(p: Pair, h: nat, k: nat) {
    (p.i, p.j) == (h, k) || (p.i, p.j) == (k, h)
  }

  ghost predicate SafeHeld(subs0: seq<Sub>, pairs: seq<Pair>, n: nat, subs: seq<Sub>) {
    forall v: nat, h: nat, k: nat :: SafeWith(subs0, v, h, k) ==> Held(subs, pairs, n, v, h, k)
  }

  /** The first n pairs are done: small ones no longer overlap, and safe numbers are not lost. */
  ghost predicate PassOne(subs0: seq<Sub>, pairs: seq<Pair>, n: nat, subs: seq<Sub>) {
    && n <= |pairs| && Shrunk(subs0, subs)
    && (forall k :: 0 <= k < n && Small(pairs[k]) ==> NotBoth(subs, pairs[k]))
    && OwnKept(subs0, subs) && SafeHeld(subs0, pairs, n, subs)
  }

  function StripAt(subs: seq<Sub>, a: nat, drop: set<nat>): (r: seq<Sub>)
    requires a < |subs|
    ensures |r| == |subs|
  {
    subs[a := subs[a].(members := Strip(subs[a].members, drop))]
  }

  lemma {:induction false} StripAtHas(subs: seq<Sub>, a: nat, drop: set<nat>, i: nat)
    requires a < |subs| && i < |subs|
    ensures Has(StripAt(subs, a, drop)[i]) == if i == a then Has(subs[i]) - drop else Has(subs[i])
  {
    StripNums(subs[a].members, drop);
  }

  lemma {:induction false} NoCommon(a: set<nat>, b: set<nat>)
    requires a * b == {}
    ensures a !! b
  {
    assert forall v :: v in a && v in b ==> v in a * b;
  }

  lemma {:induction false} Common(a: set<nat>, b: set<nat>, v: nat)
    requires v in a && v in b
    ensures !(a !! b)
  {
  }

  lemma {:induction false} PassOneSkip(subs0: seq<Sub>, pairs: seq<Pair>, n: nat, subs: seq<Sub>)
    requires n < |pairs| && PassOne(subs0, pairs, n, subs) && !Small(pairs[n])
    ensures PassOne(subs0, pairs, n + 1, subs)
  {
    hide Shrunk, OwnKept, NotBoth, SafeWith, Has;
    forall v: nat, h: nat, k: nat | SafeWith(subs0, v, h, k) ensures Held(subs, pairs, n + 1, v, h, k) {
      assert Held(subs, pairs, n, v, h, k);
      DealtStays(pairs, n, h, k);
    }
  }

  lemma {:induction false} DealtStays(pairs: seq<Pair>, n: nat, h: nat, k: nat)
    ensures Dealt(pairs, n, h, k) ==> Dealt(pairs, n + 1, h, k)
  {
  }

  /** A small pair: the one that starts no later loses what they share. */
  lemma {:induction false} PassOneStrip(subs0: seq<Sub>, pairs: seq<Pair>, n: nat, subs: seq<Sub>, a: nat, b: nat)
    requires n < |pairs| && AllPairs(subs0, pairs) && PassOne(subs0, pairs, n, subs) && SamePair(pairs[n], a, b)
    requires a < |subs| && b < |subs| && Start(subs[a]) <= Start(subs[b])
    ensures PassOne(subs0, pairs, n + 1, StripAt(subs, a, pairs[n].shared))
  {
    hide OwnKept, SafeHeld, NotBoth, Shrunk, AllPairs, IsPair, StripAt, Small, Start;
    var p := pairs[n];
    PairAt(subs0, pairs, n);
    ShrunkLength(subs0, subs);
    var subs' := StripAt(subs, a, p.shared);
    assert Shrunk(subs0, subs') by { StripAtShrinks(subs0, subs, a, p.shared); }
    forall k | 0 <= k < n + 1 && Small(pairs[k]) ensures NotBoth(subs', pairs[k]) {
      PairAt(subs0, pairs, k);
      StripNotBoth(subs, a, p.shared, pairs[k], k == n);
    }
    StripOwn(subs0, subs, a, p);
    StripHeld(subs0, pairs, n, subs, a, b);
  }

  lemma {:induction false} StripOwn(subs0: seq<Sub>, subs: seq<Sub>, a: nat, p: Pair)
    requires a < |subs| && OwnKept(subs0, subs) && IsPair(subs0, p)
    ensures OwnKept(subs0, StripAt(subs, a, p.shared))
  {
    hide Has, StripAt;
    forall g: nat, u: nat | Unshared(subs0, g, u) ensures u in Has(StripAt(subs, a, p.shared)[g]) {
      StripAtHas(subs, a, p.shared, g);
      assert p.i != g || p.j != g;
    }
  }

  lemma {:induction false} StripHeld(subs0: seq<Sub>, pairs: seq<Pair>, n: nat, subs: seq<Sub>, a: nat, b: nat)
    requires n < |pairs| && AllPairs(subs0, pairs) && Shrunk(subs0, subs) && SamePair(pairs[n], a, b)
    requires a < |subs| && b < |subs| && Start(subs[a]) <= Start(subs[b]) && OwnKept(subs0, subs) && SafeHeld(subs0, pairs, n, subs)
    ensures SafeHeld(subs0, pairs, n + 1, StripAt(subs, a, pairs[n].shared))
  {
    hide Has, Start, StripAt, SafeWith, Shrunk, OwnKept, AllPairs;
    forall v: nat, h: nat, k: nat | SafeWith(subs0, v, h, k) ensures Held(StripAt(subs, a, pairs[n].shared), pairs, n + 1, v, h, k) {
      StripHeldOne(subs0, pairs, n, subs, a, b, v, h, k);
    }
  }

  lemma {:induction false} StripHeldOne(subs0: seq<Sub>, pairs: seq<Pair>, n: nat, subs: seq<Sub>, a: nat, b: nat, v: nat, h: nat, k: nat)
    requires n < |pairs| && AllPairs(subs0, pairs) && Shrunk(subs0, subs) && SamePair(pairs[n], a, b)
    requires a < |subs| && b < |subs| && Start(subs[a]) <= Start(subs[b]) && OwnKept(subs0, subs)
    requires SafeWith(subs0, v, h, k) && Held(subs, pairs, n, v, h, k)
    ensures Held(StripAt(subs, a, pairs[n].shared), pairs, n + 1, v, h, k)
  {
    hide Has, Start, StripAt, SafeWith, Shrunk, OwnKept, AllPairs, IsPair;
    var p := pairs[n];
    var subs' := StripAt(subs, a, p.shared);
    StripAtHas(subs, a, p.shared, h);
    StripAtHas(subs, a, p.shared, k);
    DealtStays(pairs, n, h, k);
    PairAt(subs0, pairs, n);
    if SamePair(p, h, k) {
      NotDealt(subs0, pairs, n, h, k);
      assert Dealt(pairs, n + 1, h, k);
      assert h != k;
    } else if v in p.shared && (a == h || a == k) && v in Has(subs[a]) {
      NeverFirst(subs0, pairs, n, subs, a, b, v, h, k);
    }
  }

  lemma {:induction false} NotDealt(subs0: seq<Sub>, pairs: seq<Pair>, n: nat, h: nat, k: nat)
    requires AllPairs(subs0, pairs) && n < |pairs| && SamePair(pairs[n], h, k)
    ensures !Dealt(pairs, n, h, k)
  {
    hide Has;
    forall m | 0 <= m < n ensures !SamePair(pairs[m], h, k) {
      assert IsPair(subs0, pairs[m]) && IsPair(subs0, pairs[n]);
      assert (pairs[m].i, pairs[m].j) != (pairs[n].i, pairs[n].j);
    }
  }

  /** A safe holder that still has v starts after any other holder but its partner. */
  lemma {:induction false} NeverFirst(subs0: seq<Sub>, pairs: seq<Pair>, n: nat, subs: seq<Sub>, a: nat, b: nat, v: nat, h: nat, k: nat)
    requires n < |pairs| && AllPairs(subs0, pairs) && Shrunk(subs0, subs) && SamePair(pairs[n], a, b) && v in pairs[n].shared
    requires a < |subs| && b < |subs| && OwnKept(subs0, subs) && SafeWith(subs0, v, h, k)
    requires !SamePair(pairs[n], h, k) && (a == h || a == k) && v in Has(subs[a])
    ensures Start(subs[b]) < Start(subs[a])
  {
    hide Has, Start, Shrunk, OwnKept, AllPairs;
    PairAt(subs0, pairs, n);
    ShrunkLength(subs0, subs);
    assert v in Has(subs0[b]) && b != h && b != k;
    assert Yields(subs0, b, a);
    var u: nat :| Unshared(subs0, b, u) && u < Start(subs0[a]);
    OwnStart(subs0, subs, b, u);
    LaterStart(subs0, subs, a, v);
  }

  lemma {:induction false} OwnStart(subs0: seq<Sub>, subs: seq<Sub>, b: nat, u: nat)
    requires OwnKept(subs0, subs) && Unshared(subs0, b, u)
    ensures b < |subs| && Start(subs[b]) <= u
  {
    hide Has, Start;
    StartIs(subs[b]);
  }

  lemma {:induction false} LaterStart(subs0: seq<Sub>, subs: seq<Sub>, a: nat, v: nat)
    requires Shrunk(subs0, subs) && a < |subs| && v in Has(subs[a])
    ensures Start(subs0[a]) <= Start(subs[a])
  {
    hide Has, Start;
    LessHas(subs0[a], subs[a]);
    StartIs(subs0[a]);
    StartIs(subs[a]);
  }

  /** When all pairs are done, what was safe is safe. */
  lemma {:induction false} PassOneSafe(subs0: seq<Sub>, pairs: seq<Pair>, subs: seq<Sub>)
    requires PassOne(subs0, pairs, |pairs|, subs)
    ensures KeepsSafe(subs0, subs)
  {
    hide Has, Start, Shrunk, OwnKept, NotBoth, Small, Held, SafeWith;
    forall v | Safe(subs0, v) ensures Safe(subs, v) {
      var h: nat, k: nat :| SafeWith(subs0, v, h, k);
      assert Held(subs, pairs, |pairs|, v, h, k);
      HeldSafe(subs0, pairs, subs, v, h, k);
    }
  }

  lemma {:induction false} HeldSafe(subs0: seq<Sub>, pairs: seq<Pair>, subs: seq<Sub>, v: nat, h: nat, k: nat)
    requires Shrunk(subs0, subs) && OwnKept(subs0, subs) && SafeWith(subs0, v, h, k) && Held(subs, pairs, |pairs|, v, h, k)
    ensures Safe(subs, v)
  {
    hide Has, Start, Shrunk, OwnKept, Dealt;
    ShrunkLength(subs0, subs);
    var h' := if v in Has(subs[h]) then h else k;
    var k' := if v in Has(subs[k]) then k else h;
    forall g: nat | g < |subs| && v in Has(subs[g]) && g != h' && g != k' ensures Yields(subs, g, h') && Yields(subs, g, k') {
      HadBefore(subs0, subs, g, v);
      assert Yields(subs0, g, h) && Yields(subs0, g, k);
      YieldsStill(subs0, subs, g, h', v);
      YieldsStill(subs0, subs, g, k', v);
    }
    assert SafeWith(subs, v, h', k');
  }

  lemma {:induction false} HadBefore(subs0: seq<Sub>, subs: seq<Sub>, g: nat, v: nat)
    requires Shrunk(subs0, subs) && g < |subs| && v in Has(subs[g])
    ensures v in Has(subs0[g])
  {
    hide Has;
    LessHas(subs0[g], subs[g]);
  }

  lemma {:induction false} YieldsStill(subs0: seq<Sub>, subs: seq<Sub>, g: nat, h: nat, v: nat)
    requires Shrunk(subs0, subs) && OwnKept(subs0, subs) && h < |subs| && v in Has(subs[h]) && Yields(subs0, g, h)
    ensures Yields(subs, g, h)
  {
    hide Has, Start, Shrunk;
    ShrunkLength(subs0, subs);
    var u: nat :| Unshared(subs0, g, u) && u < Start(subs0[h]);
    LaterStart(subs0, subs, h, v);
    forall i | 0 <= i < |subs| && i != g ensures u !in Has(subs[i]) {
      if u in Has(subs[i]) {
        HadBefore(subs0, subs, i, u);
      }
    }
    assert Unshared(subs, g, u);
  }

  lemma {:induction false} PairAt(subs: seq<Sub>, pairs: seq<Pair>, k: nat)
    requires AllPairs(subs, pairs) && k < |pairs|
    ensures IsPair(subs, pairs[k]) && pairs[k].i < pairs[k].j < |subs|
  {
    hide Has;
    assert IsPair(subs, pairs[k]);
  }

  lemma {:induction false} StripAtShrinks(subs0: seq<Sub>, subs: seq<Sub>, a: nat, drop: set<nat>)
    requires Shrunk(subs0, subs) && a < |subs|
    ensures Shrunk(subs0, StripAt(subs, a, drop))
  {
    hide Shrunk;
    ShrunkLength(subs0, subs);
    ShrunkStep(subs0, subs, a, drop);
  }

  lemma {:induction false} StripNotBoth(subs: seq<Sub>, a: nat, drop: set<nat>, q: Pair, here: bool)
    requires a < |subs| && q.i < |subs| && q.j < |subs|
    requires if here then drop == q.shared && (a == q.i || a == q.j) else NotBoth(subs, q)
    ensures NotBoth(StripAt(subs, a, drop), q)
  {
    StripAtHas(subs, a, drop, q.i);
    StripAtHas(subs, a, drop, q.j);
  }

  lemma {:induction false} PassOneStart(subs: seq<Sub>, pairs: seq<Pair>)
    ensures PassOne(subs, pairs, 0, subs)
  {
    hide Has, Start, Yields, Dealt;
  }

  /** When all pairs are small, the first pass leaves no overlap. */
  lemma {:induction false} PassOneExclusive(subs0: seq<Sub>, pairs: seq<Pair>, subs: seq<Sub>)
    requires AllPairs(subs0, pairs) && PassOne(subs0, pairs, |pairs|, subs) && forall k :: 0 <= k < |pairs| ==> Small(pairs[k])
    ensures Exclusive(subs)
  {
    hide Has, Small, OwnKept, SafeHeld;
    forall i, j | 0 <= i < j < |subs| ensures Has(subs[i]) !! Has(subs[j]) {
      LessHas(subs0[i], subs[i]);
      LessHas(subs0[j], subs[j]);
      assert Has(subs[i]) * Has(subs[j]) <= Has(subs0[i]) * Has(subs0[j]);
      if Has(subs0[i]) * Has(subs0[j]) != {} {
        var k :| 0 <= k < |pairs| && pairs[k].i == i && pairs[k].j == j;
        assert IsPair(subs0, pairs[k]) && Small(pairs[k]) && NotBoth(subs, pairs[k]);
        assert Has(subs[i]) * Has(subs[j]) <= pairs[k].shared;
      }
      NoCommon(Has(subs[i]), Has(subs[j]));
    }
  }

  // ---- second pass: the narrowest segment keeps the message -------------------------------------

  /** Strictly narrower; a segment with no numbers is infinitely wide. */
  predicate Narrower(a: Sub, b: Sub) {
    var x, y := Listed(a), Listed(b);
    x != [] && (y == [] || x[|x| - 1] - x[0] < y[|y| - 1] - y[0])
  }

  /** The numbers of a segment reach from lo to hi. */
  ghost predicate Spans(s: Sub, lo: nat, hi: nat) {
    lo in Has(s) && hi in Has(s) && forall n :: n in Has(s) ==> lo <= n <= hi
  }

  /** From least to greatest number, a reaches less far than b. */
  ghost predicate Tighter(a: Sub, b: Sub) {
    exists lo: nat, hi: nat, lo': nat, hi': nat :: Spans(a, lo, hi) && Spans(b, lo', hi') && hi - lo < hi' - lo'
  }

  /** The same for any segments: one without numbers is infinitely wide. */
  ghost predicate Thinner(a: Sub, b: Sub) {
    Has(a) != {} && (Has(b) == {} || Tighter(a, b))
  }

  lemma {:induction false} SpanOf(s: Sub)
    requires Has(s) != {}
    ensures var list := Listed(s); list != [] && Spans(s, list[0], list[|list| - 1])
  {
    hide Has, Listed;
    var list := Listed(s);
    var v :| v in Has(s);
    assert v in list;
    assert list[0] in list && list[|list| - 1] in list;
    forall n | n in Has(s) ensures list[0] <= n <= list[|list| - 1] {
      assert n in list;
      var k :| 0 <= k < |list| && list[k] == n;
    }
  }

  /** Narrower means: a smaller distance from the least number to the greatest. */
  lemma {:induction false} NarrowerIs(a: Sub, b: Sub)
    ensures Narrower(a, b) <==> Thinner(a, b)
  {
    hide Has, Listed;
    NoneListed(a);
    NoneListed(b);
    if Has(a) != {} && Has(b) != {} {
      SpanOf(a);
      SpanOf(b);
      var x, y := Listed(a), Listed(b);
      if lo: nat, hi: nat, lo': nat, hi': nat :| Spans(a, lo, hi) && Spans(b, lo', hi') && hi - lo < hi' - lo' {
        assert lo == x[0] && hi == x[|x| - 1] && lo' == y[0] && hi' == y[|y| - 1];
      }
    }
  }

  lemma {:induction false} NoneListed(s: Sub)
    ensures Listed(s) == [] <==> Has(s) == {}
  {
    hide Has, Listed;
    FirstListed(Listed(s));
    if Has(s) != {} {
      var v :| v in Has(s);
      assert v in Listed(s);
    }
  }

  /** Of the holders of v, the first of those with the least span keeps it. */
  ghost predicate KeptBy(subs: seq<Sub>, v: nat, w: nat, subs': seq<Sub>) {
    && w < |subs| == |subs'| && v in Has(subs[w])
    && (forall g: nat :: g < |subs| && v in Has(subs[g]) ==> !Tighter(subs[g], subs[w]) && (g < w ==> Tighter(subs[w], subs[g])))
    && (forall i :: 0 <= i < |subs| ==> Has(subs'[i]) == if i == w then Has(subs[i]) else Has(subs[i]) - {v})
  }

  /** Number v is dealt with: one holder keeps it if several have it, and no other number moves. */
  ghost predicate Settled(subs: seq<Sub>, v: nat, subs': seq<Sub>) {
    if AtMostOne(subs, v) then subs' == subs else exists w: nat :: KeptBy(subs, v, w, subs')
  }

  ghost predicate SettledAll(states: seq<seq<Sub>>, keys: seq<nat>, n: nat) {
    |states| == n + 1 && n <= |keys| && forall x :: 0 <= x < n ==> Settled(states[x], keys[x], states[x + 1])
  }

  /** All numbers are dealt with, in the order they are first met. */
  ghost predicate Narrowed(subs: seq<Sub>, subs': seq<Sub>) {
    exists keys, states :: NarrowedBy(subs, subs', keys, states)
  }

  ghost predicate NarrowedBy(subs: seq<Sub>, subs': seq<Sub>, keys: seq<nat>, states: seq<seq<Sub>>) {
    && KeysMet(subs, |subs|, keys) && Distinct(keys) && (forall v :: Covered(subs, v) ==> v in keys)
    && SettledAll(states, keys, |keys|) && states[0] == subs && states[|keys|] == subs'
  }

  lemma {:induction false} SettleNext(states: seq<seq<Sub>>, keys: seq<nat>, n: nat, subs: seq<Sub>)
    requires SettledAll(states, keys, n) && n < |keys| && Settled(states[n], keys[n], subs)
    ensures SettledAll(states + [subs], keys, n + 1)
  {
    hide Settled;
  }

  ghost predicate AtMostOne(subs: seq<Sub>, v: nat) {
    forall i, j :: 0 <= i < j < |subs| ==> v !in Has(subs[i]) || v !in Has(subs[j])
  }

  ghost predicate SameFor(subs: seq<Sub>, subs': seq<Sub>, v: nat) {
    |subs| == |subs'| && forall i :: 0 <= i < |subs| ==> (v in Has(subs[i]) <==> v in Has(subs'[i]))
  }

  /** Numbers before key n are settled, the others untouched. */
  ghost predicate PassTwo(subs0: seq<Sub>, keys: seq<nat>, n: nat, subs: seq<Sub>) {
    && n <= |keys| && Shrunk(subs0, subs)
    && (forall x :: 0 <= x < n ==> AtMostOne(subs, keys[x]))
    && (forall v :: Covered(subs0, v) ==> Covered(subs, v))
    && (forall x :: n <= x < |keys| ==> SameFor(subs0, subs, keys[x]))
  }

  /** subs with v taken from the first n of `list`, but not from the winner. */
  function StripOthers(subs: seq<Sub>, list: seq<nat>, winner: nat, v: nat, n: nat): (r: seq<Sub>)
    requires n <= |list| && forall a :: 0 <= a < |list| ==> list[a] < |subs|
    ensures |r| == |subs|
  {
    if n == 0 then subs else
      var before := StripOthers(subs, list, winner, v, n - 1);
      if list[n - 1] == winner then before else StripAt(before, list[n - 1], {v})
  }

  lemma {:induction false} StripOthersHas(subs: seq<Sub>, list: seq<nat>, winner: nat, v: nat, n: nat, i: nat)
    requires n <= |list| && (forall a :: 0 <= a < |list| ==> list[a] < |subs|) && i < |subs|
    ensures Has(StripOthers(subs, list, winner, v, n)[i]) ==
            if i in list[..n] && i != winner then Has(subs[i]) - {v} else Has(subs[i])
  {
    hide Has;
    if n > 0 {
      StripOthersHas(subs, list, winner, v, n - 1, i);
      StripAtHas(StripOthers(subs, list, winner, v, n - 1), list[n - 1], {v}, i);
      assert list[..n] == list[..n - 1] + [list[n - 1]];
    } else {
      assert list[..0] == [];
    }
  }

  lemma {:induction false} StripOthersShrinks(subs0: seq<Sub>, subs: seq<Sub>, list: seq<nat>, winner: nat, v: nat, n: nat)
    requires Shrunk(subs0, subs) && n <= |list| && forall a :: 0 <= a < |list| ==> list[a] < |subs|
    ensures Shrunk(subs0, StripOthers(subs, list, winner, v, n))
  {
    hide Shrunk;
    if n > 0 {
      StripOthersShrinks(subs0, subs, list, winner, v, n - 1);
      ShrunkLength(subs0, subs);
      ShrunkStep(subs0, StripOthers(subs, list, winner, v, n - 1), list[n - 1], {v});
    }
  }

  lemma {:induction false} ShrunkLength(subs0: seq<Sub>, subs: seq<Sub>)
    requires Shrunk(subs0, subs)
    ensures |subs0| == |subs|
  {
  }

  /** Taking v from all its holders but one settles v and changes no other number. */
  lemma {:induction false} PassTwoStep(subs0: seq<Sub>, keys: seq<nat>, n: nat, subs: seq<Sub>, list: seq<nat>, winner: nat)
    requires n < |keys| && Distinct(keys) && PassTwo(subs0, keys, n, subs)
    requires list == Holders(subs0, keys[n], |subs0|) && winner in list
    requires forall a :: 0 <= a < |list| ==> list[a] < |subs|
    ensures PassTwo(subs0, keys, n + 1, StripOthers(subs, list, winner, keys[n], |list|))
  {
    hide Has, Shrunk, AtMostOne, SameFor, Covered, Holders;
    var v := keys[n];
    var subs' := StripOthers(subs, list, winner, v, |list|);
    ShrunkLength(subs0, subs);
    StripOthersShrinks(subs0, subs, list, winner, v, |list|);
    assert list[..|list|] == list;
    HoldersHave(subs0, v, |subs0|);
    assert SameFor(subs0, subs, v);
    forall x | 0 <= x < |keys| && x != n
      ensures (AtMostOne(subs, keys[x]) ==> AtMostOne(subs', keys[x])) && (SameFor(subs0, subs, keys[x]) ==> SameFor(subs0, subs', keys[x]))
    {
      assert keys[x] != v by { DistinctAt(keys, x, n); }
      OtherNumbers(subs0, subs, list, winner, v, keys[x]);
    }
    WinnerOnly(subs0, subs, list, winner, v);
  }

  lemma {:induction false} DistinctAt(keys: seq<nat>, x: nat, n: nat)
    requires Distinct(keys) && x < |keys| && n < |keys| && x != n
    ensures keys[x] != keys[n]
  {
  }

  lemma {:induction false} OtherNumbers(subs0: seq<Sub>, subs: seq<Sub>, list: seq<nat>, winner: nat, v: nat, u: nat)
    requires u != v && |subs0| == |subs| && forall a :: 0 <= a < |list| ==> list[a] < |subs|
    ensures var subs' := StripOthers(subs, list, winner, v, |list|);
            (AtMostOne(subs, u) ==> AtMostOne(subs', u)) && (SameFor(subs0, subs, u) ==> SameFor(subs0, subs', u))
  {
    hide Has, StripOthers;
    var subs' := StripOthers(subs, list, winner, v, |list|);
    forall i | 0 <= i < |subs| ensures u in Has(subs'[i]) <==> u in Has(subs[i]) {
      StripOthersHas(subs, list, winner, v, |list|, i);
    }
  }

  lemma {:induction false} WinnerOnly(subs0: seq<Sub>, subs: seq<Sub>, list: seq<nat>, winner: nat, v: nat)
    requires |subs0| == |subs| && winner in list && (forall a :: 0 <= a < |list| ==> list[a] < |subs|)
    requires SameFor(subs0, subs, v) && forall i: nat :: i in list <==> i < |subs0| && v in Has(subs0[i])
    ensures var subs' := StripOthers(subs, list, winner, v, |list|);
            AtMostOne(subs', v) && forall u :: Covered(subs, u) ==> Covered(subs', u)
  {
    hide Has, StripOthers;
    var subs' := StripOthers(subs, list, winner, v, |list|);
    assert list[..|list|] == list;
    forall i: nat | i < |subs| ensures Has(subs'[i]) == if i in list && i != winner then Has(subs[i]) - {v} else Has(subs[i]) {
      StripOthersHas(subs, list, winner, v, |list|, i);
    }
    forall i: nat | i < |subs| && i != winner ensures v !in Has(subs'[i]) {
    }
    forall u | Covered(subs, u) ensures Covered(subs', u) {
      var i :| 0 <= i < |subs| && u in Has(subs[i]);
      assert u in Has(subs'[i]) || u in Has(subs'[winner]);
    }
  }

  lemma {:induction false} PassTwoStart(subs: seq<Sub>, keys: seq<nat>)
    ensures PassTwo(subs, keys, 0, subs)
  {
    hide Has;
  }

  lemma {:induction false} PassTwoExclusive(subs0: seq<Sub>, keys: seq<nat>, table: map<nat, seq<nat>>, subs: seq<Sub>)
    requires Table(subs0, |subs0|, keys, table) && PassTwo(subs0, keys, |keys|, subs)
    ensures Exclusive(subs)
  {
    hide Has, Table;
    forall i, j | 0 <= i < j < |subs| ensures Has(subs[i]) !! Has(subs[j]) {
      LessHas(subs0[i], subs[i]);
      forall v | v in Has(subs[i]) ensures v !in Has(subs[j]) {
        KeyOf(subs0, keys, table, v, i);
        var x :| 0 <= x < |keys| && keys[x] == v;
        assert AtMostOne(subs, keys[x]);
      }
    }
  }

  // ---- edges ------------------------------------------------------------------------------------

  ghost predicate NamesSub(subs: seq<Sub>, id: string) {
    exists i :: 0 <= i < |subs| && subs[i].id == id
  }

  /** Every edge joins two segments that are there. */
  ghost predicate Closed(subs: seq<Sub>, edges: seq<Edge>) {
    forall k :: 0 <= k < |edges| ==> NamesSub(subs, edges[k].from) && NamesSub(subs, edges[k].to)
  }

  predicate Joins(e: Edge, a: string, b: string) {
    (e.from == a && e.to == b) || (e.from == b && e.to == a)
  }

  /** The two ids need no edge, or there is one. */
  ghost predicate Related(edges: seq<Edge>, a: string, b: string) {
    a == "" || b == "" || a == b || exists k :: 0 <= k < |edges| && Joins(edges[k], a, b)
  }

  /** A pivot edge put in for a pair of segments that share one or two numbers. */
  ghost predicate PivotOf(subs: seq<Sub>, p: Pair, e: Edge) {
    p.i < |subs| && p.j < |subs| && Small(p) && e.label' == PIVOT_EDGE && Joins(e, subs[p.i].id, subs[p.j].id)
  }

  /** After n pairs: the old edges first, then pivot edges, and every small pair is related by an edge. */
  ghost predicate EdgesAfter(subs0: seq<Sub>, pairs: seq<Pair>, n: nat, edges0: seq<Edge>, edges: seq<Edge>) {
    && n <= |pairs| && edges0 <= edges
    && (forall m :: |edges0| <= m < |edges| ==> exists k :: 0 <= k < n && PivotOf(subs0, pairs[k], edges[m]))
    && (forall k :: 0 <= k < n && Small(pairs[k]) ==> PairRelated(subs0, pairs[k], edges))
  }

  ghost predicate PairRelated(subs: seq<Sub>, p: Pair, edges: seq<Edge>) {
    p.i < |subs| && p.j < |subs| && Related(edges, subs[p.i].id, subs[p.j].id)
  }

  lemma {:induction false} EdgesSkip(subs0: seq<Sub>, pairs: seq<Pair>, n: nat, edges0: seq<Edge>, edges: seq<Edge>)
    requires n < |pairs| && EdgesAfter(subs0, pairs, n, edges0, edges) && !Small(pairs[n])
    ensures EdgesAfter(subs0, pairs, n + 1, edges0, edges)
  {
    hide PivotOf, PairRelated, Small;
  }

  lemma {:induction false} EdgesNext(subs0: seq<Sub>, pairs: seq<Pair>, n: nat, edges0: seq<Edge>, edges: seq<Edge>, edges': seq<Edge>)
    requires n < |pairs| && EdgesAfter(subs0, pairs, n, edges0, edges) && Small(pairs[n]) && PairRelated(subs0, pairs[n], edges')
    requires edges' == edges || (|edges'| == |edges| + 1 && edges <= edges' && PivotOf(subs0, pairs[n], edges'[|edges|]))
    ensures EdgesAfter(subs0, pairs, n + 1, edges0, edges')
  {
    hide PivotOf, Small, Related;
    forall k | 0 <= k < n + 1 && Small(pairs[k]) ensures PairRelated(subs0, pairs[k], edges') {
      if k < n {
        RelatedStays(edges, edges', subs0[pairs[k].i].id, subs0[pairs[k].j].id);
      }
    }
    forall m | |edges0| <= m < |edges'| ensures exists k :: 0 <= k < n + 1 && PivotOf(subs0, pairs[k], edges'[m]) {
      if m < |edges| {
        var k :| 0 <= k < n && PivotOf(subs0, pairs[k], edges[m]);
        assert edges'[m] == edges[m];
      } else {
        assert PivotOf(subs0, pairs[n], edges'[m]);
      }
    }
  }

  lemma {:induction false} RelatedStays(edges: seq<Edge>, edges': seq<Edge>, a: string, b: string)
    requires Related(edges, a, b) && edges <= edges'
    ensures Related(edges', a, b)
  {
    if k :| 0 <= k < |edges| && Joins(edges[k], a, b) {
      assert Joins(edges'[k], a, b);
    }
  }

  /** Segments that shrink keep their ids, so closed edges stay closed with the pivots added. */
  lemma {:induction false} StillClosed(subs0: seq<Sub>, pairs: seq<Pair>, n: nat, edges0: seq<Edge>, subs: seq<Sub>, edges: seq<Edge>)
    requires Closed(subs0, edges0) && Shrunk(subs0, subs) && EdgesAfter(subs0, pairs, n, edges0, edges)
    ensures Closed(subs, edges)
  {
    hide Related, Small, Closed;
    forall m | 0 <= m < |edges| ensures NamesSub(subs, edges[m].from) && NamesSub(subs, edges[m].to) {
      if m < |edges0| {
        assert edges[m] == edges0[m];
        ClosedAt(subs0, edges0, m);
      } else {
        var k :| 0 <= k < n && PivotOf(subs0, pairs[k], edges[m]);
        assert NamesSub(subs0, subs0[pairs[k].i].id) && NamesSub(subs0, subs0[pairs[k].j].id);
      }
      NamesStay(subs0, subs, edges[m].from);
      NamesStay(subs0, subs, edges[m].to);
    }
    AllNamed(subs, edges);
  }

  lemma {:induction false} ClosedAt(subs: seq<Sub>, edges: seq<Edge>, m: nat)
    requires Closed(subs, edges) && m < |edges|
    ensures NamesSub(subs, edges[m].from) && NamesSub(subs, edges[m].to)
  {
  }

  lemma {:induction false} AllNamed(subs: seq<Sub>, edges: seq<Edge>)
    requires forall k :: 0 <= k < |edges| ==> NamesSub(subs, edges[k].from) && NamesSub(subs, edges[k].to)
    ensures Closed(subs, edges)
  {
  }

  lemma {:induction false} NamesStay(subs: seq<Sub>, subs': seq<Sub>, id: string)
    requires Shrunk(subs, subs') && NamesSub(subs, id)
    ensures NamesSub(subs', id)
  {
    var i :| 0 <= i < |subs| && subs[i].id == id;
    assert Less(subs[i], subs'[i]) && subs'[i].id == id;
  }

  // ---- pruning ----------------------------------------------------------------------------------

  /** The segments that still have a number, in order. */
  function Kept(subs: seq<Sub>): (r: seq<Sub>)
    ensures forall s :: s in r <==> s in subs && Has(s) != {}
  {
    if subs == [] then [] else
      var n := |subs| - 1;
      Kept(subs[..n]) + (if Has(subs[n]) != {} then [subs[n]] else [])
  }

  /** The ids of the segments left with nothing. */
  function Dropped(subs: seq<Sub>): set<string> {
    set s | s in subs && Has(s) == {} :: s.id
  }

  function Cull(edges: seq<Edge>, gone: set<string>): seq<Edge> {
    if edges == [] then [] else
      var n := |edges| - 1;
      Cull(edges[..n], gone) + (if edges[n].from !in gone && edges[n].to !in gone then [edges[n]] else [])
  }

  lemma {:induction false} KeptEmpty()
    ensures Kept([]) == []
  {
  }

  lemma {:induction false} KeptNext(subs: seq<Sub>, last: Sub)
    ensures Kept(subs + [last]) == Kept(subs) + (if Has(last) != {} then [last] else [])
  {
    hide Has;
    assert (subs + [last])[..|subs|] == subs;
  }

  lemma {:induction false} KeptAll(subs: seq<Sub>)
    requires forall i :: 0 <= i < |subs| ==> Has(subs[i]) != {}
    ensures Kept(subs) == subs
  {
    hide Has, Kept;
    if subs == [] {
      KeptEmpty();
    } else {
      var before, last := subs[..|subs| - 1], subs[|subs| - 1];
      KeptAll(before);
      KeptNext(before, last);
      assert subs == before + [last];
    }
  }

  lemma {:induction false} CullHas(edges: seq<Edge>, gone: set<string>)
    ensures forall e :: e in Cull(edges, gone) <==> e in edges && e.from !in gone && e.to !in gone
  {
    if edges != [] {
      var before, last := edges[..|edges| - 1], edges[|edges| - 1];
      CullHas(before, gone);
      assert edges == before + [last];
    }
  }

  lemma {:induction false} CullNext(edges: seq<Edge>, last: Edge, gone: set<string>)
    ensures Cull(edges + [last], gone) == Cull(edges, gone) + (if last.from !in gone && last.to !in gone then [last] else [])
  {
    assert (edges + [last])[..|edges|] == edges;
  }

  lemma {:induction false} CullNone(edges: seq<Edge>, gone: set<string>)
    requires gone == {}
    ensures Cull(edges, gone) == edges
  {
    hide Cull;
    if edges == [] {
      CullEmpty(gone);
    } else {
      var before, last := edges[..|edges| - 1], edges[|edges| - 1];
      CullNone(before, gone);
      CullNext(before, last, gone);
      assert edges == before + [last];
    }
  }

  lemma {:induction false} CullEmpty(gone: set<string>)
    ensures Cull([], gone) == []
  {
  }

  lemma {:induction false} KeptExclusive(subs: seq<Sub>)
    requires Exclusive(subs)
    ensures Exclusive(Kept(subs))
  {
    hide Has;
    if subs != [] {
      var n := |subs| - 1;
      KeptExclusive(subs[..n]);
      var before := Kept(subs[..n]);
      forall i | 0 <= i < |before| ensures Has(before[i]) !! Has(subs[n]) {
        assert before[i] in before && before[i] in subs[..n];
        var j :| 0 <= j < n && subs[j] == before[i];
        assert Has(subs[j]) !! Has(subs[n]);
      }
    }
  }

  lemma {:induction false} KeptCovers(subs: seq<Sub>)
    ensures forall v :: Covered(subs, v) <==> Covered(Kept(subs), v)
  {
    hide Has, Kept;
    var kept := Kept(subs);
    forall v | Covered(subs, v) ensures Covered(kept, v) {
      var i :| 0 <= i < |subs| && v in Has(subs[i]);
      assert subs[i] in kept;
      var j :| 0 <= j < |kept| && kept[j] == subs[i];
      assert v in Has(kept[j]);
    }
    forall v | Covered(kept, v) ensures Covered(subs, v) {
      var j :| 0 <= j < |kept| && v in Has(kept[j]);
      assert kept[j] in kept && kept[j] in subs;
    }
  }

  lemma {:induction false} KeptClosed(subs: seq<Sub>, edges: seq<Edge>)
    requires Closed(subs, edges)
    ensures Closed(Kept(subs), Cull(edges, Dropped(subs)))
  {
    hide Has, Kept, Cull;
    var gone, edges' := Dropped(subs), Cull(edges, Dropped(subs));
    CullHas(edges, gone);
    forall k | 0 <= k < |edges'| ensures NamesSub(Kept(subs), edges'[k].from) && NamesSub(Kept(subs), edges'[k].to) {
      assert edges'[k] in edges' && edges'[k] in edges;
      var m :| 0 <= m < |edges| && edges[m] == edges'[k];
      KeptNames(subs, edges[m].from);
      KeptNames(subs, edges[m].to);
    }
  }

  lemma {:induction false} KeptNames(subs: seq<Sub>, id: string)
    requires NamesSub(subs, id) && id !in Dropped(subs)
    ensures NamesSub(Kept(subs), id)
  {
    hide Has, Kept;
    var i :| 0 <= i < |subs| && subs[i].id == id;
    assert subs[i] in subs && subs[i] in Kept(subs);
    var j :| 0 <= j < |Kept(subs)| && Kept(subs)[j] == subs[i];
  }

  // ---- the audit --------------------------------------------------------------------------------

  /** No segment lists a number twice. */
  ghost predicate Once(subs: seq<Sub>) {
    forall i :: 0 <= i < |subs| ==> OnceIn(subs[i].members)
  }

  ghost predicate OnceIn(es: seq<Entry>) {
    forall n :: multiset(es)[Num(n)] <= 1
  }

  lemma {:induction false} ShrunkOnce(subs: seq<Sub>, subs': seq<Sub>)
    requires Once(subs) && Shrunk(subs, subs')
    ensures Once(subs')
  {
    forall i | 0 <= i < |subs'| ensures OnceIn(subs'[i].members) {
      assert Less(subs[i], subs'[i]) && OnceIn(subs[i].members);
    }
  }

  lemma {:induction false} NumCount(es: seq<Entry>, v: nat)
    ensures multiset(NumList(es))[v] == multiset(es)[Num(v)]
  {
    if es != [] {
      var head, tail := es[0], es[1..];
      NumCount(tail, v);
      assert es == [head] + tail;
      assert multiset(es)[Num(v)] == multiset(tail)[Num(v)] + if head == Num(v) then 1 else 0;
      assert NumList(es) == (if head.Num? then [head.n] else []) + NumList(tail);
    }
  }

  /** How often each number is listed by the first n segments. */
  function Tally(subs: seq<Sub>, n: nat): multiset<nat>
    requires n <= |subs|
  {
    if n == 0 then multiset{} else Tally(subs, n - 1) + multiset(NumList(subs[n - 1].members))
  }

  lemma {:induction false} TallyCounts(subs: seq<Sub>, n: nat, v: nat)
    requires n <= |subs| && Once(subs)
    ensures Tally(subs, n)[v] == |Holders(subs, v, n)|
  {
    if n > 0 {
      TallyCounts(subs, n - 1, v);
      var es := subs[n - 1].members;
      NumCount(es, v);
      assert OnceIn(es);
      assert Num(v) in es <==> Num(v) in multiset(es);
    }
  }

  lemma {:induction false} SharedCountsTwice(subs: seq<Sub>, v: nat, i: nat, j: nat)
    requires Once(subs) && i < j < |subs| && v in Has(subs[i]) && v in Has(subs[j])
    ensures Tally(subs, |subs|)[v] >= 2
  {
    hide Has, Holders, Once, Tally;
    TallyCounts(subs, |subs|, v);
    HoldersHave(subs, v, |subs|);
    var list := Holders(subs, v, |subs|);
    var a :| 0 <= a < |list| && list[a] == i;
    var b :| 0 <= b < |list| && list[b] == j;
    assert a != b;
  }

  lemma {:induction false} CountedTwiceShared(subs: seq<Sub>, v: nat) returns (i: nat, j: nat)
    requires Once(subs) && Tally(subs, |subs|)[v] > 1
    ensures i < j < |subs| && v in Has(subs[i]) && v in Has(subs[j])
  {
    hide Has, Holders, Once, Tally;
    TallyCounts(subs, |subs|, v);
    HoldersHave(subs, v, |subs|);
    var list := Holders(subs, v, |subs|);
    i, j := list[0], list[1];
    assert list[0] in list && list[1] in list;
  }

  ghost predicate CountedOnce(subs: seq<Sub>) {
    forall v: nat :: Tally(subs, |subs|)[v] <= 1
  }

  /** Numbers listed more than once are exactly what two segments share. */
  lemma {:induction false} ExclusiveIff(subs: seq<Sub>)
    requires Once(subs)
    ensures Exclusive(subs) <==> CountedOnce(subs)
  {
    hide Once, Exclusive, CountedOnce;
    if Exclusive(subs) {
      ExclusiveCounts(subs);
    }
    if CountedOnce(subs) {
      CountsExclusive(subs);
    }
  }

  lemma {:induction false} ExclusiveCounts(subs: seq<Sub>)
    requires Once(subs) && Exclusive(subs)
    ensures CountedOnce(subs)
  {
    hide Has, Once, Tally;
    forall v: nat ensures Tally(subs, |subs|)[v] <= 1 {
      if Tally(subs, |subs|)[v] > 1 {
        var i, j := CountedTwiceShared(subs, v);
        Common(Has(subs[i]), Has(subs[j]), v);
      }
    }
  }

  lemma {:induction false} CountsExclusive(subs: seq<Sub>)
    requires Once(subs) && CountedOnce(subs)
    ensures Exclusive(subs)
  {
    hide Has, Once, Tally;
    forall i, j | 0 <= i < j < |subs| ensures Has(subs[i]) !! Has(subs[j]) {
      forall v | v in Has(subs[i]) ensures v !in Has(subs[j]) {
        if v in Has(subs[j]) {
          SharedCountsTwice(subs, v, i, j);
        }
      }
    }
  }

  lemma {:induction false} TallyCovers(subs: seq<Sub>, n: nat, v: nat)
    requires n <= |subs|
    ensures v in Tally(subs, n) <==> exists i :: 0 <= i < n && v in Has(subs[i])
  {
    if n > 0 {
      TallyCovers(subs, n - 1, v);
      NumCount(subs[n - 1].members, v);
      assert Num(v) in multiset(subs[n - 1].members) <==> v in Has(subs[n - 1]);
    }
  }

  /** Which numbers are listed more than once, and which of 1..rows are not listed. */
  method AuditMembership(subs: seq<Sub>, rows: nat) returns (overlaps: seq<nat>, missing: seq<nat>)
    ensures Ascends(overlaps) && forall v: nat :: v in overlaps <==> Tally(subs, |subs|)[v] > 1
    ensures Ascends(missing) && forall v: nat :: v in missing <==> 1 <= v <= rows && !Covered(subs, v)
  {
    hide Has;
    var cnt: multiset<nat>, nums: seq<nat> := multiset{}, [];
    for n := 0 to |subs|
      invariant cnt == Tally(subs, n) && forall v: nat :: v in nums <==> v in cnt
    {
      cnt, nums := cnt + multiset(NumList(subs[n].members)), nums + NumList(subs[n].members);
    }
    overlaps := Repeated(Ids(nums), cnt);
    missing := Absent(cnt, rows);
    forall v ensures v in cnt <==> Covered(subs, v) {
      TallyCovers(subs, |subs|, v);
    }
  }

  method Repeated(keys: seq<nat>, cnt: multiset<nat>) returns (r: seq<nat>)
    requires Ascends(keys) && forall v: nat :: v in keys <==> v in cnt
    ensures Ascends(r) && forall v: nat :: v in r <==> cnt[v] > 1
  {
    r := [];
    for k := 0 to |keys|
      invariant Ascends(r) && (forall v: nat :: v in r <==> v in keys[..k] && cnt[v] > 1)
    {
      assert keys[..k + 1] == keys[..k] + [keys[k]];
      assert forall x :: 0 <= x < |r| ==> r[x] in r;
      if cnt[keys[k]] > 1 {
        r := r + [keys[k]];
      }
    }
    assert keys[..|keys|] == keys;
  }

  method Absent(cnt: multiset<nat>, rows: nat) returns (r: seq<nat>)
    ensures Ascends(r) && forall v: nat :: v in r <==> 1 <= v <= rows && v !in cnt
  {
    r := [];
    for v := 1 to rows + 1
      invariant Ascends(r) && forall u: nat :: u in r <==> 1 <= u < v && u !in cnt
    {
      assert forall x :: 0 <= x < |r| ==> r[x] in r;
      if v !in cnt {
        r := r + [v];
      }
    }
  }
}
