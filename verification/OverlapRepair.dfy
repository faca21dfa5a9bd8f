/** Overlap resolution on a decomposition that is changed in place, and the retry loop around it. */
module OverlapRepair {
  import opened Overlaps

  /** Two segments share more than a pivot. */
  ghost predicate Large(subs: seq<Sub>) {
    exists i, j :: 0 <= i < j < |subs| && |Has(subs[i]) * Has(subs[j])| > PIVOT_MAX
  }

  ghost predicate LargePair(pairs: seq<Pair>, n: nat) {
    exists k :: 0 <= k < n && k < |pairs| && !Small(pairs[k])
  }

  lemma {:induction false} LargeIff(subs: seq<Sub>, pairs: seq<Pair>)
    requires AllPairs(subs, pairs)
    ensures Large(subs) <==> LargePair(pairs, |pairs|)
  {
    hide Has, Small, IsPair;
    if k :| 0 <= k < |pairs| && !Small(pairs[k]) {
      LargePairIs(subs, pairs, k);
    }
    if i, j :| 0 <= i < j < |subs| && |Has(subs[i]) * Has(subs[j])| > PIVOT_MAX {
      var k :| 0 <= k < |pairs| && pairs[k].i == i && pairs[k].j == j;
      LargePairIs(subs, pairs, k);
    }
  }

  lemma {:induction false} LargePairIs(subs: seq<Sub>, pairs: seq<Pair>, k: nat)
    requires AllPairs(subs, pairs) && k < |pairs|
    ensures pairs[k].i < pairs[k].j < |subs| && (!Small(pairs[k]) <==> |Has(subs[pairs[k].i]) * Has(subs[pairs[k].j])| > PIVOT_MAX)
  {
    hide Has;
    assert IsPair(subs, pairs[k]);
  }

  lemma {:induction false} ExclusiveNotLarge(subs: seq<Sub>)
    requires Exclusive(subs)
    ensures !Large(subs)
  {
    hide Has;
    forall i, j | 0 <= i < j < |subs| ensures |Has(subs[i]) * Has(subs[j])| <= PIVOT_MAX {
      assert Has(subs[i]) * Has(subs[j]) == {};
    }
  }

  // ---- what repair may do -----------------------------------------------------------------------

  /** The same segments with the same numbers, repeats dropped. */
  ghost predicate Deduped(subs: seq<Sub>, subs': seq<Sub>) {
    Shrunk(subs, subs') && Once(subs') && SameNumbers(subs, subs')
  }

  ghost predicate SameNumbers(subs: seq<Sub>, subs': seq<Sub>) {
    |subs| == |subs'| && forall i :: 0 <= i < |subs| ==> Has(subs[i]) == Has(subs'[i])
  }

  /** Segments only lose members; afterwards the ones left empty may be gone. */
  ghost predicate Trimmed(subs: seq<Sub>, subs': seq<Sub>) {
    exists mid :: Shrunk(subs, mid) && (subs' == mid || subs' == Kept(mid))
  }

  ghost predicate KeepsAll(subs: seq<Sub>, subs': seq<Sub>) {
    forall v :: Covered(subs, v) ==> Covered(subs', v)
  }

  lemma {:induction false} ShrunkTrans(a: seq<Sub>, b: seq<Sub>, c: seq<Sub>)
    requires Shrunk(a, b) && Shrunk(b, c)
    ensures Shrunk(a, c)
  {
    forall i | 0 <= i < |a| ensures Less(a[i], c[i]) {
      assert Less(a[i], b[i]) && Less(b[i], c[i]);
    }
  }

  lemma {:induction false} TrimmedTrans(a: seq<Sub>, b: seq<Sub>, c: seq<Sub>)
    requires Shrunk(a, b) && Trimmed(b, c)
    ensures Trimmed(a, c)
  {
    hide Shrunk, Kept;
    var mid :| Shrunk(b, mid) && (c == mid || c == Kept(mid));
    ShrunkTrans(a, b, mid);
  }

  lemma {:induction false} SameCovers(a: seq<Sub>, b: seq<Sub>)
    requires SameNumbers(a, b)
    ensures KeepsAll(a, b) && (Large(a) <==> Large(b))
  {
    hide Has;
  }

  /** Safety depends on the numbers only. */
  lemma {:induction false} SameSafe(a: seq<Sub>, b: seq<Sub>)
    requires SameNumbers(a, b)
    ensures KeepsSafe(a, b)
  {
    hide Has, Start;
    forall v | Safe(a, v) ensures Safe(b, v) {
      var h: nat, k: nat :| SafeWith(a, v, h, k);
      forall g: nat | g < |b| && v in Has(b[g]) && g != h && g != k ensures Yields(b, g, h) && Yields(b, g, k) {
        assert Yields(a, g, h) && Yields(a, g, k);
        SameYields(a, b, g, h);
        SameYields(a, b, g, k);
      }
      assert SafeWith(b, v, h, k);
    }
  }

  lemma {:induction false} SameYields(a: seq<Sub>, b: seq<Sub>, g: nat, h: nat)
    requires SameNumbers(a, b) && h < |a| && Yields(a, g, h)
    ensures Yields(b, g, h)
  {
    hide Has, Start;
    SameStart(a[h], b[h]);
    var u: nat :| Unshared(a, g, u) && u < Start(a[h]);
    assert Unshared(b, g, u);
  }

  lemma {:induction false} SameStart(s: Sub, s': Sub)
    requires Has(s) == Has(s')
    ensures Start(s) == Start(s')
  {
    hide Has, Start;
    StartIs(s);
    StartIs(s');
  }

  /** Without overlap, what is there is safe. */
  lemma {:induction false} AllSafe(a: seq<Sub>, b: seq<Sub>)
    requires KeepsAll(a, b) && Exclusive(b)
    ensures KeepsSafe(a, b)
  {
    hide Covered, Safe, Exclusive;
    forall v | Safe(a, v) ensures Safe(b, v) {
      SafeCovered(a, v);
      ExclusiveSafe(b, v);
    }
  }

  lemma {:induction false} SafeTrans(a: seq<Sub>, b: seq<Sub>, c: seq<Sub>)
    requires KeepsSafe(a, b) && KeepsSafe(b, c)
    ensures KeepsSafe(a, c)
  {
    hide Safe;
  }

  /** Every edge is an old one, or a pivot edge between two segments that shared a number. */
  ghost predicate OnlyPivots(subs: seq<Sub>, edges: seq<Edge>, edges': seq<Edge>) {
    forall e :: e in edges' ==> e in edges || NewPivot(subs, e)
  }

  ghost predicate NewPivot(subs: seq<Sub>, e: Edge) {
    e.label' == PIVOT_EDGE && exists i, j :: 0 <= i < j < |subs| && Shares(subs, i, j) && Joins(e, subs[i].id, subs[j].id)
  }

  ghost predicate Shares(subs: seq<Sub>, i: nat, j: nat)
    requires i < |subs| && j < |subs|
  {
    Has(subs[i]) * Has(subs[j]) != {}
  }

  ghost predicate SharesFew(subs: seq<Sub>, i: nat, j: nat)
    requires i < |subs| && j < |subs|
  {
    0 < |Has(subs[i]) * Has(subs[j])| <= PIVOT_MAX
  }

  /** Segments that shared one or two numbers are related by an edge. */
  ghost predicate Noted(subs: seq<Sub>, edges: seq<Edge>) {
    forall i, j :: 0 <= i < j < |subs| && SharesFew(subs, i, j) ==> Related(edges, subs[i].id, subs[j].id)
  }

  ghost predicate IdsDistinct(subs: seq<Sub>) {
    forall i, j :: 0 <= i < j < |subs| ==> subs[i].id != subs[j].id
  }

  /** Among the segments still there, no relation is lost: old edges stay, and pivots are noted. */
  ghost predicate RelationsKept(subs: seq<Sub>, edges: seq<Edge>, subs': seq<Sub>, edges': seq<Edge>) {
    && (forall e :: e in edges && NamesSub(subs', e.from) && NamesSub(subs', e.to) ==> e in edges')
    && (forall i, j :: 0 <= i < j < |subs| && SharesFew(subs, i, j) && NamesSub(subs', subs[i].id) && NamesSub(subs', subs[j].id) ==>
          Related(edges', subs[i].id, subs[j].id))
  }

  /** What every repair keeps. */
  ghost predicate Repaired(subs: seq<Sub>, edges: seq<Edge>, subs': seq<Sub>, edges': seq<Edge>) {
    && Trimmed(subs, subs') && Once(subs')
    && KeepsSafe(subs, subs')
    && (Closed(subs, edges) ==> Closed(subs', edges'))
    && OnlyPivots(subs, edges, edges')
  }

  /** The state between the passes. */
  ghost predicate Mid(subs: seq<Sub>, edges: seq<Edge>, subs': seq<Sub>, edges': seq<Edge>) {
    && Shrunk(subs, subs') && Once(subs')
    && KeepsSafe(subs, subs')
    && (Closed(subs, edges) ==> Closed(subs', edges'))
    && OnlyPivots(subs, edges, edges')
    && edges <= edges'
  }

  lemma {:induction false} MidRepaired(subs: seq<Sub>, edges: seq<Edge>, subs': seq<Sub>, edges': seq<Edge>)
    requires Mid(subs, edges, subs', edges')
    ensures Repaired(subs, edges, subs', edges')
  {
    hide Shrunk, Once, KeepsSafe, KeepsAll, Closed, OnlyPivots, Kept;
  }

  lemma {:induction false} MidRelations(subs: seq<Sub>, edges: seq<Edge>, subs': seq<Sub>, edges': seq<Edge>)
    requires Mid(subs, edges, subs', edges') && Noted(subs, edges')
    ensures RelationsKept(subs, edges, subs', edges')
  {
    hide Shrunk, Once, KeepsSafe, KeepsAll, Closed, OnlyPivots, SharesFew, Related, NamesSub;
    assert forall e :: e in edges ==> e in edges';
  }

  lemma {:induction false} MidDeduped(subs: seq<Sub>, edges: seq<Edge>, subs': seq<Sub>)
    requires Deduped(subs, subs')
    ensures Mid(subs, edges, subs', edges)
  {
    hide Shrunk, Once, KeepsSafe, KeepsAll, SameNumbers, NamesSub, NewPivot;
    SameSafe(subs, subs');
    if Closed(subs, edges) {
      forall k | 0 <= k < |edges| ensures NamesSub(subs', edges[k].from) && NamesSub(subs', edges[k].to) {
        NamesStay(subs, subs', edges[k].from);
        NamesStay(subs, subs', edges[k].to);
      }
    }
  }

  lemma {:induction false} ExclusiveNoted(subs: seq<Sub>, edges: seq<Edge>)
    requires Exclusive(subs)
    ensures Noted(subs, edges)
  {
    hide Has, Related;
    forall i, j | 0 <= i < j < |subs| ensures !SharesFew(subs, i, j) {
      assert Has(subs[i]) * Has(subs[j]) == {};
    }
  }

  /** The first pass, after repeats inside segments are gone. */
  lemma {:induction false} MidStripped(subs: seq<Sub>, edges: seq<Edge>, s1: seq<Sub>, pairs: seq<Pair>, s2: seq<Sub>, edges2: seq<Edge>)
    requires Deduped(subs, s1) && AllPairs(s1, pairs)
    requires PassOne(s1, pairs, |pairs|, s2) && EdgesAfter(s1, pairs, |pairs|, edges, edges2)
    ensures Mid(subs, edges, s2, edges2) && Noted(subs, edges2)
  {
    hide Has, Shrunk, Once, KeepsSafe, KeepsAll, Closed, AllPairs, EdgesAfter, PassOne, OnlyPivots, SameNumbers, Noted;
    PassOneFacts(s1, pairs, s2);
    ShrunkTrans(subs, s1, s2);
    ShrunkOnce(s1, s2);
    SameSafe(subs, s1);
    SafeTrans(subs, s1, s2);
    if Closed(subs, edges) {
      MidDeduped(subs, edges, s1);
      StillClosed(s1, pairs, |pairs|, edges, s2, edges2);
    }
    PivotsOnly(subs, s1, pairs, edges, edges2);
    PairsNoted(subs, s1, pairs, edges, edges2);
  }

  lemma {:induction false} PassOneFacts(subs: seq<Sub>, pairs: seq<Pair>, subs': seq<Sub>)
    requires PassOne(subs, pairs, |pairs|, subs')
    ensures Shrunk(subs, subs') && KeepsSafe(subs, subs')
  {
    hide Shrunk, KeepsSafe, NotBoth, Small, OwnKept, SafeHeld;
    PassOneSafe(subs, pairs, subs');
  }

  lemma {:induction false} FewIff(subs: seq<Sub>, s1: seq<Sub>, p: Pair)
    requires Deduped(subs, s1) && IsPair(s1, p) && p.shared != {}
    ensures p.i < p.j < |subs| && (SharesFew(subs, p.i, p.j) <==> Small(p)) && Shares(subs, p.i, p.j)
    ensures subs[p.i].id == s1[p.i].id && subs[p.j].id == s1[p.j].id
  {
    hide Has, Once;
    assert Less(subs[p.i], s1[p.i]) && Less(subs[p.j], s1[p.j]);
    assert p.shared == Has(subs[p.i]) * Has(subs[p.j]);
  }

  lemma {:induction false} PivotsOnly(subs: seq<Sub>, s1: seq<Sub>, pairs: seq<Pair>, edges: seq<Edge>, edges2: seq<Edge>)
    requires Deduped(subs, s1) && AllPairs(s1, pairs) && EdgesAfter(s1, pairs, |pairs|, edges, edges2)
    ensures OnlyPivots(subs, edges, edges2) && edges <= edges2
  {
    hide Has, Deduped, PairRelated, Small, SharesFew, Shares;
    forall m | |edges| <= m < |edges2| ensures NewPivot(subs, edges2[m]) {
      var k :| 0 <= k < |pairs| && PivotOf(s1, pairs[k], edges2[m]);
      PairNonEmpty(s1, pairs, k);
      FewIff(subs, s1, pairs[k]);
    }
    forall e | e in edges2 ensures e in edges || NewPivot(subs, e) {
      var m :| 0 <= m < |edges2| && edges2[m] == e;
      assert m < |edges| ==> edges[m] == e;
    }
  }

  lemma {:induction false} PairNonEmpty(subs: seq<Sub>, pairs: seq<Pair>, k: nat)
    requires AllPairs(subs, pairs) && k < |pairs|
    ensures IsPair(subs, pairs[k]) && pairs[k].shared != {}
  {
    hide Has;
    assert IsPair(subs, pairs[k]);
  }

  lemma {:induction false} PairsNoted(subs: seq<Sub>, s1: seq<Sub>, pairs: seq<Pair>, edges: seq<Edge>, edges2: seq<Edge>)
    requires Deduped(subs, s1) && AllPairs(s1, pairs) && EdgesAfter(s1, pairs, |pairs|, edges, edges2)
    ensures Noted(subs, edges2)
  {
    hide Has, Related, Small, PivotOf, SharesFew, IsPair;
    forall i, j | 0 <= i < j < |subs| && SharesFew(subs, i, j) ensures Related(edges2, subs[i].id, subs[j].id) {
      SharesSome(subs, s1, i, j);
      var k :| 0 <= k < |pairs| && pairs[k].i == i && pairs[k].j == j;
      PairNonEmpty(s1, pairs, k);
      FewIff(subs, s1, pairs[k]);
      assert PairRelated(s1, pairs[k], edges2);
    }
  }

  lemma {:induction false} SharesSome(subs: seq<Sub>, s1: seq<Sub>, i: nat, j: nat)
    requires Deduped(subs, s1) && i < j < |subs| && SharesFew(subs, i, j)
    ensures Has(s1[i]) * Has(s1[j]) != {}
  {
    hide Has, Once, Shrunk;
    assert Has(subs[i]) == Has(s1[i]) && Has(subs[j]) == Has(s1[j]);
  }

  /** The second pass on top of the first. */
  lemma {:induction false} MidWider(subs: seq<Sub>, edges: seq<Edge>, s2: seq<Sub>, edges2: seq<Edge>, s3: seq<Sub>)
    requires Mid(subs, edges, s2, edges2) && Shrunk(s2, s3) && KeepsAll(s2, s3) && Exclusive(s3)
    ensures Mid(subs, edges, s3, edges2)
  {
    hide Shrunk, Once, KeepsSafe, KeepsAll, OnlyPivots, NamesSub, Exclusive;
    ShrunkTrans(subs, s2, s3);
    ShrunkOnce(s2, s3);
    AllSafe(s2, s3);
    SafeTrans(subs, s2, s3);
    if Closed(subs, edges) {
      forall k | 0 <= k < |edges2| ensures NamesSub(s3, edges2[k].from) && NamesSub(s3, edges2[k].to) {
        NamesStay(s2, s3, edges2[k].from);
        NamesStay(s2, s3, edges2[k].to);
      }
    }
  }

  /** Pruning on top of either pass. */
  lemma {:induction false} PrunedRepaired(subs: seq<Sub>, edges: seq<Edge>, s3: seq<Sub>, edges3: seq<Edge>)
    requires Mid(subs, edges, s3, edges3) && Exclusive(s3)
    ensures Repaired(subs, edges, Kept(s3), Cull(edges3, Dropped(s3)))
  {
    hide Has, Shrunk, Once, KeepsSafe, KeepsAll, Closed, NewPivot, Kept, Cull, Dropped, Exclusive;
    var kept := Kept(s3);
    CullHas(edges3, Dropped(s3));
    assert Trimmed(subs, kept);
    KeptOnce(s3);
    KeptKeeps(s3);
    KeptExclusive(s3);
    AllSafe(s3, kept);
    SafeTrans(subs, s3, kept);
    if Closed(subs, edges) {
      KeptClosed(s3, edges3);
    }
  }

  lemma {:induction false} KeptOnce(subs: seq<Sub>)
    requires Once(subs)
    ensures Once(Kept(subs))
  {
    hide Has, Kept, OnceIn;
    var kept := Kept(subs);
    forall i | 0 <= i < |kept| ensures OnceIn(kept[i].members) {
      assert kept[i] in kept && kept[i] in subs;
    }
  }

  lemma {:induction false} KeptKeeps(subs: seq<Sub>)
    ensures KeepsAll(subs, Kept(subs))
  {
    hide Covered, Kept;
    KeptCovers(subs);
  }

  lemma {:induction false} PrunedRelations(subs: seq<Sub>, edges: seq<Edge>, s3: seq<Sub>, edges3: seq<Edge>)
    requires Mid(subs, edges, s3, edges3) && Noted(subs, edges3) && IdsDistinct(subs)
    ensures RelationsKept(subs, edges, Kept(s3), Cull(edges3, Dropped(s3)))
  {
    hide Has, Shrunk, Once, KeepsSafe, KeepsAll, Closed, NewPivot, Kept, Cull, Dropped, SharesFew, Related, NamesSub, OnlyPivots, IdsDistinct;
    var kept, gone := Kept(s3), Dropped(s3);
    CullHas(edges3, gone);
    forall id | NamesSub(kept, id) ensures id !in gone {
      NamedNotGone(subs, s3, id);
    }
    assert forall e :: e in edges ==> e in edges3;
    forall i, j | 0 <= i < j < |subs| && SharesFew(subs, i, j) && NamesSub(kept, subs[i].id) && NamesSub(kept, subs[j].id)
      ensures Related(Cull(edges3, gone), subs[i].id, subs[j].id)
    {
      RelatedCull(edges3, gone, subs[i].id, subs[j].id);
    }
  }

  lemma {:induction false} NamedNotGone(subs: seq<Sub>, s3: seq<Sub>, id: string)
    requires IdsDistinct(subs) && Shrunk(subs, s3) && NamesSub(Kept(s3), id)
    ensures id !in Dropped(s3)
  {
    hide Has, Kept;
    var kept := Kept(s3);
    var k :| 0 <= k < |kept| && kept[k].id == id;
    assert kept[k] in kept && kept[k] in s3;
    var i :| 0 <= i < |s3| && s3[i] == kept[k];
    forall j | 0 <= j < |s3| && j != i ensures s3[j].id != id {
      assert Less(subs[i], s3[i]) && Less(subs[j], s3[j]);
    }
  }

  lemma {:induction false} RelatedCull(edges: seq<Edge>, gone: set<string>, a: string, b: string)
    requires Related(edges, a, b) && a !in gone && b !in gone
    ensures Related(Cull(edges, gone), a, b)
  {
    hide Cull;
    CullHas(edges, gone);
    if k :| 0 <= k < |edges| && Joins(edges[k], a, b) {
      assert edges[k] in Cull(edges, gone);
      var m :| 0 <= m < |Cull(edges, gone)| && Cull(edges, gone)[m] == edges[k];
      assert Joins(Cull(edges, gone)[m], a, b);
    }
  }

  // ---- the first pass as a function --------------------------------------------------------------

  function Earlier(subs: seq<Sub>, p: Pair, ties: Ties): nat
    requires p.i < |subs| && p.j < |subs|
  {
    var x, y := Start(subs[p.i]), Start(subs[p.j]);
    if x < y || (x == y && ties(p.i, p.j)) then p.i else p.j
  }

  ghost predicate PairsIn(subs: seq<Sub>, pairs: seq<Pair>) {
    forall k :: 0 <= k < |pairs| ==> pairs[k].i < |subs| && pairs[k].j < |subs|
  }

  ghost function PivotPass(subs: seq<Sub>, pairs: seq<Pair>, n: nat, ties: Ties): (r: seq<Sub>)
    requires n <= |pairs| && PairsIn(subs, pairs)
    ensures |r| == |subs|
  {
    if n == 0 then subs else
      var before := PivotPass(subs, pairs, n - 1, ties);
      if Small(pairs[n - 1]) then StripAt(before, Earlier(before, pairs[n - 1], ties), pairs[n - 1].shared) else before
  }

  /** Repeats gone, and the first pass made over the pairs in the order they are met. */
  ghost predicate Pivoted(subs: seq<Sub>, ties: Ties, subs': seq<Sub>) {
    exists s1, pairs :: Deduped(subs, s1) && Met(s1, pairs) && PairsIn(s1, pairs) && subs' == PivotPass(s1, pairs, |pairs|, ties)
  }

  /** Then, if some overlap is large, each number goes to its narrowest holder; empty segments are gone. */
  ghost predicate Resolved(subs: seq<Sub>, ties: Ties, subs': seq<Sub>) {
    exists s2, s3 :: Pivoted(subs, ties, s2) && (if Large(subs) then Narrowed(s2, s3) else s3 == s2) && subs' == Kept(s3)
  }

  lemma {:induction false} AllIn(subs: seq<Sub>, pairs: seq<Pair>)
    requires AllPairs(subs, pairs)
    ensures PairsIn(subs, pairs)
  {
    hide Has, AllPairs;
    forall k | 0 <= k < |pairs| ensures pairs[k].i < |subs| && pairs[k].j < |subs| {
      PairAt(subs, pairs, k);
    }
  }

  // ---- a number that is the only one shared -------------------------------------------------------

  /** No two segments share anything but v. */
  ghost predicate OnlyShared(subs: seq<Sub>, v: nat) {
    forall i, j :: 0 <= i < j < |subs| ==> Has(subs[i]) * Has(subs[j]) <= {v}
  }

  /** Segment b opens with v. */
  ghost predicate Opens(subs: seq<Sub>, b: nat, v: nat) {
    b < |subs| && v in Has(subs[b]) && Start(subs[b]) == v
  }

  /** The first segment that opens with v goes before none of the others. */
  ghost predicate FirstWins(subs: seq<Sub>, v: nat, ties: Ties) {
    exists b: nat :: Opens(subs, b, v) && Leads(subs, b, v, ties)
  }

  ghost predicate Leads(subs: seq<Sub>, b: nat, v: nat, ties: Ties) {
    forall g: nat :: Opens(subs, g, v) && g != b ==> b < g && !ties(b, g)
  }

  ghost predicate Survives(subs: seq<Sub>, v: nat, ties: Ties) {
    Safe(subs, v) || FirstWins(subs, v, ties)
  }

  /** A number that is the only one shared is kept exactly if it is safe or the ties happen to save it. */
  ghost predicate SoleFate(subs: seq<Sub>, ties: Ties, subs': seq<Sub>) {
    forall v: nat :: v < NO_START && OnlyShared(subs, v) ==> (Covered(subs', v) <==> Survives(subs, v, ties))
  }

  ghost predicate InLexOrder(pairs: seq<Pair>) {
    forall l, m :: 0 <= l < m < |pairs| ==> Lex(pairs[l], pairs[m])
  }

  /** All pairs, each over v alone, in order of their segments. */
  ghost predicate SolePairs(subs: seq<Sub>, pairs: seq<Pair>, v: nat) {
    AllPairs(subs, pairs) && PairsIn(subs, pairs) && InLexOrder(pairs) && forall k :: 0 <= k < |pairs| ==> pairs[k].shared == {v}
  }

  lemma {:induction false} SoleMet(subs: seq<Sub>, pairs: seq<Pair>, v: nat)
    requires Met(subs, pairs) && OnlyShared(subs, v)
    ensures SolePairs(subs, pairs, v)
  {
    hide Has, AllPairs, KeysMet;
    AllIn(subs, pairs);
    var keys, ranks :| KeysMet(subs, |subs|, keys) && Ranked(keys, pairs, ranks);
    forall k | 0 <= k < |pairs| ensures pairs[k].shared == {v} {
      PairAt(subs, pairs, k);
    }
    forall l, m | 0 <= l < m < |pairs| ensures Lex(pairs[l], pairs[m]) {
      assert RankIs(keys, pairs[l], ranks[l]) && RankIs(keys, pairs[m], ranks[m]);
      assert keys[ranks[l]] == v && keys[ranks[m]] == v;
    }
  }

  /** A later state of the pass: only v may have gone. */
  ghost predicate OnlyLost(subs0: seq<Sub>, subs: seq<Sub>, v: nat) {
    |subs| == |subs0| && forall i :: 0 <= i < |subs| ==> LostAtMost(subs0[i], subs[i], v)
  }

  ghost predicate LostAtMost(s: Sub, s': Sub, v: nat) {
    Has(s') == Has(s) || Has(s') == Has(s) - {v}
  }

  /** Segment a loses v; nothing else changes. */
  ghost predicate OneLoses(subs: seq<Sub>, subs': seq<Sub>, a: nat, v: nat) {
    |subs| == |subs'| && forall i :: 0 <= i < |subs| ==> Has(subs'[i]) == if i == a then Has(subs[i]) - {v} else Has(subs[i])
  }

  lemma {:induction false} SoleStep(subs: seq<Sub>, pairs: seq<Pair>, n: nat, ties: Ties, v: nat)
    requires SolePairs(subs, pairs, v) && n < |pairs|
    ensures var s := PivotPass(subs, pairs, n, ties); OneLoses(s, PivotPass(subs, pairs, n + 1, ties), Earlier(s, pairs[n], ties), v)
  {
    hide Has, Earlier, StripAt, AllPairs;
    var s := PivotPass(subs, pairs, n, ties);
    assert Small(pairs[n]);
    var a := Earlier(s, pairs[n], ties);
    EarlierOf(s, pairs[n], ties);
    forall i | 0 <= i < |s| ensures Has(StripAt(s, a, {v})[i]) == if i == a then Has(s[i]) - {v} else Has(s[i]) {
      StripAtHas(s, a, {v}, i);
    }
  }

  lemma {:induction false} EarlierOf(subs: seq<Sub>, p: Pair, ties: Ties)
    requires p.i < |subs| && p.j < |subs|
    ensures Earlier(subs, p, ties) == p.i || Earlier(subs, p, ties) == p.j
  {
  }

  lemma {:induction false} LostNext(subs0: seq<Sub>, subs: seq<Sub>, subs': seq<Sub>, a: nat, v: nat)
    requires OnlyLost(subs0, subs, v) && OneLoses(subs, subs', a, v)
    ensures OnlyLost(subs0, subs', v)
  {
    hide Has;
    forall i | 0 <= i < |subs'| ensures LostAtMost(subs0[i], subs'[i], v) {
      assert LostAtMost(subs0[i], subs[i], v);
    }
  }

  lemma {:induction false} SoleLost(subs: seq<Sub>, pairs: seq<Pair>, n: nat, ties: Ties, v: nat)
    requires SolePairs(subs, pairs, v) && n <= |pairs|
    ensures OnlyLost(subs, PivotPass(subs, pairs, n, ties), v)
  {
    hide Has, AllPairs, OneLoses, Earlier;
    if n > 0 {
      hide PivotPass, OnlyLost;
      var s := PivotPass(subs, pairs, n - 1, ties);
      SoleLost(subs, pairs, n - 1, ties, v);
      SoleStep(subs, pairs, n - 1, ties, v);
      LostNext(subs, s, PivotPass(subs, pairs, n, ties), Earlier(s, pairs[n - 1], ties), v);
    }
  }

  /** Where a holder of v stands in a later state: openers start with v while they have it, and after it once they lost it. */
  lemma {:induction false} StartNow(subs0: seq<Sub>, subs: seq<Sub>, i: nat, v: nat)
    requires OnlyLost(subs0, subs, v) && i < |subs| && v in Has(subs0[i]) && v < NO_START
    ensures Opens(subs0, i, v) && v in Has(subs[i]) ==> Start(subs[i]) == v
    ensures Opens(subs0, i, v) && v !in Has(subs[i]) ==> v < Start(subs[i])
    ensures !Opens(subs0, i, v) ==> Start(subs[i]) < v
  {
    hide Has, Start;
    assert LostAtMost(subs0[i], subs[i], v);
    StartIs(subs0[i]);
    StartIs(subs[i]);
    assert !Opens(subs0, i, v) ==> Start(subs0[i]) in Has(subs[i]);
  }

  lemma {:induction false} StaysLost(subs: seq<Sub>, pairs: seq<Pair>, m: nat, n: nat, ties: Ties, v: nat, i: nat)
    requires SolePairs(subs, pairs, v) && m <= n <= |pairs| && i < |subs| && v !in Has(PivotPass(subs, pairs, m, ties)[i])
    ensures v !in Has(PivotPass(subs, pairs, n, ties)[i])
    decreases n
  {
    hide Has, AllPairs, Earlier, PivotPass, InLexOrder;
    if m < n {
      StaysLost(subs, pairs, m, n - 1, ties, v, i);
      SoleStep(subs, pairs, n - 1, ties, v);
    }
  }

  /** The pair is one of g and another opener. */
  ghost predicate Between(subs: seq<Sub>, p: Pair, g: nat, v: nat) {
    (p.i == g && Opens(subs, p.j, v)) || (p.j == g && Opens(subs, p.i, v))
  }

  lemma {:induction false} Holds(subs: seq<Sub>, pairs: seq<Pair>, v: nat, n: nat)
    requires SolePairs(subs, pairs, v) && n < |pairs|
    ensures pairs[n].i < pairs[n].j < |subs| && v in Has(subs[pairs[n].i]) && v in Has(subs[pairs[n].j])
  {
    hide Has, AllPairs, InLexOrder;
    PairAt(subs, pairs, n);
    assert v in pairs[n].shared;
  }

  /** An opener that meets a holder which opens earlier keeps v. */
  lemma {:induction false} BeatsEarlier(subs: seq<Sub>, pairs: seq<Pair>, n: nat, ties: Ties, v: nat, g: nat)
    requires SolePairs(subs, pairs, v) && n < |pairs| && v < NO_START && Opens(subs, g, v) && !Between(subs, pairs[n], g, v)
    requires v in Has(PivotPass(subs, pairs, n, ties)[g])
    ensures v in Has(PivotPass(subs, pairs, n + 1, ties)[g])
  {
    hide Has, AllPairs, PivotPass, InLexOrder, Start, PairsIn;
    var s, p := PivotPass(subs, pairs, n, ties), pairs[n];
    Holds(subs, pairs, v, n);
    SoleLost(subs, pairs, n, ties, v);
    StartNow(subs, s, p.i, v);
    StartNow(subs, s, p.j, v);
    SoleStep(subs, pairs, n, ties, v);
  }

  /** Before it meets another opener, an opener has v. */
  lemma {:induction false} Unplayed(subs: seq<Sub>, pairs: seq<Pair>, n: nat, ties: Ties, v: nat, g: nat)
    requires SolePairs(subs, pairs, v) && n <= |pairs| && v < NO_START && Opens(subs, g, v)
    requires forall m :: 0 <= m < n ==> !Between(subs, pairs[m], g, v)
    ensures v in Has(PivotPass(subs, pairs, n, ties)[g])
  {
    hide Has, AllPairs, InLexOrder, Start, Between, PairsIn;
    if n > 0 {
      hide PivotPass;
      Unplayed(subs, pairs, n - 1, ties, v, g);
      BeatsEarlier(subs, pairs, n - 1, ties, v, g);
    }
  }

  ghost predicate First(subs: seq<Sub>, b: nat, v: nat) {
    Opens(subs, b, v) && forall g: nat :: Opens(subs, g, v) ==> b <= g
  }

  /** The first opener is the first opener that another one meets. */
  lemma {:induction false} MeetsFirst(subs: seq<Sub>, pairs: seq<Pair>, n: nat, v: nat, b: nat, g: nat)
    requires SolePairs(subs, pairs, v) && n < |pairs| && First(subs, b, v) && Opens(subs, g, v) && pairs[n].i == b && pairs[n].j == g && b < g
    ensures forall m :: 0 <= m < n ==> !Between(subs, pairs[m], g, v)
  {
    hide Has, AllPairs, Opens, PairsIn;
    forall m | 0 <= m < n ensures !Between(subs, pairs[m], g, v) {
      assert Lex(pairs[m], pairs[n]);
      Holds(subs, pairs, v, m);
    }
  }

  /** The first opener meets another one: the tie decides, or the first has lost v already and the other one goes too. */
  lemma {:induction false} FirstMeets(subs: seq<Sub>, pairs: seq<Pair>, n: nat, ties: Ties, v: nat, b: nat, g: nat)
    requires SolePairs(subs, pairs, v) && n < |pairs| && v < NO_START
    requires First(subs, b, v) && Opens(subs, g, v) && pairs[n].i == b && pairs[n].j == g && b < g
    ensures var s, s' := PivotPass(subs, pairs, n, ties), PivotPass(subs, pairs, n + 1, ties);
            if v in Has(s[b]) && ties(b, g) then v !in Has(s'[b]) else v !in Has(s'[g]) && (v in Has(s[b]) <==> v in Has(s'[b]))
  {
    hide Has, AllPairs, PivotPass, InLexOrder, Start, Between, PairsIn;
    var s := PivotPass(subs, pairs, n, ties);
    MeetsFirst(subs, pairs, n, v, b, g);
    Unplayed(subs, pairs, n, ties, v, g);
    SoleLost(subs, pairs, n, ties, v);
    StartNow(subs, s, b, v);
    StartNow(subs, s, g, v);
    SoleStep(subs, pairs, n, ties, v);
  }

  /** A first opener that the ties favour keeps v. */
  lemma {:induction false} FirstStays(subs: seq<Sub>, pairs: seq<Pair>, n: nat, ties: Ties, v: nat, b: nat)
    requires SolePairs(subs, pairs, v) && n <= |pairs| && v < NO_START && Opens(subs, b, v) && Leads(subs, b, v, ties)
    ensures v in Has(PivotPass(subs, pairs, n, ties)[b])
  {
    hide Has, AllPairs, InLexOrder, Start, PairsIn, Opens;
    OpensHas(subs, b, v);
    if n > 0 {
      hide PivotPass;
      FirstStays(subs, pairs, n - 1, ties, v, b);
      var p := pairs[n - 1];
      if Between(subs, p, b, v) {
        Holds(subs, pairs, v, n - 1);
        assert p.i == b && !ties(b, p.j);
        FirstMeets(subs, pairs, n - 1, ties, v, b, p.j);
      } else {
        BeatsEarlier(subs, pairs, n - 1, ties, v, b);
      }
    }
  }

  lemma {:induction false} TheirPair(subs: seq<Sub>, pairs: seq<Pair>, v: nat, i: nat, j: nat) returns (n: nat)
    requires SolePairs(subs, pairs, v) && i < j < |subs| && v in Has(subs[i]) && v in Has(subs[j])
    ensures n < |pairs| && pairs[n].i == i && pairs[n].j == j
  {
    hide Has, IsPair;
    assert v in Has(subs[i]) * Has(subs[j]);
    n :| 0 <= n < |pairs| && pairs[n].i == i && pairs[n].j == j;
  }

  /** A holder that opens before v loses it to any opener. */
  lemma {:induction false} EarlierLoses(subs: seq<Sub>, pairs: seq<Pair>, ties: Ties, v: nat, b: nat, g: nat)
    requires SolePairs(subs, pairs, v) && v < NO_START && Opens(subs, b, v) && g < |subs| && v in Has(subs[g]) && !Opens(subs, g, v)
    ensures v !in Has(PivotPass(subs, pairs, |pairs|, ties)[g])
  {
    hide Has, AllPairs, PivotPass, InLexOrder, Start, PairsIn;
    assert b != g;
    var n := TheirPair(subs, pairs, v, if b < g then b else g, if b < g then g else b);
    var s := PivotPass(subs, pairs, n, ties);
    SoleIn(subs, pairs, v);
    SoleLost(subs, pairs, n, ties, v);
    StartNow(subs, s, b, v);
    StartNow(subs, s, g, v);
    SoleStep(subs, pairs, n, ties, v);
    StaysLost(subs, pairs, n + 1, |pairs|, ties, v, g);
  }

  lemma {:induction false} SoleIn(subs: seq<Sub>, pairs: seq<Pair>, v: nat)
    requires SolePairs(subs, pairs, v)
    ensures PairsIn(subs, pairs)
  {
    hide AllPairs, PairsIn;
  }

  /** k is the first opener that the first opener b goes before. */
  ghost predicate BeatsFirst(subs: seq<Sub>, v: nat, ties: Ties, b: nat, k: nat) {
    && First(subs, b, v) && Opens(subs, k, v) && b < k && ties(b, k)
    && forall g: nat :: Opens(subs, g, v) && b < g < k ==> !ties(b, g)
  }

  /** Every opener but k has lost v once it has met the first one. */
  lemma {:induction false} LostByThen(subs: seq<Sub>, pairs: seq<Pair>, n: nat, ties: Ties, v: nat, b: nat, k: nat, g: nat)
    requires SolePairs(subs, pairs, v) && n < |pairs| && v < NO_START && BeatsFirst(subs, v, ties, b, k) && Opens(subs, g, v) && b < g
    requires pairs[n].i == b && pairs[n].j == g
    ensures v !in Has(PivotPass(subs, pairs, n + 1, ties)[if g == k then b else g])
  {
    hide Has, AllPairs, PivotPass, Start, PairsIn, Opens;
    FirstMeets(subs, pairs, n, ties, v, b, g);
    if g > k {
      assert Opens(subs, b, v) && Opens(subs, k, v);
      OpensHas(subs, b, v);
      OpensHas(subs, k, v);
      var m := TheirPair(subs, pairs, v, b, k);
      LexBefore(pairs, m, n);
      FirstMeets(subs, pairs, m, ties, v, b, k);
      SoleIn(subs, pairs, v);
      StaysLost(subs, pairs, m + 1, n, ties, v, b);
    }
  }

  lemma {:induction false} OpensHas(subs: seq<Sub>, b: nat, v: nat)
    requires Opens(subs, b, v)
    ensures b < |subs| && v in Has(subs[b])
  {
    hide Has, Start;
  }

  lemma {:induction false} LexBefore(pairs: seq<Pair>, m: nat, n: nat)
    requires InLexOrder(pairs) && m < |pairs| && n < |pairs| && Lex(pairs[m], pairs[n])
    ensures m < n
  {
  }

  lemma {:induction false} OpenerLoses(subs: seq<Sub>, pairs: seq<Pair>, ties: Ties, v: nat, b: nat, k: nat, g: nat)
    requires SolePairs(subs, pairs, v) && v < NO_START && BeatsFirst(subs, v, ties, b, k) && Opens(subs, g, v) && g != k
    ensures v !in Has(PivotPass(subs, pairs, |pairs|, ties)[g])
  {
    hide Has, AllPairs, PivotPass, Start, PairsIn, Opens, InLexOrder;
    OpensHas(subs, b, v);
    OpensHas(subs, k, v);
    OpensHas(subs, g, v);
    SoleIn(subs, pairs, v);
    var o := if g == b then k else g;
    var n := TheirPair(subs, pairs, v, b, o);
    LostByThen(subs, pairs, n, ties, v, b, k, o);
    StaysLost(subs, pairs, n + 1, |pairs|, ties, v, g);
  }

  /** The one opener left loses v to a third one, which starts later now. */
  lemma {:induction false} LastLoses(subs: seq<Sub>, pairs: seq<Pair>, ties: Ties, v: nat, b: nat, k: nat, g: nat)
    requires SolePairs(subs, pairs, v) && v < NO_START && BeatsFirst(subs, v, ties, b, k) && Opens(subs, g, v) && g != k && g != b
    ensures v !in Has(PivotPass(subs, pairs, |pairs|, ties)[k])
  {
    hide Has, AllPairs, PivotPass, Start, PairsIn, Opens;
    OpensHas(subs, b, v);
    OpensHas(subs, k, v);
    OpensHas(subs, g, v);
    SoleIn(subs, pairs, v);
    var m := TheirPair(subs, pairs, v, b, g);
    var n := TheirPair(subs, pairs, v, if k < g then k else g, if k < g then g else k);
    LexBefore(pairs, m, n);
    LostByThen(subs, pairs, m, ties, v, b, k, g);
    StaysLost(subs, pairs, m + 1, n, ties, v, g);
    LosesToLost(subs, pairs, n, ties, v, k, g);
    StaysLost(subs, pairs, n + 1, |pairs|, ties, v, k);
  }

  /** An opener loses v to one that has lost it. */
  lemma {:induction false} LosesToLost(subs: seq<Sub>, pairs: seq<Pair>, n: nat, ties: Ties, v: nat, k: nat, g: nat)
    requires SolePairs(subs, pairs, v) && n < |pairs| && v < NO_START && Opens(subs, k, v) && Opens(subs, g, v) && SamePair(pairs[n], k, g) && k != g
    requires v !in Has(PivotPass(subs, pairs, n, ties)[g])
    ensures v !in Has(PivotPass(subs, pairs, n + 1, ties)[k])
  {
    hide Has, AllPairs, PivotPass, Start, PairsIn, InLexOrder;
    var s := PivotPass(subs, pairs, n, ties);
    SoleLost(subs, pairs, n, ties, v);
    StartNow(subs, s, k, v);
    StartNow(subs, s, g, v);
    SoleStep(subs, pairs, n, ties, v);
  }

  lemma {:induction false} AllLose(subs: seq<Sub>, pairs: seq<Pair>, ties: Ties, v: nat, b: nat, k: nat, g: nat)
    requires SolePairs(subs, pairs, v) && v < NO_START && BeatsFirst(subs, v, ties, b, k) && Opens(subs, g, v) && g != k && g != b
    ensures !Covered(PivotPass(subs, pairs, |pairs|, ties), v)
  {
    hide Has, AllPairs, PivotPass, Start, PairsIn, Opens, InLexOrder;
    SoleIn(subs, pairs, v);
    SoleLost(subs, pairs, |pairs|, ties, v);
    var s := PivotPass(subs, pairs, |pairs|, ties);
    forall i: nat | i < |s| ensures v !in Has(s[i]) {
      assert LostAtMost(subs[i], s[i], v);
      if i == k {
        LastLoses(subs, pairs, ties, v, b, k, g);
      } else if Opens(subs, i, v) {
        OpenerLoses(subs, pairs, ties, v, b, k, i);
      } else if v in Has(subs[i]) {
        EarlierLoses(subs, pairs, ties, v, b, i);
      }
    }
  }

  lemma {:induction false} NotCommon(a: set<nat>, b: set<nat>, u: nat, v: nat)
    requires (a * b <= {v} || b * a <= {v}) && u in a && u != v
    ensures u !in b
  {
    assert u in b ==> u in a * b && u in b * a;
  }

  /** A holder that does not open with v opens with a message of its own. */
  lemma {:induction false} OwnOpening(subs: seq<Sub>, v: nat, g: nat, h: nat)
    requires OnlyShared(subs, v) && g < |subs| && h < |subs| && v in Has(subs[g]) && v in Has(subs[h]) && g != h
    requires !Opens(subs, g, v) && (Opens(subs, h, v) || Start(subs[g]) <= Start(subs[h]))
    ensures Yields(subs, g, h)
  {
    hide Has, Start;
    var u := Start(subs[g]);
    StartIs(subs[g]);
    StartIs(subs[h]);
    forall i | 0 <= i < |subs| && i != g ensures u !in Has(subs[i]) {
      assert if i < g then Has(subs[i]) * Has(subs[g]) <= {v} else Has(subs[g]) * Has(subs[i]) <= {v};
      NotCommon(Has(subs[g]), Has(subs[i]), u, v);
    }
    assert Unshared(subs, g, u);
  }

  /** With at most two openers, v is safe with them. */
  lemma {:induction false} TwoOpeners(subs: seq<Sub>, v: nat, h: nat, k: nat)
    requires OnlyShared(subs, v) && Opens(subs, h, v) && Opens(subs, k, v) && forall g: nat :: Opens(subs, g, v) ==> g == h || g == k
    ensures Safe(subs, v)
  {
    hide Has, Start, Yields;
    forall g: nat | g < |subs| && v in Has(subs[g]) && g != h && g != k ensures Yields(subs, g, h) && Yields(subs, g, k) {
      OwnOpening(subs, v, g, h);
      OwnOpening(subs, v, g, k);
    }
    assert SafeWith(subs, v, h, k);
  }

  /** The holder that starts last. */
  lemma {:induction false} LastHolder(subs: seq<Sub>, v: nat, n: nat) returns (h: nat)
    requires n <= |subs| && exists i :: 0 <= i < n && v in Has(subs[i])
    ensures h < n && v in Has(subs[h]) && forall i :: 0 <= i < n && v in Has(subs[i]) ==> Start(subs[i]) <= Start(subs[h])
  {
    hide Has, Start;
    if i :| 0 <= i < n - 1 && v in Has(subs[i]) {
      h := LastHolder(subs, v, n - 1);
      if v in Has(subs[n - 1]) && Start(subs[h]) < Start(subs[n - 1]) {
        h := n - 1;
      }
    } else {
      h := n - 1;
    }
  }

  /** With no opener, v is safe with the holder that starts last. */
  lemma {:induction false} NoOpener(subs: seq<Sub>, v: nat)
    requires OnlyShared(subs, v) && Covered(subs, v) && forall g: nat :: !Opens(subs, g, v)
    ensures Safe(subs, v)
  {
    hide Has, Start, Yields, Opens;
    var h := LastHolder(subs, v, |subs|);
    forall g: nat | g < |subs| && v in Has(subs[g]) && g != h ensures Yields(subs, g, h) {
      OwnOpening(subs, v, g, h);
    }
    assert SafeWith(subs, v, h, h);
  }

  lemma {:induction false} FirstOpener(subs: seq<Sub>, v: nat, b: nat) returns (f: nat)
    requires Opens(subs, b, v)
    ensures First(subs, f, v)
  {
    hide Opens;
    if g: nat :| g < b && Opens(subs, g, v) {
      f := FirstOpener(subs, v, g);
    } else {
      f := b;
    }
  }

  lemma {:induction false} FirstTie(subs: seq<Sub>, v: nat, ties: Ties, b: nat, k: nat) returns (f: nat)
    requires First(subs, b, v) && Opens(subs, k, v) && b < k && ties(b, k)
    ensures BeatsFirst(subs, v, ties, b, f)
    decreases k
  {
    hide Opens;
    if g: nat :| Opens(subs, g, v) && b < g < k && ties(b, g) {
      f := FirstTie(subs, v, ties, b, g);
    } else {
      f := k;
    }
  }

  lemma {:induction false} SoleLoses(subs: seq<Sub>, pairs: seq<Pair>, ties: Ties, v: nat)
    requires SolePairs(subs, pairs, v) && OnlyShared(subs, v) && v < NO_START && Covered(subs, v) && !Survives(subs, v, ties)
    ensures !Covered(PivotPass(subs, pairs, |pairs|, ties), v)
  {
    hide Has, AllPairs, PivotPass, Start, PairsIn, Opens, InLexOrder, Covered, Safe, OnlyShared;
    SoleIn(subs, pairs, v);
    if o: nat :| Opens(subs, o, v) {
      var b := FirstOpener(subs, v, o);
      assert !Leads(subs, b, v, ties);
      var t: nat :| Opens(subs, t, v) && t != b && !(b < t && !ties(b, t));
      var k := FirstTie(subs, v, ties, b, t);
      if g: nat :| Opens(subs, g, v) && g != b && g != k {
        AllLose(subs, pairs, ties, v, b, k, g);
      } else {
        TwoOpeners(subs, v, b, k);
      }
    } else {
      NoOpener(subs, v);
    }
  }

  /** The first pass keeps a number that is the only one shared exactly if it survives by its shape or by the ties. */
  lemma {:induction false} SoleIff(subs: seq<Sub>, pairs: seq<Pair>, ties: Ties, v: nat)
    requires Met(subs, pairs) && OnlyShared(subs, v) && v < NO_START && PairsIn(subs, pairs)
    requires PassOne(subs, pairs, |pairs|, PivotPass(subs, pairs, |pairs|, ties))
    ensures Covered(PivotPass(subs, pairs, |pairs|, ties), v) <==> Survives(subs, v, ties)
  {
    hide Has, AllPairs, PivotPass, Start, PairsIn, Opens, InLexOrder, Covered, Safe, OnlyShared, Leads, Met, PassOne, SolePairs;
    var s := PivotPass(subs, pairs, |pairs|, ties);
    SoleMet(subs, pairs, v);
    if Safe(subs, v) {
      PassOneSafe(subs, pairs, s);
      SafeCovered(s, v);
    } else if b: nat :| Opens(subs, b, v) && Leads(subs, b, v, ties) {
      FirstStays(subs, pairs, |pairs|, ties, v, b);
      OpensHas(subs, b, v);
      StillCovers(s, b, v);
    } else {
      if Covered(subs, v) {
        SoleLoses(subs, pairs, ties, v);
      } else {
        NeverCovered(subs, pairs, ties, v);
      }
    }
  }

  lemma {:induction false} StillCovers(subs: seq<Sub>, i: nat, v: nat)
    requires i < |subs| && v in Has(subs[i])
    ensures Covered(subs, v)
  {
    hide Has;
  }

  lemma {:induction false} NeverCovered(subs: seq<Sub>, pairs: seq<Pair>, ties: Ties, v: nat)
    requires SolePairs(subs, pairs, v) && !Covered(subs, v)
    ensures !Covered(PivotPass(subs, pairs, |pairs|, ties), v)
  {
    hide Has, AllPairs, PivotPass, InLexOrder, PairsIn;
    SoleIn(subs, pairs, v);
    SoleLost(subs, pairs, |pairs|, ties, v);
    var s := PivotPass(subs, pairs, |pairs|, ties);
    forall i | 0 <= i < |s| ensures v !in Has(s[i]) {
      assert LostAtMost(subs[i], s[i], v);
    }
  }

  // ---- the decomposition ------------------------------------------------------------------------

  class Decomposition {
    var subs: seq<Sub>
    var edges: seq<Edge>

    constructor (subs: seq<Sub>, edges: seq<Edge>)
      ensures this.subs == subs && this.edges == edges
    {
      this.subs, this.edges := subs, edges;
    }

    /** Drops repeats inside each segment. */
    method DedupAll()
      modifies this`subs
      ensures Deduped(old(subs), subs)
    {
      hide Shrunk, Once, SameNumbers, Has;
      ghost var was := subs;
      DedupStart(subs);
      for n := 0 to |subs|
        invariant |subs| == |was| && DedupedTo(was, subs, n)
      {
        DedupNext(was, subs, n);
        subs := subs[n := subs[n].(members := Dedup(subs[n].members, {}))];
      }
      DedupEnd(was, subs);
    }

    /** Records that one segment hands over to the next, unless an edge already says so. */
    method EnsurePivotEdge(from: string, to: string)
      modifies this`edges
      ensures Related(edges, from, to)
      ensures edges == old(edges) || edges == old(edges) + [Edge(from, to, PIVOT_EDGE)]
      ensures edges != old(edges) <==> from != "" && to != "" && from != to && Unlinked(old(edges), from, to)
    {
      if from == "" || to == "" || from == to {
        return;
      }
      for k := 0 to |edges|
        invariant edges == old(edges) && forall m :: 0 <= m < k ==> !(edges[m].from == from && edges[m].to == to)
      {
        if edges[k].from == from && edges[k].to == to {
          assert Joins(edges[k], from, to);
          return;
        }
      }
      edges := edges + [Edge(from, to, PIVOT_EDGE)];
      assert Joins(edges[|edges| - 1], from, to);
    }

    /** A small pair: the segment that starts first gives up what the two share. */
    method StripPivot(p: Pair, ties: Ties) returns (a: nat, b: nat)
      requires p.i < |subs| && p.j < |subs|
      modifies this
      ensures (a, b) == (p.i, p.j) || (a, b) == (p.j, p.i)
      ensures Start(old(subs)[a]) <= Start(old(subs)[b]) && a == Earlier(old(subs), p, ties)
      ensures subs == StripAt(old(subs), a, p.shared)
      ensures Related(edges, old(subs)[a].id, old(subs)[b].id)
      ensures edges == old(edges) || edges == old(edges) + [Edge(old(subs)[a].id, old(subs)[b].id, PIVOT_EDGE)]
    {
      hide Related, Strip;
      var x, y := Start(subs[p.i]), Start(subs[p.j]);
      if x < y || (x == y && ties(p.i, p.j)) {
        a, b := p.i, p.j;
      } else {
        a, b := p.j, p.i;
      }
      subs := subs[a := subs[a].(members := Strip(subs[a].members, p.shared))];
      EnsurePivotEdge(subs[a].id, subs[b].id);
    }

    /** First pass over the pairs. */
    method StripPivots(pairs: seq<Pair>, ties: Ties) returns (large: bool)
      requires AllPairs(subs, pairs)
      modifies this
      ensures PassOne(old(subs), pairs, |pairs|, subs)
      ensures EdgesAfter(old(subs), pairs, |pairs|, old(edges), edges)
      ensures large <==> LargePair(pairs, |pairs|)
      ensures PairsIn(old(subs), pairs) && subs == PivotPass(old(subs), pairs, |pairs|, ties)
    {
      hide PassOne, EdgesAfter, AllPairs, Small, Related, PivotOf, PairRelated, StripAt, Start, Earlier;
      AllIn(subs, pairs);
      large := false;
      PassOneStart(subs, pairs);
      EdgesStart(subs, pairs, edges);
      for n := 0 to |pairs|
        invariant PassOne(old(subs), pairs, n, subs)
        invariant EdgesAfter(old(subs), pairs, n, old(edges), edges)
        invariant large <==> LargePair(pairs, n)
        invariant subs == PivotPass(old(subs), pairs, n, ties)
      {
        var p := pairs[n];
        LargeNext(pairs, n);
        if |p.shared| > PIVOT_MAX {
          NotSmall(p);
          large := true;
          PassOneSkip(old(subs), pairs, n, subs);
          EdgesSkip(old(subs), pairs, n, old(edges), edges);
        } else {
          NotSmall(p);
          PairInRange(old(subs), pairs, n, subs);
          ghost var s, es := subs, edges;
          var a, b := StripPivot(p, ties);
          PassOneStrip(old(subs), pairs, n, s, a, b);
          PivotNext(old(subs), pairs, n, s, old(edges), es, edges, a, b);
        }
      }
    }

    /** Of the segments that hold v, the first of the narrowest keeps it. */
    method KeepNarrowest(v: nat, list: seq<nat>) returns (winner: nat)
      requires list != [] && forall a :: 0 <= a < |list| ==> list[a] < |subs|
      modifies this`subs
      ensures winner in list && exists w: nat :: w < |list| && FirstNarrowest(old(subs), list, w) && winner == list[w]
      ensures subs == StripOthers(old(subs), list, winner, v, |list|)
    {
      hide Narrower, Strip, Thinner;
      var w := 0;
      ghost var was := subs;
      NarrowerOrder(subs[list[0]], subs[list[0]], subs[list[0]]);
      for k := 1 to |list|
        invariant subs == was && w < k
        invariant forall a :: 0 <= a < k ==> !Narrower(subs[list[a]], subs[list[w]])
        invariant forall a :: 0 <= a < w ==> Narrower(subs[list[w]], subs[list[a]])
      {
        forall a | 0 <= a < k && Narrower(subs[list[k]], subs[list[w]])
          ensures !Narrower(subs[list[a]], subs[list[k]]) && Narrower(subs[list[k]], subs[list[a]])
        {
          NarrowerOrder(subs[list[a]], subs[list[w]], subs[list[k]]);
        }
        NarrowerOrder(subs[list[k]], subs[list[k]], subs[list[k]]);
        if Narrower(subs[list[k]], subs[list[w]]) {
          w := k;
        }
      }
      forall a | 0 <= a < |list| ensures !Thinner(was[list[a]], was[list[w]]) && (a < w ==> Thinner(was[list[w]], was[list[a]])) {
        NarrowerIs(was[list[a]], was[list[w]]);
        NarrowerIs(was[list[w]], was[list[a]]);
      }
      assert FirstNarrowest(was, list, w);
      winner := list[w];
      for k := 0 to |list|
        invariant subs == StripOthers(was, list, winner, v, k)
      {
        if list[k] != winner {
          subs := subs[list[k] := subs[list[k]].(members := Strip(subs[list[k]].members, {v}))];
        }
      }
    }

    /** Second pass, over the numbers as they stood when it began. */
    method StripWider()
      modifies this`subs
      ensures Shrunk(old(subs), subs) && Exclusive(subs) && KeepsAll(old(subs), subs)
      ensures Narrowed(old(subs), subs)
    {
      hide Has, Table, Holders, PassTwo, Shrunk, Exclusive, Covered, StripOthers, Narrower, Settled, SettledAll, KeysMet, FirstNarrowest;
      ghost var was := subs;
      var keys, table := MsgToSubs(subs);
      PassTwoStart(subs, keys);
      TableDistinct(was, keys, table);
      ghost var states := [subs];
      SettleStart(subs, keys);
      for n := 0 to |keys|
        invariant PassTwo(was, keys, n, subs) && |states| == n + 1 && SettledAll(states, keys, n) && states[0] == was && states[n] == subs
      {
        RowAt(was, keys, table, n);
        PassTwoLength(was, keys, n, subs);
        var list := table[keys[n]];
        ghost var s := subs;
        HoldersNow(was, keys, n, s, list);
        if |list| >= 2 {
          var winner := KeepNarrowest(keys[n], list);
          PassTwoStep(was, keys, n, s, list, winner);
          ghost var w: nat :| w < |list| && FirstNarrowest(s, list, w) && winner == list[w];
          NarrowestKeeps(s, list, w, keys[n]);
        } else {
          PassTwoSingle(was, keys, n, subs);
        }
        SettleNext(states, keys, n, subs);
        states := states + [subs];
      }
      PassTwoExclusive(was, keys, table, subs);
      PassTwoKeeps(was, keys, subs);
      AllKeyed(was, keys, table);
      assert NarrowedBy(was, subs, keys, states);
    }

    /** Removes segments without numbers and the edges that name them. */
    method PruneEmpty()
      modifies this
      ensures subs == Kept(old(subs)) && edges == Cull(old(edges), Dropped(old(subs)))
    {
      hide Has, Kept, Dropped, Cull, Listed;
      var kept: seq<Sub>, gone: set<string> := [], {};
      PruneStart(subs[..0]);
      for n := 0 to |subs|
        invariant subs == old(subs) && edges == old(edges)
        invariant kept == Kept(subs[..n]) && gone == Dropped(subs[..n])
        invariant gone == {} ==> forall i :: 0 <= i < n ==> Has(subs[i]) != {}
      {
        PruneNext(subs, n);
        if Listed(subs[n]) != [] {
          kept := kept + [subs[n]];
        } else {
          gone := gone + {subs[n].id};
        }
      }
      assert subs[..|subs|] == subs;
      if gone != {} {
        subs := kept;
        edges := CullEdges(edges, gone);
      } else {
        KeptAll(subs);
        CullNone(edges, gone);
      }
    }

    /**
     * Resolves overlaps in place. The result says that some two segments share more than a pivot and that
     * this was left for another attempt.
     */
    method Resolve(rows: nat, force: bool, soft: bool, ties: Ties) returns (large: bool)
      modifies this
      ensures Repaired(old(subs), old(edges), subs, edges)
      ensures large <==> !soft && !force && Large(old(subs))
      ensures large ==> Shrunk(old(subs), subs)
      ensures soft ==> Deduped(old(subs), subs) && edges == old(edges)
      ensures !soft && !large ==> Exclusive(subs)
      ensures !soft && IdsDistinct(old(subs)) ==> RelationsKept(old(subs), old(edges), subs, edges)
      ensures !soft ==> SoleFate(old(subs), ties, subs)
      ensures large ==> Pivoted(old(subs), ties, subs)
      ensures !soft && !large && !Exclusive(old(subs)) ==> Resolved(old(subs), ties, subs)
    {
      hide Repaired, Mid, Large, LargePair, Shrunk, Deduped, Exclusive, Noted, RelationsKept, Once, AllPairs, PassOne, EdgesAfter,
        IdsDistinct, Kept, Cull, Dropped, KeepsAll, Tally, SameNumbers, Covered, SoleFate, Met, PivotPass, PairsIn, Pivoted, Resolved, Narrowed;
      ghost var s0, e0 := subs, edges;
      DedupAll();
      ghost var s1 := subs;
      MidDeduped(s0, e0, s1);
      MidRepaired(s0, e0, s1, e0);
      if soft {
        return false;
      }
      DedupedSame(s0, s1);
      if |subs| < 2 {
        FewSubs(subs);
        Untouched(s0, s1, e0);
        FateUntouched(s0, ties, s1);
        return false;
      }
      var overlaps, missing := AuditMembership(subs, rows);
      ExclusiveIff(subs);
      if overlaps == [] {
        Untouched(s0, s1, e0);
        FateUntouched(s0, ties, s1);
        return false;
      }
      var pairs := FindPairs(subs);
      MetAll(s1, pairs);
      large := StripPivots(pairs, ties);
      LargeIff(s1, pairs);
      ghost var s2 := subs;
      PivotedBy(s0, s1, pairs, ties);
      MidStripped(s0, e0, s1, pairs, subs, edges);
      if large && !force {
        MidRepaired(s0, e0, subs, edges);
        MidRelations(s0, e0, subs, edges);
        MidShrunk(s0, e0, subs, edges);
        FateLarge(s0, ties, subs);
        return true;
      }
      if large {
        StripWider();
        MidWider(s0, e0, s2, edges, subs);
        FateLarge(s0, ties, Kept(subs));
      } else {
        NoLargeSmall(pairs);
        PassOneExclusive(s1, pairs, subs);
        FateStripped(s0, s1, pairs, ties);
      }
      ResolvedBy(s0, ties, s2, subs);
      PrunedRepaired(s0, e0, subs, edges);
      KeptExclusive(subs);
      if IdsDistinct(s0) {
        PrunedRelations(s0, e0, subs, edges);
      }
      PruneEmpty();
      large := false;
    }
  }

  lemma {:induction false} PivotedBy(subs: seq<Sub>, s1: seq<Sub>, pairs: seq<Pair>, ties: Ties)
    requires Deduped(subs, s1) && Met(s1, pairs) && PairsIn(s1, pairs)
    ensures Pivoted(subs, ties, PivotPass(s1, pairs, |pairs|, ties))
  {
    hide Deduped, Met, PairsIn, PivotPass;
  }

  lemma {:induction false} ResolvedBy(subs: seq<Sub>, ties: Ties, s2: seq<Sub>, s3: seq<Sub>)
    requires Pivoted(subs, ties, s2) && if Large(subs) then Narrowed(s2, s3) else s3 == s2
    ensures Resolved(subs, ties, Kept(s3))
  {
    hide Pivoted, Large, Narrowed, Kept;
  }

  lemma {:induction false} MetAll(subs: seq<Sub>, pairs: seq<Pair>)
    requires Met(subs, pairs)
    ensures AllPairs(subs, pairs)
  {
    hide AllPairs, KeysMet, Ranked;
  }

  lemma {:induction false} FateUntouched(subs: seq<Sub>, ties: Ties, subs': seq<Sub>)
    requires Deduped(subs, subs') && Exclusive(subs')
    ensures SoleFate(subs, ties, subs')
  {
    hide Once, Covered, Exclusive, OnlyShared, Safe, Leads, Opens, Shrunk;
    SameBack(subs, subs');
    SameCovers(subs, subs');
    SameCovers(subs', subs);
    DedupedSame(subs, subs');
    forall v: nat ensures Covered(subs', v) <==> Survives(subs, v, ties) {
      if Covered(subs, v) {
        ExclusiveSafe(subs, v);
      }
      if Safe(subs, v) {
        SafeCovered(subs, v);
      }
      if b: nat :| Opens(subs, b, v) && Leads(subs, b, v, ties) {
        OpensHas(subs, b, v);
        StillCovers(subs, b, v);
      }
    }
  }

  lemma {:induction false} SameBack(a: seq<Sub>, b: seq<Sub>)
    requires SameNumbers(a, b)
    ensures SameNumbers(b, a)
  {
    hide Has;
  }

  /** A large overlap shares more than one number. */
  lemma {:induction false} FateLarge(subs: seq<Sub>, ties: Ties, subs': seq<Sub>)
    requires Large(subs)
    ensures SoleFate(subs, ties, subs')
  {
    hide Has, Covered, Survives;
    var i, j :| 0 <= i < j < |subs| && |Has(subs[i]) * Has(subs[j])| > PIVOT_MAX;
    forall v: nat ensures !OnlyShared(subs, v) {
      var both := Has(subs[i]) * Has(subs[j]);
      if both <= {v} {
        SubsetSize(both, {v});
      }
    }
  }

  lemma {:induction false} SubsetSize(a: set<nat>, b: set<nat>)
    requires a <= b
    ensures |a| <= |b|
  {
    assert b == a + (b - a);
  }

  lemma {:induction false} FateStripped(subs: seq<Sub>, s1: seq<Sub>, pairs: seq<Pair>, ties: Ties)
    requires Deduped(subs, s1) && Met(s1, pairs) && PairsIn(s1, pairs)
    requires PassOne(s1, pairs, |pairs|, PivotPass(s1, pairs, |pairs|, ties))
    ensures SoleFate(subs, ties, Kept(PivotPass(s1, pairs, |pairs|, ties)))
  {
    hide Once, Covered, Exclusive, Safe, Survives, Shrunk, Met, PairsIn, PassOne, PivotPass, Has, Kept;
    var s := PivotPass(s1, pairs, |pairs|, ties);
    KeptCovers(s);
    forall v: nat | v < NO_START && OnlyShared(subs, v) ensures Covered(Kept(s), v) <==> Survives(subs, v, ties) {
      assert OnlyShared(s1, v);
      SoleIff(s1, pairs, ties, v);
      SameSurvives(subs, s1, v, ties);
    }
  }

  lemma {:induction false} SameSurvives(a: seq<Sub>, b: seq<Sub>, v: nat, ties: Ties)
    requires SameNumbers(a, b)
    ensures Survives(a, v, ties) <==> Survives(b, v, ties)
  {
    hide Has, Start, Safe;
    SameBack(a, b);
    SameSafe(a, b);
    SameSafe(b, a);
    forall g: nat ensures Opens(a, g, v) <==> Opens(b, g, v) {
      if g < |a| {
        SameStart(a[g], b[g]);
      }
    }
  }

  function LoneSub(id: string, v: nat): Sub {
    Sub(id, "", "", "", [Num(v)])
  }

  lemma {:induction false} LoneHas(s: Sub, v: nat)
    requires s.members == [Num(v)]
    ensures Has(s) == {v} && Start(s) == v
  {
    hide Start;
    StartIs(s);
  }

  /** Three segments of one and the same message: it is lost unless the first comes after both others in the ties. */
  method ThreeAlike(v: nat, rows: nat, ties: Ties) returns (subs: seq<Sub>)
    requires v < NO_START
    ensures Covered(subs, v) <==> !ties(0, 1) && !ties(0, 2)
  {
    hide Repaired, Large, Exclusive, RelationsKept, Deduped, IdsDistinct, Shrunk, Survives, Covered, Has;
    var d := new Decomposition([LoneSub("S1", v), LoneSub("S2", v), LoneSub("S3", v)], []);
    ghost var was := d.subs;
    ThreeFate(was, v, ties);
    var _ := d.Resolve(rows, false, false, ties);
    subs := d.subs;
  }

  lemma {:induction false} ThreeFate(subs: seq<Sub>, v: nat, ties: Ties)
    requires subs == [LoneSub("S1", v), LoneSub("S2", v), LoneSub("S3", v)]
    ensures OnlyShared(subs, v) && (Survives(subs, v, ties) <==> !ties(0, 1) && !ties(0, 2))
  {
    hide Has, Start;
    LoneHas(subs[0], v);
    LoneHas(subs[1], v);
    LoneHas(subs[2], v);
    assert Opens(subs, 0, v) && Opens(subs, 1, v) && Opens(subs, 2, v);
    ThreeUnsafe(subs, v);
    if !ties(0, 1) && !ties(0, 2) {
      assert Leads(subs, 0, v, ties);
    }
  }

  lemma {:induction false} ThreeUnsafe(subs: seq<Sub>, v: nat)
    requires |subs| == 3 && Has(subs[0]) == Has(subs[1]) == Has(subs[2]) == {v}
    ensures !Safe(subs, v)
  {
    hide Has, Start;
    forall h: nat, k: nat ensures !SafeWith(subs, v, h, k) {
      var g: nat := if h != 0 && k != 0 then 0 else if h != 1 && k != 1 then 1 else 2;
      forall u: nat ensures !Unshared(subs, g, u) {
        var o := if g == 0 then 1 else 0;
        assert Has(subs[g]) == Has(subs[o]);
      }
    }
  }

  lemma {:induction false} DedupedSame(subs: seq<Sub>, subs': seq<Sub>)
    requires Deduped(subs, subs')
    ensures Once(subs') && (Large(subs) <==> Large(subs')) && (Exclusive(subs) <==> Exclusive(subs'))
  {
    hide Has, Once, Shrunk;
    SameCovers(subs, subs');
  }

  lemma {:induction false} FewSubs(subs: seq<Sub>)
    requires |subs| < 2
    ensures Exclusive(subs)
  {
  }

  /** No overlap at all: nothing but repeats inside segments has gone. */
  lemma {:induction false} Untouched(subs: seq<Sub>, subs': seq<Sub>, edges: seq<Edge>)
    requires Deduped(subs, subs') && Exclusive(subs')
    ensures !Large(subs) && RelationsKept(subs, edges, subs', edges)
  {
    hide Mid, Noted, RelationsKept, Exclusive, Deduped, Large, Once;
    DedupedSame(subs, subs');
    ExclusiveNotLarge(subs);
    ExclusiveNoted(subs, edges);
    MidDeduped(subs, edges, subs');
    MidRelations(subs, edges, subs', edges);
  }

  lemma {:induction false} MidShrunk(subs: seq<Sub>, edges: seq<Edge>, subs': seq<Sub>, edges': seq<Edge>)
    requires Mid(subs, edges, subs', edges')
    ensures Shrunk(subs, subs')
  {
    hide Shrunk;
  }

  lemma {:induction false} NoLargeSmall(pairs: seq<Pair>)
    requires !LargePair(pairs, |pairs|)
    ensures forall k :: 0 <= k < |pairs| ==> Small(pairs[k])
  {
  }

  method CullEdges(edges: seq<Edge>, gone: set<string>) returns (r: seq<Edge>)
    ensures r == Cull(edges, gone)
  {
    r := [];
    for n := 0 to |edges|
      invariant r == Cull(edges[..n], gone)
    {
      assert edges[..n + 1][..n] == edges[..n];
      if edges[n].from !in gone && edges[n].to !in gone {
        r := r + [edges[n]];
      }
    }
    assert edges[..|edges|] == edges;
  }

  /** None of the segments is narrower, and the earlier ones are wider. */
  ghost predicate FirstNarrowest(subs: seq<Sub>, list: seq<nat>, w: nat) {
    && w < |list| && (forall a :: 0 <= a < |list| ==> list[a] < |subs|)
    && (forall a :: 0 <= a < |list| ==> !Thinner(subs[list[a]], subs[list[w]]))
    && (forall a :: 0 <= a < w ==> Thinner(subs[list[w]], subs[list[a]]))
  }

  ghost predicate Unlinked(edges: seq<Edge>, from: string, to: string) {
    forall m :: 0 <= m < |edges| ==> !(edges[m].from == from && edges[m].to == to)
  }

  // ---- steps of the loops -----------------------------------------------------------------------

  ghost predicate DedupedTo(was: seq<Sub>, subs: seq<Sub>, n: nat) {
    && |was| == |subs|
    && (forall i :: 0 <= i < n && i < |subs| ==> OneDeduped(was[i], subs[i]))
    && (forall i :: n <= i < |subs| ==> subs[i] == was[i])
  }

  ghost predicate OneDeduped(s: Sub, s': Sub) {
    Less(s, s') && OnceIn(s'.members) && Has(s) == Has(s')
  }

  lemma {:induction false} DedupStart(subs: seq<Sub>)
    ensures DedupedTo(subs, subs, 0)
  {
  }

  lemma {:induction false} DedupNext(was: seq<Sub>, subs: seq<Sub>, n: nat)
    requires DedupedTo(was, subs, n) && n < |subs|
    ensures DedupedTo(was, subs[n := subs[n].(members := Dedup(subs[n].members, {}))], n + 1)
  {
    hide OneDeduped;
    DedupOne(subs[n]);
  }

  lemma {:induction false} DedupOne(s: Sub)
    ensures OneDeduped(s, s.(members := Dedup(s.members, {})))
  {
    forall n: nat ensures multiset(Dedup(s.members, {}))[Num(n)] <= 1 {
      DedupOnce(s.members, {}, n);
    }
    DedupOnce(s.members, {}, 0);
    assert Nums(Dedup(s.members, {})) == Nums(s.members);
  }

  lemma {:induction false} DedupEnd(was: seq<Sub>, subs: seq<Sub>)
    requires DedupedTo(was, subs, |subs|)
    ensures Deduped(was, subs)
  {
    hide Has, Less, OnceIn;
    forall i | 0 <= i < |subs| ensures Less(was[i], subs[i]) && OnceIn(subs[i].members) && Has(was[i]) == Has(subs[i]) {
      assert OneDeduped(was[i], subs[i]);
    }
  }

  lemma {:induction false} EdgesStart(subs: seq<Sub>, pairs: seq<Pair>, edges: seq<Edge>)
    ensures EdgesAfter(subs, pairs, 0, edges, edges)
  {
  }

  lemma {:induction false} LargeNext(pairs: seq<Pair>, n: nat)
    requires n < |pairs|
    ensures LargePair(pairs, n + 1) <==> LargePair(pairs, n) || !Small(pairs[n])
  {
    hide Small;
  }

  lemma {:induction false} NotSmall(p: Pair)
    ensures Small(p) <==> |p.shared| <= PIVOT_MAX
  {
  }

  lemma {:induction false} PairInRange(subs0: seq<Sub>, pairs: seq<Pair>, n: nat, subs: seq<Sub>)
    requires AllPairs(subs0, pairs) && n < |pairs| && PassOne(subs0, pairs, n, subs)
    ensures pairs[n].i < |subs| && pairs[n].j < |subs|
  {
    hide OwnKept, SafeHeld, NotBoth, Has;
    assert IsPair(subs0, pairs[n]);
  }

  lemma {:induction false} PivotNext(subs0: seq<Sub>, pairs: seq<Pair>, n: nat, subs: seq<Sub>, edges0: seq<Edge>, edges: seq<Edge>, edges': seq<Edge>, a: nat, b: nat)
    requires n < |pairs| && Small(pairs[n]) && PassOne(subs0, pairs, n, subs) && EdgesAfter(subs0, pairs, n, edges0, edges)
    requires ((a, b) == (pairs[n].i, pairs[n].j) || (a, b) == (pairs[n].j, pairs[n].i)) && a < |subs| && b < |subs|
    requires Related(edges', subs[a].id, subs[b].id)
    requires edges' == edges || edges' == edges + [Edge(subs[a].id, subs[b].id, PIVOT_EDGE)]
    ensures EdgesAfter(subs0, pairs, n + 1, edges0, edges')
  {
    hide EdgesAfter, OwnKept, SafeHeld, NotBoth, Small;
    assert Less(subs0[a], subs[a]) && Less(subs0[b], subs[b]);
    assert PairRelated(subs0, pairs[n], edges') by { RelatedSwap(edges', subs[a].id, subs[b].id); }
    if edges' != edges {
      assert PivotOf(subs0, pairs[n], edges'[|edges|]);
    }
    EdgesNext(subs0, pairs, n, edges0, edges, edges');
  }

  lemma {:induction false} RelatedSwap(edges: seq<Edge>, a: string, b: string)
    requires Related(edges, a, b)
    ensures Related(edges, b, a)
  {
    if k :| 0 <= k < |edges| && Joins(edges[k], a, b) {
      assert Joins(edges[k], b, a);
    }
  }

  lemma {:induction false} NarrowerOrder(a: Sub, b: Sub, c: Sub)
    ensures !Narrower(a, a)
    ensures !Narrower(a, b) && Narrower(c, b) ==> !Narrower(a, c) && Narrower(c, a)
  {
  }

  lemma {:induction false} PassTwoLength(subs0: seq<Sub>, keys: seq<nat>, n: nat, subs: seq<Sub>)
    requires PassTwo(subs0, keys, n, subs)
    ensures |subs0| == |subs|
  {
    hide Covered, SameFor, AtMostOne;
  }

  lemma {:induction false} TableDistinct(subs: seq<Sub>, keys: seq<nat>, table: map<nat, seq<nat>>)
    requires Table(subs, |subs|, keys, table)
    ensures Distinct(keys)
  {
    hide Holders, Distinct;
  }

  lemma {:induction false} SettleStart(subs: seq<Sub>, keys: seq<nat>)
    ensures SettledAll([subs], keys, 0)
  {
  }

  /** When number n comes up, its holders are those it had when the pass began. */
  lemma {:induction false} HoldersNow(subs0: seq<Sub>, keys: seq<nat>, n: nat, subs: seq<Sub>, list: seq<nat>)
    requires n < |keys| && PassTwo(subs0, keys, n, subs) && list == Holders(subs0, keys[n], |subs0|)
    ensures (forall i: nat :: i in list <==> i < |subs| && keys[n] in Has(subs[i])) && Ascends(list)
    ensures |list| < 2 ==> Settled(subs, keys[n], subs)
  {
    hide Has, Holders, Covered, Shrunk;
    var v := keys[n];
    PassTwoLength(subs0, keys, n, subs);
    assert SameFor(subs0, subs, v);
    HoldersHave(subs0, v, |subs0|);
    if |list| < 2 {
      forall i: nat, j: nat | i < j < |subs| ensures v !in Has(subs[i]) || v !in Has(subs[j]) {
        TwoOf(list, i, j);
      }
      assert AtMostOne(subs, v);
    }
  }

  lemma {:induction false} TwoOf(list: seq<nat>, i: nat, j: nat)
    requires |list| < 2 && i != j
    ensures i !in list || j !in list
  {
  }

  lemma {:induction false} NarrowestKeeps(subs: seq<Sub>, list: seq<nat>, w: nat, v: nat)
    requires (forall i: nat :: i in list <==> i < |subs| && v in Has(subs[i])) && Ascends(list) && |list| >= 2 && FirstNarrowest(subs, list, w)
    ensures Settled(subs, v, StripOthers(subs, list, list[w], v, |list|))
  {
    hide Has, Narrower, StripOthers, Tighter;
    var winner, subs' := list[w], StripOthers(subs, list, list[w], v, |list|);
    assert list[..|list|] == list && winner in list;
    forall i: nat | i < |subs| ensures Has(subs'[i]) == if i == winner then Has(subs[i]) else Has(subs[i]) - {v} {
      StripOthersHas(subs, list, winner, v, |list|, i);
    }
    forall g: nat | g < |subs| && v in Has(subs[g])
      ensures !Tighter(subs[g], subs[winner]) && (g < winner ==> Tighter(subs[winner], subs[g]))
    {
      var a :| 0 <= a < |list| && list[a] == g;
      assert g < winner ==> a < w;
    }
    assert KeptBy(subs, v, winner, subs');
    assert list[0] in list && list[1] in list;
    assert !AtMostOne(subs, v);
  }

  lemma {:induction false} AllKeyed(subs: seq<Sub>, keys: seq<nat>, table: map<nat, seq<nat>>)
    requires Table(subs, |subs|, keys, table)
    ensures forall v :: Covered(subs, v) ==> v in keys
  {
    hide Has, Table;
    forall v | Covered(subs, v) ensures v in keys {
      var i :| 0 <= i < |subs| && v in Has(subs[i]);
      KeyOf(subs, keys, table, v, i);
    }
  }

  lemma {:induction false} PassTwoSingle(subs0: seq<Sub>, keys: seq<nat>, n: nat, subs: seq<Sub>)
    requires n < |keys| && PassTwo(subs0, keys, n, subs) && |Holders(subs0, keys[n], |subs0|)| < 2
    ensures PassTwo(subs0, keys, n + 1, subs)
  {
    hide Has, Holders, Covered, Shrunk;
    var v := keys[n];
    PassTwoLength(subs0, keys, n, subs);
    assert SameFor(subs0, subs, v);
    HoldersHave(subs0, v, |subs0|);
    var list := Holders(subs0, v, |subs0|);
    forall i, j | 0 <= i < j < |subs| ensures v !in Has(subs[i]) || v !in Has(subs[j]) {
      assert v in Has(subs[i]) && v in Has(subs[j]) ==> i in list && j in list;
    }
    assert AtMostOne(subs, v);
  }

  lemma {:induction false} PassTwoKeeps(subs0: seq<Sub>, keys: seq<nat>, subs: seq<Sub>)
    requires PassTwo(subs0, keys, |keys|, subs)
    ensures Shrunk(subs0, subs) && KeepsAll(subs0, subs)
  {
    hide Covered, SameFor, AtMostOne, Shrunk;
  }

  lemma {:induction false} PruneStart(subs: seq<Sub>)
    requires subs == []
    ensures Kept(subs) == [] && Dropped(subs) == {}
  {
  }

  lemma {:induction false} PruneNext(subs: seq<Sub>, n: nat)
    requires n < |subs|
    ensures Listed(subs[n]) != [] <==> Has(subs[n]) != {}
    ensures Kept(subs[..n + 1]) == Kept(subs[..n]) + (if Has(subs[n]) != {} then [subs[n]] else [])
    ensures Dropped(subs[..n + 1]) == Dropped(subs[..n]) + (if Has(subs[n]) == {} then {subs[n].id} else {})
  {
    hide Has;
    assert subs[..n + 1][..n] == subs[..n];
    assert subs[..n + 1] == subs[..n] + [subs[n]];
    var list := Listed(subs[n]);
    assert list != [] ==> list[0] in list;
    if Has(subs[n]) != {} {
      var v :| v in Has(subs[n]);
      assert v in list;
    }
  }

  // ---- the retry loop ---------------------------------------------------------------------------

  /** One call of the model: it failed, or gave a decomposition. */
  datatype Attempt = Failed | Answered(subs: seq<Sub>, edges: seq<Edge>)

  datatype Outcome = Error | Result(subs: seq<Sub>, edges: seq<Edge>)

  /** k is the only answer before n. */
  ghost predicate OnlyAnswer(attempts: seq<Attempt>, n: nat, k: nat) {
    k < n <= |attempts| && attempts[k].Answered? && forall x :: 0 <= x < n && x != k ==> attempts[x].Failed?
  }

  /**
   * The answer that is used: the first one, unless it has a large overlap and another follows; then the second.
   */
  ghost predicate Chosen(attempts: seq<Attempt>, k: nat) {
    && k < |attempts| && attempts[k].Answered?
    && ((OnlyAnswer(attempts, k + 1, k) && (Large(attempts[k].subs) ==> OnlyAnswer(attempts, |attempts|, k)))
        || exists f: nat :: OnlyAnswer(attempts, k, f) && Large(attempts[f].subs))
  }

  /** The result is the chosen answer, repaired, and no two of its segments share a message. */
  ghost predicate Settles(attempts: seq<Attempt>, k: nat, r: Outcome) {
    Chosen(attempts, k) && r.Result? && Exclusive(r.subs) && Repaired(attempts[k].subs, attempts[k].edges, r.subs, r.edges)
  }

  /** Up to |attempts| calls; a large overlap costs one more call, after that it is resolved by force. */
  method DecomposeOnce(attempts: seq<Attempt>, rows: nat, ties: Ties) returns (r: Outcome)
    ensures r.Error? <==> forall k :: 0 <= k < |attempts| ==> attempts[k].Failed?
    ensures r.Result? ==> exists k :: Settles(attempts, k, r)
  {
    hide Repaired, Large, Exclusive, RelationsKept, Deduped, IdsDistinct, Shrunk;
    var last: Decomposition?, retried := null, false;
    ghost var f := 0;
    for n := 0 to |attempts|
      invariant (retried <==> last != null) && (last != null ==> fresh(last))
      invariant last == null ==> forall k :: 0 <= k < n ==> attempts[k].Failed?
      invariant last != null ==> OnlyAnswer(attempts, n, f) && Large(attempts[f].subs) && Shrunk(attempts[f].subs, last.subs)
      invariant last != null ==> Repaired(attempts[f].subs, attempts[f].edges, last.subs, last.edges)
    {
      match attempts[n]
      case Failed =>
      case Answered(subs, edges) =>
        var d := new Decomposition(subs, edges);
        last := d;
        var large := d.Resolve(rows, retried, false, ties);
        if !large {
          r := Result(d.subs, d.edges);
          assert Settles(attempts, n, r);
          return;
        }
        retried, f := true, n;
    }
    if last == null {
      return Error;
    }
    ghost var subs, edges := last.subs, last.edges;
    var _ := last.Resolve(rows, true, false, ties);
    RepairedTwice(attempts[f].subs, attempts[f].edges, subs, edges, last.subs, last.edges);
    r := Result(last.subs, last.edges);
    assert Settles(attempts, f, r);
  }

  lemma {:induction false} RepairedTwice(a: seq<Sub>, ea: seq<Edge>, b: seq<Sub>, eb: seq<Edge>, c: seq<Sub>, ec: seq<Edge>)
    requires Repaired(a, ea, b, eb) && Shrunk(a, b) && Repaired(b, eb, c, ec)
    ensures Repaired(a, ea, c, ec)
  {
    hide Shrunk, Trimmed, Once, KeepsSafe, Closed, NewPivot;
    TrimmedTrans(a, b, c);
    SafeTrans(a, b, c);
    forall e | e in ec ensures e in ea || NewPivot(a, e) {
      if NewPivot(b, e) {
        PivotGrows(a, b, e);
      }
    }
  }

  lemma {:induction false} PivotGrows(a: seq<Sub>, b: seq<Sub>, e: Edge)
    requires Shrunk(a, b) && NewPivot(b, e)
    ensures NewPivot(a, e)
  {
    hide Has;
    var i, j :| 0 <= i < j < |b| && Shares(b, i, j) && Joins(e, b[i].id, b[j].id);
    LessHas(a[i], b[i]);
    LessHas(a[j], b[j]);
    var v :| v in Has(b[i]) * Has(b[j]);
    assert v in Has(a[i]) * Has(a[j]);
    assert Shares(a, i, j);
  }
}
