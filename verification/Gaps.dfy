/** Cutting an oversized task into chunks at the largest pauses. */
module Gaps {
  import opened Events
  import opened Lists
  import opened SplitGuard

  /** Pauses are measured against -1 second. */
  const NO_GAP := -1000

  function Ceil(a: nat, b: nat): nat
    requires b > 0
  {
    (a + b - 1) / b
  }

  lemma {:induction false} CeilBounds(a: nat, b: nat)
    requires b > 0 && a > 0
    ensures Ceil(a, b) > 0 && (Ceil(a, b) - 1) * b < a <= Ceil(a, b) * b
  {
    var q := Ceil(a, b);
    DivMod(a + b - 1, b);
    assert (a + b - 1) == b * q + (a + b - 1) % b;
    assert q == 0 ==> b * q == 0;
    assert (q - 1) * b == b * q - b && q * b == b * q;
  }

  lemma {:induction false} DivMod(x: nat, b: nat)
    requires b > 0
    ensures x == b * (x / b) + x % b && 0 <= x % b < b
  {
  }

  /** How the pieces are sized: q chunks of about s messages, s no more than the target. */
  ghost predicate Sized(n: nat, target: nat, q: nat, s: nat) {
    && 1 < q && 1 <= s <= target
    && (q - 1) * s < n <= q * s
  }

  lemma {:induction false} Sizes(n: nat, target: nat)
    requires n > target >= 1
    ensures Sized(n, target, Ceil(n, target), Ceil(n, Ceil(n, target)))
  {
    var q := Ceil(n, target);
    CeilBounds(n, target);
    assert q == 1 ==> q * target == target;
    var s := Ceil(n, q);
    CeilBounds(n, q);
    assert s * q == q * s;
    SmallerFactor(s - 1, target, q, n);
    LessProduct(q - 1, s, target);
    assert (q - 1) * s <= (q - 1) * target < n;
  }

  lemma {:induction false} SmallerFactor(a: nat, b: nat, q: nat, n: nat)
    requires q > 0 && a * q < n <= q * b
    ensures a < b
  {
    if a >= b {
      LessProduct(q, b, a);
      assert false;
    }
  }

  lemma {:induction false} LessProduct(k: nat, a: nat, b: nat)
    requires a <= b
    ensures k * a <= k * b
  {
  }

  function Low(k: nat, s: nat): nat
    requires s > 0
  {
    var lo := k * s - s / 3;
    if lo < 1 then 1 else lo
  }

  function High(k: nat, s: nat, n: nat): int
    requires s > 0
  {
    var hi := k * s + s / 3;
    if hi > n - 1 then n - 1 else hi
  }

  /** The windows reach a third of a chunk both ways, as far as the list goes, and lie one after the other. */
  lemma {:induction false} Windows(n: nat, target: nat, q: nat, s: nat, k: nat)
    requires Sized(n, target, q, s) && 1 <= k < q
    ensures 1 <= Low(k, s) <= k * s <= High(k, s, n) <= n - 1
    ensures k + 1 < q ==> High(k, s, n) < Low(k + 1, s)
    ensures Low(k, s) == k * s - s / 3 || (k * s - s / 3 < 1 && Low(k, s) == 1)
    ensures High(k, s, n) == k * s + s / 3 || (k * s + s / 3 > n - 1 && High(k, s, n) == n - 1)
  {
    LessProduct(s, k, q - 1);
    assert s * k == k * s && s * (q - 1) == (q - 1) * s;
    LessProduct(s, 1, k);
    assert (k + 1) * s == k * s + s;
  }

  function Pause(eff: seq<Event>, i: nat): int
    requires 0 < i < |eff|
  {
    eff[i].ts - eff[i - 1].ts
  }

  /** c is the first largest pause of the window; with no pause above -1 second, the middle of it. */
  ghost predicate BestCut(eff: seq<Event>, lo: nat, hi: nat, ideal: nat, c: nat)
    requires 1 <= lo && hi < |eff|
  {
    if exists i :: lo <= i <= hi && Pause(eff, i) > NO_GAP then
      && lo <= c <= hi
      && (forall i :: lo <= i <= hi ==> Pause(eff, i) <= Pause(eff, c))
      && (forall i :: lo <= i < c ==> Pause(eff, i) < Pause(eff, c))
    else c == ideal
  }

  /** Before message i there were `gap` milliseconds of silence. */
  ghost predicate Silence(eff: seq<Event>, i: nat, gap: int) {
    0 < i < |eff| && eff[i].ts == eff[i - 1].ts + gap
  }

  /** The cut is at the first of the longest silences of the window, unless all of them are a second or more backwards. */
  lemma {:induction false} LongestSilence(eff: seq<Event>, lo: nat, hi: nat, ideal: nat, c: nat)
    requires 1 <= lo <= hi < |eff| && BestCut(eff, lo, hi, ideal, c)
    ensures (forall i: nat, gap: int :: lo <= i <= hi && Silence(eff, i, gap) ==> gap <= -1000) ==> c == ideal
    ensures (exists i: nat, gap: int :: lo <= i <= hi && Silence(eff, i, gap) && gap > -1000) ==> lo <= c <= hi
    ensures forall i: nat, gap: int, best: int ::
              lo <= i <= hi && gap > -1000 && Silence(eff, i, gap) && Silence(eff, c, best) ==> gap <= best && (i < c ==> gap < best)
  {
    forall i: nat | lo <= i <= hi ensures Silence(eff, i, Pause(eff, i)) {
    }
    assert forall i: nat, gap: int :: lo <= i <= hi && Silence(eff, i, gap) ==> gap == Pause(eff, i);
  }

  method FindCut(eff: seq<Event>, lo: nat, hi: nat, ideal: nat) returns (c: nat)
    requires 1 <= lo <= hi < |eff|
    ensures BestCut(eff, lo, hi, ideal, c)
  {
    c := ideal;
    var best := NO_GAP;
    for i := lo to hi + 1
      invariant forall j :: lo <= j < i ==> Pause(eff, j) <= best
      invariant best == NO_GAP ==> c == ideal
      invariant best > NO_GAP ==> lo <= c < i && Pause(eff, c) == best && forall j :: lo <= j < c ==> Pause(eff, j) < best
      invariant best >= NO_GAP
    {
      if Pause(eff, i) > best {
        best, c := Pause(eff, i), i;
      }
    }
  }

  /** c is the cut chosen for position k. */
  ghost predicate CutAt(eff: seq<Event>, s: nat, k: nat, c: nat)
    requires s > 0
  {
    && 1 <= Low(k, s) <= c <= High(k, s, |eff|) < |eff|
    && BestCut(eff, Low(k, s), High(k, s, |eff|), k * s, c)
  }

  ghost predicate Cuts(eff: seq<Event>, s: nat, cuts: seq<nat>)
    requires s > 0
  {
    forall k :: 0 <= k < |cuts| ==> CutAt(eff, s, k + 1, cuts[k])
  }

  method FindCuts(eff: seq<Event>, target: nat, q: nat, s: nat) returns (cuts: seq<nat>)
    requires Sized(|eff|, target, q, s)
    ensures |cuts| == q - 1 && Cuts(eff, s, cuts)
  {
    hide BestCut, Sized, Low, High;
    SizedPositive(|eff|, target, q, s);
    cuts := [];
    for k := 1 to q
      invariant |cuts| == k - 1 && Cuts(eff, s, cuts)
    {
      Windows(|eff|, target, q, s, k);
      var c := FindCut(eff, Low(k, s), High(k, s, |eff|), k * s);
      InWindow(eff, Low(k, s), High(k, s, |eff|), k * s, c);
      assert CutAt(eff, s, k, c);
      cuts := cuts + [c];
    }
  }

  lemma {:induction false} SizedPositive(n: nat, target: nat, q: nat, s: nat)
    requires Sized(n, target, q, s)
    ensures q > 1 && s > 0
  {
  }

  lemma {:induction false} InWindow(eff: seq<Event>, lo: nat, hi: nat, ideal: nat, c: nat)
    requires 1 <= lo <= ideal <= hi < |eff| && BestCut(eff, lo, hi, ideal, c)
    ensures lo <= c <= hi
  {
  }

  lemma {:induction false} CutsAscend(eff: seq<Event>, target: nat, q: nat, s: nat, cuts: seq<nat>)
    requires Sized(|eff|, target, q, s) && |cuts| == q - 1 && Cuts(eff, s, cuts)
    ensures forall k :: 0 <= k < |cuts| - 1 ==> cuts[k] < cuts[k + 1] <= cuts[k] + s + 2 * (s / 3)
    ensures 1 <= cuts[0] <= s + s / 3 && cuts[q - 2] < |eff| <= cuts[q - 2] + s + s / 3
  {
    hide BestCut;
    forall k | 0 <= k < |cuts| - 1 ensures cuts[k] < cuts[k + 1] <= cuts[k] + s + 2 * (s / 3) {
      Windows(|eff|, target, q, s, k + 1);
      Windows(|eff|, target, q, s, k + 2);
      assert (k + 2) * s == (k + 1) * s + s;
    }
    Windows(|eff|, target, q, s, 1);
    Windows(|eff|, target, q, s, q - 1);
    assert q * s == (q - 1) * s + s && 1 * s == s;
  }

  // ---- chunks -----------------------------------------------------------------------------------

  ghost predicate Ascending(cuts: seq<nat>) {
    forall j, k :: 0 <= j < k < |cuts| ==> cuts[j] < cuts[k]
  }

  lemma {:induction false} StepsAscend(cuts: seq<nat>)
    requires forall k :: 0 <= k < |cuts| - 1 ==> cuts[k] < cuts[k + 1]
    ensures Ascending(cuts)
  {
    if |cuts| > 1 {
      StepsAscend(cuts[1..]);
      forall k | 0 < k < |cuts| ensures cuts[0] < cuts[k] {
        assert cuts[0] < cuts[0 + 1];
        if k > 1 {
          assert cuts[1..][0] < cuts[1..][k - 1];
        }
      }
      forall j, k | 0 < j < k < |cuts| ensures cuts[j] < cuts[k] {
        assert cuts[1..][j - 1] < cuts[1..][k - 1];
      }
    }
  }

  /** Sorting the set of an ascending list gives the list back. */
  lemma {:induction false} IdsOfAscending(cuts: seq<nat>)
    requires Ascending(cuts)
    ensures Ids(cuts) == cuts
  {
    if cuts != [] {
      IdsOfAscending(cuts[1..]);
      assert cuts[0] !in cuts[1..];
      assert cuts == [cuts[0]] + cuts[1..];
    }
  }

  function From(cuts: seq<nat>, k: nat): nat
    requires k <= |cuts|
  {
    if k == 0 then 0 else cuts[k - 1]
  }

  /** Chunk k runs from cut k-1 to cut k. */
  ghost predicate ChunkIs(eff: seq<Event>, cuts: seq<nat>, k: nat, chunk: seq<Event>)
    requires k <= |cuts|
  {
    var to := if k < |cuts| then cuts[k] else |eff|;
    From(cuts, k) < to <= |eff| && chunk == eff[From(cuts, k)..to]
  }

  ghost predicate ChunksOf(eff: seq<Event>, cuts: seq<nat>, chunks: seq<seq<Event>>) {
    |chunks| == |cuts| + 1 && forall k :: 0 <= k < |chunks| ==> ChunkIs(eff, cuts, k, chunks[k])
  }

  function NonEmpty(chunks: seq<seq<Event>>): seq<seq<Event>> {
    if chunks == [] then [] else (if chunks[0] == [] then [] else [chunks[0]]) + NonEmpty(chunks[1..])
  }

  lemma {:induction false} NonEmptyAll(chunks: seq<seq<Event>>)
    requires forall k :: 0 <= k < |chunks| ==> chunks[k] != []
    ensures NonEmpty(chunks) == chunks
  {
    if chunks != [] {
      assert chunks == [chunks[0]] + chunks[1..];
      NonEmptyAll(chunks[1..]);
    }
  }

  /** The first k chunks are made and hold everything before cut k-1. */
  ghost predicate Sliced(eff: seq<Event>, cuts: seq<nat>, k: nat, chunks: seq<seq<Event>>) {
    && k <= |cuts| && |chunks| == k && From(cuts, k) <= |eff| && Flat(chunks) == eff[..From(cuts, k)]
    && forall j :: 0 <= j < k ==> ChunkIs(eff, cuts, j, chunks[j])
  }

  lemma {:induction false} SliceNext(eff: seq<Event>, cuts: seq<nat>, k: nat, chunks: seq<seq<Event>>)
    requires k < |cuts| && Sliced(eff, cuts, k, chunks) && From(cuts, k) < cuts[k] <= |eff|
    ensures Sliced(eff, cuts, k + 1, chunks + [eff[From(cuts, k)..cuts[k]]])
  {
    hide Flat;
    var prev, c := From(cuts, k), cuts[k];
    FlatSnoc(chunks, eff[prev..c]);
    assert eff[..c] == eff[..prev] + eff[prev..c];
  }

  lemma {:induction false} SliceLast(eff: seq<Event>, cuts: seq<nat>, chunks: seq<seq<Event>>)
    requires Sliced(eff, cuts, |cuts|, chunks) && From(cuts, |cuts|) < |eff|
    ensures var all := chunks + [eff[From(cuts, |cuts|)..]];
            ChunksOf(eff, cuts, all) && Flat(all) == eff && NonEmpty(all) == all
  {
    hide Flat, NonEmpty;
    var prev := From(cuts, |cuts|);
    var all := chunks + [eff[prev..]];
    FlatSnoc(chunks, eff[prev..]);
    assert eff == eff[..prev] + eff[prev..];
    assert ChunkIs(eff, cuts, |cuts|, eff[prev..]);
    assert forall k :: 0 <= k < |all| ==> ChunkIs(eff, cuts, k, all[k]);
    NonEmptyAll(all);
  }

  /** Slices at ascending cuts, dropping empty ones. */
  method Slice(eff: seq<Event>, cuts: seq<nat>) returns (chunks: seq<seq<Event>>)
    requires Ascending(cuts) && forall k :: 0 <= k < |cuts| ==> 1 <= cuts[k] < |eff|
    requires eff != []
    ensures ChunksOf(eff, cuts, chunks) && Flat(chunks) == eff
  {
    hide Sliced, NonEmpty, ChunksOf, Flat, Ids;
    IdsOfAscending(cuts);
    var sorted := Ids(cuts);
    var prev := 0;
    chunks := [];
    NoSlices(eff, cuts);
    for k := 0 to |sorted|
      invariant prev == From(cuts, k) && Sliced(eff, cuts, k, chunks)
    {
      var c := sorted[k];
      if c > prev {
        SliceNext(eff, cuts, k, chunks);
        chunks, prev := chunks + [eff[prev..c]], c;
      }
    }
    SliceLast(eff, cuts, chunks);
    chunks := NonEmpty(chunks + [eff[prev..]]);
  }

  lemma {:induction false} NoSlices(eff: seq<Event>, cuts: seq<nat>)
    ensures Sliced(eff, cuts, 0, [])
  {
  }

  /**
   * A task longer than the target becomes exactly ceil(n/target) non-empty chunks that concatenate to it, none longer
   * than target + 2*(target/3), each cut at the first largest pause of its window; a shorter one stays whole.
   */
  method SplitByGaps(eff: seq<Event>, target: nat) returns (chunks: seq<seq<Event>>, ghost cuts: seq<nat>)
    requires target >= 1
    ensures Flat(chunks) == eff
    ensures |eff| <= target ==> chunks == [eff]
    ensures |eff| > target ==>
              && |chunks| == Ceil(|eff|, target)
              && (forall k :: 0 <= k < |chunks| ==> 0 < |chunks[k]| <= target + 2 * (target / 3))
              && ChunksOf(eff, cuts, chunks)
              && Ceil(|eff|, Ceil(|eff|, target)) > 0 && Cuts(eff, Ceil(|eff|, Ceil(|eff|, target)), cuts)
  {
    if |eff| <= target {
      chunks, cuts := [eff], [];
      FlatSnoc([], eff);
      assert [] + [eff] == [eff];
      return;
    }
    hide Sized, Cuts, ChunksOf, Ceil;
    Sizes(|eff|, target);
    var q := Ceil(|eff|, target);
    SizesPositive(|eff|, target);
    var s := Ceil(|eff|, q);
    var found := FindCuts(eff, target, q, s);
    CutsAscend(eff, target, q, s, found);
    CutsInside(eff, s, found);
    StepsAscend(found);
    cuts := found;
    chunks := Slice(eff, found);
    ChunkLengths(eff, target, q, s, found, chunks);
  }

  lemma {:induction false} SizesPositive(n: nat, target: nat)
    requires n > target >= 1
    ensures Ceil(n, target) > 0
  {
    CeilBounds(n, target);
  }

  lemma {:induction false} CutsInside(eff: seq<Event>, s: nat, cuts: seq<nat>)
    requires s > 0 && Cuts(eff, s, cuts)
    ensures forall k :: 0 <= k < |cuts| ==> 1 <= cuts[k] < |eff|
  {
  }

  lemma {:induction false} ChunkLengths(eff: seq<Event>, target: nat, q: nat, s: nat, cuts: seq<nat>, chunks: seq<seq<Event>>)
    requires Sized(|eff|, target, q, s) && |cuts| == q - 1 && ChunksOf(eff, cuts, chunks)
    requires forall k :: 0 <= k < |cuts| - 1 ==> cuts[k] < cuts[k + 1] <= cuts[k] + s + 2 * (s / 3)
    requires cuts[0] <= s + s / 3 && |eff| <= cuts[q - 2] + s + s / 3
    ensures |chunks| == q && forall k :: 0 <= k < |chunks| ==> 0 < |chunks[k]| <= target + 2 * (target / 3)
  {
    forall k | 0 <= k < |chunks| ensures 0 < |chunks[k]| <= target + 2 * (target / 3) {
      assert ChunkIs(eff, cuts, k, chunks[k]);
      ChunkLength(eff, target, s, cuts, k, chunks[k]);
    }
  }

  lemma {:induction false} ChunkLength(eff: seq<Event>, target: nat, s: nat, cuts: seq<nat>, k: nat, chunk: seq<Event>)
    requires s <= target && cuts != [] && k <= |cuts| && ChunkIs(eff, cuts, k, chunk)
    requires forall j :: 0 <= j < |cuts| - 1 ==> cuts[j] < cuts[j + 1] <= cuts[j] + s + 2 * (s / 3)
    requires cuts[0] <= s + s / 3 && |eff| <= cuts[|cuts| - 1] + s + s / 3
    ensures 0 < |chunk| <= target + 2 * (target / 3)
  {
    if 0 < k < |cuts| {
      assert cuts[(k - 1) + 1] <= cuts[k - 1] + s + 2 * (s / 3);
    }
  }
}
