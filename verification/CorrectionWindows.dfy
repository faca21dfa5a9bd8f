/** Cutting a long session into overlapping windows for detection. */
module CorrectionWindows {
  const OVERLAP := 8

  /** Characters in messages lo..hi. */
  function Chars(sizes: seq<nat>, lo: nat, hi: nat): nat
    requires lo <= hi <= |sizes|
    decreases hi - lo
  {
    if lo == hi then 0 else Chars(sizes, lo, hi - 1) + sizes[hi - 1]
  }

  lemma {:induction false} CharsSplit(sizes: seq<nat>, lo: nat, mid: nat, hi: nat)
    requires lo <= mid <= hi <= |sizes|
    ensures Chars(sizes, lo, hi) == Chars(sizes, lo, mid) + Chars(sizes, mid, hi)
    decreases hi - mid
  {
    if mid < hi {
      CharsSplit(sizes, lo, mid, hi - 1);
    }
  }

  /** A window: messages from..to, not including the last. */
  datatype Span = Span(from: nat, to: nat)

  function Later(a: int, b: int): int {
    if a > b then a else b
  }

  /** Each window starts 8 messages before the end of the one before, or at the beginning. */
  ghost predicate Chained(spans: seq<Span>) {
    && (spans != [] ==> spans[0].from == 0)
    && (forall k :: 0 <= k < |spans| ==> spans[k].from < spans[k].to)
    && (forall k :: 0 < k < |spans| ==> spans[k - 1].to < spans[k].to && spans[k].from == if spans[k - 1].to > 8 then spans[k - 1].to - 8 else 0)
  }

  /** Where a window goes over the limit, it is no more than the overlap and one message. */
  ghost predicate Tight(sizes: seq<nat>, max: nat, s: Span) {
    s.from <= s.to <= |sizes| && (Chars(sizes, s.from, s.to) <= max || s.to - s.from <= 9)
  }

  /** The window was closed because the next message no longer fitted. */
  ghost predicate Full(sizes: seq<nat>, max: nat, s: Span) {
    s.from <= s.to < |sizes| && Chars(sizes, s.from, s.to) + sizes[s.to] > max
  }

  ghost predicate Spanned(sizes: seq<nat>, max: nat, spans: seq<Span>) {
    && Chained(spans) && (forall k :: 0 <= k < |spans| ==> Tight(sizes, max, spans[k]))
    && (forall k :: 0 <= k < |spans| - 1 ==> Full(sizes, max, spans[k]))
    && (spans == [] <==> sizes == []) && (spans != [] ==> spans[|spans| - 1].to == |sizes|)
  }

  /** Windows as slices of the session. */
  ghost predicate Sliced<T>(sess: seq<T>, spans: seq<Span>, wins: seq<seq<T>>) {
    |wins| == |spans| && forall k :: 0 <= k < |spans| ==> spans[k].from <= spans[k].to <= |sess| && wins[k] == sess[spans[k].from..spans[k].to]
  }

  function Sizes<T>(sess: seq<T>, size: T -> nat): (r: seq<nat>)
    ensures |r| == |sess| && forall i :: 0 <= i < |sess| ==> r[i] == size(sess[i])
  {
    seq(|sess|, i requires 0 <= i < |sess| => size(sess[i]))
  }

  ghost predicate Windowed<T>(sess: seq<T>, size: T -> nat, max: nat, wins: seq<seq<T>>, spans: seq<Span>) {
    Spanned(Sizes(sess, size), max, spans) && Sliced(sess, spans, wins)
  }

  /** The messages carried into the next window. */
  function Carried<T>(cur: seq<T>): seq<T> {
    if |cur| > OVERLAP then cur[|cur| - OVERLAP..] else cur
  }

  lemma {:induction false} CarriedIs<T>(sess: seq<T>, lo: nat, i: nat)
    requires lo <= i <= |sess|
    ensures lo <= Later(lo, i - OVERLAP) <= i && Carried(sess[lo..i]) == sess[Later(lo, i - OVERLAP)..i]
  {
  }

  /** The loop: `cur` is always a slice that ends at the message about to be looked at. */
  method Windows<T>(sess: seq<T>, size: T -> nat, max: nat) returns (wins: seq<seq<T>>)
    ensures exists spans :: Windowed(sess, size, max, wins, spans)
  {
    hide Progress, Spanned, Sliced, Chars, Later;
    ghost var sizes := Sizes(sess, size);
    var cur: seq<T>, chars := [], 0;
    wins := [];
    ghost var spans: seq<Span> := [];
    ghost var lo: nat := 0;
    Begin(sizes, max, sess);
    for i := 0 to |sess|
      invariant lo <= i && cur == sess[lo..i] && chars == Chars(sizes, lo, i)
      invariant Sliced(sess, spans, wins) && Progress(sizes, max, spans, lo, i)
    {
      var c := size(sess[i]);
      if cur != [] && chars + c > max {
        Close(sizes, max, spans, lo, i);
        SliceNext(sess, spans, wins, lo, i);
        wins, spans := wins + [cur], spans + [Span(lo, i)];
        CarriedIs(sess, lo, i);
        cur := Carried(cur);
        lo := Later(lo, i - OVERLAP);
        chars := Total(sizes, lo, i, cur, size);
      } else {
        Fits(sizes, max, spans, lo, i);
      }
      CharsNext(sizes, lo, i);
      cur := cur + [sess[i]];
      chars := chars + c;
    }
    if cur != [] {
      Last(sizes, max, spans, lo);
      SliceNext(sess, spans, wins, lo, |sess|);
      wins, spans := wins + [cur], spans + [Span(lo, |sess|)];
    } else {
      Nothing(sizes, max, spans, lo);
    }
    assert Windowed(sess, size, max, wins, spans);
  }

  lemma {:induction false} Begin<T>(sizes: seq<nat>, max: nat, sess: seq<T>)
    ensures Progress(sizes, max, [], 0, 0) && Sliced(sess, [], []) && Chars(sizes, 0, 0) == 0
  {
  }

  lemma {:induction false} SliceNext<T>(sess: seq<T>, spans: seq<Span>, wins: seq<seq<T>>, lo: nat, hi: nat)
    requires Sliced(sess, spans, wins) && lo <= hi <= |sess|
    ensures Sliced(sess, spans + [Span(lo, hi)], wins + [sess[lo..hi]])
  {
  }

  lemma {:induction false} CharsNext(sizes: seq<nat>, lo: nat, i: nat)
    requires lo <= i < |sizes|
    ensures Chars(sizes, lo, i + 1) == Chars(sizes, lo, i) + sizes[i]
  {
  }

  method Total<T>(ghost sizes: seq<nat>, ghost lo: nat, ghost hi: nat, cur: seq<T>, size: T -> nat) returns (sum: nat)
    requires lo <= hi <= |sizes| && |cur| == hi - lo && forall i :: 0 <= i < |cur| ==> size(cur[i]) == sizes[lo + i]
    ensures sum == Chars(sizes, lo, hi)
  {
    sum := 0;
    for k := 0 to |cur|
      invariant sum == Chars(sizes, lo, lo + k)
    {
      sum := sum + size(cur[k]);
    }
  }

  /** Closed windows so far, and the open one from lo up to i. */
  ghost predicate Progress(sizes: seq<nat>, max: nat, spans: seq<Span>, lo: nat, i: nat) {
    && lo <= i <= |sizes| && Chained(spans)
    && (forall k :: 0 <= k < |spans| ==> Tight(sizes, max, spans[k]) && Full(sizes, max, spans[k]) && spans[k].to < i)
    && lo == (if spans == [] then 0 else Later(0, spans[|spans| - 1].to - OVERLAP))
    && Tight(sizes, max, Span(lo, i)) && (i > 0 ==> lo < i)
  }

  lemma {:induction false} Fits(sizes: seq<nat>, max: nat, spans: seq<Span>, lo: nat, i: nat)
    requires Progress(sizes, max, spans, lo, i) && i < |sizes| && !(lo < i && Chars(sizes, lo, i) + sizes[i] > max)
    ensures Progress(sizes, max, spans, lo, i + 1)
  {
    hide Chained, Full;
  }

  lemma {:induction false} Close(sizes: seq<nat>, max: nat, spans: seq<Span>, lo: nat, i: nat)
    requires Progress(sizes, max, spans, lo, i) && i < |sizes| && lo < i && Chars(sizes, lo, i) + sizes[i] > max
    ensures Progress(sizes, max, spans + [Span(lo, i)], Later(lo, i - OVERLAP), i + 1)
  {
    var all := spans + [Span(lo, i)];
    assert forall k :: 0 <= k < |spans| ==> all[k] == spans[k];
    assert Full(sizes, max, Span(lo, i));
  }

  lemma {:induction false} Last(sizes: seq<nat>, max: nat, spans: seq<Span>, lo: nat)
    requires Progress(sizes, max, spans, lo, |sizes|) && lo < |sizes|
    ensures Spanned(sizes, max, spans + [Span(lo, |sizes|)])
  {
    var all := spans + [Span(lo, |sizes|)];
    assert forall k :: 0 <= k < |spans| ==> all[k] == spans[k];
  }

  lemma {:induction false} Nothing(sizes: seq<nat>, max: nat, spans: seq<Span>, lo: nat)
    requires Progress(sizes, max, spans, lo, |sizes|) && lo == |sizes|
    ensures Spanned(sizes, max, spans)
  {
    assert |sizes| == 0;
  }

  // ---- what the windows guarantee ---------------------------------------------------------------

  /** Some window has all messages from i to j. */
  ghost predicate Together(spans: seq<Span>, i: nat, j: nat) {
    exists k :: 0 <= k < |spans| && spans[k].from <= i && j < spans[k].to
  }

  /** Any two messages at most 8 apart are together in some window; so every message is in one. */
  lemma {:induction false} NeighboursTogether(sizes: seq<nat>, max: nat, spans: seq<Span>, i: nat, j: nat)
    requires Spanned(sizes, max, spans) && i <= j < |sizes| && j - i <= 8
    ensures Together(spans, i, j)
  {
    var k := FirstPast(sizes, max, spans, j, 0);
    assert k > 0 ==> spans[k - 1].to <= j;
    assert spans[k].from <= i;
  }

  lemma {:induction false} FirstPast(sizes: seq<nat>, max: nat, spans: seq<Span>, j: nat, n: nat) returns (k: nat)
    requires Spanned(sizes, max, spans) && j < |sizes| && n < |spans| && forall m :: 0 <= m < n ==> spans[m].to <= j
    ensures k < |spans| && spans[k].to > j && forall m :: 0 <= m < k ==> spans[m].to <= j
    decreases |spans| - n
  {
    if spans[n].to > j {
      k := n;
    } else {
      assert n < |spans| - 1;
      k := FirstPast(sizes, max, spans, j, n + 1);
    }
  }

  ghost predicate WindowsFit(sizes: seq<nat>, max: nat, spans: seq<Span>) {
    forall k :: 0 <= k < |spans| ==> spans[k].from <= spans[k].to <= |sizes| && Chars(sizes, spans[k].from, spans[k].to) <= max
  }

  ghost predicate RunsFit(sizes: seq<nat>, max: nat) {
    forall i, j {:trigger Chars(sizes, i, j)} :: 0 <= i < j <= |sizes| && j - i <= 9 ==> Chars(sizes, i, j) <= max
  }

  /**
   * The limit is kept by every window exactly when no nine consecutive messages, or fewer, go over it: the carried
   * overlap is not weighed again.
   */
  lemma {:induction false} LimitKeptIff(sizes: seq<nat>, max: nat, spans: seq<Span>)
    requires Spanned(sizes, max, spans)
    ensures WindowsFit(sizes, max, spans) <==> RunsFit(sizes, max)
  {
    if WindowsFit(sizes, max, spans) {
      forall i, j | 0 <= i < j <= |sizes| && j - i <= 9 ensures Chars(sizes, i, j) <= max {
        RunInWindow(sizes, max, spans, i, j);
      }
    }
    if RunsFit(sizes, max) {
      forall k | 0 <= k < |spans| ensures spans[k].from <= spans[k].to <= |sizes| && Chars(sizes, spans[k].from, spans[k].to) <= max {
        assert Tight(sizes, max, spans[k]);
      }
    }
  }

  lemma {:induction false} RunInWindow(sizes: seq<nat>, max: nat, spans: seq<Span>, i: nat, j: nat)
    requires Spanned(sizes, max, spans) && WindowsFit(sizes, max, spans) && i < j <= |sizes| && j - i <= 9
    ensures Chars(sizes, i, j) <= max
  {
    hide Spanned;
    NeighboursTogether(sizes, max, spans, i, j - 1);
    var k :| 0 <= k < |spans| && spans[k].from <= i && j - 1 < spans[k].to;
    CharsSplit(sizes, spans[k].from, i, spans[k].to);
    CharsSplit(sizes, i, j, spans[k].to);
  }
}
