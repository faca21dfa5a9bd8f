/** Carrying task titles from one increment to the next by overlap of message ids. */
module Titles {

  datatype Anchor = Anchor(ids: set<string>, title: string)

  const THRESHOLD: real := 0.6

  predicate Usable(a: Anchor) {
    a.title != "" && a.ids != {}
  }

  /** The share of the old task that the new cluster contains. */
  function Score(a: Anchor, c: set<string>): real {
    if a.ids == {} then 0.0 else |a.ids * c| as real / |a.ids| as real
  }

  // ---- the greedy scan --------------------------------------------------------------------------

  /** Best usable and unused anchor among the first n, first one on ties: its index (-1 if none) and its score. */
  function Scan(c: set<string>, anchors: seq<Anchor>, used: set<int>, n: nat): (r: (int, real))
    requires n <= |anchors|
  {
    if n == 0 then (-1, 0.0) else
      var (j, s) := Scan(c, anchors, used, n - 1);
      if n - 1 in used || !Usable(anchors[n - 1]) || Score(anchors[n - 1], c) <= s then (j, s)
      else (n - 1, Score(anchors[n - 1], c))
  }

  /** The anchor a cluster takes, -1 if none. */
  function Choice(c: set<string>, anchors: seq<Anchor>, used: set<int>, thresh: real): int {
    var (j, s) := Scan(c, anchors, used, |anchors|);
    if c != {} && j >= 0 && s >= thresh then j else -1
  }

  /** The anchors taken by the first i clusters. */
  function Used(cs: seq<set<string>>, anchors: seq<Anchor>, thresh: real, i: nat): set<int>
    requires i <= |cs|
  {
    if i == 0 then {} else
      var u := Used(cs, anchors, thresh, i - 1);
      var j := Choice(cs[i - 1], anchors, u, thresh);
      if j >= 0 then u + {j} else u
  }

  function Greedy(cs: seq<set<string>>, anchors: seq<Anchor>, thresh: real, i: nat): int
    requires i < |cs|
  {
    Choice(cs[i], anchors, Used(cs, anchors, thresh, i), thresh)
  }

  // ---- the rule it is meant to be ---------------------------------------------------------------

  /** j is the first anchor, among the usable ones not excluded, that contains the most of c, and enough of it. */
  ghost predicate IsBest(c: set<string>, anchors: seq<Anchor>, except: set<int>, thresh: real, j: int) {
    && 0 <= j < |anchors| && j !in except && Usable(anchors[j])
    && Score(anchors[j], c) > 0.0 && Score(anchors[j], c) >= thresh
    && (forall k :: 0 <= k < |anchors| && k !in except && Usable(anchors[k]) ==> Score(anchors[k], c) <= Score(anchors[j], c))
    && (forall k :: 0 <= k < j && k !in except && Usable(anchors[k]) ==> Score(anchors[k], c) < Score(anchors[j], c))
  }

  lemma {:induction false} ScanIsBest(c: set<string>, anchors: seq<Anchor>, used: set<int>, n: nat)
    requires n <= |anchors|
    ensures var (j, s) := Scan(c, anchors, used, n);
            && -1 <= j < n && s >= 0.0
            && (forall k :: 0 <= k < n && k !in used && Usable(anchors[k]) ==> Score(anchors[k], c) <= s)
            && (j == -1 ==> s == 0.0)
            && (j >= 0 ==> && j !in used && Usable(anchors[j]) && Score(anchors[j], c) == s > 0.0
                           && forall k :: 0 <= k < j && k !in used && Usable(anchors[k]) ==> Score(anchors[k], c) < s)
  {
    hide Score;
    if n > 0 {
      ScanIsBest(c, anchors, used, n - 1);
    }
  }

  lemma {:induction false} EmptyScores(a: Anchor)
    ensures Score(a, {}) == 0.0
  {
    assert a.ids * {} == {};
  }

  lemma {:induction false} ChoiceIsBest(c: set<string>, anchors: seq<Anchor>, used: set<int>, thresh: real, j: nat)
    ensures Choice(c, anchors, used, thresh) == j <==> IsBest(c, anchors, used, thresh, j)
    ensures -1 <= Choice(c, anchors, used, thresh) < |anchors|
  {
    hide Score;
    ScanIsBest(c, anchors, used, |anchors|);
    if c == {} && j < |anchors| {
      EmptyScores(anchors[j]);
    }
  }

  // ---- when greedy and rule agree ---------------------------------------------------------------

  lemma {:induction false} DisjointShares(a: set<string>, c: set<string>, d: set<string>)
    requires c !! d
    ensures |a * c| + |a * d| <= |a|
  {
    assert |a * c + a * d| == |a * c| + |a * d| - |(a * c) * (a * d)|;
    assert (a * c) * (a * d) == {};
    Subset(a * c + a * d, a);
  }

  lemma {:induction false} Subset(x: set<string>, y: set<string>)
    requires x <= y
    ensures |x| <= |y|
  {
    assert y == x + (y - x);
    assert |x + (y - x)| == |x| + |y - x| - |x * (y - x)|;
    assert x * (y - x) == {};
  }

  /** Two disjoint clusters cannot both contain more than half of an anchor. */
  lemma {:induction false} ScoresAddUp(a: Anchor, c: set<string>, d: set<string>)
    requires c !! d && a.ids != {}
    ensures Score(a, c) + Score(a, d) <= 1.0
  {
    DisjointShares(a.ids, c, d);
    Fractions(|a.ids * c|, |a.ids * d|, |a.ids|);
  }

  lemma {:induction false} Fractions(x: nat, y: nat, n: nat)
    requires n > 0 && x + y <= n
    ensures x as real / n as real + y as real / n as real <= 1.0
  {
    assert x as real / n as real + y as real / n as real == (x as real + y as real) / n as real;
  }

  ghost predicate Disjoint(cs: seq<set<string>>) {
    forall i, j :: 0 <= i < j < |cs| ==> cs[i] !! cs[j]
  }

  lemma {:induction false} UsedAreContained(cs: seq<set<string>>, anchors: seq<Anchor>, thresh: real, i: nat, j: int)
    requires i <= |cs| && j in Used(cs, anchors, thresh, i)
    ensures 0 <= j < |anchors| && Usable(anchors[j])
    ensures exists k :: 0 <= k < i && Score(anchors[j], cs[k]) >= thresh
  {
    var u := Used(cs, anchors, thresh, i - 1);
    if j in u {
      UsedAreContained(cs, anchors, thresh, i - 1, j);
    } else {
      ChoiceIsBest(cs[i - 1], anchors, u, thresh, j);
      assert Score(anchors[j], cs[i - 1]) >= thresh;
    }
  }

  /** Greedy carry-over is the order-free rule: the `used` set never changes an outcome. */
  lemma {:induction false} GreedyIsRule(cs: seq<set<string>>, anchors: seq<Anchor>, thresh: real, i: nat)
    requires Disjoint(cs) && thresh > 0.5 && i < |cs|
    ensures Greedy(cs, anchors, thresh, i) == Choice(cs[i], anchors, {}, thresh)
  {
    hide Score, Choice, Used;
    var used := Used(cs, anchors, thresh, i);
    forall j | j in used ensures 0 <= j < |anchors| && Score(anchors[j], cs[i]) < thresh {
      UsedAreContained(cs, anchors, thresh, i, j);
      var k :| 0 <= k < i && Score(anchors[j], cs[k]) >= thresh;
      ScoresAddUp(anchors[j], cs[k], cs[i]);
    }
    forall j: nat ensures IsBest(cs[i], anchors, used, thresh, j) <==> IsBest(cs[i], anchors, {}, thresh, j) {
    }
    SameChoice(cs[i], anchors, used, {}, thresh);
  }

  lemma {:induction false} SameChoice(c: set<string>, anchors: seq<Anchor>, used: set<int>, used': set<int>, thresh: real)
    requires forall j: nat :: IsBest(c, anchors, used, thresh, j) <==> IsBest(c, anchors, used', thresh, j)
    ensures Choice(c, anchors, used, thresh) == Choice(c, anchors, used', thresh)
  {
    hide IsBest, Choice;
    var a, b := Choice(c, anchors, used, thresh), Choice(c, anchors, used', thresh);
    ChoiceIsBest(c, anchors, used, thresh, 0);
    ChoiceIsBest(c, anchors, used', thresh, 0);
    if a >= 0 {
      ChoiceIsBest(c, anchors, used, thresh, a);
      ChoiceIsBest(c, anchors, used', thresh, a);
    }
    if b >= 0 {
      ChoiceIsBest(c, anchors, used, thresh, b);
      ChoiceIsBest(c, anchors, used', thresh, b);
    }
  }

  /** In whatever order disjoint clusters are taken, each gets the same anchor. */
  lemma {:induction false} OrderFree(cs: seq<set<string>>, ds: seq<set<string>>, anchors: seq<Anchor>, thresh: real, i: nat, j: nat)
    requires Disjoint(cs) && Disjoint(ds) && thresh > 0.5
    requires i < |cs| && j < |ds| && cs[i] == ds[j]
    ensures Greedy(cs, anchors, thresh, i) == Greedy(ds, anchors, thresh, j)
  {
    GreedyIsRule(cs, anchors, thresh, i);
    GreedyIsRule(ds, anchors, thresh, j);
  }

  /** No anchor titles two clusters, disjoint or not. */
  lemma {:induction false} NoAnchorTwice(cs: seq<set<string>>, anchors: seq<Anchor>, thresh: real, i: nat, j: nat)
    requires i < j < |cs| && Greedy(cs, anchors, thresh, i) >= 0
    ensures Greedy(cs, anchors, thresh, i) in Used(cs, anchors, thresh, j)
    ensures Greedy(cs, anchors, thresh, i) != Greedy(cs, anchors, thresh, j)
    decreases j
  {
    hide Choice;
    if i + 1 < j {
      NoAnchorTwice(cs, anchors, thresh, i, j - 1);
    }
    ChoiceIsBest(cs[j], anchors, Used(cs, anchors, thresh, j), thresh, Greedy(cs, anchors, thresh, i));
  }

  /** At a threshold of one half or less the agreement fails: two halves of one old task both qualify. */
  lemma {:induction false} HalfIsNotEnough(thresh: real)
    requires thresh <= 0.5
    ensures var cs: seq<set<string>> := [{"a"}, {"b"}]; var anchors := [Anchor({"a", "b"}, "t")];
            && Disjoint(cs)
            && Greedy(cs, anchors, thresh, 1) != Choice(cs[1], anchors, {}, thresh)
  {
    var cs: seq<set<string>> := [{"a"}, {"b"}];
    var anchor := Anchor({"a", "b"}, "t");
    assert anchor.ids * {"a"} == {"a"} && anchor.ids * {"b"} == {"b"};
    assert Score(anchor, {"a"}) == 0.5 == Score(anchor, {"b"});
    ChoiceIsBest(cs[0], [anchor], {}, thresh, 0);
    ChoiceIsBest(cs[1], [anchor], {}, thresh, 0);
    assert Used(cs, [anchor], thresh, 1) == {0};
    ChoiceIsBest(cs[1], [anchor], {0}, thresh, 0);
  }

  // ---- the loop ---------------------------------------------------------------------------------

  function Retitled(titles: seq<string>, cs: seq<set<string>>, anchors: seq<Anchor>, i: nat): string
    requires i < |titles| == |cs|
  {
    var j := Greedy(cs, anchors, THRESHOLD, i);
    if 0 <= j < |anchors| then anchors[j].title else titles[i]
  }

  function Changes(a: seq<string>, b: seq<string>): nat
    requires |a| == |b|
  {
    if a == [] then 0 else
      Changes(a[..|a| - 1], b[..|b| - 1]) + (if a[|a| - 1] == b[|b| - 1] then 0 else 1)
  }

  method CarryForward(cs: seq<set<string>>, titles: array<string>, anchors: seq<Anchor>) returns (changed: nat)
    requires titles.Length == |cs|
    modifies titles
    ensures forall i :: 0 <= i < |cs| ==> titles[i] == Retitled(old(titles[..]), cs, anchors, i)
    ensures changed == Changes(old(titles[..]), titles[..])
  {
    hide Scan, Usable, Score;
    changed := 0;
    var used: set<int> := {};
    ghost var was := titles[..];
    for i := 0 to |cs|
      invariant used == Used(cs, anchors, THRESHOLD, i)
      invariant forall k :: 0 <= k < i ==> titles[k] == Retitled(was, cs, anchors, k)
      invariant forall k :: i <= k < |cs| ==> titles[k] == was[k]
      invariant changed == Changes(was[..i], titles[..i])
    {
      ghost var before := titles[..i];
      var j := ChooseFor(cs[i], anchors, used);
      if j >= 0 {
        if titles[i] != anchors[j].title {
          titles[i] := anchors[j].title;
          changed := changed + 1;
        }
        used := used + {j};
      }
      assert titles[..i + 1][..i] == before && was[..i + 1][..i] == was[..i];
    }
    assert was[..|cs|] == was && titles[..|cs|] == titles[..];
  }

  method ChooseFor(c: set<string>, anchors: seq<Anchor>, used: set<int>) returns (j: int)
    ensures j == Choice(c, anchors, used, THRESHOLD) && -1 <= j < |anchors|
  {
    hide Score;
    ChoiceIsBest(c, anchors, used, THRESHOLD, 0);
    if c == {} {
      return -1;
    }
    j := -1;
    var score := 0.0;
    for n := 0 to |anchors|
      invariant (j, score) == Scan(c, anchors, used, n)
    {
      if n !in used && Usable(anchors[n]) {
        var s := Score(anchors[n], c);
        if s > score {
          score, j := s, n;
        }
      }
    }
    if !(j >= 0 && score >= THRESHOLD) {
      j := -1;
    }
  }

  // ---- what carrying over means -----------------------------------------------------------------

  ghost predicate Named(a: Anchor) {
    a.title != "" && a.ids != {}
  }

  /** The score is the share of the old task's messages; six tenths of them are enough. */
  lemma {:induction false} EnoughIff(a: Anchor, c: set<string>)
    requires a.ids != {}
    ensures Score(a, c) * |a.ids| as real == |a.ids * c| as real
    ensures Score(a, c) >= THRESHOLD <==> 10 * |a.ids * c| >= 6 * |a.ids|
    ensures Score(a, c) >= 1.0 <==> a.ids <= c
  {
    var x, n := |a.ids * c|, |a.ids|;
    Subset(a.ids * c, a.ids);
    Share(x as real, n as real);
    if x == n {
      assert a.ids * c == a.ids by { WholeSubset(a.ids * c, a.ids); }
    }
    if a.ids <= c {
      assert a.ids * c == a.ids;
    }
  }

  lemma {:induction false} Share(x: real, n: real)
    requires n > 0.0
    ensures (x / n) * n == x && (x / n >= 0.6 <==> x >= 0.6 * n) && (x / n >= 1.0 <==> x >= n)
  {
    var q := x / n;
    assert q * n == x;
    Scale(q, 0.6, n);
    WholeShare(q, n);
  }

  lemma {:induction false} WholeShare(q: real, n: real)
    requires n > 0.0
    ensures q >= 1.0 <==> q * n >= n
  {
    assert (q - 1.0) * n == q * n - n;
    if q < 1.0 {
      assert (1.0 - q) * n > 0.0;
    }
  }

  lemma {:induction false} Scale(q: real, t: real, n: real)
    requires n > 0.0
    ensures q >= t <==> q * n >= t * n
  {
    assert (q - t) * n == q * n - t * n;
    if q < t {
      assert (t - q) * n > 0.0;
    }
  }

  lemma {:induction false} WholeSubset(x: set<string>, y: set<string>)
    requires x <= y && |x| == |y|
    ensures x == y
  {
    assert y == x + (y - x);
    assert |x + (y - x)| == |x| + |y - x| - |x * (y - x)|;
    assert x * (y - x) == {};
  }

  /** A task all of whose messages are in one cluster keeps its title, however much the cluster has grown. */
  lemma {:induction false} TitleSticks(titles: seq<string>, cs: seq<set<string>>, anchors: seq<Anchor>, i: nat, j: nat)
    requires Disjoint(cs) && i < |titles| == |cs| && j < |anchors| && Named(anchors[j]) && anchors[j].ids <= cs[i]
    requires forall k :: 0 <= k < |anchors| && k != j && Named(anchors[k]) ==> !(anchors[k].ids <= cs[i])
    ensures Retitled(titles, cs, anchors, i) == anchors[j].title
  {
    hide Choice, Score;
    GreedyIsRule(cs, anchors, THRESHOLD, i);
    WholeIsChosen(cs[i], anchors, j);
  }

  /** The one anchor that a cluster contains whole is chosen. */
  lemma {:induction false} WholeIsChosen(c: set<string>, anchors: seq<Anchor>, j: nat)
    requires j < |anchors| && Named(anchors[j]) && anchors[j].ids <= c
    requires forall k :: 0 <= k < |anchors| && k != j && Named(anchors[k]) ==> !(anchors[k].ids <= c)
    ensures Choice(c, anchors, {}, THRESHOLD) == j
  {
    hide Choice, Score;
    forall k | 0 <= k < |anchors| && Usable(anchors[k]) ensures Score(anchors[k], c) >= 1.0 <==> k == j {
      EnoughIff(anchors[k], c);
    }
    AtMostWhole(anchors[j], c);
    ChoiceIsBest(c, anchors, {}, THRESHOLD, j);
  }

  lemma {:induction false} AtMostWhole(a: Anchor, c: set<string>)
    requires a.ids != {} && Score(a, c) >= 1.0
    ensures Score(a, c) == 1.0
  {
    EnoughIff(a, c);
    assert a.ids * c == a.ids;
    Share(|a.ids| as real, |a.ids| as real);
  }

  /** A cluster with less than six tenths of every old task keeps the title it came with. */
  lemma {:induction false} TitleStays(titles: seq<string>, cs: seq<set<string>>, anchors: seq<Anchor>, i: nat)
    requires Disjoint(cs) && i < |titles| == |cs|
    requires forall k :: 0 <= k < |anchors| && Named(anchors[k]) ==> 10 * |anchors[k].ids * cs[i]| < 6 * |anchors[k].ids|
    ensures Retitled(titles, cs, anchors, i) == titles[i]
  {
    hide Choice, Score;
    GreedyIsRule(cs, anchors, THRESHOLD, i);
    var j := Choice(cs[i], anchors, {}, THRESHOLD);
    ChoiceIsBest(cs[i], anchors, {}, THRESHOLD, 0);
    if j >= 0 {
      ChoiceIsBest(cs[i], anchors, {}, THRESHOLD, j);
      EnoughIff(anchors[j], cs[i]);
    }
  }
}
