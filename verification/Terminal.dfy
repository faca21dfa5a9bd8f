/** Which cluster, if any, is still in flight. */
module Terminal {
  import opened Events
  import opened Sorting

  function MaxTs(rows: seq<Event>): int
    requires rows != []
  {
    if |rows| == 1 || rows[0].ts >= MaxTs(rows[1..]) then rows[0].ts else MaxTs(rows[1..])
  }

  lemma {:induction false} MaxTsIsMax(rows: seq<Event>)
    requires rows != []
    ensures exists e :: e in rows && e.ts == MaxTs(rows)
    ensures forall e :: e in rows ==> e.ts <= MaxTs(rows)
  {
    assert rows[0] in rows;
    if |rows| > 1 {
      MaxTsIsMax(rows[1..]);
      assert forall e :: e in rows <==> e == rows[0] || e in rows[1..];
    }
  }

  /** k is the cluster touched last; the first one if several are touched equally late. */
  ghost predicate Latest(clusters: seq<seq<Event>>, k: nat)
    requires forall i :: 0 <= i < |clusters| ==> clusters[i] != []
  {
    && k < |clusters|
    && (forall i :: 0 <= i < |clusters| ==> MaxTs(clusters[i]) <= MaxTs(clusters[k]))
    && (forall i :: 0 <= i < k ==> MaxTs(clusters[i]) < MaxTs(clusters[k]))
  }

  /** Row i speaks last: no other row that is not noise is later, nor as late and further up. */
  ghost predicate SpeaksLast(rows: seq<Event>, i: nat) {
    && i < |rows| && !rows[i].noise
    && (forall j :: 0 <= j < |rows| && !rows[j].noise ==> rows[j].ts <= rows[i].ts)
    && (forall j :: 0 <= j < i && !rows[j].noise ==> rows[j].ts < rows[i].ts)
  }

  /** The last word is a user's closing phrase. */
  ghost predicate Resolved(rows: seq<Event>) {
    exists i: nat :: SpeaksLast(rows, i) && rows[i].role == User && rows[i].closure
  }

  const NewestFirst: Event -> int := (e: Event) => -e.ts

  function FirstHeard(rows: seq<Event>): (k: nat)
    ensures k <= |rows| && (forall i :: 0 <= i < k ==> rows[i].noise) && (k < |rows| ==> !rows[k].noise)
  {
    if rows == [] then 0 else if !rows[0].noise then 0 else 1 + FirstHeard(rows[1..])
  }

  function Heard(rows: seq<Event>): seq<Event> {
    if rows == [] then [] else (if rows[0].noise then [] else [rows[0]]) + Heard(rows[1..])
  }

  /** The first row that is not noise and has the given key. */
  lemma {:induction false} HeardHead(rows: seq<Event>, k: int, i: nat)
    requires i < |rows| && NewestFirst(rows[i]) == k && !rows[i].noise
    requires forall j :: 0 <= j < i ==> NewestFirst(rows[j]) != k || rows[j].noise
    ensures Heard(WithKey(rows, NewestFirst, k)) != [] && Heard(WithKey(rows, NewestFirst, k))[0] == rows[i]
  {
    var w := WithKey(rows, NewestFirst, k);
    if i == 0 {
      assert w[0] == rows[0];
    } else {
      HeardHead(rows[1..], k, i - 1);
      assert if NewestFirst(rows[0]) == k then w[1..] == WithKey(rows[1..], NewestFirst, k)
             else w == WithKey(rows[1..], NewestFirst, k);
    }
  }

  lemma {:induction false} FirstSuch(rows: seq<Event>, k: int, n: nat) returns (i: nat)
    requires n < |rows| && NewestFirst(rows[n]) == k && !rows[n].noise
    ensures i <= n && NewestFirst(rows[i]) == k && !rows[i].noise
    ensures forall j :: 0 <= j < i ==> NewestFirst(rows[j]) != k || rows[j].noise
  {
    i := 0;
    while NewestFirst(rows[i]) != k || rows[i].noise
      invariant i <= n && forall j :: 0 <= j < i ==> NewestFirst(rows[j]) != k || rows[j].noise
      decreases n - i
    {
      i := i + 1;
    }
  }

  /** Scanning newest-first for the first row that is not noise finds the row that speaks last. */
  lemma {:induction false} ScanFindsLast(rows: seq<Event>)
    ensures var s := SortBy(rows, NewestFirst); var p := FirstHeard(s);
            if p < |s| then exists i: nat :: SpeaksLast(rows, i) && rows[i] == s[p]
            else forall i: nat :: !SpeaksLast(rows, i)
  {
    var s := SortBy(rows, NewestFirst);
    var p := FirstHeard(s);
    SortSorts(rows, NewestFirst);
    SortMembers(rows, NewestFirst);
    if p < |s| {
      var k := NewestFirst(s[p]);
      SortStable(rows, NewestFirst, k);
      HeardHead(s, k, p);
      assert s[p] in rows;
      var n :| 0 <= n < |rows| && rows[n] == s[p];
      var i := FirstSuch(rows, k, n);
      HeardHead(rows, k, i);
      forall j | 0 <= j < |rows| && !rows[j].noise ensures rows[j].ts <= rows[i].ts {
        assert rows[j] in s;
        var m :| 0 <= m < |s| && s[m] == rows[j];
        assert p == m || p < m;
      }
      assert SpeaksLast(rows, i);
    } else {
      forall i: nat ensures !SpeaksLast(rows, i) {
        if i < |rows| {
          assert rows[i] in s;
        }
      }
    }
  }

  lemma {:induction false} LastIsUnique(rows: seq<Event>, i: nat, j: nat)
    requires SpeaksLast(rows, i) && SpeaksLast(rows, j)
    ensures i == j
  {
  }

  method LatestCluster(clusters: seq<seq<Event>>) returns (k: nat)
    requires clusters != [] && forall i :: 0 <= i < |clusters| ==> clusters[i] != []
    ensures Latest(clusters, k)
  {
    hide MaxTs;
    k := 0;
    for i := 1 to |clusters|
      invariant k < i
      invariant forall j :: 0 <= j < i ==> MaxTs(clusters[j]) <= MaxTs(clusters[k])
      invariant forall j :: 0 <= j < k ==> MaxTs(clusters[j]) < MaxTs(clusters[k])
    {
      if MaxTs(clusters[i]) > MaxTs(clusters[k]) {
        k := i;
      }
    }
  }

  /** All clusters are terminal but at most one: the one touched last, unless its last word closes it. */
  method ComputeTerminal(clusters: seq<seq<Event>>) returns (out: seq<bool>)
    requires forall i :: 0 <= i < |clusters| ==> clusters[i] != []
    ensures |out| == |clusters|
    ensures forall i: nat :: i < |out| ==> (out[i] <==> !Latest(clusters, i) || Resolved(clusters[i]))
  {
    if clusters == [] {
      return [];
    }
    var last := LatestCluster(clusters);
    out := seq(|clusters|, _ => true);
    var rows := SortBy(clusters[last], NewestFirst);
    var p := FirstHeard(rows);
    var resolved := p < |rows| && rows[p].role == User && rows[p].closure;
    ScanDecides(clusters[last]);
    out := out[last := resolved];
    forall i: nat | i < |clusters| && Latest(clusters, i) ensures i == last {
    }
  }

  lemma {:induction false} ScanDecides(rows: seq<Event>)
    ensures var s := SortBy(rows, NewestFirst); var p := FirstHeard(s);
            Resolved(rows) <==> p < |s| && s[p].role == User && s[p].closure
  {
    hide SortBy, FirstHeard;
    ScanFindsLast(rows);
    forall i: nat, j: nat | SpeaksLast(rows, i) && SpeaksLast(rows, j) ensures i == j {
      LastIsUnique(rows, i, j);
    }
  }
}
