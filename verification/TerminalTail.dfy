/** The one place that decides which segment of a task, if any, is unfinished. */
module TerminalTail {
  import opened Overlaps
  import opened OverlapRepair

  const OPEN := "未终结"
  const REWORKED := "有返工"
  const FIRST_TRY := "一遍过"
  const REWORK := "返工"

  /** The greatest number of a segment, -1 when it has none. */
  function MaxIdx(s: Sub): int {
    var list := Listed(s);
    if list == [] then -1 else list[|list| - 1]
  }

  lemma {:induction false} MaxIdxIs(s: Sub)
    ensures MaxIdx(s) >= -1 && (MaxIdx(s) >= 0 ==> MaxIdx(s) in Has(s)) && forall n :: n in Has(s) ==> n <= MaxIdx(s)
  {
    hide Listed, Has;
    var list := Listed(s);
    forall n | n in Has(s) ensures n <= MaxIdx(s) {
      assert n in list;
      var k :| 0 <= k < |list| && list[k] == n;
    }
    assert list != [] ==> list[|list| - 1] in list;
  }

  /** The first segment with the greatest index. */
  ghost predicate IsTail(subs: seq<Sub>, t: nat) {
    && t < |subs|
    && (forall i :: 0 <= i < |subs| ==> MaxIdx(subs[i]) <= MaxIdx(subs[t]))
    && (forall i :: 0 <= i < t ==> MaxIdx(subs[i]) < MaxIdx(subs[t]))
  }

  method FindTail(subs: seq<Sub>) returns (t: nat)
    requires subs != []
    ensures IsTail(subs, t)
  {
    hide MaxIdx;
    t := 0;
    for n := 1 to |subs|
      invariant t < n
      invariant forall i :: 0 <= i < n ==> MaxIdx(subs[i]) <= MaxIdx(subs[t])
      invariant forall i :: 0 <= i < t ==> MaxIdx(subs[i]) < MaxIdx(subs[t])
    {
      if MaxIdx(subs[n]) > MaxIdx(subs[t]) {
        t := n;
      }
    }
  }

  predicate IsRework(label': string) {
    exists i :: 0 <= i < |label'| - 1 && label'[i] == REWORK[0] && label'[i + 1] == REWORK[1]
  }

  /** The segments that a rework edge touches. */
  ghost predicate Reworked(edges: seq<Edge>, id: string) {
    exists k :: 0 <= k < |edges| && IsRework(edges[k].label') && (edges[k].from == id || edges[k].to == id)
  }

  method ReworkIds(edges: seq<Edge>) returns (ids: set<string>)
    ensures forall id :: id in ids <==> Reworked(edges, id)
  {
    hide IsRework;
    ids := {};
    for n := 0 to |edges|
      invariant forall id :: id in ids <==> exists k :: 0 <= k < n && IsRework(edges[k].label') && (edges[k].from == id || edges[k].to == id)
    {
      if IsRework(edges[n].label') {
        ids := ids + {edges[n].from, edges[n].to};
      }
    }
  }

  /** The status the evidence supports when "unfinished" is withdrawn. */
  ghost function Evidence(edges: seq<Edge>, s: Sub): string {
    if Reworked(edges, s.id) then REWORKED else FIRST_TRY
  }

  /** What the ruling makes of segment i when t is the tail. */
  ghost function Ruled(edges: seq<Edge>, s: Sub, isTail: bool, terminal: bool): Sub {
    if isTail && !terminal then s.(status := OPEN)
    else if s.status == OPEN then s.(status := Evidence(edges, s)) else s
  }

  ghost predicate RuledAll(subs: seq<Sub>, edges: seq<Edge>, terminal: bool, t: nat, subs': seq<Sub>) {
    && |subs'| == |subs| && (subs != [] ==> IsTail(subs, t))
    && forall i :: 0 <= i < |subs| ==> subs'[i] == Ruled(edges, subs[i], i == t, terminal)
  }

  /** Rules in place; at most the tail is unfinished afterwards, and it is exactly when the task is. */
  method EnforceTerminalTail(d: Decomposition, terminal: bool) returns (ghost t: nat)
    modifies d`subs
    ensures RuledAll(old(d.subs), d.edges, terminal, t, d.subs)
  {
    hide IsTail, Reworked;
    if d.subs == [] {
      t := 0;
      return;
    }
    var rework := ReworkIds(d.edges);
    var tail := FindTail(d.subs);
    t := tail;
    TailInRange(d.subs, tail);
    for n := 0 to |d.subs|
      invariant |d.subs| == |old(d.subs)|
      invariant forall i :: 0 <= i < n && i != tail ==> d.subs[i] == Ruled(d.edges, old(d.subs)[i], false, terminal)
      invariant forall i :: 0 <= i < |d.subs| && (i >= n || i == tail) ==> d.subs[i] == old(d.subs)[i]
    {
      if n != tail && d.subs[n].status == OPEN {
        d.subs := d.subs[n := d.subs[n].(status := if d.subs[n].id in rework then REWORKED else FIRST_TRY)];
      }
    }
    if !terminal {
      if d.subs[tail].status != OPEN {
        d.subs := d.subs[tail := d.subs[tail].(status := OPEN)];
      }
    } else if d.subs[tail].status == OPEN {
      d.subs := d.subs[tail := d.subs[tail].(status := if d.subs[tail].id in rework then REWORKED else FIRST_TRY)];
    }
  }

  lemma {:induction false} TailInRange(subs: seq<Sub>, t: nat)
    requires IsTail(subs, t)
    ensures t < |subs|
  {
  }

  /** A segment is unfinished exactly when it is the tail of an unfinished task. */
  lemma {:induction false} OpenIffTail(subs: seq<Sub>, edges: seq<Edge>, terminal: bool, t: nat, subs': seq<Sub>, i: nat)
    requires RuledAll(subs, edges, terminal, t, subs') && i < |subs'|
    ensures subs'[i].status == OPEN <==> !terminal && i == t
    ensures Has(subs'[i]) == Has(subs[i]) && subs'[i].id == subs[i].id
    ensures subs[i].status != OPEN && subs'[i].status != OPEN ==> subs'[i] == subs[i]
  {
    hide IsTail, Reworked;
    assert OPEN[0] != REWORKED[0] && OPEN[0] != FIRST_TRY[0];
    assert subs'[i] == Ruled(edges, subs[i], i == t, terminal);
  }

  /** A segment whose "unfinished" is withdrawn was reworked if a rework edge touches it, and else went through at once. */
  lemma {:induction false} WithdrawnIs(subs: seq<Sub>, edges: seq<Edge>, terminal: bool, t: nat, subs': seq<Sub>, i: nat)
    requires RuledAll(subs, edges, terminal, t, subs') && i < |subs'| && subs[i].status == "未终结" && (terminal || i != t)
    ensures subs'[i] == subs[i].(status := if Reworked(edges, subs[i].id) then "有返工" else "一遍过")
  {
    hide IsTail, Reworked;
    assert subs'[i] == Ruled(edges, subs[i], i == t, terminal);
  }

  /** A label names rework exactly when it has the two characters next to each other. */
  lemma {:induction false} ReworkIs(label': string)
    ensures IsRework(label') <==> exists a, b :: label' == a + "返工" + b
  {
    if i :| 0 <= i < |label'| - 1 && label'[i] == REWORK[0] && label'[i + 1] == REWORK[1] {
      assert label' == label'[..i] + "返工" + label'[i + 2..];
    }
    if a, b :| label' == a + "返工" + b {
      assert label'[|a|] == REWORK[0] && label'[|a| + 1] == REWORK[1];
    }
  }

  /** Nothing in the task comes after the unfinished segment. */
  lemma {:induction false} OpenIsLast(subs: seq<Sub>, edges: seq<Edge>, terminal: bool, t: nat, subs': seq<Sub>, i: nat, j: nat, n: nat)
    requires RuledAll(subs, edges, terminal, t, subs') && i < |subs'| && j < |subs'|
    requires subs'[i].status == OPEN && n in Has(subs'[j])
    ensures exists m :: m in Has(subs'[i]) && n <= m
    ensures subs'[j].status == OPEN ==> j == i
  {
    hide Has, Reworked, MaxIdx;
    OpenIffTail(subs, edges, terminal, t, subs', i);
    OpenIffTail(subs, edges, terminal, t, subs', j);
    MaxIdxIs(subs[j]);
    MaxIdxIs(subs[t]);
    assert n <= MaxIdx(subs[j]) <= MaxIdx(subs[t]);
  }
}
