/** Atomic segments: topic and gap cuts, then stitching along reply edges with a path-halving union-find. */
module Atomic {
  import opened Events
  import opened Lists
  import opened Sorting
  import opened Reachability
  import opened Forests

  datatype Option<T> = None | Some(value: T)
  datatype Segment = Segment(topic: string, rows: seq<Event>)

  const GAP := 2_400_000
  const SUSPICIOUS_REPLY_GAP := 86_400_000
  const CONTENT_FLOOR: real := 0.60
  const UNKNOWN := "?"

  /** Similarity of a reply to the segment it answers; None when there is no content signal. */
  type Similarity = (Event, Segment) -> Option<real>

  // ---- first pass -------------------------------------------------------------------------------

  /** k is the last bot event up to i that names a topic. */
  ghost predicate NamesLast(evs: seq<Event>, i: nat, k: nat)
    requires i < |evs|
  {
    && k <= i && evs[k].role == Bot && evs[k].topic != ""
    && forall j :: k < j <= i ==> evs[j].role == User || evs[j].topic == ""
  }

  /** The topic in force at event i: the last one named, "?" when none was. */
  ghost predicate InForce(evs: seq<Event>, i: nat, t: string)
    requires i < |evs|
  {
    if exists k: nat :: NamesLast(evs, i, k)
    then exists k: nat :: NamesLast(evs, i, k) && evs[k].topic == t
    else t == UNKNOWN
  }

  method EffectiveTopics(evs: seq<Event>) returns (eff: seq<string>)
    ensures |eff| == |evs| && forall i :: 0 <= i < |evs| ==> InForce(evs, i, eff[i])
  {
    eff := [];
    var last := "";
    ghost var k := 0;
    for i := 0 to |evs|
      invariant |eff| == i && forall j :: 0 <= j < i ==> InForce(evs, j, eff[j])
      invariant last != "" ==> 0 <= k < i && NamesLast(evs, i - 1, k) && evs[k].topic == last
      invariant last == "" ==> forall j :: 0 <= j < i ==> evs[j].role == User || evs[j].topic == ""
    {
      if evs[i].role == Bot && evs[i].topic != "" {
        last := evs[i].topic;
        k := i;
      }
      if last != "" {
        assert NamesLast(evs, i, k);
        forall k': nat | NamesLast(evs, i, k') ensures k' == k {
        }
      }
      eff := eff + [if last != "" then last else UNKNOWN];
    }
  }

  /** Event i opens a new segment when the current one has topic `cur`. */
  predicate Boundary(evs: seq<Event>, eff: seq<string>, i: nat, cur: string)
    requires 0 < i < |evs| == |eff|
  {
    || evs[i].ts - evs[i - 1].ts >= GAP
    || (eff[i] != cur && eff[i] != UNKNOWN && (i + 1 < |eff| ==> eff[i + 1] == eff[i]))
  }

  /** `at[i]` is the segment of event i: a segment holds exactly its own events. */
  ghost predicate Placed(evs: seq<Event>, segs: seq<Segment>, at: seq<nat>) {
    && |at| <= |evs|
    && (forall k :: 0 <= k < |segs| ==> segs[k].rows != [])
    && (forall i :: 0 <= i < |at| ==> at[i] < |segs| && evs[i] in segs[at[i]].rows)
    && (forall k, e :: 0 <= k < |segs| && e in segs[k].rows ==> exists i :: 0 <= i < |at| && at[i] == k && evs[i] == e)
  }

  /** The events placed in segment k, in order. */
  function Select(evs: seq<Event>, at: seq<nat>, k: nat): seq<Event>
    requires |at| <= |evs|
  {
    if at == [] then [] else
      Select(evs, at[..|at| - 1], k) + (if at[|at| - 1] == k then [evs[|at| - 1]] else [])
  }

  lemma {:induction false} SelectNone(evs: seq<Event>, at: seq<nat>, k: nat)
    requires |at| <= |evs| && k !in at
    ensures Select(evs, at, k) == []
  {
    if at != [] {
      SelectNone(evs, at[..|at| - 1], k);
    }
  }

  ghost predicate InOrder(evs: seq<Event>, segs: seq<Segment>, at: seq<nat>) {
    |at| <= |evs| && forall k :: 0 <= k < |segs| ==> segs[k].rows == Select(evs, at, k)
  }

  /** Event i sits in the segment of event i-1, or opens the next one: exactly at a boundary. */
  ghost predicate CutRule(evs: seq<Event>, eff: seq<string>, segs: seq<Segment>, at: seq<nat>, i: nat)
    requires i < |at| <= |evs| == |eff|
  {
    if i == 0 then
      |segs| > 0 && at[0] == 0 && segs[0].topic == eff[0]
    else
      && at[i - 1] < |segs| && at[i] < |segs|
      && if Boundary(evs, eff, i, segs[at[i - 1]].topic)
         then at[i] == at[i - 1] + 1 && segs[at[i]].topic == eff[i]
         else at[i] == at[i - 1]
  }

  ghost predicate CutAtBoundaries(evs: seq<Event>, eff: seq<string>, segs: seq<Segment>, at: seq<nat>)
    requires |at| <= |evs| == |eff|
  {
    && (forall i: nat :: i < |at| ==> CutRule(evs, eff, segs, at, i))
    && (|at| > 0 ==> at[|at| - 1] == |segs| - 1)
    && (|at| == 0 ==> segs == [])
  }

  function Rows(segs: seq<Segment>): (r: seq<seq<Event>>)
    ensures |r| == |segs| && forall k :: 0 <= k < |r| ==> r[k] == segs[k].rows
  {
    seq(|segs|, k requires 0 <= k < |segs| => segs[k].rows)
  }

  method Cut(evs: seq<Event>, eff: seq<string>) returns (segs: seq<Segment>, ghost at: seq<nat>)
    requires |eff| == |evs|
    ensures |at| == |evs| && Placed(evs, segs, at) && CutAtBoundaries(evs, eff, segs, at) && InOrder(evs, segs, at)
    ensures Flat(Rows(segs)) == evs
  {
    hide Placed, CutAtBoundaries, Boundary, InOrder, Opened, Extended;
    segs, at := [], [];
    CutStart(evs, eff);
    for i := 0 to |evs|
      invariant |at| == i && (i == 0 <==> segs == []) && Placed(evs, segs, at) && CutAtBoundaries(evs, eff, segs, at) && InOrder(evs, segs, at)
      invariant Flat(Rows(segs)) == evs[..i]
    {
      assert evs[..i + 1] == evs[..i] + [evs[i]];
      if segs == [] || Boundary(evs, eff, i, segs[|segs| - 1].topic) {
        CutHere(evs, eff, segs, at);
        OrderHere(evs, segs, at, eff[i]);
        PlacedNext(evs, segs, at, Opened(segs, eff[i], evs[i]));
        RowsOpened(segs, eff[i], evs[i]);
        segs := Opened(segs, eff[i], evs[i]);
      } else {
        CutNotHere(evs, eff, segs, at);
        OrderNotHere(evs, segs, at);
        PlacedNext(evs, segs, at, Extended(segs, evs[i]));
        RowsExtended(segs, evs[i]);
        segs := Extended(segs, evs[i]);
      }
      at := at + [|segs| - 1];
    }
    assert evs[..|evs|] == evs;
  }

  lemma {:induction false} CutStart(evs: seq<Event>, eff: seq<string>)
    requires |evs| == |eff|
    ensures Placed(evs, [], []) && CutAtBoundaries(evs, eff, [], []) && InOrder(evs, [], [])
  {
  }

  function Opened(segs: seq<Segment>, topic: string, e: Event): (r: seq<Segment>)
    ensures |r| == |segs| + 1
  {
    segs + [Segment(topic, [e])]
  }

  function Extended(segs: seq<Segment>, e: Event): (r: seq<Segment>)
    requires segs != []
    ensures |r| == |segs|
  {
    var last := segs[|segs| - 1];
    segs[|segs| - 1 := last.(rows := last.rows + [e])]
  }

  lemma {:induction false} PlacedNext(evs: seq<Event>, segs: seq<Segment>, at: seq<nat>, segs': seq<Segment>)
    requires |at| < |evs| && Placed(evs, segs, at)
    requires (exists t :: segs' == Opened(segs, t, evs[|at|])) || (segs != [] && segs' == Extended(segs, evs[|at|]))
    ensures Placed(evs, segs', at + [|segs'| - 1])
  {
    var n := |at|;
    var at' := at + [|segs'| - 1];
    forall k, e | 0 <= k < |segs'| && e in segs'[k].rows ensures exists i :: 0 <= i < |at'| && at'[i] == k && evs[i] == e {
      if k < |segs| && e in segs[k].rows {
        var i :| 0 <= i < |at| && at[i] == k && evs[i] == e;
        assert at'[i] == k;
      } else {
        assert at'[n] == k && evs[n] == e;
      }
    }
    forall i | 0 <= i < |at'| ensures at'[i] < |segs'| && evs[i] in segs'[at'[i]].rows {
      if i < n {
        assert evs[i] in segs[at[i]].rows;
      }
    }
  }

  lemma {:induction false} CutHere(evs: seq<Event>, eff: seq<string>, segs: seq<Segment>, at: seq<nat>)
    requires |at| < |evs| == |eff| && CutAtBoundaries(evs, eff, segs, at)
    requires segs == [] || Boundary(evs, eff, |at|, segs[|segs| - 1].topic)
    ensures CutAtBoundaries(evs, eff, Opened(segs, eff[|at|], evs[|at|]), at + [|segs|])
  {
    hide Boundary;
    var segs', at' := Opened(segs, eff[|at|], evs[|at|]), at + [|segs|];
    forall i: nat | i < |at'| ensures CutRule(evs, eff, segs', at', i) {
      if i < |at| {
        assert CutRule(evs, eff, segs, at, i);
      }
    }
  }

  lemma {:induction false} CutNotHere(evs: seq<Event>, eff: seq<string>, segs: seq<Segment>, at: seq<nat>)
    requires |at| < |evs| == |eff| && CutAtBoundaries(evs, eff, segs, at)
    requires segs != [] && !Boundary(evs, eff, |at|, segs[|segs| - 1].topic)
    ensures CutAtBoundaries(evs, eff, Extended(segs, evs[|at|]), at + [|segs| - 1])
  {
    hide Boundary;
    var segs', at' := Extended(segs, evs[|at|]), at + [|segs| - 1];
    forall i: nat | i < |at'| ensures CutRule(evs, eff, segs', at', i) {
      if i < |at| {
        assert CutRule(evs, eff, segs, at, i);
      }
    }
  }

  lemma {:induction false} RowsOpened(segs: seq<Segment>, topic: string, e: Event)
    ensures Flat(Rows(Opened(segs, topic, e))) == Flat(Rows(segs)) + [e]
  {
    assert Rows(Opened(segs, topic, e)) == Rows(segs) + [[e]];
    FlatSnoc(Rows(segs), [e]);
  }

  lemma {:induction false} RowsExtended(segs: seq<Segment>, e: Event)
    requires segs != []
    ensures Flat(Rows(Extended(segs, e))) == Flat(Rows(segs)) + [e]
  {
    var m := |segs| - 1;
    var front, last := Rows(segs)[..m], segs[m];
    assert Rows(segs) == front + [last.rows] && Rows(Extended(segs, e)) == front + [last.rows + [e]];
    FlatSnoc(front, last.rows);
    FlatSnoc(front, last.rows + [e]);
  }

  lemma {:induction false} OrderHere(evs: seq<Event>, segs: seq<Segment>, at: seq<nat>, topic: string)
    requires |at| < |evs| && InOrder(evs, segs, at) && Placed(evs, segs, at)
    ensures InOrder(evs, Opened(segs, topic, evs[|at|]), at + [|segs|])
  {
    SelectNone(evs, at, |segs|);
    assert (at + [|segs|])[..|at|] == at;
  }

  lemma {:induction false} OrderNotHere(evs: seq<Event>, segs: seq<Segment>, at: seq<nat>)
    requires |at| < |evs| && InOrder(evs, segs, at) && segs != []
    ensures InOrder(evs, Extended(segs, evs[|at|]), at + [|segs| - 1])
  {
    assert (at + [|segs| - 1])[..|at|] == at;
  }

  /** The outcome of the first pass, with nothing left to choice: see FirstPassUnique. */
  ghost predicate FirstPass(evs: seq<Event>, eff: seq<string>, segs: seq<Segment>, at: seq<nat>) {
    && |eff| == |evs| == |at|
    && (forall i :: 0 <= i < |evs| ==> InForce(evs, i, eff[i]))
    && Placed(evs, segs, at) && CutAtBoundaries(evs, eff, segs, at) && InOrder(evs, segs, at)
  }

  lemma {:induction false} TopicUnique(evs: seq<Event>, i: nat, s: string, t: string)
    requires i < |evs| && InForce(evs, i, s) && InForce(evs, i, t)
    ensures s == t
  {
    if exists k: nat :: NamesLast(evs, i, k) {
      var k: nat :| NamesLast(evs, i, k) && evs[k].topic == s;
      var m: nat :| NamesLast(evs, i, m) && evs[m].topic == t;
      assert k == m;
    }
  }

  lemma {:induction false} CutsUnique(evs: seq<Event>, eff: seq<string>, a: seq<Segment>, at: seq<nat>, b: seq<Segment>, bt: seq<nat>, n: nat)
    requires n < |evs| == |eff| == |at| && |bt| == |at|
    requires CutAtBoundaries(evs, eff, a, at) && CutAtBoundaries(evs, eff, b, bt)
    ensures at[n] == bt[n] < |a| && bt[n] < |b|
    ensures forall k :: 0 <= k <= at[n] ==> a[k].topic == b[k].topic
  {
    hide Boundary;
    assert CutRule(evs, eff, a, at, n) && CutRule(evs, eff, b, bt, n);
    if n > 0 {
      CutsUnique(evs, eff, a, at, b, bt, n - 1);
    }
  }

  /** The first pass is a function of the events. */
  lemma {:induction false} FirstPassUnique(evs: seq<Event>, eff: seq<string>, a: seq<Segment>, at: seq<nat>, eff': seq<string>, b: seq<Segment>, bt: seq<nat>)
    requires FirstPass(evs, eff, a, at) && FirstPass(evs, eff', b, bt)
    ensures eff == eff' && a == b && at == bt
  {
    hide Placed, InForce, CutAtBoundaries, InOrder;
    forall i | 0 <= i < |evs| ensures eff[i] == eff'[i] {
      TopicUnique(evs, i, eff[i], eff'[i]);
    }
    assert eff == eff';
    forall i | 0 <= i < |evs| ensures at[i] == bt[i] {
      CutsUnique(evs, eff, a, at, b, bt, i);
    }
    assert at == bt;
    SegmentsUnique(evs, eff, at, a, b);
  }

  lemma {:induction false} SegmentsUnique(evs: seq<Event>, eff: seq<string>, at: seq<nat>, a: seq<Segment>, b: seq<Segment>)
    requires |evs| == |eff| == |at| && InOrder(evs, a, at) && InOrder(evs, b, at)
    requires CutAtBoundaries(evs, eff, a, at) && CutAtBoundaries(evs, eff, b, at)
    ensures a == b
  {
    if |evs| > 0 {
      CutsUnique(evs, eff, a, at, b, at, |evs| - 1);
      forall k | 0 <= k < |a| ensures a[k] == b[k] {
        assert a[k].rows == Select(evs, at, k) == b[k].rows;
      }
    }
  }

  // ---- second pass: stitching along replies -----------------------------------------------------

  function RealTopic(s: Segment): string {
    if s.topic == UNKNOWN then "" else s.topic
  }

  /** Whether a reply is strong enough to weld its segment to the one it answers. */
  predicate Strong(cur: Segment, par: Segment, child: Event, parent: Event, sim: Similarity) {
    if RealTopic(cur) == "" || RealTopic(par) == "" || RealTopic(cur) == RealTopic(par) then true
    else if sim(child, par).Some? then sim(child, par).value >= CONTENT_FLOOR
    else -SUSPICIOUS_REPLY_GAP < child.ts - parent.ts < SUSPICIOUS_REPLY_GAP
  }

  /** The reply of event i to event j is an edge between their segments. */
  ghost predicate Welds(evs: seq<Event>, segs: seq<Segment>, at: seq<nat>, sim: Similarity, i: nat, j: nat) {
    && i < |evs| && j < |evs| && |at| == |evs| && at[i] < |segs| && at[j] < |segs|
    && evs[i].parent != "" && evs[i].parent == evs[j].id
    && Strong(segs[at[i]], segs[at[j]], evs[i], evs[j], sim)
  }

  /** The edges of the replies made by the first n events. */
  ghost function Stitches(evs: seq<Event>, segs: seq<Segment>, at: seq<nat>, sim: Similarity, n: nat): set<(nat, nat)>
    requires n <= |evs| == |at|
  {
    set i: nat, j: nat | i < n && j < |evs| && Welds(evs, segs, at, sim, i, j) :: (at[i], at[j])
  }

  lemma {:induction false} StitchesGrow(evs: seq<Event>, segs: seq<Segment>, at: seq<nat>, sim: Similarity, n: nat, j: nat)
    requires n < |evs| == |at| && j < |evs| && DistinctIds(evs) && evs[n].parent == evs[j].id
    requires at[n] < |segs| && at[j] < |segs|
    ensures Stitches(evs, segs, at, sim, n + 1) ==
            Stitches(evs, segs, at, sim, n) +
            (if Strong(segs[at[n]], segs[at[j]], evs[n], evs[j], sim) then {(at[n], at[j])} else {})
  {
    var old', new' := Stitches(evs, segs, at, sim, n), Stitches(evs, segs, at, sim, n + 1);
    assert evs[j].id != "";
    forall e | e in new' ensures e in old' || (e == (at[n], at[j]) && Welds(evs, segs, at, sim, n, j)) {
      var i: nat, k: nat :| i < n + 1 && k < |evs| && Welds(evs, segs, at, sim, i, k) && e == (at[i], at[k]);
      assert k < j ==> evs[k].id != evs[j].id;
      assert j < k ==> evs[j].id != evs[k].id;
    }
    if Strong(segs[at[n]], segs[at[j]], evs[n], evs[j], sim) {
      assert Welds(evs, segs, at, sim, n, j);
    }
  }

  lemma {:induction false} StitchesSame(evs: seq<Event>, segs: seq<Segment>, at: seq<nat>, sim: Similarity, n: nat)
    requires n < |evs| == |at|
    requires evs[n].parent == "" || forall j :: 0 <= j < |evs| ==> evs[j].id != evs[n].parent
    ensures Stitches(evs, segs, at, sim, n + 1) == Stitches(evs, segs, at, sim, n)
  {
    forall e | e in Stitches(evs, segs, at, sim, n + 1) ensures e in Stitches(evs, segs, at, sim, n) {
      var i: nat, k: nat :| i < n + 1 && k < |evs| && Welds(evs, segs, at, sim, i, k) && e == (at[i], at[k]);
    }
  }

  /** Everything the union-find loop keeps about its table. */
  ghost predicate Table(s: seq<nat>, rep: map<nat, nat>, depth: map<nat, nat>) {
    && (forall i :: 0 <= i < |s| ==> s[i] < |s|)
    && Represents(AsMap(s), rep, depth)
  }

  /** One reply edge between segments c and q, welded when `strong`. */
  method Weld(uf: array<nat>, ghost rep: map<nat, nat>, ghost depth: map<nat, nat>, ghost es: set<(nat, nat)>,
              c: nat, q: nat, strong: bool) returns (ghost rep': map<nat, nat>, ghost depth': map<nat, nat>)
    requires c < uf.Length && q < uf.Length && Table(uf[..], rep, depth) && Classes(rep, es)
    modifies uf
    ensures Table(uf[..], rep', depth')
    ensures Classes(rep', es + (if strong then {(c, q)} else {}))
  {
    rep', depth' := rep, depth;
    var rq := FindHalving(uf, rep, depth, q);
    var rc := FindHalving(uf, rep, depth, c);
    if rq != rc {
      if strong {
        rc := FindHalving(uf, rep, depth, c);
        rq := FindHalving(uf, rep, depth, q);
        rep', depth' := Attach(uf, rep, depth, es, c, q, rc, rq);
      } else {
        assert es + {} == es;
      }
    } else if strong {
      ClassesInner<nat>(rep, es, c, q);
    } else {
      assert es + {} == es;
    }
  }

  method Attach(uf: array<nat>, ghost rep: map<nat, nat>, ghost depth: map<nat, nat>, ghost es: set<(nat, nat)>,
                ghost c: nat, ghost q: nat, rc: nat, rq: nat) returns (ghost rep': map<nat, nat>, ghost depth': map<nat, nat>)
    requires rc < uf.Length && rq < uf.Length && Table(uf[..], rep, depth) && Classes(rep, es)
    requires rc == Up(rep, c) && rq == Up(rep, q) && rc != rq
    modifies uf
    ensures Table(uf[..], rep', depth') && Classes(rep', es + {(c, q)})
  {
    hide Represents, Classes, Connected;
    ghost var s := uf[..];
    RepIsRoot<nat>(AsMap(s), rep, depth, c);
    RepIsRoot<nat>(AsMap(s), rep, depth, q);
    Hang<nat>(AsMap(s), rep, depth, rc, rq);
    ClassesJoin<nat>(rep, es, c, q);
    rep', depth' := MergedRep(rep, rc, rq), MergedDepth(rep, depth, rc, rq);
    uf[rc] := rq;
    assert uf[..] == s[rc := rq];
    assert AsMap(uf[..]) == AsMap(s)[rc := rq];
  }

  lemma {:induction false} FreshTable(n: nat)
    ensures Table(seq(n, i => i), map[], map[]) && Classes<nat>(map[], {})
  {
    var s: seq<nat> := seq(n, i => i);
    forall x: nat ensures Up(AsMap(s), x) == x {
    }
    forall x: nat ensures Connected({}, x, Up<nat>(map[], x)) {
      Reflexive({}, x);
    }
  }

  /** The classes of the returned table are the components of the stitch graph. */
  method Stitch(evs: seq<Event>, segs: seq<Segment>, ghost at: seq<nat>, sim: Similarity)
    returns (uf: array<nat>, ghost rep: map<nat, nat>, ghost depth: map<nat, nat>)
    requires |at| == |evs| && DistinctIds(evs) && Placed(evs, segs, at)
    ensures fresh(uf) && uf.Length == |segs| && Table(uf[..], rep, depth)
    ensures Classes(rep, Stitches(evs, segs, at, sim, |evs|))
  {
    hide Placed, DistinctIds, Table, Classes, Locates;
    var segOf := SegmentOf(evs, segs, at);
    uf := new nat[|segs|](i => i);
    rep, depth := map[], map[];
    FreshTable(|segs|);
    assert uf[..] == seq(|segs|, i => i);
    assert Stitches(evs, segs, at, sim, 0) == {};
    for i := 0 to |evs|
      invariant fresh(uf) && uf.Length == |segs| && Table(uf[..], rep, depth)
      invariant Classes(rep, Stitches(evs, segs, at, sim, i))
    {
      rep, depth := StitchOne(evs, segs, at, sim, segOf, i, uf, rep, depth);
    }
  }

  ghost predicate Locates(evs: seq<Event>, at: seq<nat>, segOf: map<string, (nat, Event)>) {
    && |at| == |evs|
    && (forall i :: 0 <= i < |evs| ==> evs[i].id in segOf && segOf[evs[i].id] == (at[i], evs[i]))
    && (forall x :: x in segOf ==> exists i :: 0 <= i < |evs| && evs[i].id == x)
  }

  method StitchOne(evs: seq<Event>, segs: seq<Segment>, ghost at: seq<nat>, sim: Similarity,
                   segOf: map<string, (nat, Event)>, i: nat, uf: array<nat>, ghost rep: map<nat, nat>, ghost depth: map<nat, nat>)
    returns (ghost rep': map<nat, nat>, ghost depth': map<nat, nat>)
    requires i < |evs| && Locates(evs, at, segOf) && DistinctIds(evs) && Placed(evs, segs, at)
    requires uf.Length == |segs| && Table(uf[..], rep, depth) && Classes(rep, Stitches(evs, segs, at, sim, i))
    modifies uf
    ensures Table(uf[..], rep', depth') && Classes(rep', Stitches(evs, segs, at, sim, i + 1))
  {
    var e := evs[i];
    rep', depth' := rep, depth;
    if e.parent != "" && e.parent in segOf {
      ghost var j: nat :| j < |evs| && evs[j].id == e.parent;
      var child, par := segOf[e.id].0, segOf[e.parent].0;
      var strong := Strong(segs[child], segs[par], e, segOf[e.parent].1, sim);
      StitchesGrow(evs, segs, at, sim, i, j);
      rep', depth' := Weld(uf, rep, depth, Stitches(evs, segs, at, sim, i), child, par, strong);
    } else {
      StitchesSame(evs, segs, at, sim, i);
    }
  }

  /** `seg_of` and `event_by_msg` in one table. */
  method SegmentOf(evs: seq<Event>, segs: seq<Segment>, ghost at: seq<nat>) returns (segOf: map<string, (nat, Event)>)
    requires |at| == |evs| && DistinctIds(evs) && Placed(evs, segs, at)
    ensures Locates(evs, at, segOf)
  {
    segOf := map[];
    for k := 0 to |segs|
      invariant SoundTable(segs, segOf)
      invariant forall j, e :: 0 <= j < k && e in segs[j].rows ==> e.id in segOf
    {
      var rows := segs[k].rows;
      for r := 0 to |rows|
        invariant SoundTable(segs, segOf)
        invariant forall j, e :: 0 <= j < k && e in segs[j].rows ==> e.id in segOf
        invariant forall m :: 0 <= m < r ==> rows[m].id in segOf
      {
        segOf := segOf[rows[r].id := (k, rows[r])];
      }
    }
    forall i | 0 <= i < |evs| ensures evs[i].id in segOf && segOf[evs[i].id] == (at[i], evs[i]) {
      assert evs[i] in segs[at[i]].rows;
      var (k, e) := segOf[evs[i].id];
      HomeUnique(evs, segs, at, i, k, e);
    }
  }

  ghost predicate SoundTable(segs: seq<Segment>, segOf: map<string, (nat, Event)>) {
    forall x :: x in segOf ==> segOf[x].0 < |segs| && segOf[x].1 in segs[segOf[x].0].rows && segOf[x].1.id == x
  }

  /** An event id has one place. */
  lemma {:induction false} HomeUnique(evs: seq<Event>, segs: seq<Segment>, at: seq<nat>, i: nat, k: nat, e: Event)
    requires |at| == |evs| && DistinctIds(evs) && Placed(evs, segs, at)
    requires i < |evs| && k < |segs| && e in segs[k].rows && e.id == evs[i].id
    ensures k == at[i] && e == evs[i]
  {
    var j :| 0 <= j < |at| && at[j] == k && evs[j] == e;
    assert i == j;
  }

  // ---- collecting the classes -------------------------------------------------------------------

  /** groups[k] holds the rows of the segments, among the first n, whose representative is roots[k]. */
  ghost predicate Collected(segs: seq<Segment>, n: nat, rep: map<nat, nat>, roots: seq<nat>, groups: seq<seq<Event>>)
    requires n <= |segs|
  {
    && |roots| == |groups|
    && (forall j, k :: 0 <= j < k < |roots| ==> roots[j] != roots[k])
    && (forall i: nat :: i < n ==> Up(rep, i) in roots)
    && (forall k, e :: 0 <= k < |groups| ==> (e in groups[k] <==> InClass(segs, n, rep, roots[k], e)))
    && (forall k :: 0 <= k < |groups| ==> groups[k] != [])
  }

  ghost predicate InClass(segs: seq<Segment>, n: nat, rep: map<nat, nat>, r: nat, e: Event)
    requires n <= |segs|
  {
    exists i: nat :: i < n && Up(rep, i) == r && e in segs[i].rows
  }

  lemma {:induction false} InClassGrows(segs: seq<Segment>, n: nat, rep: map<nat, nat>, r: nat, e: Event)
    requires n < |segs|
    ensures InClass(segs, n + 1, rep, r, e) <==>
            InClass(segs, n, rep, r, e) || (Up(rep, n) == r && e in segs[n].rows)
  {
    if InClass(segs, n, rep, r, e) {
      var i: nat :| i < n && Up(rep, i) == r && e in segs[i].rows;
      assert i < n + 1;
    }
  }

  lemma {:induction false} CollectStart(segs: seq<Segment>, rep: map<nat, nat>)
    ensures Collected(segs, 0, rep, [], [])
  {
  }

  lemma {:induction false} CollectOld(segs: seq<Segment>, n: nat, rep: map<nat, nat>, roots: seq<nat>, groups: seq<seq<Event>>, k: nat)
    requires n < |segs| && Collected(segs, n, rep, roots, groups) && k < |roots| && roots[k] == Up(rep, n)
    ensures Collected(segs, n + 1, rep, roots, groups[k := groups[k] + segs[n].rows])
  {
    hide InClass, Up;
    var groups' := groups[k := groups[k] + segs[n].rows];
    forall m, e | 0 <= m < |groups'| ensures e in groups'[m] <==> InClass(segs, n + 1, rep, roots[m], e) {
      InClassGrows(segs, n, rep, roots[m], e);
      assert e in groups[m] <==> InClass(segs, n, rep, roots[m], e);
    }
  }

  lemma {:induction false} CollectNew(segs: seq<Segment>, n: nat, rep: map<nat, nat>, roots: seq<nat>, groups: seq<seq<Event>>)
    requires n < |segs| && Collected(segs, n, rep, roots, groups) && Up(rep, n) !in roots && segs[n].rows != []
    ensures Collected(segs, n + 1, rep, roots + [Up(rep, n)], groups + [segs[n].rows])
  {
    hide Up;
    var roots', groups' := roots + [Up(rep, n)], groups + [segs[n].rows];
    forall m, e | 0 <= m < |groups'| ensures e in groups'[m] <==> InClass(segs, n + 1, rep, roots'[m], e) {
      InClassGrows(segs, n, rep, roots'[m], e);
    }
  }

  method Root(uf: array<nat>, ghost rep: map<nat, nat>, ghost depth: map<nat, nat>, x: nat) returns (r: nat)
    requires x < uf.Length && Table(uf[..], rep, depth)
    modifies uf
    ensures Table(uf[..], rep, depth) && r == Up(rep, x) && r < uf.Length
  {
    r := FindHalving(uf, rep, depth, x);
  }

  /** Class r comes up before class q. */
  ghost predicate MetBefore(rep: map<nat, nat>, n: nat, r: nat, q: nat) {
    exists i: nat :: i < n && Up(rep, i) == r && forall j: nat :: j <= i ==> Up(rep, j) != q
  }

  ghost predicate AnyMet(rep: map<nat, nat>, n: nat, r: nat) {
    exists i: nat :: i < n && Up(rep, i) == r
  }

  /** The classes of the first n segments, in the order they are first met. */
  ghost predicate FirstMet(rep: map<nat, nat>, n: nat, roots: seq<nat>) {
    && (forall r :: r in roots <==> AnyMet(rep, n, r))
    && (forall k, m :: 0 <= k < m < |roots| ==> MetBefore(rep, n, roots[k], roots[m]))
  }

  lemma {:induction false} FirstMetStart(rep: map<nat, nat>)
    ensures FirstMet(rep, 0, [])
  {
  }

  lemma {:induction false} FirstMetNext(rep: map<nat, nat>, n: nat, roots: seq<nat>)
    requires FirstMet(rep, n, roots)
    ensures FirstMet(rep, n + 1, if Up(rep, n) in roots then roots else roots + [Up(rep, n)])
  {
    hide Up;
    var r := Up(rep, n);
    var roots' := if r in roots then roots else roots + [r];
    forall q ensures q in roots' <==> AnyMet(rep, n + 1, q) {
      assert AnyMet(rep, n + 1, q) <==> AnyMet(rep, n, q) || q == r;
    }
    forall k, m | 0 <= k < m < |roots'| ensures MetBefore(rep, n + 1, roots'[k], roots'[m]) {
      if m < |roots| {
        assert MetBefore(rep, n, roots[k], roots[m]);
      } else {
        assert roots[k] in roots && AnyMet(rep, n, roots[k]);
      }
    }
  }

  /** `merged`: one group per class, in the order the classes are first met. */
  method Collect(segs: seq<Segment>, uf: array<nat>, ghost rep: map<nat, nat>, ghost depth: map<nat, nat>)
    returns (groups: seq<seq<Event>>, ghost roots: seq<nat>)
    requires uf.Length == |segs| && Table(uf[..], rep, depth)
    requires forall s :: s in segs ==> s.rows != []
    modifies uf
    ensures Collected(segs, |segs|, rep, roots, groups) && FirstMet(rep, |segs|, roots)
    ensures multiset(Flat(groups)) == multiset(Flat(Rows(segs)))
  {
    hide Collected, Table, Represents, Up, Flat, FirstMet;
    CollectStart(segs, rep);
    FirstMetStart(rep);
    groups, roots := [], [];
    var slot: map<nat, nat> := map[];
    for n := 0 to |segs|
      invariant Table(uf[..], rep, depth)
      invariant |roots| == |groups| && Collected(segs, n, rep, roots, groups) && FirstMet(rep, n, roots)
      invariant forall r :: r in slot <==> r in roots
      invariant forall r :: r in slot ==> slot[r] < |roots| && roots[slot[r]] == r
      invariant multiset(Flat(groups)) == multiset(Flat(Rows(segs[..n])))
    {
      var r := Root(uf, rep, depth, n);
      FirstMetNext(rep, n, roots);
      assert Rows(segs[..n + 1]) == Rows(segs[..n]) + [segs[n].rows];
      FlatSnoc(Rows(segs[..n]), segs[n].rows);
      if r in slot {
        CollectOld(segs, n, rep, roots, groups, slot[r]);
        FlatExtend(groups, slot[r], segs[n].rows);
        groups := groups[slot[r] := groups[slot[r]] + segs[n].rows];
      } else {
        CollectNew(segs, n, rep, roots, groups);
        FlatSnoc(groups, segs[n].rows);
        slot := slot[r := |groups|];
        groups, roots := groups + [segs[n].rows], roots + [r];
      }
    }
    assert segs[..|segs|] == segs;
  }

  predicate Loud(rows: seq<Event>) {
    exists e :: e in rows && !e.noise
  }

  const ByFirstTs: seq<Event> -> int := (rows: seq<Event>) => if rows == [] then 0 else rows[0].ts

  /** Each loud group survives as one sorted atom, and atoms are nothing else. */
  ghost predicate Sifted(groups: seq<seq<Event>>, out: seq<seq<Event>>) {
    && (forall o :: o in out ==> o != [] && Loud(o) && SortedBy(o, ByTs) && exists g :: g in groups && multiset(g) == multiset(o))
    && (forall g :: g in groups && Loud(g) ==> exists o :: o in out && multiset(g) == multiset(o))
  }

  lemma {:induction false} SiftStart()
    ensures Sifted([], [])
  {
  }

  /** Sort each group, drop the all-noise ones, order the rest by their first event. */
  method Sift(groups: seq<seq<Event>>) returns (out: seq<seq<Event>>, ghost dropped: seq<Event>)
    requires forall k :: 0 <= k < |groups| ==> groups[k] != []
    ensures Sifted(groups, out) && SortedBy(out, ByFirstTs)
    ensures multiset(Flat(out)) + multiset(dropped) == multiset(Flat(groups))
    ensures forall e :: e in dropped ==> e.noise
  {
    hide Sifted, SortedBy, SortBy, Loud;
    out, dropped := [], [];
    SiftStart();
    for k := 0 to |groups|
      invariant Sifted(groups[..k], out)
      invariant multiset(Flat(out)) + multiset(dropped) == multiset(Flat(groups[..k]))
      invariant forall e :: e in dropped ==> e.noise
    {
      assert groups[..k + 1] == groups[..k] + [groups[k]];
      FlatSnoc(groups[..k], groups[k]);
      var rows := SortBy(groups[k], ByTs);
      SiftStep(groups[..k], out, groups[k]);
      if Loud(rows) {
        FlatSnoc(out, rows);
        out := out + [rows];
      } else {
        dropped := dropped + groups[k];
      }
    }
    assert groups[..|groups|] == groups;
    SiftOrder(groups, out);
    out := SortBy(out, ByFirstTs);
  }

  lemma {:induction false} SiftStep(groups: seq<seq<Event>>, out: seq<seq<Event>>, g: seq<Event>)
    requires Sifted(groups, out) && g != []
    ensures var rows := SortBy(g, ByTs);
            && multiset(rows) == multiset(g)
            && Sifted(groups + [g], if Loud(rows) then out + [rows] else out)
            && (!Loud(rows) ==> forall e :: e in g ==> e.noise)
  {
    hide Sifted;
    var rows := SortBy(g, ByTs);
    SortSorts(g, ByTs);
    SameElements(rows, g);
    if Loud(rows) {
      SiftKeep(groups, out, g, rows);
    } else {
      SiftDrop(groups, out, g);
    }
  }

  lemma {:induction false} SiftOrder(groups: seq<seq<Event>>, out: seq<seq<Event>>)
    requires Sifted(groups, out)
    ensures Sifted(groups, SortBy(out, ByFirstTs)) && SortedBy(SortBy(out, ByFirstTs), ByFirstTs)
    ensures multiset(Flat(SortBy(out, ByFirstTs))) == multiset(Flat(out))
  {
    hide Sifted, SortedBy, SortBy, Flat;
    SortSorts(out, ByFirstTs);
    SortMembers(out, ByFirstTs);
    FlatPermute(SortBy(out, ByFirstTs), out);
    SiftedPermuted(groups, out, SortBy(out, ByFirstTs));
  }

  lemma {:induction false} SiftKeep(groups: seq<seq<Event>>, out: seq<seq<Event>>, g: seq<Event>, rows: seq<Event>)
    requires Sifted(groups, out) && rows != [] && Loud(rows) && SortedBy(rows, ByTs) && multiset(rows) == multiset(g)
    ensures Sifted(groups + [g], out + [rows])
  {
    var groups', out' := groups + [g], out + [rows];
    assert g in groups' && rows in out';
    assert forall h :: h in groups ==> h in groups';
    assert forall o :: o in out ==> o in out';
    assert forall h :: h in groups' ==> h == g || h in groups;
    assert forall o :: o in out' ==> o == rows || o in out;
  }

  lemma {:induction false} SiftedPermuted(groups: seq<seq<Event>>, out: seq<seq<Event>>, out': seq<seq<Event>>)
    requires Sifted(groups, out) && forall o :: o in out <==> o in out'
    ensures Sifted(groups, out')
  {
  }

  lemma {:induction false} SiftDrop(groups: seq<seq<Event>>, out: seq<seq<Event>>, g: seq<Event>)
    requires Sifted(groups, out) && !Loud(g)
    ensures Sifted(groups + [g], out)
  {
    var groups' := groups + [g];
    assert forall h :: h in groups ==> h in groups';
    assert forall h :: h in groups' ==> h == g || h in groups;
  }

  // ---- the whole of atomic_segments -------------------------------------------------------------

  /** Events i and j are joined by a chain of welded segments. */
  ghost predicate Joined(evs: seq<Event>, segs: seq<Segment>, at: seq<nat>, sim: Similarity, i: nat, j: nat)
    requires |at| == |evs| && i < |evs| && j < |evs|
  {
    Connected(Stitches(evs, segs, at, sim, |evs|), at[i], at[j])
  }

  /** Some event joined to i is not noise. */
  ghost predicate Heard(evs: seq<Event>, segs: seq<Segment>, at: seq<nat>, sim: Similarity, i: nat)
    requires |at| == |evs| && i < |evs|
  {
    exists j: nat :: j < |evs| && !evs[j].noise && Joined(evs, segs, at, sim, i, j)
  }

  /** What the atoms are, said without the union-find. */
  ghost predicate Atoms(evs: seq<Event>, segs: seq<Segment>, at: seq<nat>, sim: Similarity, out: seq<seq<Event>>)
    requires |at| == |evs|
  {
    && (forall i: nat :: i < |evs| ==> (evs[i] in Flat(out) <==> Heard(evs, segs, at, sim, i)))
    && (forall i: nat, j: nat :: i < |evs| && j < |evs| && evs[i] in Flat(out) ==>
          (Together(out, evs[i], evs[j]) <==> Joined(evs, segs, at, sim, i, j)))
  }

  method AtomicSegments(evs: seq<Event>, sim: Similarity)
    returns (out: seq<seq<Event>>, ghost eff: seq<string>, ghost segs: seq<Segment>, ghost at: seq<nat>, ghost dropped: seq<Event>)
    requires DistinctIds(evs)
    ensures FirstPass(evs, eff, segs, at) && Atoms(evs, segs, at, sim, out)
    ensures forall o :: o in out ==> o != [] && Loud(o) && SortedBy(o, ByTs)
    ensures SortedBy(out, ByFirstTs)
    ensures multiset(Flat(out)) + multiset(dropped) == multiset(evs)
    ensures forall e :: e in dropped ==> e.noise
  {
    hide Connected, Represents, Classes, CutAtBoundaries, InOrder, InForce, SortedBy, Table;
    var topics := EffectiveTopics(evs);
    eff := topics;
    var cut;
    cut, at := Cut(evs, topics);
    segs := cut;
    var uf;
    ghost var rep, depth;
    uf, rep, depth := Stitch(evs, cut, at, sim);
    var groups;
    ghost var roots;
    groups, roots := Collect(cut, uf, rep, depth);
    out, dropped := Sift(groups);
    AtomsAre(evs, segs, at, sim, rep, roots, groups, out);
  }

  lemma {:induction false} AtomsAre(evs: seq<Event>, segs: seq<Segment>, at: seq<nat>, sim: Similarity,
                 rep: map<nat, nat>, roots: seq<nat>, groups: seq<seq<Event>>, out: seq<seq<Event>>)
    requires |at| == |evs| && DistinctIds(evs) && Placed(evs, segs, at)
    requires Classes(rep, Stitches(evs, segs, at, sim, |evs|))
    requires Collected(segs, |segs|, rep, roots, groups) && Sifted(groups, out)
    ensures Atoms(evs, segs, at, sim, out)
  {
    hide Classes, Connected, DistinctIds;
    forall i: nat | i < |evs| ensures evs[i] in Flat(out) <==> Heard(evs, segs, at, sim, i) {
      KeptIff(evs, segs, at, sim, rep, roots, groups, out, i);
    }
    forall i: nat, j: nat | i < |evs| && j < |evs| && evs[i] in Flat(out)
      ensures Together(out, evs[i], evs[j]) <==> Joined(evs, segs, at, sim, i, j)
    {
      TogetherIff(evs, segs, at, sim, rep, roots, groups, out, i, j);
    }
  }

  /** The group an event went to. */
  lemma {:induction false} GroupOf(evs: seq<Event>, segs: seq<Segment>, at: seq<nat>, rep: map<nat, nat>, roots: seq<nat>,
                groups: seq<seq<Event>>, i: nat, k: nat)
    requires |at| == |evs| && DistinctIds(evs) && Placed(evs, segs, at) && i < |evs|
    requires Collected(segs, |segs|, rep, roots, groups) && k < |groups|
    ensures at[i] < |segs| && (evs[i] in groups[k] <==> Up(rep, at[i]) == roots[k])
  {
    if evs[i] in groups[k] {
      assert InClass(segs, |segs|, rep, roots[k], evs[i]);
      var s: nat :| s < |segs| && Up(rep, s) == roots[k] && evs[i] in segs[s].rows;
      HomeUnique(evs, segs, at, i, s, evs[i]);
    }
    if Up(rep, at[i]) == roots[k] {
      assert InClass(segs, |segs|, rep, roots[k], evs[i]);
    }
  }

  /** Sharing a group is being joined. */
  lemma {:induction false} SharedGroup(evs: seq<Event>, segs: seq<Segment>, at: seq<nat>, sim: Similarity,
                    rep: map<nat, nat>, roots: seq<nat>, groups: seq<seq<Event>>, i: nat, j: nat, k: nat)
    requires |at| == |evs| && DistinctIds(evs) && Placed(evs, segs, at) && i < |evs| && j < |evs|
    requires Classes(rep, Stitches(evs, segs, at, sim, |evs|))
    requires Collected(segs, |segs|, rep, roots, groups) && k < |groups| && evs[i] in groups[k]
    ensures evs[j] in groups[k] <==> Joined(evs, segs, at, sim, i, j)
  {
    GroupOf(evs, segs, at, rep, roots, groups, i, k);
    GroupOf(evs, segs, at, rep, roots, groups, j, k);
    SameClass<nat>(rep, Stitches(evs, segs, at, sim, |evs|), at[i], at[j]);
  }

  lemma {:induction false} OwnGroup(evs: seq<Event>, segs: seq<Segment>, at: seq<nat>, rep: map<nat, nat>, roots: seq<nat>,
                 groups: seq<seq<Event>>, i: nat) returns (k: nat)
    requires |at| == |evs| && DistinctIds(evs) && Placed(evs, segs, at) && i < |evs|
    requires Collected(segs, |segs|, rep, roots, groups)
    ensures k < |groups| && evs[i] in groups[k]
    ensures forall m: nat :: m < |groups| && evs[i] in groups[m] ==> m == k
  {
    k :| 0 <= k < |roots| && roots[k] == Up(rep, at[i]);
    GroupOf(evs, segs, at, rep, roots, groups, i, k);
    forall m: nat | m < |groups| && evs[i] in groups[m] ensures m == k {
      GroupOf(evs, segs, at, rep, roots, groups, i, m);
    }
  }

  lemma {:induction false} KeptIff(evs: seq<Event>, segs: seq<Segment>, at: seq<nat>, sim: Similarity,
                rep: map<nat, nat>, roots: seq<nat>, groups: seq<seq<Event>>, out: seq<seq<Event>>, i: nat)
    requires |at| == |evs| && DistinctIds(evs) && Placed(evs, segs, at) && i < |evs|
    requires Classes(rep, Stitches(evs, segs, at, sim, |evs|))
    requires Collected(segs, |segs|, rep, roots, groups) && Sifted(groups, out)
    ensures evs[i] in Flat(out) <==> Heard(evs, segs, at, sim, i)
  {
    hide Classes, DistinctIds, Placed;
    FlatMembers(out, evs[i]);
    var k := OwnGroup(evs, segs, at, rep, roots, groups, i);
    if evs[i] in Flat(out) {
      var o :| o in out && evs[i] in o;
      var g :| g in groups && multiset(g) == multiset(o);
      SameElements(g, o);
      assert g == groups[k] && Loud(g);
    }
    if Loud(groups[k]) {
      var o :| o in out && multiset(groups[k]) == multiset(o);
      SameElements(groups[k], o);
    }
    LoudIff(evs, segs, at, sim, rep, roots, groups, i, k);
  }

  lemma {:induction false} LoudIff(evs: seq<Event>, segs: seq<Segment>, at: seq<nat>, sim: Similarity,
                rep: map<nat, nat>, roots: seq<nat>, groups: seq<seq<Event>>, i: nat, k: nat)
    requires |at| == |evs| && DistinctIds(evs) && Placed(evs, segs, at) && i < |evs|
    requires Classes(rep, Stitches(evs, segs, at, sim, |evs|))
    requires Collected(segs, |segs|, rep, roots, groups) && k < |groups| && evs[i] in groups[k]
    ensures Loud(groups[k]) <==> Heard(evs, segs, at, sim, i)
  {
    hide Classes, DistinctIds;
    if Loud(groups[k]) {
      var e :| e in groups[k] && !e.noise;
      assert InClass(segs, |segs|, rep, roots[k], e);
      var s: nat :| s < |segs| && Up(rep, s) == roots[k] && e in segs[s].rows;
      var j :| 0 <= j < |at| && at[j] == s && evs[j] == e;
      SharedGroup(evs, segs, at, sim, rep, roots, groups, i, j, k);
    }
    if Heard(evs, segs, at, sim, i) {
      var j: nat :| j < |evs| && !evs[j].noise && Joined(evs, segs, at, sim, i, j);
      SharedGroup(evs, segs, at, sim, rep, roots, groups, i, j, k);
    }
  }

  lemma {:induction false} TogetherIff(evs: seq<Event>, segs: seq<Segment>, at: seq<nat>, sim: Similarity,
                    rep: map<nat, nat>, roots: seq<nat>, groups: seq<seq<Event>>, out: seq<seq<Event>>, i: nat, j: nat)
    requires |at| == |evs| && DistinctIds(evs) && Placed(evs, segs, at) && i < |evs| && j < |evs|
    requires Classes(rep, Stitches(evs, segs, at, sim, |evs|))
    requires Collected(segs, |segs|, rep, roots, groups) && Sifted(groups, out)
    requires evs[i] in Flat(out)
    ensures Together(out, evs[i], evs[j]) <==> Joined(evs, segs, at, sim, i, j)
  {
    var k := OwnGroup(evs, segs, at, rep, roots, groups, i);
    FlatMembers(out, evs[i]);
    SharedGroup(evs, segs, at, sim, rep, roots, groups, i, j, k);
    forall o | o in out && evs[i] in o ensures evs[j] in o <==> evs[j] in groups[k] {
      var g :| g in groups && multiset(g) == multiset(o);
      SameElements(g, o);
    }
  }

  // ---- what the rules mean for the result -------------------------------------------------------

  /** A new segment starts exactly after forty minutes of silence, or at a topic that is new, known and lasts. */
  lemma {:induction false} CutIff(evs: seq<Event>, eff: seq<string>, segs: seq<Segment>, at: seq<nat>, i: nat)
    requires FirstPass(evs, eff, segs, at) && 0 < i < |evs|
    ensures at[i - 1] < |segs|
    ensures at[i] != at[i - 1] <==>
              || evs[i].ts - evs[i - 1].ts >= 40 * 60 * 1000
              || (eff[i] != "?" && eff[i] != segs[at[i - 1]].topic && (i + 1 < |evs| ==> eff[i + 1] == eff[i]))
  {
    hide Placed, InOrder, InForce;
    assert CutRule(evs, eff, segs, at, i);
  }

  /** A single message on another topic is absorbed: the segment goes on after it. */
  lemma {:induction false} BlipAbsorbed(evs: seq<Event>, eff: seq<string>, segs: seq<Segment>, at: seq<nat>, i: nat)
    requires FirstPass(evs, eff, segs, at) && 0 < i < |evs| - 1
    requires evs[i].ts - evs[i - 1].ts < 40 * 60 * 1000 && evs[i + 1].ts - evs[i].ts < 40 * 60 * 1000
    requires at[i - 1] < |segs| && eff[i + 1] == segs[at[i - 1]].topic
    ensures at[i + 1] == at[i] == at[i - 1]
  {
    hide FirstPass;
    CutIff(evs, eff, segs, at, i);
    CutIff(evs, eff, segs, at, i + 1);
  }

  /** A reply across two known topics that its content, or without one the time between, does not support. */
  ghost predicate Doubtful(cur: Segment, par: Segment, child: Event, parent: Event, sim: Similarity) {
    && cur.topic != "" && cur.topic != "?" && par.topic != "" && par.topic != "?" && cur.topic != par.topic
    && match sim(child, par)
       case Some(x) => x < 0.6
       case None => child.ts - parent.ts >= 24 * 3600 * 1000 || parent.ts - child.ts >= 24 * 3600 * 1000
  }

  lemma {:induction false} StrongIff(cur: Segment, par: Segment, child: Event, parent: Event, sim: Similarity)
    ensures Strong(cur, par, child, parent, sim) <==> !Doubtful(cur, par, child, parent, sim)
  {
  }

  /** Event i replies to event j. */
  ghost predicate Replies(evs: seq<Event>, i: nat, j: nat) {
    i < |evs| && j < |evs| && evs[i].parent != "" && evs[i].parent == evs[j].id
  }

  /** A reply that is not doubtful ends up with what it answers, unless both are in an all-noise group. */
  lemma {:induction false} RepliesWeld(evs: seq<Event>, eff: seq<string>, segs: seq<Segment>, at: seq<nat>, sim: Similarity, out: seq<seq<Event>>, i: nat, j: nat)
    requires FirstPass(evs, eff, segs, at) && Atoms(evs, segs, at, sim, out) && Replies(evs, i, j) && evs[i] in Flat(out)
    requires at[i] < |segs| && at[j] < |segs| && !Doubtful(segs[at[i]], segs[at[j]], evs[i], evs[j], sim)
    ensures Together(out, evs[i], evs[j])
  {
    hide Connected, Strong, Doubtful, Placed, CutAtBoundaries, InOrder, InForce, Flat, Together;
    StrongIff(segs[at[i]], segs[at[j]], evs[i], evs[j], sim);
    var es := Stitches(evs, segs, at, sim, |evs|);
    assert Welds(evs, segs, at, sim, i, j) && (at[i], at[j]) in es;
    Step(es, at[i], at[j]);
  }

  /** If every reply across topics is doubtful and every topic is known, no atom mixes topics. */
  lemma {:induction false} TopicsApart(evs: seq<Event>, eff: seq<string>, segs: seq<Segment>, at: seq<nat>, sim: Similarity, out: seq<seq<Event>>, i: nat, j: nat)
    requires FirstPass(evs, eff, segs, at) && Atoms(evs, segs, at, sim, out) && i < |evs| && j < |evs|
    requires forall k :: 0 <= k < |evs| ==> at[k] < |segs|
    requires forall k: nat, m: nat :: Replies(evs, k, m) && segs[at[k]].topic != segs[at[m]].topic ==>
               Doubtful(segs[at[k]], segs[at[m]], evs[k], evs[m], sim)
    requires evs[i] in Flat(out) && Together(out, evs[i], evs[j])
    ensures segs[at[i]].topic == segs[at[j]].topic
  {
    hide Strong, Doubtful, Placed, CutAtBoundaries, InOrder, InForce, Flat, Together, Connected;
    var es := Stitches(evs, segs, at, sim, |evs|);
    forall e | e in es ensures e.0 < |segs| && e.1 < |segs| && segs[e.0].topic == segs[e.1].topic {
      var k: nat, m: nat :| k < |evs| && m < |evs| && Welds(evs, segs, at, sim, k, m) && e == (at[k], at[m]);
      assert Replies(evs, k, m);
      StrongIff(segs[at[k]], segs[at[m]], evs[k], evs[m], sim);
    }
    assert Joined(evs, segs, at, sim, i, j);
    ConnectedTopic(es, segs, at[i], at[j]);
  }

  lemma {:induction false} ConnectedTopic(es: set<(nat, nat)>, segs: seq<Segment>, x: nat, y: nat)
    requires Connected(es, x, y) && x < |segs| && forall e :: e in es ==> e.0 < |segs| && e.1 < |segs| && segs[e.0].topic == segs[e.1].topic
    ensures y < |segs| && segs[y].topic == segs[x].topic
  {
    var p: seq<nat> :| Path(es, p) && p[0] == x && p[|p| - 1] == y;
    PathTopic(es, segs, p);
  }

  lemma {:induction false} PathTopic(es: set<(nat, nat)>, segs: seq<Segment>, p: seq<nat>)
    requires Path(es, p) && p[0] < |segs| && forall e :: e in es ==> e.0 < |segs| && e.1 < |segs| && segs[e.0].topic == segs[e.1].topic
    ensures p[|p| - 1] < |segs| && segs[p[|p| - 1]].topic == segs[p[0]].topic
  {
    if |p| > 1 {
      var n := |p| - 1;
      assert Path(es, p[..n]) by {
        forall i | 0 <= i < |p[..n]| - 1 ensures Linked(es, p[..n][i], p[..n][i + 1]) {
          assert Linked(es, p[i], p[i + 1]);
        }
      }
      PathTopic(es, segs, p[..n]);
      assert Linked(es, p[n - 1], p[n - 1 + 1]);
    }
  }
}
