/** Incremental segmentation: frozen tasks, the active tail, and what every increment does to them. */
module Incremental {
  import opened Events
  import opened Lists
  import opened Sorting
  import opened Clusters
  import opened Terminal
  import opened Titles
  import Atomic

  /** `details` stands for the rendered section, delivery verdict and sub-requirements of the task. */
  datatype Record = Record(title: string, ids: set<string>, lastTs: int, terminal: bool, ok: bool, details: string, events: seq<Event>)

  datatype State = State(watermark: int, frozen: seq<Record>, tail: seq<Event>, anchors: seq<Anchor>)

  /** What the models answered: the grouping, and per cluster whether its decomposition worked and what it gave. */
  datatype Answer = Answer(tasks: seq<Task>, ok: seq<bool>, details: seq<string>)

  const HOUR := 3_600_000

  function IdsOf(evs: seq<Event>): (r: set<string>)
    ensures forall x :: x in r <==> x != "" && exists e :: e in evs && e.id == x
  {
    set e | e in evs && e.id != "" :: e.id
  }

  function LastTs(evs: seq<Event>): int {
    if evs == [] then 0 else MaxTs(evs)
  }

  function EventsOf(records: seq<Record>): seq<seq<Event>> {
    Map((r: Record) => r.events, records)
  }

  /** Every place an event can be in: the frozen tasks and the tail. */
  function Places(s: State): seq<Event> {
    Flat(EventsOf(s.frozen)) + s.tail
  }

  // ---- thawing ----------------------------------------------------------------------------------

  /** Old enough, finished, and without a hole to heal. */
  predicate Eligible(r: Record, watermark: int, thaw: nat) {
    r.ok && r.terminal && r.lastTs < watermark - thaw * HOUR
  }

  /** The last frozen task that lists the id, |frozen| if none does. */
  function Holder(frozen: seq<Record>, id: string): (k: nat)
    ensures k <= |frozen| && (k < |frozen| ==> id in frozen[k].ids)
    ensures forall i :: 0 <= i < |frozen| && id in frozen[i].ids ==> i <= k < |frozen|
  {
    if frozen == [] then 0 else
      var k := Holder(frozen[1..], id);
      if k < |frozen| - 1 then k + 1 else if id in frozen[0].ids then 0 else |frozen|
  }

  ghost predicate Reopens(frozen: seq<Record>, fresh': seq<Event>, i: nat) {
    i < |frozen| && exists e :: e in fresh' && Holder(frozen, e.parent) == i
  }

  method ReopenedIndexes(frozen: seq<Record>, fresh': seq<Event>) returns (reopened: set<nat>)
    ensures forall i :: i in reopened <==> Reopens(frozen, fresh', i)
  {
    reopened := {};
    for k := 0 to |fresh'|
      invariant forall i :: i in reopened <==> Reopens(frozen, fresh'[..k], i)
    {
      var h := Holder(frozen, fresh'[k].parent);
      assert fresh'[..k + 1] == fresh'[..k] + [fresh'[k]];
      forall i: nat ensures Reopens(frozen, fresh'[..k + 1], i) <==> Reopens(frozen, fresh'[..k], i) || (i == h < |frozen|) {
        if i == h < |frozen| {
          assert fresh'[k] in fresh'[..k + 1];
        }
      }
      if h < |frozen| {
        reopened := reopened + {h};
      }
    }
    assert fresh'[..|fresh'|] == fresh';
  }

  method HardFrozenIndexes(frozen: seq<Record>, watermark: int, thaw: nat, reopened: set<nat>) returns (hard: set<nat>)
    ensures forall i: nat :: i in hard <==> i < |frozen| && i !in reopened && Eligible(frozen[i], watermark, thaw)
  {
    hard := {};
    for k := 0 to |frozen|
      invariant forall i: nat :: i in hard <==> i < k && i !in reopened && Eligible(frozen[i], watermark, thaw)
    {
      if k !in reopened && Eligible(frozen[k], watermark, thaw) {
        hard := hard + {k};
      }
    }
  }

  function Carried(frozen: seq<Record>, hard: set<nat>, n: nat): seq<Record>
    requires n <= |frozen|
  {
    if n == 0 then [] else Carried(frozen, hard, n - 1) + (if n - 1 in hard then [frozen[n - 1]] else [])
  }

  function Thawed(frozen: seq<Record>, hard: set<nat>, n: nat): seq<Event>
    requires n <= |frozen|
  {
    if n == 0 then [] else Thawed(frozen, hard, n - 1) + (if n - 1 in hard then [] else frozen[n - 1].events)
  }

  /** The frozen events are those of the tasks carried over and those thawed. */
  ghost predicate Splits(c: seq<Record>, t: seq<Event>, frozen: seq<Record>) {
    multiset(Flat(EventsOf(c))) + multiset(t) == multiset(Flat(EventsOf(frozen)))
  }

  lemma {:induction false} ThawSplits(frozen: seq<Record>, hard: set<nat>, n: nat)
    requires n <= |frozen|
    ensures Splits(Carried(frozen, hard, n), Thawed(frozen, hard, n), frozen[..n])
  {
    hide Splits;
    if n == 0 {
      ThawNone();
      assert frozen[..0] == [];
    } else {
      ThawSplits(frozen, hard, n - 1);
      ThawOne(frozen, hard, n - 1, Carried(frozen, hard, n - 1), Thawed(frozen, hard, n - 1));
    }
  }

  lemma {:induction false} ThawNone()
    ensures Splits([], [], [])
  {
    NoEvents();
  }

  lemma {:induction false} ThawOne(frozen: seq<Record>, hard: set<nat>, n: nat, c: seq<Record>, t: seq<Event>)
    requires n < |frozen|
    requires Splits(c, t, frozen[..n])
    ensures Splits(c + (if n in hard then [frozen[n]] else []), t + (if n in hard then [] else frozen[n].events), frozen[..n + 1])
  {
    hide Flat, EventsOf;
    var r := frozen[n];
    assert frozen[..n + 1] == frozen[..n] + [r];
    SnocEvents(frozen[..n], r);
    AddTo(Flat(EventsOf(c)), t, Flat(EventsOf(frozen[..n])), r.events);
    if n in hard {
      SnocEvents(c, r);
      assert t + [] == t;
    } else {
      assert c + [] == c;
    }
  }

  /** Adding the same events to the whole and to either part. */
  lemma {:induction false} AddTo(a: seq<Event>, b: seq<Event>, whole: seq<Event>, r: seq<Event>)
    requires multiset(a) + multiset(b) == multiset(whole)
    ensures multiset(a + r) + multiset(b) == multiset(whole + r)
    ensures multiset(a) + multiset(b + r) == multiset(whole + r)
  {
  }

  lemma {:induction false} NoEvents()
    ensures Flat(EventsOf([])) == []
  {
  }

  lemma {:induction false} SnocEvents(records: seq<Record>, r: Record)
    ensures Flat(EventsOf(records + [r])) == Flat(EventsOf(records)) + r.events
  {
    assert EventsOf(records + [r]) == EventsOf(records) + [r.events];
    FlatSnoc(EventsOf(records), r.events);
  }

  lemma {:induction false} CarriedMembers(frozen: seq<Record>, hard: set<nat>, n: nat)
    requires n <= |frozen|
    ensures forall r :: r in Carried(frozen, hard, n) <==> exists i: nat :: i < n && i in hard && frozen[i] == r
  {
    if n > 0 {
      CarriedMembers(frozen, hard, n - 1);
    }
  }

  // ---- de-duplication ---------------------------------------------------------------------------

  /** No later event has the same id. */
  ghost predicate LastGiven(evs: seq<Event>, e: Event) {
    exists k :: 0 <= k < |evs| && evs[k] == e && forall j :: k < j < |evs| ==> evs[j].id != e.id
  }

  /** One event per id, the last one given, in time order. */
  ghost predicate Deduped(evs: seq<Event>, out: seq<Event>) {
    && DistinctIds(out) && SortedBy(out, ByTs)
    && (forall e :: e in out ==> e in evs && LastGiven(evs, e))
    && (forall e :: e in evs ==> exists o :: o in out && o.id == e.id)
  }

  method Dedup(evs: seq<Event>) returns (out: seq<Event>)
    requires forall e :: e in evs ==> e.id != ""
    ensures Deduped(evs, out)
  {
    hide SortedBy, SortBy, LastGiven;
    var latest := LatestById(evs);
    out := SortBy(latest, ByTs);
    SortSorts(latest, ByTs);
    SortMembers(latest, ByTs);
    DistinctPermuted(out, latest);
  }

  /** One event per id, the last one given. */
  ghost predicate Latests(evs: seq<Event>, out: seq<Event>) {
    && DistinctIds(out)
    && (forall e :: e in out ==> e in evs && LastGiven(evs, e))
    && (forall e :: e in evs ==> exists o :: o in out && o.id == e.id)
  }

  /** Where each id's event is. */
  ghost predicate Slots(out: seq<Event>, slot: map<string, nat>) {
    && (forall x :: x in slot ==> slot[x] < |out| && out[slot[x]].id == x)
    && (forall i :: 0 <= i < |out| ==> out[i].id in slot)
  }

  /** A dictionary from ids to events, in the order ids are first met. */
  method LatestById(evs: seq<Event>) returns (out: seq<Event>)
    requires forall e :: e in evs ==> e.id != ""
    ensures Latests(evs, out)
  {
    hide Latests;
    out := [];
    var slot: map<string, nat> := map[];
    NoLatests();
    assert evs[..0] == [];
    for k := 0 to |evs|
      invariant Latests(evs[..k], out) && Slots(out, slot)
    {
      var e := evs[k];
      assert e in evs && evs[..k + 1] == evs[..k] + [e];
      if e.id in slot {
        ReplaceLatest(evs[..k], out, e, slot[e.id]);
        out := out[slot[e.id] := e];
      } else {
        AppendLatest(evs[..k], out, e);
        slot := slot[e.id := |out|];
        out := out + [e];
      }
    }
    assert evs[..|evs|] == evs;
  }

  lemma {:induction false} NoLatests()
    ensures Latests([], [])
  {
  }

  lemma {:induction false} ReplaceLatest(evs: seq<Event>, out: seq<Event>, e: Event, i: nat)
    requires Latests(evs, out) && i < |out| && out[i].id == e.id && e.id != ""
    ensures Latests(evs + [e], out[i := e])
  {
    hide LastGiven;
    var more, out' := evs + [e], out[i := e];
    JustGiven(evs, e);
    assert DistinctIds(out') by { ReplaceKeepsIds(out, e, i); }
    forall k | 0 <= k < |out'| ensures out'[k] in more && LastGiven(more, out'[k]) {
      if k != i {
        assert out[k] in out && out[k].id != e.id;
        StillLast(evs, out[k], e);
      }
    }
    forall x | x in more ensures exists o :: o in out' && o.id == x.id {
      if x.id == e.id {
        assert out'[i] in out';
      } else {
        var o :| o in out && o.id == x.id;
        var k :| 0 <= k < |out| && out[k] == o;
        assert out'[k] == o;
      }
    }
  }

  lemma {:induction false} ReplaceKeepsIds(out: seq<Event>, e: Event, i: nat)
    requires DistinctIds(out) && i < |out| && out[i].id == e.id
    ensures DistinctIds(out[i := e])
  {
  }

  lemma {:induction false} AppendLatest(evs: seq<Event>, out: seq<Event>, e: Event)
    requires Latests(evs, out) && e.id != "" && forall i :: 0 <= i < |out| ==> out[i].id != e.id
    ensures Latests(evs + [e], out + [e])
  {
    hide LastGiven;
    JustGiven(evs, e);
    forall o | o in out ensures LastGiven(evs + [e], o) {
      StillLast(evs, o, e);
    }
    forall x | x in evs + [e] ensures exists o :: o in out + [e] && o.id == x.id {
      if x in evs {
        var o :| o in out && o.id == x.id;
        assert o in out + [e];
      } else {
        assert e in out + [e];
      }
    }
  }

  lemma {:induction false} StillLast(evs: seq<Event>, o: Event, e: Event)
    requires LastGiven(evs, o) && o.id != e.id
    ensures LastGiven(evs + [e], o)
  {
    var k :| 0 <= k < |evs| && evs[k] == o && forall j :: k < j < |evs| ==> evs[j].id != o.id;
    assert (evs + [e])[k] == o;
  }

  lemma {:induction false} JustGiven(evs: seq<Event>, e: Event)
    ensures LastGiven(evs + [e], e)
  {
    assert (evs + [e])[|evs|] == e;
  }

  // ---- segmenting the active part ---------------------------------------------------------------

  /** Every active event that is not noise is in the clusters, each event once. */
  ghost predicate Resegmented(active: seq<Event>, clusters: seq<seq<Event>>, dropped: seq<Event>) {
    && multiset(Flat(clusters)) + multiset(dropped) == multiset(active)
    && (forall e :: e in dropped ==> e.noise)
    && (forall i :: 0 <= i < |clusters| ==> clusters[i] != [])
  }

  method Titled(cs: seq<Cluster>, anchors: seq<Anchor>) returns (r: seq<Cluster>)
    ensures RowsOf(r) == RowsOf(cs)
    ensures |r| == |cs| && forall i :: 0 <= i < |cs| ==> r[i] == cs[i].(title := r[i].title)
    ensures var ids := Map((c: Cluster) => IdsOf(c.rows), cs); var titles := Map((c: Cluster) => c.title, cs);
            forall i :: 0 <= i < |cs| ==> r[i].title == Retitled(titles, ids, anchors, i)
  {
    hide Retitled;
    var ids := Map((c: Cluster) => IdsOf(c.rows), cs);
    var titles := new string[|cs|](i requires 0 <= i < |cs| => cs[i].title);
    assert titles[..] == Map((c: Cluster) => c.title, cs);
    var _ := CarryForward(ids, titles, anchors);
    var now := titles[..];
    r := seq(|cs|, i requires 0 <= i < |cs| => cs[i].(title := now[i]));
    assert RowsOf(r) == RowsOf(cs);
  }

  /** How a segmentation came about: the first pass, the atoms, their grouping before titles, and the noise left out. */
  datatype Trace = Trace(topics: seq<string>, segs: seq<Atomic.Segment>, at: seq<nat>, atoms: seq<seq<Event>>, plain: seq<Cluster>, dropped: seq<Event>)

  /** The clusters are the atoms of the events in time order, grouped as the answer says, with titles carried over by the rule. */
  ghost predicate Segmentation(events: seq<Event>, sim: Atomic.Similarity, answer: Answer, anchors: seq<Anchor>, cs: seq<Cluster>, t: Trace) {
    && Atomized(SortBy(events, ByTs), sim, t)
    && Assembled(SortBy(answer.tasks, ByLeast), t.atoms, t.plain)
    && Resegmented(events, RowsOf(cs), t.dropped)
    && |t.plain| == |cs| && forall i :: 0 <= i < |cs| ==> CarriesTitle(t.plain[i], cs[i], anchors)
  }

  ghost predicate Atomized(sorted: seq<Event>, sim: Atomic.Similarity, t: Trace) {
    && Atomic.FirstPass(sorted, t.topics, t.segs, t.at) && Atomic.Atoms(sorted, t.segs, t.at, sim, t.atoms)
    && (forall a :: a in t.atoms ==> a != [] && SortedBy(a, ByTs)) && SortedBy(t.atoms, Atomic.ByFirstTs)
  }

  method SegmentEvents(events: seq<Event>, sim: Atomic.Similarity, answer: Answer, anchors: seq<Anchor>) returns (cs: seq<Cluster>)
    requires DistinctIds(events)
    ensures exists t :: Segmentation(events, sim, answer, anchors, cs, t)
  {
    hide SortBy, SortedBy, Assembled, Flat, Retitled, DistinctIds, CarriesTitle, Atomic.FirstPass, Atomic.Atoms;
    var sorted := SortBy(events, ByTs);
    SortSorts(events, ByTs);
    DistinctPermuted(sorted, events);
    var atoms;
    ghost var eff, segs, at, dropped;
    atoms, eff, segs, at, dropped := Atomic.AtomicSegments(sorted, sim);
    var clusters := AssembleClusters(atoms, answer.tasks);
    AssembledConserves(SortBy(answer.tasks, ByLeast), atoms, clusters);
    cs := Titled(clusters, anchors);
    forall i | 0 <= i < |cs| ensures RowsOf(cs)[i] != [] {
      assert clusters[i] in clusters && RowsOf(clusters)[i] == clusters[i].rows;
    }
    DistinctPermuted(Flat(RowsOf(clusters)), events);
    forall i | 0 <= i < |cs| ensures CarriesTitle(clusters[i], cs[i], anchors) {
      TitleByRule(clusters, cs, anchors, i);
    }
    assert Segmentation(events, sim, answer, anchors, cs, Trace(eff, segs, at, atoms, clusters, dropped));
  }

  /** Only the title changed: to that of the first best-contained old task, if it is contained well enough. */
  ghost predicate CarriesTitle(before: Cluster, after: Cluster, anchors: seq<Anchor>) {
    var j := Choice(IdsOf(before.rows), anchors, {}, THRESHOLD);
    after == if 0 <= j < |anchors| then before.(title := anchors[j].title) else before
  }

  lemma {:induction false} TitleByRule(plain: seq<Cluster>, cs: seq<Cluster>, anchors: seq<Anchor>, i: nat)
    requires DistinctIds(Flat(RowsOf(plain))) && |plain| == |cs| && i < |cs|
    requires forall k :: 0 <= k < |cs| ==> cs[k] == plain[k].(title := cs[k].title)
    requires var ids := Map((c: Cluster) => IdsOf(c.rows), plain); var titles := Map((c: Cluster) => c.title, plain);
             cs[i].title == Retitled(titles, ids, anchors, i)
    ensures CarriesTitle(plain[i], cs[i], anchors)
  {
    hide Choice, Used;
    var ids := Map((c: Cluster) => IdsOf(c.rows), plain);
    forall a, b | 0 <= a < b < |ids| ensures ids[a] !! ids[b] {
      forall x | x in ids[a] && x in ids[b] ensures false {
        var e :| e in plain[a].rows && e.id == x;
        var f :| f in plain[b].rows && f.id == x;
        DistinctBoxes(RowsOf(plain), a, b, e, f);
      }
    }
    GreedyIsRule(ids, anchors, THRESHOLD, i);
  }

  /** Ids that are distinct overall are distinct across boxes. */
  lemma {:induction false} DistinctBoxes(boxes: seq<seq<Event>>, a: nat, b: nat, e: Event, f: Event)
    requires DistinctIds(Flat(boxes)) && a < b < |boxes| && e in boxes[a] && f in boxes[b]
    ensures e.id != f.id
  {
    hide DistinctIds;
    FlatAppend(boxes[..b], boxes[b..]);
    assert boxes == boxes[..b] + boxes[b..];
    assert boxes[..b][a] == boxes[a] && boxes[a] in boxes[..b];
    FlatMembers(boxes[..b], e);
    assert boxes[b..][0] == boxes[b] && boxes[b] in boxes[b..];
    FlatMembers(boxes[b..], f);
    DistinctAcross(Flat(boxes[..b]), Flat(boxes[b..]), e, f);
  }

  lemma {:induction false} AssembledConserves(tasks: seq<Task>, atoms: seq<seq<Event>>, cs: seq<Cluster>)
    requires Assembled(tasks, atoms, cs)
    ensures multiset(Flat(RowsOf(cs))) == multiset(Flat(atoms))
  {
  }

  // ---- identities of events ---------------------------------------------------------------------

  /** Leaving events out, or reordering them, keeps ids distinct. */
  lemma {:induction false} DistinctPermuted(a: seq<Event>, b: seq<Event>)
    requires multiset(a) <= multiset(b) && DistinctIds(b)
    ensures DistinctIds(a)
  {
    forall i | 0 <= i < |a| ensures a[i] in b {
      assert a[i] in multiset(a);
    }
    forall i, j | 0 <= i < j < |a| ensures a[i].id != a[j].id {
      if a[i].id == a[j].id {
        SameId(b, a[i], a[j]);
        Twice(a, i, j);
        Once(b, a[i]);
        assert false;
      }
    }
  }

  lemma {:induction false} SameId(b: seq<Event>, x: Event, y: Event)
    requires DistinctIds(b) && x in b && y in b && x.id == y.id
    ensures x == y
  {
  }

  lemma {:induction false} Twice(a: seq<Event>, i: nat, j: nat)
    requires i < j < |a| && a[i] == a[j]
    ensures multiset(a)[a[i]] >= 2
  {
    assert a == a[..i + 1] + a[i + 1..];
    assert a[i] in a[..i + 1] && a[j] in a[i + 1..];
  }

  lemma {:induction false} Once(b: seq<Event>, x: Event)
    requires DistinctIds(b)
    ensures multiset(b)[x] <= 1
  {
    if b != [] {
      var rest := b[1..];
      assert b == [b[0]] + rest;
      if x == b[0] {
        assert x !in rest;
      } else {
        assert DistinctIds(rest) by {
          forall i, j | 0 <= i < j < |rest| ensures rest[i].id != rest[j].id {
            assert b[i + 1].id != b[j + 1].id;
          }
        }
        Once(rest, x);
      }
    }
  }

  lemma {:induction false} DistinctJoined(a: seq<Event>, b: seq<Event>)
    requires DistinctIds(a) && DistinctIds(b)
    requires forall x, y :: x in a && y in b ==> x.id != y.id
    ensures DistinctIds(a + b)
  {
    forall i, j | 0 <= i < j < |a + b| ensures (a + b)[i].id != (a + b)[j].id {
      if i < |a| <= j {
        assert a[i] in a && b[j - |a|] in b;
      }
    }
  }

  lemma {:induction false} DistinctAcross(a: seq<Event>, b: seq<Event>, x: Event, y: Event)
    requires DistinctIds(a + b) && x in a && y in b
    ensures x.id != y.id
  {
    var i :| 0 <= i < |a| && a[i] == x;
    var j :| 0 <= j < |b| && b[j] == y;
    assert (a + b)[i] == x && (a + b)[|a| + j] == y;
  }

  // ---- putting clusters away --------------------------------------------------------------------

  function RecordOf(c: Cluster, answer: Answer, i: nat): Record {
    Record(c.title, IdsOf(c.rows), LastTs(c.rows), true,
           if i < |answer.ok| then answer.ok[i] else true,
           if i < |answer.details| then answer.details[i] else "", c.rows)
  }

  /** The records of the terminal clusters among the first n. */
  function Records(cs: seq<Cluster>, terminal: seq<bool>, answer: Answer, n: nat): seq<Record>
    requires n <= |cs| == |terminal|
  {
    if n == 0 then [] else
      Records(cs, terminal, answer, n - 1) + (if terminal[n - 1] then [RecordOf(cs[n - 1], answer, n - 1)] else [])
  }

  /** The tail after the first n clusters: every cluster still in flight overwrites it. */
  function TailOf(cs: seq<Cluster>, terminal: seq<bool>, n: nat): seq<Event>
    requires n <= |cs| == |terminal|
  {
    if n == 0 then [] else if terminal[n - 1] then TailOf(cs, terminal, n - 1) else cs[n - 1].rows
  }

  ghost predicate OneInFlight(terminal: seq<bool>) {
    forall i, j :: 0 <= i < j < |terminal| ==> terminal[i] || terminal[j]
  }

  /** With one cluster in flight at most, overwriting the tail loses nothing. */
  lemma {:induction false} PutAway(cs: seq<Cluster>, terminal: seq<bool>, answer: Answer, n: nat)
    requires n <= |cs| == |terminal| && OneInFlight(terminal)
    ensures multiset(Flat(EventsOf(Records(cs, terminal, answer, n)))) + multiset(TailOf(cs, terminal, n))
         == multiset(Flat(RowsOf(cs[..n])))
    ensures (forall i :: 0 <= i < n ==> terminal[i]) ==> TailOf(cs, terminal, n) == []
  {
    hide Flat, EventsOf, RowsOf;
    if n == 0 {
      NoEvents();
      NoRows();
      assert cs[..0] == [];
    } else {
      PutAway(cs, terminal, answer, n - 1);
      assert cs[..n] == cs[..n - 1] + [cs[n - 1]];
      SnocRows(cs[..n - 1], cs[n - 1]);
      var records, tail := Records(cs, terminal, answer, n - 1), TailOf(cs, terminal, n - 1);
      AddTo(Flat(EventsOf(records)), tail, Flat(RowsOf(cs[..n - 1])), cs[n - 1].rows);
      if terminal[n - 1] {
        SnocEvents(records, RecordOf(cs[n - 1], answer, n - 1));
      } else {
        assert records + [] == records && tail == [] && [] + cs[n - 1].rows == cs[n - 1].rows;
      }
    }
  }

  lemma {:induction false} NoRows()
    ensures Flat(RowsOf([])) == []
  {
  }

  lemma {:induction false} SnocRows(cs: seq<Cluster>, c: Cluster)
    ensures Flat(RowsOf(cs + [c])) == Flat(RowsOf(cs)) + c.rows
  {
    assert RowsOf(cs + [c]) == RowsOf(cs) + [c.rows];
    FlatSnoc(RowsOf(cs), c.rows);
  }

  /** The record of cluster c, the i-th: its title, its events, their ids and latest time, and what was answered for it. */
  ghost predicate Files(r: Record, c: Cluster, answer: Answer, i: nat) {
    && r.title == c.title && r.events == c.rows && r.terminal
    && (forall id :: id in r.ids <==> id != "" && exists e :: e in c.rows && e.id == id)
    && (c.rows != [] ==> (exists e :: e in c.rows && e.ts == r.lastTs) && forall e :: e in c.rows ==> e.ts <= r.lastTs)
    && r.ok == (i < |answer.ok| ==> answer.ok[i])
    && (i < |answer.details| ==> r.details == answer.details[i]) && (i >= |answer.details| ==> r.details == "")
  }

  /** Of the first n clusters, idx are the finished ones, in order. */
  ghost predicate FinishedOnes(terminal: seq<bool>, n: nat, idx: seq<nat>) {
    && n <= |terminal| && (forall j, k :: 0 <= j < k < |idx| ==> idx[j] < idx[k])
    && (forall i: nat :: i in idx <==> i < n && terminal[i])
  }

  /** One record per finished cluster, in order. */
  lemma {:induction false} RecordsFiled(cs: seq<Cluster>, terminal: seq<bool>, answer: Answer, n: nat) returns (idx: seq<nat>)
    requires n <= |cs| == |terminal|
    ensures FinishedOnes(terminal, n, idx) && |Records(cs, terminal, answer, n)| == |idx|
    ensures forall k :: 0 <= k < |idx| ==> idx[k] < |cs| && Files(Records(cs, terminal, answer, n)[k], cs[idx[k]], answer, idx[k])
  {
    hide Files, FinishedOnes, RecordOf;
    idx := [];
    if n > 0 {
      var before := RecordsFiled(cs, terminal, answer, n - 1);
      FinishedNext(terminal, n - 1, before);
      RecordFiles(cs[n - 1], answer, n - 1);
      idx := if terminal[n - 1] then before + [n - 1] else before;
    } else {
      NoneFinished(terminal);
    }
  }

  lemma {:induction false} NoneFinished(terminal: seq<bool>)
    ensures FinishedOnes(terminal, 0, [])
  {
  }

  lemma {:induction false} FinishedNext(terminal: seq<bool>, n: nat, idx: seq<nat>)
    requires FinishedOnes(terminal, n, idx) && n < |terminal|
    ensures FinishedOnes(terminal, n + 1, if terminal[n] then idx + [n] else idx)
  {
    assert forall k :: 0 <= k < |idx| ==> idx[k] in idx;
  }

  lemma {:induction false} RecordFiles(c: Cluster, answer: Answer, i: nat)
    ensures Files(RecordOf(c, answer, i), c, answer, i)
  {
    LastTsBounds(c.rows);
  }

  /** The tail is the cluster in flight, with its title; without one there is none. */
  lemma {:induction false} TailIs(cs: seq<Cluster>, terminal: seq<bool>, n: nat, i: nat)
    requires n <= |cs| == |terminal| && OneInFlight(terminal)
    ensures i < n && !terminal[i] ==> TailOf(cs, terminal, n) == cs[i].rows && TailTitle(cs, terminal, n) == cs[i].title
    ensures (forall k :: 0 <= k < n ==> terminal[k]) ==> TailOf(cs, terminal, n) == [] && TailTitle(cs, terminal, n) == ""
  {
    if n > 0 {
      TailIs(cs, terminal, n - 1, i);
    }
  }

  // ---- one increment ----------------------------------------------------------------------------

  /** What one increment worked on. */
  datatype Work = Work(hard: set<nat>, active: seq<Event>, clusters: seq<Cluster>, dropped: seq<Event>, terminal: seq<bool>, answer: Answer)

  ghost predicate Segmented(w: Work) {
    && Resegmented(w.active, RowsOf(w.clusters), w.dropped)
    && |w.terminal| == |w.clusters| && OneInFlight(w.terminal)
  }

  /** Which clusters are finished: all but the one touched last, and that one if its last word closes it. */
  ghost predicate Finished(w: Work) {
    && |w.terminal| == |w.clusters| && (forall i :: 0 <= i < |w.clusters| ==> RowsOf(w.clusters)[i] != [])
    && forall i: nat :: i < |w.terminal| ==> (w.terminal[i] <==> !Latest(RowsOf(w.clusters), i) || Resolved(RowsOf(w.clusters)[i]))
  }

  /** The work follows the answer: atoms grouped by it, titles carried over from `prior`, clusters finished by the rule. */
  ghost predicate ByAnswer(w: Work, sim: Atomic.Similarity, prior: seq<Anchor>) {
    && (exists t: Trace :: t.dropped == w.dropped && Segmentation(w.active, sim, w.answer, prior, w.clusters, t))
    && Finished(w)
  }

  function Put(w: Work): seq<Record>
    requires |w.terminal| == |w.clusters|
  {
    Records(w.clusters, w.terminal, w.answer, |w.clusters|)
  }

  function Tail(w: Work): seq<Event>
    requires |w.terminal| == |w.clusters|
  {
    TailOf(w.clusters, w.terminal, |w.clusters|)
  }

  /** The first run: everything fetched is segmented. */
  ghost predicate Starts(fetched: seq<Event>, s: State, w: Work) {
    && Segmented(w) && w.active == fetched
    && s.frozen == Put(w) && s.tail == Tail(w) && s.watermark == LastTs(fetched)
  }

  /** A later run with something fetched. */
  ghost predicate Follows(s: State, fetched: seq<Event>, thaw: nat, s': State, w: Work) {
    && Segmented(w)
    && (forall i: nat :: i in w.hard <==> i < |s.frozen| && !Reopens(s.frozen, fetched, i) && Eligible(s.frozen[i], s.watermark, thaw))
    && Deduped(Thawed(s.frozen, w.hard, |s.frozen|) + s.tail + fetched, w.active)
    && s'.frozen == Carried(s.frozen, w.hard, |s.frozen|) + Put(w)
    && s'.tail == Tail(w)
    && s'.watermark == if LastTs(fetched) > s.watermark then LastTs(fetched) else s.watermark
  }

  // ---- the invariant ----------------------------------------------------------------------------

  ghost predicate IdFixesEvent(all: set<Event>) {
    forall e, f :: e in all && f in all && e.id == f.id ==> e == f
  }

  ghost predicate Faithful(r: Record) {
    r.ids == IdsOf(r.events) && r.lastTs == LastTs(r.events) && r.events != []
  }

  /** No event is in two places, and nothing fetched is missing but noise. */
  ghost predicate Conserves(s: State, all: set<Event>) {
    && DistinctIds(Places(s))
    && (forall e :: e in Places(s) ==> e in all)
    && (forall e :: e in all && !e.noise ==> e in Places(s))
  }

  ghost predicate Inv(s: State, all: set<Event>) {
    && Conserves(s, all)
    && IdFixesEvent(all)
    && (forall e :: e in all ==> e.ts <= s.watermark)
    && (forall r :: r in s.frozen ==> Faithful(r))
  }

  /** What Segmented says of the new places, apart from what was carried over. */
  lemma {:induction false} WorkPlaces(w: Work)
    requires Segmented(w)
    ensures multiset(Flat(EventsOf(Put(w))) + Tail(w)) + multiset(w.dropped) == multiset(w.active)
    ensures forall e :: e in w.active && !e.noise ==> e in Flat(EventsOf(Put(w))) + Tail(w)
  {
    hide Flat, EventsOf, RowsOf, Records, TailOf;
    PutAway(w.clusters, w.terminal, w.answer, |w.clusters|);
    assert w.clusters[..|w.clusters|] == w.clusters;
    var out := Flat(EventsOf(Put(w))) + Tail(w);
    forall e | e in w.active && !e.noise ensures e in out {
      assert e in multiset(w.active);
      assert e !in multiset(w.dropped);
      assert e in multiset(out);
    }
  }

  lemma {:induction false} PutFaithful(cs: seq<Cluster>, terminal: seq<bool>, answer: Answer, n: nat)
    requires n <= |cs| == |terminal| && forall i :: 0 <= i < n ==> cs[i].rows != []
    ensures forall r :: r in Records(cs, terminal, answer, n) ==> Faithful(r) && r.terminal
  {
    if n > 0 {
      PutFaithful(cs, terminal, answer, n - 1);
    }
  }

  lemma {:induction false} LastTsBounds(evs: seq<Event>)
    ensures forall e :: e in evs ==> e.ts <= LastTs(evs)
    ensures if evs == [] then LastTs(evs) == 0 else exists e :: e in evs && e.ts == LastTs(evs)
  {
    if evs != [] {
      MaxTsIsMax(evs);
    }
  }

  ghost function AsSet(evs: seq<Event>): set<Event> {
    set e | e in evs
  }

  /** The first run establishes the invariant. */
  lemma {:induction false} StartKeeps(fetched: seq<Event>, s: State, w: Work)
    requires Starts(fetched, s, w) && DistinctIds(fetched)
    ensures Inv(s, AsSet(fetched))
  {
    hide Flat, EventsOf, Records, TailOf, Faithful;
    WorkPlaces(w);
    DistinctPermuted(Places(s), fetched);
    forall e | e in Places(s) ensures e in fetched {
      assert e in multiset(Places(s));
    }
    LastTsBounds(fetched);
    forall i | 0 <= i < |w.clusters| ensures w.clusters[i].rows != [] {
      assert RowsOf(w.clusters)[i] == w.clusters[i].rows;
    }
    PutFaithful(w.clusters, w.terminal, w.answer, |w.clusters|);
    forall e, f | e in fetched && f in fetched && e.id == f.id ensures e == f {
      SameId(fetched, e, f);
    }
  }

  /** The events of the tasks carried over unchanged. */
  function HardEvents(s: State, hard: set<nat>): seq<Event> {
    Flat(EventsOf(Carried(s.frozen, hard, |s.frozen|)))
  }

  /** Nothing fetched again belongs to a task that is carried over. */
  ghost predicate NoRefetch(s: State, fetched: seq<Event>, hard: set<nat>) {
    forall e :: e in fetched ==> e !in HardEvents(s, hard)
  }

  lemma {:induction false} PlacesSplit(s: State, hard: set<nat>)
    ensures multiset(HardEvents(s, hard) + (Thawed(s.frozen, hard, |s.frozen|) + s.tail)) == multiset(Places(s))
  {
    hide Flat, EventsOf, Carried, Thawed;
    ThawSplits(s.frozen, hard, |s.frozen|);
    assert s.frozen[..|s.frozen|] == s.frozen;
  }

  lemma {:induction false} NewPlaces(s: State, fetched: seq<Event>, thaw: nat, s': State, w: Work)
    requires Follows(s, fetched, thaw, s', w)
    ensures Places(s') == HardEvents(s, w.hard) + (Flat(EventsOf(Put(w))) + Tail(w))
  {
    hide Flat, Carried, Records, TailOf, Resegmented, OneInFlight, Deduped, Reopens;
    var c := Carried(s.frozen, w.hard, |s.frozen|);
    assert EventsOf(c + Put(w)) == EventsOf(c) + EventsOf(Put(w));
    FlatAppend(EventsOf(c), EventsOf(Put(w)));
  }

  /** Carried-over tasks and the active part share no id. */
  lemma {:induction false} HardApart(s: State, all: set<Event>, fetched: seq<Event>, w: Work)
    requires Inv(s, all) && IdFixesEvent(all + AsSet(fetched)) && NoRefetch(s, fetched, w.hard)
    requires Deduped(Thawed(s.frozen, w.hard, |s.frozen|) + s.tail + fetched, w.active)
    ensures DistinctIds(HardEvents(s, w.hard) + w.active)
    ensures forall e :: e in HardEvents(s, w.hard) ==> e in Places(s)
    ensures forall e :: e in w.active ==> e in Places(s) || e in fetched
    ensures forall e :: e in Places(s) || e in fetched ==> e in HardEvents(s, w.hard) || e in w.active
  {
    hide Flat, EventsOf, Carried, Thawed, Places, HardEvents, Faithful, Deduped, DistinctIds, IdFixesEvent;
    var a := Thawed(s.frozen, w.hard, |s.frozen|) + s.tail;
    HardVersusThawed(s, w.hard);
    HardVersusActive(HardEvents(s, w.hard), a, all, fetched, w.active);
  }

  lemma {:induction false} HardVersusThawed(s: State, hard: set<nat>)
    requires DistinctIds(Places(s))
    ensures var h := HardEvents(s, hard); var a := Thawed(s.frozen, hard, |s.frozen|) + s.tail;
            DistinctIds(h + a) && DistinctIds(h) && forall e :: e in Places(s) <==> e in h || e in a
  {
    hide Places, HardEvents, Thawed, DistinctIds;
    var h, a := HardEvents(s, hard), Thawed(s.frozen, hard, |s.frozen|) + s.tail;
    PlacesSplit(s, hard);
    SameElements(h + a, Places(s));
    DistinctPermuted(h + a, Places(s));
    DistinctPermuted(h, h + a);
  }

  lemma {:induction false} HardVersusActive(h: seq<Event>, a: seq<Event>, all: set<Event>, fetched: seq<Event>, active: seq<Event>)
    requires DistinctIds(h + a) && DistinctIds(h) && Deduped(a + fetched, active) && IdFixesEvent(all + AsSet(fetched))
    requires (forall e :: e in h ==> e in all && e !in fetched) && (forall e :: e in a ==> e in all)
    ensures DistinctIds(h + active)
    ensures forall e :: e in active ==> e in a || e in fetched
    ensures forall e :: e in a || e in fetched ==> e in active
  {
    hide DistinctIds, IdFixesEvent;
    forall x, y | x in h && y in active ensures x.id != y.id {
      assert y in a + fetched;
      if y in a {
        DistinctAcross(h, a, x, y);
      } else if x.id == y.id {
        SameEvent(all + AsSet(fetched), x, y);
      }
    }
    DistinctJoined(h, active);
    ActiveComplete(all, fetched, active, a);
  }

  lemma {:induction false} ActiveComplete(all: set<Event>, fetched: seq<Event>, active: seq<Event>, a: seq<Event>)
    requires IdFixesEvent(all + AsSet(fetched)) && (forall e :: e in a ==> e in all)
    requires Deduped(a + fetched, active)
    ensures forall e :: e in a || e in fetched ==> e in active
  {
    hide DistinctIds, IdFixesEvent;
    forall e | e in a || e in fetched ensures e in active {
      assert e in a + fetched;
      var o :| o in active && o.id == e.id;
      assert o in a + fetched;
      SameEvent(all + AsSet(fetched), e, o);
    }
  }

  lemma {:induction false} SameEvent(all: set<Event>, e: Event, f: Event)
    requires IdFixesEvent(all) && e in all && f in all && e.id == f.id
    ensures e == f
  {
  }

  /** An increment keeps the invariant when it does not fetch carried-over events again. */
  lemma {:induction false} FollowKeeps(s: State, all: set<Event>, fetched: seq<Event>, thaw: nat, s': State, w: Work)
    requires Inv(s, all) && Follows(s, fetched, thaw, s', w)
    requires IdFixesEvent(all + AsSet(fetched)) && NoRefetch(s, fetched, w.hard)
    ensures Inv(s', all + AsSet(fetched))
  {
    FollowConserves(s, all, fetched, thaw, s', w);
    FollowFaithful(s, fetched, thaw, s', w);
    LastTsBounds(fetched);
  }

  lemma {:induction false} FollowConserves(s: State, all: set<Event>, fetched: seq<Event>, thaw: nat, s': State, w: Work)
    requires Inv(s, all) && Follows(s, fetched, thaw, s', w)
    requires IdFixesEvent(all + AsSet(fetched)) && NoRefetch(s, fetched, w.hard)
    ensures Conserves(s', all + AsSet(fetched))
  {
    hide Flat, EventsOf, Carried, Thawed, HardEvents, Put, Tail, Places, Faithful, Reopens, Eligible, DistinctIds;
    hide IdFixesEvent, NoRefetch, Deduped, Resegmented, OneInFlight;
    var h, out := HardEvents(s, w.hard), Flat(EventsOf(Put(w))) + Tail(w);
    HardApart(s, all, fetched, w);
    NewPlaces(s, fetched, thaw, s', w);
    WorkPlaces(w);
    SubEvents(out, w.active);
    DistinctPermuted(h + out, h + w.active);
    assert Places(s') == h + out;
    assert forall e :: e in h + out <==> e in h || e in out;
  }

  lemma {:induction false} SubEvents(a: seq<Event>, b: seq<Event>)
    requires multiset(a) <= multiset(b)
    ensures forall e :: e in a ==> e in b
  {
    forall e | e in a ensures e in b {
      assert e in multiset(a);
    }
  }

  lemma {:induction false} FollowFaithful(s: State, fetched: seq<Event>, thaw: nat, s': State, w: Work)
    requires Follows(s, fetched, thaw, s', w) && forall r :: r in s.frozen ==> Faithful(r)
    ensures forall r :: r in s'.frozen ==> Faithful(r)
  {
    hide Faithful, Deduped, Eligible, Reopens;
    CarriedMembers(s.frozen, w.hard, |s.frozen|);
    forall i | 0 <= i < |w.clusters| ensures w.clusters[i].rows != [] {
      assert RowsOf(w.clusters)[i] == w.clusters[i].rows;
    }
    PutFaithful(w.clusters, w.terminal, w.answer, |w.clusters|);
  }

  /** Fetching a carried-over event again, unless it is noise, puts it in two places. */
  lemma {:induction false} RefetchDuplicates(s: State, all: set<Event>, fetched: seq<Event>, thaw: nat, s': State, w: Work, e: Event)
    requires Inv(s, all) && Follows(s, fetched, thaw, s', w) && IdFixesEvent(all + AsSet(fetched))
    requires e in fetched && e in HardEvents(s, w.hard) && !e.noise
    ensures !DistinctIds(Places(s'))
  {
    hide Flat, EventsOf, Carried, Thawed, HardEvents, Put, Tail, Places, Faithful, Reopens, Eligible, Deduped, IdFixesEvent, Resegmented, OneInFlight;
    var h, out := HardEvents(s, w.hard), Flat(EventsOf(Put(w))) + Tail(w);
    NewPlaces(s, fetched, thaw, s', w);
    WorkPlaces(w);
    PlacesSplit(s, w.hard);
    var a := Thawed(s.frozen, w.hard, |s.frozen|) + s.tail;
    SameElements(h + a, Places(s));
    assert forall x :: x in h || x in a ==> x in h + a;
    ActiveComplete(all, fetched, w.active, a);
    if DistinctIds(h + out) {
      DistinctAcross(h, out, e, e);
      assert false;
    }
  }

  // ---- live fetches -----------------------------------------------------------------------------

  /** The whole second that t is cut to: towards the epoch. */
  ghost predicate SecondOf(t: int, second: int) {
    second % 1000 == 0 && if t >= 0 then second <= t < second + 1000 else t <= second < t + 1000
  }

  /** Fetching starts at the watermark cut to whole seconds. */
  function FetchFrom(watermark: int): (second: int)
    ensures SecondOf(watermark, second)
  {
    if watermark >= 0 then watermark - watermark % 1000 else watermark + (-watermark) % 1000
  }

  ghost predicate Live(s: State, fetched: seq<Event>) {
    forall e :: e in fetched ==> e.ts >= FetchFrom(s.watermark)
  }

  /** A live fetch cannot reach into a task that has been quiet for an hour. */
  lemma {:induction false} LiveNeverRefetches(s: State, fetched: seq<Event>, thaw: nat, hard: set<nat>)
    requires Live(s, fetched) && thaw >= 1 && forall r :: r in s.frozen ==> Faithful(r)
    requires forall i: nat :: i in hard ==> i < |s.frozen| && Eligible(s.frozen[i], s.watermark, thaw)
    ensures NoRefetch(s, fetched, hard)
  {
    var c := Carried(s.frozen, hard, |s.frozen|);
    CarriedMembers(s.frozen, hard, |s.frozen|);
    forall e | e in HardEvents(s, hard) ensures e.ts < FetchFrom(s.watermark) {
      FlatMembers(EventsOf(c), e);
      var rows :| rows in EventsOf(c) && e in rows;
      var k :| 0 <= k < |c| && EventsOf(c)[k] == rows;
      var r := c[k];
      assert r in c;
      var i: nat :| i < |s.frozen| && i in hard && s.frozen[i] == r;
      assert r in s.frozen && Faithful(r) && Eligible(r, s.watermark, thaw);
      LastTsBounds(rows);
      assert e.ts <= r.lastTs < s.watermark - thaw * HOUR <= s.watermark - HOUR;
      FetchesRecent(s.watermark);
    }
  }

  lemma {:induction false} FetchesRecent(watermark: int)
    ensures watermark - 1000 < FetchFrom(watermark)
  {
  }

  // ---- whole runs -------------------------------------------------------------------------------

  datatype Round = Round(fetched: seq<Event>, thaw: nat, after: State, work: Work)

  /** Nothing fetched leaves the state alone. */
  ghost predicate Continues(s: State, r: Round) {
    if r.fetched == [] then r.after == s else Follows(s, r.fetched, r.thaw, r.after, r.work)
  }

  ghost predicate IsRun(rounds: seq<Round>) {
    && rounds != []
    && Starts(rounds[0].fetched, rounds[0].after, rounds[0].work)
    && forall k :: 0 < k < |rounds| ==> Continues(rounds[k - 1].after, rounds[k])
  }

  ghost predicate LiveRun(rounds: seq<Round>) {
    && rounds != []
    && DistinctIds(rounds[0].fetched)
    && forall k :: 0 < k < |rounds| ==> Live(rounds[k - 1].after, rounds[k].fetched) && rounds[k].thaw >= 1
  }

  ghost function EverFetched(rounds: seq<Round>): set<Event> {
    if rounds == [] then {} else EverFetched(rounds[..|rounds| - 1]) + AsSet(rounds[|rounds| - 1].fetched)
  }

  /** The invariant holds after every round of every live run, whatever the models answer. */
  lemma {:induction false} RunKeeps(rounds: seq<Round>)
    requires IsRun(rounds) && LiveRun(rounds) && IdFixesEvent(EverFetched(rounds))
    ensures Inv(rounds[|rounds| - 1].after, EverFetched(rounds))
  {
    hide Starts, Follows, Inv, Live;
    var n := |rounds| - 1;
    var last, before := rounds[n], rounds[..n];
    if n == 0 {
      StartKeeps(last.fetched, last.after, last.work);
      assert before == [] && EverFetched(rounds) == AsSet(last.fetched);
    } else {
      assert IsRun(before) && LiveRun(before);
      RunKeeps(before);
      var s := before[n - 1].after;
      assert Continues(s, last) && Live(s, last.fetched);
      if last.fetched == [] {
        assert EverFetched(rounds) == EverFetched(before);
      } else {
        RoundKeeps(s, EverFetched(before), last);
      }
    }
  }

  lemma {:induction false} RoundKeeps(s: State, all: set<Event>, r: Round)
    requires Inv(s, all) && Follows(s, r.fetched, r.thaw, r.after, r.work)
    requires Live(s, r.fetched) && r.thaw >= 1 && IdFixesEvent(all + AsSet(r.fetched))
    ensures Inv(r.after, all + AsSet(r.fetched))
  {
    hide Live, Eligible, Reopens, Conserves, IdFixesEvent, Segmented, Deduped;
    LiveNeverRefetches(s, r.fetched, r.thaw, r.work.hard);
    FollowKeeps(s, all, r.fetched, r.thaw, r.after, r.work);
  }

  /** Every place of a state, one box each: the frozen tasks, then the tail. */
  function Boxes(s: State): seq<seq<Event>> {
    EventsOf(s.frozen) + [s.tail]
  }

  /** The event is in one frozen task or the tail, and its id is nowhere else. */
  ghost predicate InOneBox(s: State, e: Event) {
    exists k :: 0 <= k < |Boxes(s)| && e in Boxes(s)[k] &&
      forall j, f :: 0 <= j < |Boxes(s)| && f in Boxes(s)[j] && f.id == e.id ==> j == k && f == e
  }

  /** Every event ever fetched that is not noise is in one box, and its id in no other. */
  lemma {:induction false} EachEventOnce(rounds: seq<Round>, e: Event)
    requires IsRun(rounds) && LiveRun(rounds) && IdFixesEvent(EverFetched(rounds))
    requires e in EverFetched(rounds) && !e.noise
    ensures InOneBox(rounds[|rounds| - 1].after, e)
  {
    hide IsRun, LiveRun, IdFixesEvent, DistinctIds;
    RunKeeps(rounds);
    var s := rounds[|rounds| - 1].after;
    var boxes := Boxes(s);
    FlatSnoc(EventsOf(s.frozen), s.tail);
    FlatMembers(boxes, e);
    var box :| box in boxes && e in box;
    var k :| 0 <= k < |boxes| && boxes[k] == box;
    forall j, f: Event | 0 <= j < |boxes| && f in boxes[j] && f.id == e.id ensures j == k && f == e {
      if j < k {
        DistinctBoxes(boxes, j, k, f, e);
      } else if k < j {
        DistinctBoxes(boxes, k, j, e, f);
      }
      assert boxes[j] in boxes;
      FlatMembers(boxes, f);
      SameId(Places(s), e, f);
    }
  }

  // ---- tasks that stay frozen -------------------------------------------------------------------

  ghost predicate RepliesTo(fetched: seq<Event>, r: Record) {
    exists e :: e in fetched && e.parent in r.ids
  }

  /** The task is finished, was decomposed, and its last message is more than `thaw` hours before the watermark. */
  ghost predicate Quiet(r: Record, watermark: int, thaw: nat) {
    r.ok && r.terminal && forall e :: e in r.events ==> e.ts + thaw * 60 * 60 * 1000 < watermark
  }

  lemma {:induction false} EligibleIff(r: Record, watermark: int, thaw: nat)
    requires Faithful(r)
    ensures Eligible(r, watermark, thaw) <==> Quiet(r, watermark, thaw)
  {
    hide IdsOf;
    LastTsBounds(r.events);
    assert thaw * 60 * 60 * 1000 == thaw * HOUR;
  }

  /** A frozen task is carried over exactly when it is quiet and nothing new replies to it. */
  lemma {:induction false} HardIff(s: State, all: set<Event>, fetched: seq<Event>, thaw: nat, s': State, w: Work, i: nat)
    requires Inv(s, all) && Follows(s, fetched, thaw, s', w) && i < |s.frozen|
    ensures i in w.hard <==> Quiet(s.frozen[i], s.watermark, thaw) && !RepliesTo(fetched, s.frozen[i])
  {
    hide Segmented, Deduped, Eligible, Carried, Records, IdFixesEvent, DistinctIds, Quiet, Faithful;
    assert s.frozen[i] in s.frozen;
    EligibleIff(s.frozen[i], s.watermark, thaw);
    if RepliesTo(fetched, s.frozen[i]) {
      var e :| e in fetched && e.parent in s.frozen[i].ids;
      SoleHolder(s, all, i, e.parent);
      assert Reopens(s.frozen, fetched, i);
    }
  }

  lemma {:induction false} SoleHolder(s: State, all: set<Event>, i: nat, id: string)
    requires Inv(s, all) && i < |s.frozen| && id in s.frozen[i].ids
    ensures Holder(s.frozen, id) == i
  {
    hide IdFixesEvent, DistinctIds, Holder;
    var k := Holder(s.frozen, id);
    assert s.frozen[i] in s.frozen && s.frozen[k] in s.frozen;
    if i < k {
      var e :| e in s.frozen[i].events && e.id == id;
      var f :| f in s.frozen[k].events && f.id == id;
      var boxes := EventsOf(s.frozen);
      DistinctPermuted(Flat(boxes), Places(s));
      DistinctBoxes(boxes, i, k, e, f);
    }
  }

  /** The watermark never falls, so a carried-over task stays eligible. */
  lemma {:induction false} StaysEligible(s: State, fetched: seq<Event>, thaw: nat, s': State, w: Work, r: Record)
    requires Follows(s, fetched, thaw, s', w) && r in s.frozen
    requires Eligible(r, s.watermark, thaw) && !RepliesTo(fetched, r)
    ensures r in s'.frozen && Eligible(r, s'.watermark, thaw)
  {
    hide Segmented, Deduped, Records;
    var i :| 0 <= i < |s.frozen| && s.frozen[i] == r;
    assert i in w.hard;
    CarriedMembers(s.frozen, w.hard, |s.frozen|);
  }

  /** Once eligible, a task's record survives unchanged through every later round until something replies to it. */
  lemma {:induction false} FrozenForGood(rounds: seq<Round>, k: nat, m: nat, thaw: nat, r: Record)
    requires IsRun(rounds) && k <= m < |rounds|
    requires r in rounds[k].after.frozen && Eligible(r, rounds[k].after.watermark, thaw)
    requires forall j :: k < j <= m ==> rounds[j].thaw == thaw && !RepliesTo(rounds[j].fetched, r)
    ensures r in rounds[m].after.frozen && Eligible(r, rounds[m].after.watermark, thaw)
    decreases m
  {
    hide Starts, Follows, Eligible, RepliesTo;
    if k < m {
      FrozenForGood(rounds, k, m - 1, thaw, r);
      var s, next := rounds[m - 1].after, rounds[m];
      assert Continues(s, next);
      if next.fetched != [] {
        StaysEligible(s, next.fetched, thaw, next.after, next.work, r);
      }
    }
  }

  // ---- the stored state -------------------------------------------------------------------------

  lemma {:induction false} OneLatest(clusters: seq<seq<Event>>, terminal: seq<bool>)
    requires (forall i :: 0 <= i < |clusters| ==> clusters[i] != []) && |terminal| == |clusters|
    requires forall i: nat :: i < |terminal| ==> (terminal[i] <==> !Latest(clusters, i) || Resolved(clusters[i]))
    ensures OneInFlight(terminal)
  {
    forall i, j | 0 <= i < j < |terminal| ensures terminal[i] || terminal[j] {
      if Latest(clusters, i) && Latest(clusters, j) {
        assert false;
      }
    }
  }

  function AnchorsOf(records: seq<Record>): seq<Anchor> {
    Map((r: Record) => Anchor(r.ids, r.title), records)
  }

  function ClusterAnchors(cs: seq<Cluster>): seq<Anchor> {
    Map((c: Cluster) => Anchor(IdsOf(c.rows), c.title), cs)
  }

  function TailTitle(cs: seq<Cluster>, terminal: seq<bool>, n: nat): string
    requires n <= |cs| == |terminal|
  {
    if n == 0 then "" else if terminal[n - 1] then TailTitle(cs, terminal, n - 1) else cs[n - 1].title
  }

  /** The anchors that a stored state leaves for the next round: its tasks' and, if there is one, its tail's. */
  ghost predicate AnchorsFor(s: State, tailTitle: string) {
    s.anchors == AnchorsOf(s.frozen) + (if s.tail == [] then [] else [Anchor(IdsOf(s.tail), tailTitle)])
  }

  ghost predicate Within(ids: set<string>, title: string, rows: seq<Event>) {
    title != "" && ids != {} && forall id :: id in ids ==> exists e :: e in rows && e.id == id
  }

  /**
   * A stored task all of whose messages are in one cluster of the next round gives the cluster its title, if the same
   * cannot be said of another stored task or the tail.
   */
  lemma {:induction false} TitleSurvives(s: State, tailTitle: string, before: Cluster, after: Cluster, k: nat)
    requires AnchorsFor(s, tailTitle) && CarriesTitle(before, after, s.anchors)
    requires k < |s.frozen| && "" !in s.frozen[k].ids && Within(s.frozen[k].ids, s.frozen[k].title, before.rows)
    requires forall j :: 0 <= j < |s.frozen| && j != k ==> !Within(s.frozen[j].ids, s.frozen[j].title, before.rows)
    requires !Within(IdsOf(s.tail), tailTitle, before.rows)
    ensures after.title == s.frozen[k].title
  {
    hide Choice, IdsOf;
    var c, anchors := IdsOf(before.rows), s.anchors;
    assert anchors[k] == Anchor(s.frozen[k].ids, s.frozen[k].title);
    forall j | 0 <= j < |anchors| && j != k && Named(anchors[j]) ensures !(anchors[j].ids <= c) {
      if j < |s.frozen| {
        assert anchors[j] == Anchor(s.frozen[j].ids, s.frozen[j].title);
        NotAllIn(s.frozen[j].ids, s.frozen[j].title, before.rows);
      } else {
        assert anchors[j] == Anchor(IdsOf(s.tail), tailTitle);
        NotAllIn(IdsOf(s.tail), tailTitle, before.rows);
      }
    }
    WholeIsChosen(c, anchors, k);
  }

  lemma {:induction false} NotAllIn(ids: set<string>, title: string, rows: seq<Event>)
    requires !Within(ids, title, rows) && title != "" && ids != {}
    ensures !(ids <= IdsOf(rows))
  {
  }

  class Pipeline {
    var started: bool
    var watermark: int
    var frozen: seq<Record>
    var tail: seq<Event>
    var anchors: seq<Anchor>

    ghost function Snapshot(): State
      reads this
    {
      State(watermark, frozen, tail, anchors)
    }

    /** Stored events all carry an id. */
    ghost predicate Valid()
      reads this
    {
      forall e :: e in Places(Snapshot()) ==> e.id != ""
    }

    constructor ()
      ensures Valid() && !started
    {
      started, watermark, frozen, tail, anchors := false, 0, [], [], [];
      new;
      NoEvents();
    }

    /** Segments and puts away; `hard` records stay in front. */
    method Store(kept: seq<Record>, active: seq<Event>, sim: Atomic.Similarity, answer: Answer, prior: seq<Anchor>,
                 ghost hard: set<nat>)
      returns (clusters: seq<Cluster>, title: string, ghost w: Work)
      requires DistinctIds(active)
      modifies this`frozen, this`tail
      ensures Segmented(w) && w.active == active && w.answer == answer && w.clusters == clusters && w.hard == hard
      ensures ByAnswer(w, sim, prior)
      ensures frozen == kept + Put(w) && tail == Tail(w) && title == TailTitle(w.clusters, w.terminal, |w.clusters|)
    {
      hide DistinctIds, Resegmented, Records, TailOf, TailTitle, Latest, Resolved, CarriesTitle, Assembled, Atomized;
      clusters := SegmentEvents(active, sim, answer, prior);
      ghost var trace :| Segmentation(active, sim, answer, prior, clusters, trace);
      ghost var dropped := trace.dropped;
      NoEmptyRows(active, clusters, dropped);
      var terminal := ComputeTerminal(RowsOf(clusters));
      OneLatest(RowsOf(clusters), terminal);
      w := Work(hard, active, clusters, dropped, terminal, answer);
      assert ByAnswer(w, sim, prior);
      title := PutAwayAll(kept, clusters, terminal, answer);
    }

    method PutAwayAll(kept: seq<Record>, clusters: seq<Cluster>, terminal: seq<bool>, answer: Answer) returns (title: string)
      requires |terminal| == |clusters|
      modifies this`frozen, this`tail
      ensures frozen == kept + Records(clusters, terminal, answer, |clusters|)
      ensures tail == TailOf(clusters, terminal, |clusters|) && title == TailTitle(clusters, terminal, |clusters|)
    {
      hide RecordOf;
      frozen, tail, title := kept, [], "";
      for i := 0 to |clusters|
        invariant frozen == kept + Records(clusters, terminal, answer, i)
        invariant tail == TailOf(clusters, terminal, i) && title == TailTitle(clusters, terminal, i)
      {
        if !terminal[i] {
          tail, title := clusters[i].rows, clusters[i].title;
        } else {
          frozen := frozen + [RecordOf(clusters[i], answer, i)];
        }
      }
    }

    method Run(fetched: seq<Event>, sim: Atomic.Similarity, answer: Answer, thaw: nat) returns (changed: bool, ghost w: Work)
      requires Valid() && forall e :: e in fetched ==> e.id != ""
      requires !started ==> DistinctIds(fetched)
      modifies this
      ensures Valid() && started
      ensures changed <==> !old(started) || fetched != []
      ensures !changed ==> Snapshot() == old(Snapshot())
      ensures w.answer == answer && (changed ==> ByAnswer(w, sim, if old(started) then old(anchors) else []))
      ensures !old(started) ==> Starts(fetched, Snapshot(), w) && anchors == ClusterAnchors(w.clusters)
      ensures changed && old(started) ==> Follows(old(Snapshot()), fetched, thaw, Snapshot(), w)
      ensures changed && old(started) ==>
                anchors == AnchorsOf(frozen) +
                  (if tail == [] then [] else [Anchor(IdsOf(tail), TailTitle(w.clusters, w.terminal, |w.clusters|))])
    {
      hide DistinctIds, Resegmented, OneInFlight, TailTitle, Records, TailOf, ByAnswer;
      if started && fetched == [] {
        changed, w := false, Work({}, [], [], [], [], answer);
        return;
      }
      changed := true;
      var clusters, title;
      if !started {
        clusters, title, w := Store([], fetched, sim, answer, [], {});
        watermark, anchors, started := LastTs(fetched), ClusterAnchors(clusters), true;
        IdsKept(w, [], fetched);
        assert [] + Put(w) == Put(w) && Places(Snapshot()) == [] + (Flat(EventsOf(Put(w))) + Tail(w));
        return;
      }
      w := Increment(fetched, sim, answer, thaw);
    }

    method Increment(fetched: seq<Event>, sim: Atomic.Similarity, answer: Answer, thaw: nat) returns (ghost w: Work)
      requires Valid() && started && forall e :: e in fetched ==> e.id != ""
      modifies this
      ensures Valid() && started
      ensures Follows(old(Snapshot()), fetched, thaw, Snapshot(), w)
      ensures w.answer == answer && ByAnswer(w, sim, old(anchors))
      ensures anchors == AnchorsOf(frozen) +
                (if tail == [] then [] else [Anchor(IdsOf(tail), TailTitle(w.clusters, w.terminal, |w.clusters|))])
    {
      hide DistinctIds, Segmented, TailTitle, Records, TailOf, Reopens, Eligible, Deduped, Places, IdsOf, LastTs, ByAnswer;
      ghost var s := Snapshot();
      var reopened := ReopenedIndexes(frozen, fetched);
      var hard := HardFrozenIndexes(frozen, watermark, thaw, reopened);
      var kept, thawed := SplitFrozen(hard);
      ThawedIds(s, hard, fetched);
      var active := Dedup(thawed + tail + fetched);
      DedupedDistinct(thawed + tail + fetched, active);
      var clusters, title;
      clusters, title, w := Store(kept, active, sim, answer, anchors, hard);
      watermark := if LastTs(fetched) > watermark then LastTs(fetched) else watermark;
      anchors := AnchorsOf(frozen);
      if tail != [] {
        anchors := anchors + [Anchor(IdsOf(tail), title)];
      } else {
        assert anchors + [] == anchors;
      }
      StaysValid(s, fetched, thaw, Snapshot(), w);
    }

    method SplitFrozen(hard: set<nat>) returns (kept: seq<Record>, thawed: seq<Event>)
      ensures kept == Carried(frozen, hard, |frozen|) && thawed == Thawed(frozen, hard, |frozen|)
    {
      kept, thawed := [], [];
      for i := 0 to |frozen|
        invariant kept == Carried(frozen, hard, i) && thawed == Thawed(frozen, hard, i)
      {
        if i in hard {
          kept := kept + [frozen[i]];
        } else {
          thawed := thawed + frozen[i].events;
        }
      }
    }
  }

  lemma {:induction false} NoEmptyRows(active: seq<Event>, cs: seq<Cluster>, dropped: seq<Event>)
    requires Resegmented(active, RowsOf(cs), dropped)
    ensures forall i :: 0 <= i < |cs| ==> RowsOf(cs)[i] != []
  {
  }

  lemma {:induction false} DedupedDistinct(evs: seq<Event>, out: seq<Event>)
    requires Deduped(evs, out)
    ensures DistinctIds(out)
  {
  }

  lemma {:induction false} ThawedIds(s: State, hard: set<nat>, fetched: seq<Event>)
    requires (forall e :: e in Places(s) ==> e.id != "") && forall e :: e in fetched ==> e.id != ""
    ensures forall e :: e in Thawed(s.frozen, hard, |s.frozen|) + s.tail + fetched ==> e.id != ""
  {
    hide Thawed, Flat, EventsOf, Carried;
    PlacesSplit(s, hard);
    SameElements(HardEvents(s, hard) + (Thawed(s.frozen, hard, |s.frozen|) + s.tail), Places(s));
  }

  /** What is put away was active, so it still has ids. */
  lemma {:induction false} IdsKept(w: Work, kept: seq<Event>, evs: seq<Event>)
    requires Segmented(w) && w.active == evs
    requires (forall e :: e in kept ==> e.id != "") && forall e :: e in evs ==> e.id != ""
    ensures forall e :: e in kept + (Flat(EventsOf(Put(w))) + Tail(w)) ==> e.id != ""
  {
    hide Resegmented, OneInFlight, Flat, EventsOf, Records, TailOf;
    WorkPlaces(w);
    SubEvents(Flat(EventsOf(Put(w))) + Tail(w), w.active);
  }

  lemma {:induction false} StaysValid(s: State, fetched: seq<Event>, thaw: nat, s': State, w: Work)
    requires (forall e :: e in Places(s) ==> e.id != "") && (forall e :: e in fetched ==> e.id != "")
    requires Follows(s, fetched, thaw, s', w)
    ensures forall e :: e in Places(s') ==> e.id != ""
  {
    hide Segmented, Flat, EventsOf, Records, TailOf, Carried, Thawed, Reopens, Eligible, DistinctIds, Places, HardEvents;
    ThawedIds(s, w.hard, fetched);
    NewPlaces(s, fetched, thaw, s', w);
    PlacesSplit(s, w.hard);
    SameElements(HardEvents(s, w.hard) + (Thawed(s.frozen, w.hard, |s.frozen|) + s.tail), Places(s));
    IdsKept(w, HardEvents(s, w.hard), w.active);
  }
}
