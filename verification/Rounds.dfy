/** The pipeline driven round after round, and what the thaw window is for. */
module Rounds {
  import opened Events
  import opened Lists
  import opened Sorting
  import opened Clusters
  import opened Terminal
  import Titles
  import opened Incremental
  import Atomic
  import Reachability
  import Forests

  // ---- driving the pipeline ---------------------------------------------------------------------

  /** One round: what the group's history holds by then, the models' answer, and the thaw window. */
  datatype Feed = Feed(history: seq<Event>, answer: Answer, thaw: nat)

  /** What a fetch from the watermark on returns. */
  function Since(history: seq<Event>, from: int): (r: seq<Event>)
    ensures forall e :: e in r <==> e in history && e.ts >= from
  {
    if history == [] then [] else (if history[0].ts >= from then [history[0]] else []) + Since(history[1..], from)
  }

  ghost predicate Feeds(feeds: seq<Feed>) {
    && feeds != [] && DistinctIds(feeds[0].history) && IdFixesEvent(Histories(feeds))
    && forall k :: 0 <= k < |feeds| ==> feeds[k].thaw >= 1 && forall e :: e in feeds[k].history ==> e.id != ""
  }

  ghost function Histories(feeds: seq<Feed>): set<Event> {
    set k, e | 0 <= k < |feeds| && e in feeds[k].history :: e
  }

  /** What round k fetched: everything at first, later what is new since the watermark. */
  ghost predicate Fetches(feeds: seq<Feed>, rounds: seq<Round>) {
    && |rounds| <= |feeds|
    && (|rounds| > 0 ==> rounds[0].fetched == feeds[0].history)
    && forall k :: 0 < k < |rounds| ==> rounds[k].fetched == Since(feeds[k].history, FetchFrom(rounds[k - 1].after.watermark))
  }

  /** The fetch of round k has to bring e: at first everything, later what is not before the second of the stored watermark. */
  ghost predicate Due(feeds: seq<Feed>, rounds: seq<Round>, k: nat, e: Event) {
    && k < |feeds| && k < |rounds| && e in feeds[k].history
    && (k > 0 ==> FromSecondOf(rounds[k - 1].after.watermark, e.ts))
  }

  /** Time t is not before the whole second of w. */
  ghost predicate FromSecondOf(w: int, t: int) {
    exists second :: SecondOf(w, second) && second <= t
  }

  /** Nothing is withdrawn, and nothing arrives from before the second of a message that was there already. */
  ghost predicate Timely(feeds: seq<Feed>) {
    && (forall k, e :: 0 <= k < |feeds| && e in feeds[k].history ==> e.ts >= 0)
    && (forall k :: 1 <= k < |feeds| ==> Grows(feeds[k - 1].history, feeds[k].history))
  }

  ghost predicate Grows(before: seq<Event>, after: seq<Event>) {
    && (forall e :: e in before ==> e in after)
    && (forall e, f :: e in after && e !in before && f in before ==> FromSecondOf(f.ts, e.ts))
  }

  /**
   * Whatever the models answer and whatever arrives: after any number of rounds every message that was due in some round
   * and is not noise is in exactly one frozen task or the tail of the stored state. If messages arrive timely, that is
   * every message of the history.
   */
  method Drive(feeds: seq<Feed>, sim: Atomic.Similarity) returns (p: Pipeline, ghost rounds: seq<Round>)
    requires Feeds(feeds)
    ensures |rounds| == |feeds| && IsRun(rounds) && Fetches(feeds, rounds) && rounds[|rounds| - 1].after == p.Snapshot()
    ensures forall k: nat, e :: Due(feeds, rounds, k, e) && !e.noise ==> InOneBox(p.Snapshot(), e)
    ensures Timely(feeds) ==> forall e :: e in feeds[|feeds| - 1].history && !e.noise ==> InOneBox(p.Snapshot(), e)
  {
    hide Due, Timely, Starts, Follows, InOneBox, IdFixesEvent, Live, DistinctIds, Places, FetchFrom, ByAnswer, EverFetched, Histories;
    p := new Pipeline();
    var changed;
    ghost var w;
    changed, w := p.Run(feeds[0].history, sim, feeds[0].answer, feeds[0].thaw);
    rounds := [Round(feeds[0].history, feeds[0].thaw, p.Snapshot(), w)];
    for k := 1 to |feeds|
      invariant fresh(p) && p.Valid() && p.started
      invariant |rounds| == k && IsRun(rounds) && LiveRun(rounds) && Fetches(feeds, rounds) && rounds[k - 1].after == p.Snapshot()
    {
      var fetched := Since(feeds[k].history, FetchFrom(p.watermark));
      assert Live(p.Snapshot(), fetched) by { SinceIsLive(p.Snapshot(), feeds[k].history); }
      ghost var s := p.Snapshot();
      changed, w := p.Run(fetched, sim, feeds[k].answer, feeds[k].thaw);
      ghost var round := Round(fetched, feeds[k].thaw, p.Snapshot(), w);
      assert Continues(s, round);
      rounds := rounds + [round];
    }
    FetchedOnly(feeds, rounds, |rounds|);
    assert rounds[..|rounds|] == rounds;
    FewerFixed(EverFetched(rounds), Histories(feeds));
    forall e | e in EverFetched(rounds) && !e.noise ensures InOneBox(p.Snapshot(), e) {
      EachEventOnce(rounds, e);
    }
    forall k: nat, e | Due(feeds, rounds, k, e) ensures e in EverFetched(rounds) {
      DueFetched(feeds, rounds, k, e);
    }
    if Timely(feeds) {
      TimelyFetched(feeds, rounds, |feeds| - 1);
    }
  }

  lemma {:induction false} DueFetched(feeds: seq<Feed>, rounds: seq<Round>, k: nat, e: Event)
    requires Fetches(feeds, rounds) && Due(feeds, rounds, k, e)
    ensures e in EverFetched(rounds)
  {
    hide FetchFrom, EverFetched;
    if k > 0 {
      var w := rounds[k - 1].after.watermark;
      var second :| SecondOf(w, second) && second <= e.ts;
      OneSecond(w, second, FetchFrom(w));
    }
    assert e in rounds[k].fetched;
    FetchedAt(rounds, k, e);
  }

  lemma {:induction false} OneSecond(t: int, a: int, b: int)
    requires SecondOf(t, a) && SecondOf(t, b)
    ensures a == b
  {
  }

  lemma {:induction false} FetchedAt(rounds: seq<Round>, k: nat, e: Event)
    requires k < |rounds| && e in rounds[k].fetched
    ensures e in EverFetched(rounds)
  {
    if k < |rounds| - 1 {
      FetchedAt(rounds[..|rounds| - 1], k, e);
    }
  }

  /** The watermark is the time of a message that has arrived. */
  lemma {:induction false} WatermarkSeen(feeds: seq<Feed>, rounds: seq<Round>, k: nat)
    requires Fetches(feeds, rounds) && IsRun(rounds) && Timely(feeds) && k < |rounds|
    ensures var w := rounds[k].after.watermark; w == 0 || exists f :: f in feeds[k].history && f.ts == w
  {
    hide Segmented, Deduped, Reopens, Since, FetchFrom;
    LastTsBounds(rounds[k].fetched);
    if k > 0 {
      WatermarkSeen(feeds, rounds, k - 1);
      assert Grows(feeds[k - 1].history, feeds[k].history);
      assert Continues(rounds[k - 1].after, rounds[k]);
    }
  }

  lemma {:induction false} TimelyFetched(feeds: seq<Feed>, rounds: seq<Round>, k: nat)
    requires Fetches(feeds, rounds) && IsRun(rounds) && Timely(feeds) && k < |rounds|
    ensures forall e :: e in feeds[k].history ==> e in EverFetched(rounds)
  {
    hide IsRun, Since, EverFetched, FromSecondOf;
    if k > 0 {
      TimelyFetched(feeds, rounds, k - 1);
      WatermarkSeen(feeds, rounds, k - 1);
      assert Grows(feeds[k - 1].history, feeds[k].history);
    }
    forall e | e in feeds[k].history ensures e in EverFetched(rounds) {
      if k == 0 || e !in feeds[k - 1].history {
        if k > 0 {
          NewIsDue(feeds[k - 1].history, feeds[k].history, rounds[k - 1].after.watermark, e);
        }
        DueFetched(feeds, rounds, k, e);
      }
    }
  }

  lemma {:induction false} NewIsDue(before: seq<Event>, after: seq<Event>, w: int, e: Event)
    requires Grows(before, after) && e in after && e !in before && e.ts >= 0 && (w == 0 || exists f :: f in before && f.ts == w)
    ensures FromSecondOf(w, e.ts)
  {
    if w == 0 {
      assert SecondOf(w, 0);
    }
  }

  lemma {:induction false} SinceIsLive(s: State, history: seq<Event>)
    ensures Live(s, Since(history, FetchFrom(s.watermark)))
  {
  }

  lemma {:induction false} FewerFixed(a: set<Event>, b: set<Event>)
    requires a <= b && IdFixesEvent(b)
    ensures IdFixesEvent(a)
  {
  }

  lemma {:induction false} FetchedOnly(feeds: seq<Feed>, rounds: seq<Round>, n: nat)
    requires Fetches(feeds, rounds) && n <= |rounds|
    ensures EverFetched(rounds[..n]) <= Histories(feeds)
  {
    hide Since;
    if n > 0 {
      FetchedOnly(feeds, rounds, n - 1);
      assert rounds[..n][..n - 1] == rounds[..n - 1];
      forall e | e in rounds[n - 1].fetched ensures e in Histories(feeds) {
        assert e in feeds[n - 1].history;
      }
    }
  }

  // ---- without a thaw window --------------------------------------------------------------------

  // Two messages of one second, from bots at work on different topics.
  const Early := Event("x", "", 500, Bot, false, "a", false)
  const Late := Event("y", "", 900, Bot, false, "b", false)
  const Both := [Early, Late]
  const NoTasks := Answer([], [], [])

  /** They are two atoms: the topic changes between them and neither replies to the other. */
  lemma {:induction false} TwoAtoms(sim: Atomic.Similarity, t: Trace)
    requires Atomized(Both, sim, t)
    ensures Early in Flat(t.atoms) && Late in Flat(t.atoms) && !Together(t.atoms, Early, Late)
  {
    hide Flat, Reachability.Connected, Atomic.Placed, Atomic.InOrder;
    assert Both[0] == Early && Both[1] == Late;
    TwoTopics(t);
    assert Atomic.CutRule(Both, t.topics, t.segs, t.at, 0) && Atomic.CutRule(Both, t.topics, t.segs, t.at, 1);
    assert t.at[0] == 0 && t.at[1] == 1;
    var es := Atomic.Stitches(Both, t.segs, t.at, sim, 2);
    assert es == {};
    Reachability.Reflexive(es, 0);
    Reachability.Reflexive(es, 1);
    NoEdges(es, 0, 1);
    assert Atomic.Joined(Both, t.segs, t.at, sim, 0, 0) && Atomic.Joined(Both, t.segs, t.at, sim, 1, 1);
    assert !Atomic.Joined(Both, t.segs, t.at, sim, 0, 1);
    assert Atomic.Heard(Both, t.segs, t.at, sim, 0) && Atomic.Heard(Both, t.segs, t.at, sim, 1);
  }

  lemma {:induction false} TwoTopics(t: Trace)
    requires |t.topics| == 2 && forall i :: 0 <= i < 2 ==> Atomic.InForce(Both, i, t.topics[i])
    ensures t.topics == ["a", "b"]
  {
    assert Atomic.NamesLast(Both, 0, 0) && Atomic.NamesLast(Both, 1, 1);
  }

  lemma {:induction false} NoEdges(es: set<(nat, nat)>, x: nat, y: nat)
    requires es == {} && x != y
    ensures !Reachability.Connected(es, x, y)
  {
    if Reachability.Connected(es, x, y) {
      var p :| Reachability.Path(es, p) && p[0] == x && p[|p| - 1] == y;
      Reachability.LabelConstant(es, map[], p);
    }
  }

  lemma {:induction false} GatherMember(atoms: seq<seq<Event>>, xs: seq<nat>, e: Event) returns (x: nat)
    requires e in Gather(atoms, xs)
    ensures x in xs && e in Atom(atoms, x)
  {
    if e in Atom(atoms, xs[0]) {
      x := xs[0];
    } else {
      x := GatherMember(atoms, xs[1..], e);
    }
  }

  /** Ungrouped, events of different atoms are in different clusters. */
  lemma {:induction false} OwnClusters(atoms: seq<seq<Event>>, cs: seq<Cluster>, c: Cluster, e: Event, f: Event)
    requires Assembled([], atoms, cs) && c in cs && e in c.rows && f in c.rows
    ensures Together(atoms, e, f)
  {
    hide Gather, SortedBy, Flat;
    assert Holds([], atoms, c);
    assert e in multiset(c.rows) && f in multiset(c.rows);
    assert e in Gather(atoms, c.segs) && f in Gather(atoms, c.segs);
    var x := GatherMember(atoms, c.segs, e);
    var y := GatherMember(atoms, c.segs, f);
    var k :| 0 <= k < |cs| && cs[k] == c;
    assert Segs(cs)[k] == c.segs && c.segs in Segs(cs);
    assert Together(Segs(cs), x, y);
    assert Label([], x) == x && Label([], y) == y;
    assert atoms[x - 1] in atoms;
  }

  lemma {:induction false} BoxLengths(rs: seq<seq<Event>>)
    requires (forall i :: 0 <= i < |rs| ==> rs[i] != []) && |Flat(rs)| == 2
    ensures rs != [] && |rs| <= 2 && (|rs| == 1 ==> Flat(rs) == rs[0])
    ensures |rs| == 2 ==> |rs[0]| == |rs[1]| == 1 && Flat(rs) == rs[0] + rs[1]
  {
    hide Flat;
    FlatNone();
    var rest := rs[1..];
    FlatCons(rs);
    if |rs| > 1 {
      assert rest[0] == rs[1];
      FlatCons(rest);
      if |rs| > 2 {
        assert rest[1..][0] == rs[2];
        FlatCons(rest[1..]);
      } else {
        assert rest[1..] == [];
      }
    } else {
      assert rest == [];
    }
  }

  lemma {:induction false} FlatCons(rs: seq<seq<Event>>)
    requires rs != []
    ensures Flat(rs) == rs[0] + Flat(rs[1..])
  {
  }

  lemma {:induction false} FlatNone()
    ensures Flat<Event>([]) == []
  {
  }

  /** Two different events in boxes that do not hold both. */
  lemma {:induction false} TwoBoxes(rs: seq<seq<Event>>, e: Event, f: Event)
    requires e != f && multiset(Flat(rs)) == multiset{e, f} && (forall i :: 0 <= i < |rs| ==> rs[i] != [])
    requires forall i :: 0 <= i < |rs| ==> !(e in rs[i] && f in rs[i])
    ensures rs == [[e], [f]] || rs == [[f], [e]]
  {
    hide Flat;
    var all := Flat(rs);
    assert |all| == |multiset(all)| == |multiset{e, f}|;
    assert e in multiset(all) && f in multiset(all) && e in all && f in all;
    BoxLengths(rs);
    if |rs| == 2 {
      var x, y := rs[0][0], rs[1][0];
      assert rs[0] == [x] && rs[1] == [y] && all == [x, y];
      assert rs == [[x], [y]];
    }
  }

  /** Nobody grouped them, so each is a cluster of its own, the earlier one first. */
  lemma {:induction false} TwoClusters(sim: Atomic.Similarity, cs: seq<Cluster>, t: Trace)
    requires Segmentation(Both, sim, NoTasks, [], cs, t)
    ensures RowsOf(cs) == [[Early], [Late]]
  {
    hide Flat, Atomized, Assembled, CarriesTitle, SortBy, Early, Late;
    SortedBoth();
    TwoAtoms(sim, t);
    SameRows(t.plain, cs);
    var rs := RowsOf(cs);
    forall i | 0 <= i < |rs| ensures !(Early in rs[i] && Late in rs[i]) {
      assert t.plain[i] in t.plain && rs[i] == t.plain[i].rows;
      if Early in rs[i] && Late in rs[i] {
        OwnClusters(t.atoms, t.plain, t.plain[i], Early, Late);
      }
    }
    NothingDropped(rs, t.dropped);
    TwoBoxes(rs, Early, Late);
    EarlierFirst(t.atoms, t.plain);
  }

  lemma {:induction false} SortedBoth()
    ensures SortBy(Both, ByTs) == Both && SortBy<Task>([], ByLeast) == [] && Early != Late && multiset(Both) == multiset{Early, Late}
  {
    assert SortBy([Late], ByTs) == Insert(Late, SortBy([Late][1..], ByTs), ByTs) == [Late];
    assert Both[1..] == [Late];
  }

  lemma {:induction false} SameRows(plain: seq<Cluster>, cs: seq<Cluster>)
    requires |plain| == |cs| && forall i :: 0 <= i < |cs| ==> CarriesTitle(plain[i], cs[i], [])
    ensures RowsOf(cs) == RowsOf(plain)
  {
    hide Titles.Choice;
    forall i | 0 <= i < |cs| ensures cs[i].rows == plain[i].rows {
      assert CarriesTitle(plain[i], cs[i], []);
    }
  }

  lemma {:induction false} NothingDropped(rs: seq<seq<Event>>, dropped: seq<Event>)
    requires Resegmented(Both, rs, dropped)
    ensures multiset(Flat(rs)) == multiset(Both)
  {
    hide Flat;
    SubEvents(dropped, Both);
    FirstIn(dropped);
  }

  lemma {:induction false} FirstIn(evs: seq<Event>)
    ensures evs == [] || evs[0] in evs
  {
  }

  lemma {:induction false} EarlierFirst(atoms: seq<seq<Event>>, cs: seq<Cluster>)
    requires Assembled([], atoms, cs)
    ensures RowsOf(cs) != [[Late], [Early]]
  {
    hide Flat, AllHold, Labelled;
    var rs := RowsOf(cs);
    if |cs| == 2 {
      assert rs[0] == cs[0].rows && rs[1] == cs[1].rows;
      assert ByFirstRow(cs[0]) <= ByFirstRow(cs[1]);
    }
  }

  /** The first round freezes the earlier message and keeps the later one open. */
  lemma {:induction false} FirstRound(sim: Atomic.Similarity, s: State, w: Work)
    requires Starts(Both, s, w) && ByAnswer(w, sim, []) && w.answer == NoTasks
    ensures |s.frozen| == 1 && s.tail == [Late] && s.watermark == 900
    ensures s.frozen[0] == Record(s.frozen[0].title, {"x"}, 500, true, true, "", [Early])
  {
    hide Segmented, Segmentation, Resolved, Latest;
    var t: Trace :| t.dropped == w.dropped && Segmentation(w.active, sim, w.answer, [], w.clusters, t);
    TwoClusters(sim, w.clusters, t);
    assert RowsOf(w.clusters)[0] == w.clusters[0].rows && RowsOf(w.clusters)[1] == w.clusters[1].rows;
    LaterIsOpen(RowsOf(w.clusters));
    assert w.terminal[0] && !w.terminal[1];
    EarlyRecord(w.clusters[0]);
    assert Records(w.clusters, w.terminal, w.answer, 0) == [];
    assert Records(w.clusters, w.terminal, w.answer, 1) == [RecordOf(w.clusters[0], w.answer, 0)];
    assert Records(w.clusters, w.terminal, w.answer, 2) == [RecordOf(w.clusters[0], w.answer, 0)];
    assert MaxTs(Both) == 900 by { MaxTsIsMax(Both); assert Both[0] == Early && Both[1] == Late; }
  }

  lemma {:induction false} EarlyRecord(c: Cluster)
    requires c.rows == [Early]
    ensures RecordOf(c, NoTasks, 0) == Record(c.title, {"x"}, 500, true, true, "", [Early])
  {
    assert Early in [Early] && IdsOf([Early]) == {"x"};
    MaxTsIsMax([Early]);
  }

  lemma {:induction false} LaterIsOpen(rs: seq<seq<Event>>)
    requires rs == [[Early], [Late]]
    ensures Latest(rs, 1) && !Latest(rs, 0) && !Resolved(rs[1])
  {
    MaxTsIsMax([Early]);
    MaxTsIsMax([Late]);
    assert rs[0] == [Early] && rs[1] == [Late];
  }

  /** Without a thaw window the frozen message is carried over although the next fetch returns it. */
  lemma {:induction false} NoThawDuplicates(s: State, s': State, w: Work)
    requires |s.frozen| == 1 && s.tail == [Late] && s.watermark == 900
    requires s.frozen[0] == Record(s.frozen[0].title, {"x"}, 500, true, true, "", [Early])
    requires Inv(s, AsSet(Both)) && Follows(s, [Early], 0, s', w)
    ensures Live(s, [Early]) && !DistinctIds(Places(s'))
  {
    hide Inv, HardEvents, Segmented, Deduped, Places, Follows, DistinctIds, IdFixesEvent;
    FreshFetch(s);
    NotReopened(s, s', w);
    CarriedAlone(s, w.hard);
    assert AsSet(Both) + AsSet([Early]) == AsSet(Both) by { assert Both[0] == Early; }
    assert IdFixesEvent(AsSet(Both)) by { InvFixes(s); }
    assert Early in [Early];
    RefetchDuplicates(s, AsSet(Both), [Early], 0, s', w, Early);
  }

  lemma {:induction false} InvFixes(s: State)
    requires Inv(s, AsSet(Both))
    ensures IdFixesEvent(AsSet(Both))
  {
    hide IdFixesEvent;
  }

  lemma {:induction false} FreshFetch(s: State)
    requires s.watermark == 900
    ensures Live(s, [Early])
  {
  }

  lemma {:induction false} NotReopened(s: State, s': State, w: Work)
    requires |s.frozen| == 1 && s.watermark == 900 && Follows(s, [Early], 0, s', w)
    requires s.frozen[0] == Record(s.frozen[0].title, {"x"}, 500, true, true, "", [Early])
    ensures 0 in w.hard
  {
    hide Segmented, Deduped;
    assert [Early][0].parent == "" && Holder(s.frozen, "") == 1;
    assert !Reopens(s.frozen, [Early], 0);
  }

  lemma {:induction false} CarriedAlone(s: State, hard: set<nat>)
    requires |s.frozen| == 1 && s.frozen[0].events == [Early] && 0 in hard
    ensures Early in HardEvents(s, hard)
  {
    hide Flat;
    assert Carried(s.frozen, hard, 0) == [];
    assert Carried(s.frozen, hard, 1) == [s.frozen[0]];
    var boxes := EventsOf([s.frozen[0]]);
    assert boxes[0] == [Early] && boxes[0] in boxes && Early in boxes[0];
    FlatMembers(boxes, Early);
  }

  /** Two rounds that end with one message in two places: the thaw window must be at least an hour. */
  method WithoutThaw(sim: Atomic.Similarity) returns (p: Pipeline)
    ensures !DistinctIds(Places(p.Snapshot()))
  {
    hide Starts, Follows, Places, Inv, ByAnswer, DistinctIds;
    p := new Pipeline();
    BothDistinct();
    var changed;
    ghost var w;
    changed, w := p.Run(Both, sim, NoTasks, 0);
    ghost var s := p.Snapshot();
    FirstRound(sim, s, w);
    StartKeeps(Both, s, w);
    changed, w := p.Run([Early], sim, NoTasks, 0);
    NoThawDuplicates(s, p.Snapshot(), w);
  }

  lemma {:induction false} BothDistinct()
    ensures DistinctIds(Both) && (forall e :: e in Both ==> e.id != "") && forall e :: e in [Early] ==> e.id != ""
  {
  }
}
