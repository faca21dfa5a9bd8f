/** Splitting a rollback segment that has swallowed the wrong turn before it. */
module Rollback {
  import opened Events
  import opened Overlaps
  import opened OverlapRepair
  import Sorting

  const CORRECTED := "被纠偏"
  const CLOSING := "收尾"
  const ASIDE := "旁支"
  const REWORKED := "有返工"
  const REWORK_EDGE := "↺返工"
  const STRAY_TITLE := "走偏："

  predicate IsRollback(s: Sub) {
    s.status == CORRECTED && (s.kind == CLOSING || s.kind == ASIDE)
  }

  const Self: nat -> int := (n: nat) => n

  /** The numbers of a segment in ascending order, repeats kept. */
  function Ordered(s: Sub): seq<nat> {
    Sorting.SortBy(NumList(s.members), Self)
  }

  /** Whether message number n is the user's. Number 0 reads the last message; beyond the end there is no answer. */
  datatype Look = UserSays | BotSays | NoMessage

  function LookUp(meta: seq<Role>, n: nat): Look {
    if n > |meta| || |meta| == 0 then NoMessage
    else if meta[if n == 0 then |meta| - 1 else n - 1] == User then UserSays else BotSays
  }

  /** Where the first user message is, if the scan gets that far. */
  datatype Scan = At(pos: nat) | Never | OffEnd

  function FirstUser(meta: seq<Role>, ms: seq<nat>, k: nat): Scan
    requires k <= |ms|
    decreases |ms| - k
  {
    if k == |ms| then Never else
      match LookUp(meta, ms[k])
      case NoMessage => OffEnd
      case UserSays => At(k)
      case BotSays => FirstUser(meta, ms, k + 1)
  }

  lemma {:induction false} FirstUserIs(meta: seq<Role>, ms: seq<nat>, k: nat)
    requires k <= |ms|
    ensures match FirstUser(meta, ms, k)
            case At(pos) => k <= pos < |ms| && LookUp(meta, ms[pos]) == UserSays && forall i :: k <= i < pos ==> LookUp(meta, ms[i]) == BotSays
            case Never => forall i :: k <= i < |ms| ==> LookUp(meta, ms[i]) == BotSays
            case OffEnd => exists p :: k <= p < |ms| && LookUp(meta, ms[p]) == NoMessage && forall i :: k <= i < p ==> LookUp(meta, ms[i]) == BotSays
    decreases |ms| - k
  {
    if k < |ms| {
      FirstUserIs(meta, ms, k + 1);
    }
  }

  predicate AnyBot(meta: seq<Role>, ms: seq<nat>) {
    exists i :: 0 <= i < |ms| && LookUp(meta, ms[i]) != UserSays
  }

  datatype Verdict = Leave | Cut(pos: nat) | Fail

  function Judge(meta: seq<Role>, s: Sub): Verdict {
    var ms := Ordered(s);
    if !IsRollback(s) || |ms| < 2 then Leave else
      match FirstUser(meta, ms, 0)
      case OffEnd => Fail
      case Never => Leave
      case At(pos) =>
        FirstUserIs(meta, ms, 0);
        if pos == 0 || !AnyBot(meta, ms[..pos]) then Leave else Cut(pos)
  }

  function Entries(ms: seq<nat>): seq<Entry> {
    seq(|ms|, i requires 0 <= i < |ms| => Num(ms[i]))
  }

  function Clip(t: string): string {
    if |t| <= 12 then t else t[..12]
  }

  function Stray(s: Sub, pos: nat): Sub
    requires pos <= |Ordered(s)|
  {
    Sub(s.id + "a", STRAY_TITLE + Clip(s.title), ASIDE, REWORKED, Entries(Ordered(s)[..pos]))
  }

  function Back(s: Sub, pos: nat): Sub
    requires pos <= |Ordered(s)|
  {
    s.(id := s.id + "b", members := Entries(Ordered(s)[pos..]))
  }

  /** What becomes of one segment. */
  function Pieces(meta: seq<Role>, s: Sub): seq<Sub> {
    FirstUserIs(meta, Ordered(s), 0);
    match Judge(meta, s)
    case Cut(pos) => [Stray(s, pos), Back(s, pos)]
    case _ => [s]
  }

  function Purified(meta: seq<Role>, subs: seq<Sub>): seq<Sub> {
    if subs == [] then [] else
      Purified(meta, subs[..|subs| - 1]) + Pieces(meta, subs[|subs| - 1])
  }

  /** Edges that named the old segment now name its continuation. */
  function Redirect(e: Edge, was: string, now: string): Edge {
    Edge(if e.from == was then now else e.from, if e.to == was then now else e.to, e.label')
  }

  function RedirectAll(edges: seq<Edge>, was: string, now: string): (r: seq<Edge>)
    ensures |r| == |edges|
  {
    seq(|edges|, k requires 0 <= k < |edges| => Redirect(edges[k], was, now))
  }

  function Rewired(meta: seq<Role>, subs: seq<Sub>, edges: seq<Edge>): seq<Edge> {
    if subs == [] then edges else
      var s, before := subs[|subs| - 1], Rewired(meta, subs[..|subs| - 1], edges);
      if Judge(meta, s).Cut? then RedirectAll(before, s.id, s.id + "b") + [Edge(s.id + "a", s.id + "b", REWORK_EDGE)] else before
  }

  lemma {:induction false} PurifiedEmpty(meta: seq<Role>, edges: seq<Edge>)
    ensures Purified(meta, []) == [] && Rewired(meta, [], edges) == edges
  {
  }

  lemma {:induction false} PurifiedNext(meta: seq<Role>, subs: seq<Sub>, s: Sub, edges: seq<Edge>)
    ensures Purified(meta, subs + [s]) == Purified(meta, subs) + Pieces(meta, s)
    ensures Rewired(meta, subs + [s], edges) ==
            if Judge(meta, s).Cut? then RedirectAll(Rewired(meta, subs, edges), s.id, s.id + "b") + [Edge(s.id + "a", s.id + "b", REWORK_EDGE)]
            else Rewired(meta, subs, edges)
  {
    hide Judge, Pieces, RedirectAll;
    assert (subs + [s])[..|subs|] == subs;
  }

  /** The loop itself: it fails on a rollback segment whose scan runs off the list, and otherwise splits in place. */
  method EnforceRollbackPurity(d: Decomposition, meta: seq<Role>) returns (ok: bool, actions: nat)
    modifies d
    ensures ok <==> forall i :: 0 <= i < |old(d.subs)| ==> !Judge(meta, old(d.subs)[i]).Fail?
    ensures ok ==> d.subs == Purified(meta, old(d.subs)) && d.edges == Rewired(meta, old(d.subs), old(d.edges))
    ensures ok ==> |d.subs| == |old(d.subs)| + actions && |d.edges| == |old(d.edges)| + actions
  {
    hide Judge, Pieces, Purified, Rewired, RedirectAll, Ordered;
    var subs: seq<Sub> := [];
    actions := 0;
    PurifiedEmpty(meta, d.edges);
    assert d.subs[..0] == [];
    for n := 0 to |d.subs|
      invariant d.subs == old(d.subs)
      invariant subs == Purified(meta, d.subs[..n]) && d.edges == Rewired(meta, d.subs[..n], old(d.edges))
      invariant forall i :: 0 <= i < n ==> !Judge(meta, d.subs[i]).Fail?
      invariant |subs| == n + actions && |d.edges| == |old(d.edges)| + actions
      invariant actions == 0 ==> subs == d.subs[..n]
    {
      var s := d.subs[n];
      PurifiedNext(meta, d.subs[..n], s, old(d.edges));
      assert d.subs[..n + 1] == d.subs[..n] + [s];
      JudgedAs(meta, s);
      match Judge(meta, s)
      case Fail =>
        ok := false;
        return;
      case Leave =>
        subs := subs + [s];
      case Cut(pos) =>
        d.edges := RedirectAll(d.edges, s.id, s.id + "b") + [Edge(s.id + "a", s.id + "b", REWORK_EDGE)];
        subs := subs + [Stray(s, pos), Back(s, pos)];
        actions := actions + 1;
    }
    assert d.subs[..|d.subs|] == d.subs;
    if actions > 0 {
      d.subs := subs;
    }
    ok := true;
  }

  lemma {:induction false} JudgedAs(meta: seq<Role>, s: Sub)
    ensures match Judge(meta, s)
            case Cut(pos) => 0 < pos < |Ordered(s)| && Pieces(meta, s) == [Stray(s, pos), Back(s, pos)]
            case _ => Pieces(meta, s) == [s]
  {
    hide Ordered;
    FirstUserIs(meta, Ordered(s), 0);
  }

  // ---- nothing is lost --------------------------------------------------------------------------

  lemma {:induction false} EntriesNums(ms: seq<nat>)
    ensures NumList(Entries(ms)) == ms
  {
    if ms != [] {
      EntriesNums(ms[1..]);
      assert Entries(ms)[1..] == Entries(ms[1..]);
      assert ms == [ms[0]] + ms[1..];
    }
  }

  lemma {:induction false} TallyPrefix(a: seq<Sub>, b: seq<Sub>, n: nat)
    requires n <= |a| && n <= |b| && a[..n] == b[..n]
    ensures Tally(a, n) == Tally(b, n)
  {
    if n > 0 {
      assert a[..n - 1] == a[..n][..n - 1] == b[..n - 1];
      assert a[n - 1] == a[..n][n - 1] == b[n - 1];
      TallyPrefix(a, b, n - 1);
    }
  }

  ghost function Total(subs: seq<Sub>): multiset<nat> {
    Tally(subs, |subs|)
  }

  lemma {:induction false} TotalNext(subs: seq<Sub>, s: Sub)
    ensures Total(subs + [s]) == Total(subs) + multiset(NumList(s.members))
  {
    hide NumList;
    var longer := subs + [s];
    assert longer[..|subs|] == subs == subs[..|subs|];
    TallyPrefix(longer, subs, |subs|);
  }

  /** A cut divides the numbers of a segment. */
  lemma {:induction false} CutConserves(s: Sub, pos: nat)
    requires pos <= |Ordered(s)|
    ensures multiset(NumList(Stray(s, pos).members)) + multiset(NumList(Back(s, pos).members)) == multiset(NumList(s.members))
  {
    hide NumList, Entries, Sorting.SortBy;
    var ms := Ordered(s);
    Sorting.SortSorts(NumList(s.members), Self);
    EntriesNums(ms[..pos]);
    EntriesNums(ms[pos..]);
    assert ms == ms[..pos] + ms[pos..];
  }

  /** Every number is listed exactly as often as before. */
  lemma {:induction false} PurityConserves(meta: seq<Role>, subs: seq<Sub>)
    ensures Total(Purified(meta, subs)) == Total(subs)
  {
    hide Judge, Pieces, Purified, Total, NumList, Ordered;
    if subs == [] {
      PurifiedEmpty(meta, []);
    } else {
      var before, s := subs[..|subs| - 1], subs[|subs| - 1];
      PurityConserves(meta, before);
      assert subs == before + [s];
      PurifiedNext(meta, before, s, []);
      TotalNext(before, s);
      JudgedAs(meta, s);
      var pure := Purified(meta, before);
      if Judge(meta, s).Cut? {
        var pos := Judge(meta, s).pos;
        CutConserves(s, pos);
        TotalNext(pure, Stray(s, pos));
        TotalNext(pure + [Stray(s, pos)], Back(s, pos));
        assert pure + [Stray(s, pos)] + [Back(s, pos)] == pure + [Stray(s, pos), Back(s, pos)];
      } else {
        TotalNext(pure, s);
      }
    }
  }

  // ---- rollback segments start with the reminder -------------------------------------------------

  /** A rollback segment with a user message starts with one. */
  ghost predicate Pure(meta: seq<Role>, s: Sub) {
    var ms := Ordered(s);
    IsRollback(s) && (exists i :: 0 <= i < |ms| && LookUp(meta, ms[i]) == UserSays) ==> LookUp(meta, ms[0]) == UserSays
  }

  /** Without a failure, a segment is left alone exactly when it is pure. */
  lemma {:induction false} LeaveIffPure(meta: seq<Role>, s: Sub)
    requires !Judge(meta, s).Fail?
    ensures Judge(meta, s).Leave? <==> Pure(meta, s)
  {
    hide Ordered;
    var ms := Ordered(s);
    FirstUserIs(meta, ms, 0);
    if IsRollback(s) && |ms| >= 2 && FirstUser(meta, ms, 0).At? {
      var pos := FirstUser(meta, ms, 0).pos;
      assert pos > 0 ==> LookUp(meta, ms[..pos][0]) == BotSays;
    }
  }

  lemma {:induction false} SortedStays(ms: seq<nat>, pos: nat)
    requires pos <= |ms| && Sorting.SortedBy(ms, Self)
    ensures Sorting.SortBy(ms[pos..], Self) == ms[pos..]
  {
    SortFixed(ms[pos..]);
  }

  lemma {:induction false} SortFixed(ms: seq<nat>)
    requires Sorting.SortedBy(ms, Self)
    ensures Sorting.SortBy(ms, Self) == ms
  {
    if ms != [] {
      SortFixed(ms[1..]);
      assert ms == [ms[0]] + ms[1..];
      assert |ms| > 1 ==> ms[0] <= ms[1];
    }
  }

  lemma {:induction false} BackOrdered(s: Sub, pos: nat)
    requires pos <= |Ordered(s)|
    ensures Ordered(Back(s, pos)) == Ordered(s)[pos..]
  {
    hide NumList, Entries, Sorting.SortBy;
    Sorting.SortSorts(NumList(s.members), Self);
    EntriesNums(Ordered(s)[pos..]);
    SortedStays(Ordered(s), pos);
  }

  /** Both halves of a cut are left alone afterwards. */
  lemma {:induction false} CutIsPure(meta: seq<Role>, s: Sub)
    requires Judge(meta, s).Cut?
    ensures forall x :: x in Pieces(meta, s) ==> Judge(meta, x) == Leave && Pure(meta, x)
  {
    hide Ordered, FirstUser;
    JudgedAs(meta, s);
    var pos := Judge(meta, s).pos;
    FirstUserIs(meta, Ordered(s), 0);
    BackOrdered(s, pos);
    var back := Back(s, pos);
    assert LookUp(meta, Ordered(back)[0]) == UserSays;
    assert Judge(meta, back) == Leave by { StartsWithUser(meta, back); }
    LeaveIffPure(meta, back);
    assert !IsRollback(Stray(s, pos));
  }

  /**
   * A cut falls right before the first user message: the stray part is all the bot's and comes first, the rest starts
   * with the user, keeps kind, status and title, and the two have new ids.
   */
  lemma {:induction false} CutShape(meta: seq<Role>, s: Sub)
    requires Judge(meta, s).Cut?
    ensures var pos := Judge(meta, s).pos;
            && 0 < pos < |Ordered(s)| && Pieces(meta, s) == [Stray(s, pos), Back(s, pos)]
            && NumList(Stray(s, pos).members) == Ordered(s)[..pos] && NumList(Back(s, pos).members) == Ordered(s)[pos..]
            && (forall i :: 0 <= i < pos ==> LookUp(meta, Ordered(s)[i]) == BotSays) && LookUp(meta, Ordered(s)[pos]) == UserSays
            && Back(s, pos) == s.(id := s.id + "b", members := Back(s, pos).members)
            && (Stray(s, pos).id, Stray(s, pos).kind, Stray(s, pos).status) == (s.id + "a", "旁支", "有返工")
            && Stray(s, pos).title == "走偏：" + (if |s.title| > 12 then s.title[..12] else s.title)
  {
    hide Ordered, Entries, NumList;
    var ms := Ordered(s);
    FirstUserIs(meta, ms, 0);
    JudgedAs(meta, s);
    var pos := Judge(meta, s).pos;
    EntriesNums(ms[..pos]);
    EntriesNums(ms[pos..]);
  }

  lemma {:induction false} StartsWithUser(meta: seq<Role>, s: Sub)
    requires Ordered(s) != [] && LookUp(meta, Ordered(s)[0]) == UserSays
    ensures Judge(meta, s) == Leave
  {
    hide Ordered;
    assert FirstUser(meta, Ordered(s), 0) == At(0);
  }

  ghost predicate NoFailure(meta: seq<Role>, subs: seq<Sub>) {
    forall i :: 0 <= i < |subs| ==> !Judge(meta, subs[i]).Fail?
  }

  ghost predicate Settled(meta: seq<Role>, subs: seq<Sub>) {
    forall i :: 0 <= i < |subs| ==> Judge(meta, subs[i]) == Leave && Pure(meta, subs[i])
  }

  /** After a run every rollback segment that has a user message starts with one. */
  lemma {:induction false} PurityHolds(meta: seq<Role>, subs: seq<Sub>)
    requires NoFailure(meta, subs)
    ensures Settled(meta, Purified(meta, subs))
  {
    hide Judge, Pieces, Purified, Pure;
    if subs == [] {
      PurifiedEmpty(meta, []);
    } else {
      var before, s := subs[..|subs| - 1], subs[|subs| - 1];
      PurityHolds(meta, before);
      assert subs == before + [s];
      PurifiedNext(meta, before, s, []);
      JudgedAs(meta, s);
      if Judge(meta, s).Cut? {
        CutIsPure(meta, s);
      } else {
        LeaveIffPure(meta, s);
      }
      var pieces := Pieces(meta, s);
      forall k | 0 <= k < |pieces| ensures Judge(meta, pieces[k]) == Leave && Pure(meta, pieces[k]) {
        assert pieces[k] in pieces;
      }
    }
  }

  lemma {:induction false} SettledFixed(meta: seq<Role>, subs: seq<Sub>, edges: seq<Edge>)
    requires Settled(meta, subs)
    ensures Purified(meta, subs) == subs && Rewired(meta, subs, edges) == edges
  {
    hide Judge, Pieces, Purified, Rewired, Pure;
    if subs == [] {
      PurifiedEmpty(meta, edges);
    } else {
      var before, s := subs[..|subs| - 1], subs[|subs| - 1];
      SettledFixed(meta, before, edges);
      assert subs == before + [s];
      PurifiedNext(meta, before, s, edges);
      JudgedAs(meta, s);
    }
  }

  /** A second run fails nowhere and changes nothing. */
  lemma {:induction false} PurityIdempotent(meta: seq<Role>, subs: seq<Sub>, edges: seq<Edge>)
    requires NoFailure(meta, subs)
    ensures var subs', edges' := Purified(meta, subs), Rewired(meta, subs, edges);
            NoFailure(meta, subs') && Purified(meta, subs') == subs' && Rewired(meta, subs', edges') == edges'
  {
    hide Judge, Purified, Rewired, Pure;
    PurityHolds(meta, subs);
    SettledFixed(meta, Purified(meta, subs), Rewired(meta, subs, edges));
  }

  /** A user speaks at n: messages count from 1, and 0 reads the last. */
  ghost predicate ByUser(meta: seq<Role>, n: nat) {
    |meta| > 0 && n <= |meta| && meta[if n == 0 then |meta| - 1 else n - 1] == User
  }

  lemma {:induction false} LookUpIs(meta: seq<Role>, n: nat)
    ensures LookUp(meta, n) == UserSays <==> ByUser(meta, n)
    ensures LookUp(meta, n) == NoMessage <==> meta == [] || n > |meta|
  {
  }

  ghost predicate RollsBack(s: Sub) {
    s.status == "被纠偏" && (s.kind == "收尾" || s.kind == "旁支")
  }

  /** In the result, the first message of every rollback segment is the user's, if any of its messages is. */
  lemma {:induction false} RollbackStartsWithUser(meta: seq<Role>, subs: seq<Sub>, s: Sub, m: nat, u: nat)
    requires NoFailure(meta, subs) && s in Purified(meta, subs) && RollsBack(s)
    requires u in Has(s) && ByUser(meta, u) && m in Has(s) && forall n :: n in Has(s) ==> m <= n
    ensures ByUser(meta, m)
  {
    hide Judge, Purified, NumList, LookUp, Sorting.SortBy, ByUser;
    PurityHolds(meta, subs);
    var pure := Purified(meta, subs);
    var k :| 0 <= k < |pure| && pure[k] == s;
    assert Pure(meta, s);
    var ms := Ordered(s);
    OrderedHas(s);
    var i :| 0 <= i < |ms| && ms[i] == u;
    LookUpIs(meta, u);
    LookUpIs(meta, m);
    assert ms[0] in ms;
    var j :| 0 <= j < |ms| && ms[j] == m;
    assert Self(ms[0]) <= Self(ms[j]);
  }

  lemma {:induction false} OrderedHas(s: Sub)
    ensures (forall n :: n in Ordered(s) <==> n in Has(s)) && Sorting.SortedBy(Ordered(s), Self)
  {
    hide NumList, Sorting.SortBy;
    Sorting.SortSorts(NumList(s.members), Self);
    Sorting.SortMembers(NumList(s.members), Self);
  }

  /** Before any user message of the segment comes a number beyond the list. */
  ghost predicate RunsOff(meta: seq<Role>, s: Sub) {
    exists n: nat :: n in Has(s) && (meta == [] || n > |meta|) && forall u: nat :: u in Has(s) && u < n ==> !ByUser(meta, u)
  }

  /** It fails exactly on a rollback segment of several numbers that runs off the list. */
  lemma {:induction false} FailIff(meta: seq<Role>, s: Sub)
    ensures Judge(meta, s).Fail? <==> RollsBack(s) && |NumList(s.members)| >= 2 && RunsOff(meta, s)
  {
    hide NumList, LookUp, Sorting.SortBy, FirstUser, RunsOff, AnyBot, Has;
    Sorting.SortSorts(NumList(s.members), Self);
    SameLength(Ordered(s), NumList(s.members));
    OffEndIff(meta, s);
  }

  lemma {:induction false} OffEndIff(meta: seq<Role>, s: Sub)
    ensures FirstUser(meta, Ordered(s), 0) == OffEnd <==> RunsOff(meta, s)
  {
    hide NumList, LookUp, Sorting.SortBy, FirstUser, ByUser, Has, Ordered;
    var ms := Ordered(s);
    OrderedHas(s);
    if FirstUser(meta, ms, 0) == OffEnd {
      var n := OffEndAt(meta, s, ms);
    }
    if n: nat :| n in Has(s) && (meta == [] || n > |meta|) && forall u: nat :: u in Has(s) && u < n ==> !ByUser(meta, u) {
      NotAUser(meta, s, ms, n);
    }
  }

  lemma {:induction false} OffEndAt(meta: seq<Role>, s: Sub, ms: seq<nat>) returns (n: nat)
    requires Sorting.SortedBy(ms, Self) && (forall x :: x in ms <==> x in Has(s)) && FirstUser(meta, ms, 0) == OffEnd
    ensures n in Has(s) && (meta == [] || n > |meta|) && forall u: nat :: u in Has(s) && u < n ==> !ByUser(meta, u)
  {
    hide FirstUser, ByUser, Has, LookUp;
    FirstUserIs(meta, ms, 0);
    var p :| 0 <= p < |ms| && LookUp(meta, ms[p]) == NoMessage && forall i :: 0 <= i < p ==> LookUp(meta, ms[i]) == BotSays;
    n := ms[p];
    assert n in ms;
    LookUpIs(meta, n);
    forall u: nat | u in Has(s) && u < n ensures !ByUser(meta, u) {
      assert u in ms;
      var i :| 0 <= i < |ms| && ms[i] == u;
      Before(ms, i, p);
      LookUpIs(meta, u);
    }
  }

  lemma {:induction false} SameLength(a: seq<nat>, b: seq<nat>)
    requires multiset(a) == multiset(b)
    ensures |a| == |b|
  {
    assert |multiset(a)| == |a| && |multiset(b)| == |b|;
  }

  lemma {:induction false} Before(ms: seq<nat>, i: nat, p: nat)
    requires Sorting.SortedBy(ms, Self) && i < |ms| && p < |ms| && ms[i] < ms[p]
    ensures i < p
  {
    assert Self(ms[i]) < Self(ms[p]);
  }

  /** The scan ends at a number beyond the list when no user comes before it. */
  lemma {:induction false} NotAUser(meta: seq<Role>, s: Sub, ms: seq<nat>, n: nat)
    requires ms == Ordered(s) && Sorting.SortedBy(ms, Self) && (forall x :: x in ms <==> x in Has(s)) && n in ms && (meta == [] || n > |meta|)
    requires forall u: nat :: u in Has(s) && u < n ==> !ByUser(meta, u)
    ensures FirstUser(meta, ms, 0) == OffEnd
  {
    hide NumList, Sorting.SortBy, FirstUser, Ordered;
    FirstUserIs(meta, ms, 0);
    var p :| 0 <= p < |ms| && ms[p] == n;
    LookUpIs(meta, n);
    match FirstUser(meta, ms, 0)
    case At(pos) =>
      LookUpIs(meta, ms[pos]);
    case _ =>
  }

  // ---- edges ------------------------------------------------------------------------------------

  /** No id is given twice, and none looks like a half of another segment. */
  ghost predicate NoClash(subs: seq<Sub>) {
    && (forall i, j :: 0 <= i < j < |subs| ==> subs[i].id != subs[j].id)
    && (forall i, j :: 0 <= i < |subs| && 0 <= j < |subs| ==> subs[i].id + "a" != subs[j].id && subs[i].id + "b" != subs[j].id)
  }

  ghost predicate WasCut(meta: seq<Role>, subs: seq<Sub>, id: string) {
    exists i :: 0 <= i < |subs| && subs[i].id == id && Judge(meta, subs[i]).Cut?
  }

  ghost function Continued(meta: seq<Role>, subs: seq<Sub>, id: string): string {
    if WasCut(meta, subs, id) then id + "b" else id
  }

  /** Edges keep their place and label; an end at a segment that was cut moves to the half that goes on. */
  lemma {:induction false} EdgesFollow(meta: seq<Role>, subs: seq<Sub>, edges: seq<Edge>, k: nat)
    requires NoClash(subs) && k < |edges|
    ensures k < |Rewired(meta, subs, edges)|
    ensures Rewired(meta, subs, edges)[k] == Edge(Continued(meta, subs, edges[k].from), Continued(meta, subs, edges[k].to), edges[k].label')
  {
    hide Judge, Rewired, Continued;
    if subs == [] {
      PurifiedEmpty(meta, edges);
      NothingCut(meta, edges[k].from);
      NothingCut(meta, edges[k].to);
    } else {
      var before, s := subs[..|subs| - 1], subs[|subs| - 1];
      ClashLess(subs);
      EdgesFollow(meta, before, edges, k);
      assert subs == before + [s];
      PurifiedNext(meta, before, s, edges);
      ContinuedNext(meta, before, s, edges[k].from);
      ContinuedNext(meta, before, s, edges[k].to);
    }
  }

  lemma {:induction false} ClashLess(subs: seq<Sub>)
    requires NoClash(subs) && subs != []
    ensures NoClash(subs[..|subs| - 1])
  {
  }

  lemma {:induction false} NothingCut(meta: seq<Role>, id: string)
    ensures Continued(meta, [], id) == id
  {
  }

  lemma {:induction false} ContinuedNext(meta: seq<Role>, before: seq<Sub>, s: Sub, id: string)
    requires NoClash(before + [s])
    ensures var now := Continued(meta, before, id);
            Continued(meta, before + [s], id) == if Judge(meta, s).Cut? && now == s.id then s.id + "b" else now
  {
    hide Judge;
    var subs := before + [s];
    assert subs[|before|] == s && forall i :: 0 <= i < |before| ==> subs[i] == before[i];
    if i :| 0 <= i < |before| && before[i].id == id && Judge(meta, before[i]).Cut? {
      assert subs[i].id != subs[|before|].id && subs[i].id + "b" != subs[|before|].id;
      assert WasCut(meta, subs, id);
    } else if Judge(meta, s).Cut? && id == s.id {
      assert WasCut(meta, subs, id);
    } else {
      assert !WasCut(meta, subs, id);
    }
  }

  /** Every cut leaves an edge from the wrong turn to the half that goes back. */
  lemma {:induction false} CutIsNoted(meta: seq<Role>, subs: seq<Sub>, edges: seq<Edge>, i: nat)
    requires NoClash(subs) && i < |subs| && Judge(meta, subs[i]).Cut?
    ensures Edge(subs[i].id + "a", subs[i].id + "b", "↺返工") in Rewired(meta, subs, edges)
  {
    hide Judge, Rewired;
    var before, s := subs[..|subs| - 1], subs[|subs| - 1];
    assert subs == before + [s];
    PurifiedNext(meta, before, s, edges);
    var noted := Edge(subs[i].id + "a", subs[i].id + "b", "↺返工");
    if i < |before| {
      ClashLess(subs);
      CutIsNoted(meta, before, edges, i);
      var es := Rewired(meta, before, edges);
      var k :| 0 <= k < |es| && es[k] == noted;
      assert subs[i].id + "a" != s.id && subs[i].id + "b" != s.id;
      assert RedirectAll(es, s.id, s.id + "b")[k] == noted;
    }
  }

  /** While the loop runs: ends are named by a finished segment or by one still to come. */
  ghost predicate ClosedOver(done: seq<Sub>, rest: seq<Sub>, edges: seq<Edge>) {
    forall k :: 0 <= k < |edges| ==> Named(done, rest, edges[k].from) && Named(done, rest, edges[k].to)
  }

  ghost predicate Named(done: seq<Sub>, rest: seq<Sub>, id: string) {
    NamesSub(done, id) || NamesSub(rest, id)
  }

  lemma {:induction false} NamesLast(subs: seq<Sub>, s: Sub, id: string)
    ensures NamesSub(subs, id) ==> NamesSub(subs + [s], id)
    ensures NamesSub(subs + [s], s.id)
  {
    assert (subs + [s])[|subs|] == s;
    if i :| 0 <= i < |subs| && subs[i].id == id {
      assert (subs + [s])[i].id == id;
    }
  }

  lemma {:induction false} NamesTail(subs: seq<Sub>, id: string)
    requires subs != [] && NamesSub(subs, id)
    ensures id == subs[0].id || NamesSub(subs[1..], id)
  {
    var i :| 0 <= i < |subs| && subs[i].id == id;
    assert i > 0 ==> subs[1..][i - 1].id == id;
  }

  lemma {:induction false} CloseLeave(done: seq<Sub>, rest: seq<Sub>, edges: seq<Edge>)
    requires rest != [] && ClosedOver(done, rest, edges)
    ensures ClosedOver(done + [rest[0]], rest[1..], edges)
  {
    hide NamesSub;
    forall k | 0 <= k < |edges| ensures Named(done + [rest[0]], rest[1..], edges[k].from) && Named(done + [rest[0]], rest[1..], edges[k].to) {
      NamedOn(done, rest, edges[k].from);
      NamedOn(done, rest, edges[k].to);
    }
  }

  lemma {:induction false} NamedOn(done: seq<Sub>, rest: seq<Sub>, id: string)
    requires rest != [] && Named(done, rest, id)
    ensures Named(done + [rest[0]], rest[1..], id)
  {
    hide NamesSub;
    NamesLast(done, rest[0], id);
    if NamesSub(rest, id) {
      NamesTail(rest, id);
    }
  }

  lemma {:induction false} CloseCut(done: seq<Sub>, rest: seq<Sub>, edges: seq<Edge>, stray: Sub, back: Sub)
    requires rest != [] && ClosedOver(done, rest, edges)
    ensures ClosedOver(done + [stray, back], rest[1..], RedirectAll(edges, rest[0].id, back.id) + [Edge(stray.id, back.id, REWORK_EDGE)])
  {
    hide NamesSub;
    var was, now := rest[0].id, back.id;
    var done', edges' := done + [stray, back], RedirectAll(edges, was, now) + [Edge(stray.id, now, REWORK_EDGE)];
    assert done' == done + [stray] + [back];
    NamesLast(done, stray, stray.id);
    NamesLast(done + [stray], back, stray.id);
    forall k | 0 <= k < |edges'| ensures Named(done', rest[1..], edges'[k].from) && Named(done', rest[1..], edges'[k].to) {
      if k < |edges| {
        NamedPast(done, rest, stray, back, edges[k].from);
        NamedPast(done, rest, stray, back, edges[k].to);
      }
    }
  }

  lemma {:induction false} NamedPast(done: seq<Sub>, rest: seq<Sub>, stray: Sub, back: Sub, id: string)
    requires rest != [] && Named(done, rest, id) && NamesSub(done + [stray] + [back], back.id)
    ensures Named(done + [stray] + [back], rest[1..], if id == rest[0].id then back.id else id)
  {
    hide NamesSub;
    NamesLast(done, stray, id);
    NamesLast(done + [stray], back, id);
    if NamesSub(rest, id) {
      NamesTail(rest, id);
    }
  }

  /** Edges that only name segments still only name segments. */
  lemma {:induction false} PurityKeepsClosed(meta: seq<Role>, subs: seq<Sub>, edges: seq<Edge>)
    requires Closed(subs, edges)
    ensures Closed(Purified(meta, subs), Rewired(meta, subs, edges))
  {
    hide Judge, Pieces, Purified, Rewired;
    ClosedFrom(meta, subs, edges, |subs|);
    assert subs[..|subs|] == subs && subs[|subs|..] == [];
  }

  lemma {:induction false} ClosedFrom(meta: seq<Role>, subs: seq<Sub>, edges: seq<Edge>, n: nat)
    requires Closed(subs, edges) && n <= |subs|
    ensures ClosedOver(Purified(meta, subs[..n]), subs[n..], Rewired(meta, subs[..n], edges))
  {
    hide Judge, Pieces, Purified, Rewired, NamesSub, RedirectAll;
    if n == 0 {
      PurifiedEmpty(meta, edges);
      assert subs[..0] == [] && subs[0..] == subs;
    } else {
      ClosedFrom(meta, subs, edges, n - 1);
      var before, s, rest := subs[..n - 1], subs[n - 1], subs[n - 1..];
      assert subs[..n] == before + [s] && rest[0] == s && rest[1..] == subs[n..];
      PurifiedNext(meta, before, s, edges);
      JudgedAs(meta, s);
      if Judge(meta, s).Cut? {
        var pos := Judge(meta, s).pos;
        CloseCut(Purified(meta, before), rest, Rewired(meta, before, edges), Stray(s, pos), Back(s, pos));
      } else {
        CloseLeave(Purified(meta, before), rest, Rewired(meta, before, edges));
      }
    }
  }
}
