/** Routing a day's messages into sessions, with the model's answers as an arbitrary oracle. */
module Router {
  datatype Option<T> = None | Some(value: T)

  /**
   * A message: `control` says its text is a control command, `target` the queue slot it names, `enqueued` the slot
   * that an enqueue receipt in the text announces. An empty id or parent means there is none.
   */
  datatype Msg = Msg(id: string, parent: string, user: bool, control: bool, target: Option<nat>, enqueued: Option<nat>)

  datatype Session = Session(id: nat, first: nat)

  /** What the model says about a request: a number, or anything else, which means a new session. */
  datatype Answer = Number(n: int) | NewSession

  predicate IsRequest(e: Msg) {
    e.user && !e.control
  }

  predicate IsControl(e: Msg) {
    e.user && e.control
  }

  /** The last message with an id, as in a dictionary filled in order. */
  function IndexOf(evs: seq<Msg>, id: string): (r: Option<nat>)
    ensures r.Some? ==> r.value < |evs| && evs[r.value].id == id && forall j :: r.value < j < |evs| ==> evs[j].id != id
    ensures r.None? ==> forall j :: 0 <= j < |evs| ==> evs[j].id != id
  {
    if evs == [] then None
    else if evs[|evs| - 1].id == id then Some(|evs| - 1)
    else IndexOf(evs[..|evs| - 1], id)
  }

  function ParentOf(evs: seq<Msg>, i: nat): (r: Option<nat>)
    requires i < |evs|
    ensures r.Some? ==> r.value < |evs|
  {
    if evs[i].parent == "" then None else IndexOf(evs, evs[i].parent)
  }

  // ---- what routing means -----------------------------------------------------------------------

  /** The latest request before i. */
  function LastRequest(evs: seq<Msg>, i: nat): (r: Option<nat>)
    requires i <= |evs|
    ensures r.Some? ==> r.value < i && IsRequest(evs[r.value]) && forall j :: r.value < j < i ==> !IsRequest(evs[j])
    ensures r.None? ==> forall j :: 0 <= j < i ==> !IsRequest(evs[j])
  {
    if i == 0 then None
    else if IsRequest(evs[i - 1]) then Some(i - 1)
    else LastRequest(evs, i - 1)
  }

  predicate Binds(evs: seq<Msg>, q: nat, j: nat)
    requires j < |evs|
  {
    !IsRequest(evs[j]) && evs[j].enqueued == Some(q) && LastRequest(evs, j).Some?
  }

  /** The latest receipt before i that bound slot q. */
  function Binding(evs: seq<Msg>, q: nat, i: nat): (r: Option<nat>)
    requires i <= |evs|
    ensures r.Some? ==> r.value < i && Binds(evs, q, r.value) && forall j :: r.value < j < i ==> !Binds(evs, q, j)
    ensures r.None? ==> forall j :: 0 <= j < i ==> !Binds(evs, q, j)
  {
    if i == 0 then None
    else if Binds(evs, q, i - 1) then Some(i - 1)
    else Binding(evs, q, i - 1)
  }

  /** The message whose session a non-request takes: the request queued under its slot, else the latest request. */
  function Follows(evs: seq<Msg>, i: nat): (r: Option<nat>)
    requires i < |evs|
    ensures r.Some? ==> r.value < i && IsRequest(evs[r.value])
  {
    var e := evs[i];
    if IsControl(e) && e.target.Some? && Binding(evs, e.target.value, i + 1).Some? then
      LastRequest(evs, Binding(evs, e.target.value, i + 1).value)
    else LastRequest(evs, i)
  }

  /** Messages that get a session. */
  predicate Routed(evs: seq<Msg>, i: nat)
    requires i < |evs|
  {
    IsRequest(evs[i]) || (evs[i].id != "" && LastRequest(evs, i).Some?)
  }

  /** Sessions opened before message i. */
  function OpenBefore(sessions: seq<Session>, i: nat): nat {
    if sessions == [] then 0
    else if sessions[|sessions| - 1].first < i then |sessions|
    else OpenBefore(sessions[..|sessions| - 1], i)
  }

  /** A request decided by the message it replies to. */
  predicate Determined(evs: seq<Msg>, respectReply: bool, assign: map<nat, nat>, i: nat)
    requires i < |evs|
  {
    respectReply && ParentOf(evs, i).Some? && ParentOf(evs, i).value < i && ParentOf(evs, i).value in assign
  }

  /** The session of message i: its parent's, the model's choice among those open, a new one, or that of the request it follows. */
  ghost predicate Rule(evs: seq<Msg>, respectReply: bool, oracle: nat -> Answer, assign: map<nat, nat>, sessions: seq<Session>, i: nat)
    requires i < |evs| && i in assign
  {
    if IsRequest(evs[i]) then
      if Determined(evs, respectReply, assign, i) then assign[i] == assign[ParentOf(evs, i).value]
      else
        var open := OpenBefore(sessions, i);
        assign[i] == if open > 0 && oracle(i).Number? && 1 <= oracle(i).n <= open then oracle(i).n else open + 1
    else
      Follows(evs, i).Some? && Follows(evs, i).value in assign && assign[i] == assign[Follows(evs, i).value]
  }

  /** Ids count up from one, and later sessions open later. */
  ghost predicate Dense(sessions: seq<Session>) {
    && (forall k :: 0 <= k < |sessions| ==> sessions[k].id == k + 1)
    && (forall j, k :: 0 <= j < k < |sessions| ==> sessions[j].first < sessions[k].first)
  }

  ghost predicate DomainIs(evs: seq<Msg>, assign: map<nat, nat>, n: nat) {
    n <= |evs| && forall i: nat :: i in assign <==> i < n && Routed(evs, i)
  }

  ghost predicate ValuesIn(assign: map<nat, nat>, sessions: seq<Session>) {
    forall i :: i in assign ==> 1 <= assign[i] <= |sessions|
  }

  /** A session's opener is a request, belongs to it, and is the first that does. */
  ghost predicate Opens(evs: seq<Msg>, assign: map<nat, nat>, s: Session) {
    && s.first < |evs| && IsRequest(evs[s.first]) && s.first in assign && assign[s.first] == s.id
    && forall i :: i in assign && assign[i] == s.id ==> s.first <= i
  }

  ghost predicate Openers(evs: seq<Msg>, assign: map<nat, nat>, sessions: seq<Session>) {
    forall k :: 0 <= k < |sessions| ==> Opens(evs, assign, sessions[k])
  }

  ghost predicate Rules(evs: seq<Msg>, respectReply: bool, oracle: nat -> Answer, assign: map<nat, nat>, sessions: seq<Session>, n: nat) {
    n <= |evs| && forall i :: 0 <= i < n && i in assign ==> Rule(evs, respectReply, oracle, assign, sessions, i)
  }

  /** Everything a run guarantees after n messages. */
  ghost predicate Good(evs: seq<Msg>, respectReply: bool, oracle: nat -> Answer, assign: map<nat, nat>, sessions: seq<Session>, n: nat) {
    && Dense(sessions) && DomainIs(evs, assign, n) && ValuesIn(assign, sessions) && Openers(evs, assign, sessions)
    && Rules(evs, respectReply, oracle, assign, sessions, n)
  }

  /** What the loop remembers: the latest request's session and the slots' sessions. */
  ghost predicate Remembers(evs: seq<Msg>, assign: map<nat, nat>, last: Option<nat>, queue: map<nat, nat>, n: nat) {
    LastIs(evs, assign, last, n) && QueueIs(evs, assign, queue, n)
  }

  ghost predicate LastIs(evs: seq<Msg>, assign: map<nat, nat>, last: Option<nat>, n: nat) {
    && n <= |evs| && (last.None? <==> LastRequest(evs, n).None?)
    && (last.Some? ==> LastRequest(evs, n).value in assign && last.value == assign[LastRequest(evs, n).value])
  }

  ghost predicate QueueIs(evs: seq<Msg>, assign: map<nat, nat>, queue: map<nat, nat>, n: nat) {
    n <= |evs| && forall q: nat :: SlotIs(evs, assign, queue, n, q)
  }

  ghost predicate SlotIs(evs: seq<Msg>, assign: map<nat, nat>, queue: map<nat, nat>, n: nat, q: nat)
    requires n <= |evs|
  {
    && (q in queue <==> Binding(evs, q, n).Some?)
    && (q in queue ==> BoundTo(evs, assign, queue[q], Binding(evs, q, n).value))
  }

  ghost predicate BoundTo(evs: seq<Msg>, assign: map<nat, nat>, sid: nat, j: nat) {
    j <= |evs| && LastRequest(evs, j).Some? && LastRequest(evs, j).value in assign && assign[LastRequest(evs, j).value] == sid
  }

  // ---- the loop ---------------------------------------------------------------------------------

  method RouteDay(evs: seq<Msg>, respectReply: bool, oracle: nat -> Answer) returns (sessions: seq<Session>, assign: map<nat, nat>)
    ensures Good(evs, respectReply, oracle, assign, sessions, |evs|)
  {
    hide Good, LastIs, QueueIs, LastRequest, Binding, OpenBefore, IndexOf;
    sessions, assign := [], map[];
    var last: Option<nat>, queue: map<nat, nat> := None, map[];
    Begin(evs, respectReply, oracle);
    for i := 0 to |evs|
      invariant Good(evs, respectReply, oracle, assign, sessions, i) && Remembers(evs, assign, last, queue, i)
    {
      var e := evs[i];
      ghost var assign0, queue0 := assign, queue;
      if !IsRequest(e) {
        var sid := last;
        if e.enqueued.Some? && last.Some? {
          queue := queue[e.enqueued.value := last.value];
        }
        QueueNext(evs, assign, last, queue0, i, queue);
        if IsControl(e) && e.target.Some? && e.target.value in queue {
          sid := Some(queue[e.target.value]);
        }
        FollowsIs(evs, assign, last, queue, i, sid);
        if sid.Some? && e.id != "" {
          assign := assign[i := sid.value];
          TakeFollowed(evs, respectReply, oracle, assign0, sessions, i, sid.value);
        } else {
          LeaveOut(evs, respectReply, oracle, assign, sessions, i);
        }
        RememberMore(evs, assign0, assign, last, queue, i);
      } else {
        var parent := ParentOf(evs, i);
        OpenNow(evs, respectReply, oracle, assign, sessions, i);
        var sid: nat;
        if respectReply && parent.Some? && parent.value in assign {
          sid := assign[parent.value];
          TakeParent(evs, respectReply, oracle, assign, sessions, i);
          assign := assign[i := sid];
        } else if sessions != [] && oracle(i).Number? && 1 <= oracle(i).n <= |sessions| {
          sid := oracle(i).n;
          TakeChoice(evs, respectReply, oracle, assign, sessions, i);
          assign := assign[i := sid];
        } else {
          sid := |sessions| + 1;
          OpenNew(evs, respectReply, oracle, assign, sessions, i);
          sessions := sessions + [Session(sid, i)];
          assign := assign[i := sid];
        }
        last := Some(sid);
        RequestNext(evs, assign0, assign, queue, i, sid);
      }
    }
  }

  lemma {:induction false} Begin(evs: seq<Msg>, respectReply: bool, oracle: nat -> Answer)
    ensures Good(evs, respectReply, oracle, map[], [], 0) && Remembers(evs, map[], None, map[], 0)
  {
  }

  // ---- memory -----------------------------------------------------------------------------------

  ghost predicate Extends(assign: map<nat, nat>, assign': map<nat, nat>) {
    forall i :: i in assign ==> i in assign' && assign'[i] == assign[i]
  }

  lemma {:induction false} BindingNext(evs: seq<Msg>, q: nat, i: nat)
    requires i < |evs|
    ensures Binding(evs, q, i + 1) == if Binds(evs, q, i) then Some(i) else Binding(evs, q, i)
  {
  }

  lemma {:induction false} LastNext(evs: seq<Msg>, i: nat)
    requires i < |evs|
    ensures LastRequest(evs, i + 1) == if IsRequest(evs[i]) then Some(i) else LastRequest(evs, i)
  {
  }

  lemma {:induction false} QueueNext(evs: seq<Msg>, assign: map<nat, nat>, last: Option<nat>, queue: map<nat, nat>, i: nat, queue': map<nat, nat>)
    requires i < |evs| && !IsRequest(evs[i]) && Remembers(evs, assign, last, queue, i)
    requires queue' == if evs[i].enqueued.Some? && last.Some? then queue[evs[i].enqueued.value := last.value] else queue
    ensures QueueIs(evs, assign, queue', i + 1)
  {
    hide LastRequest, Binding;
    var n := i + 1;
    forall q: nat ensures SlotIs(evs, assign, queue', n, q) {
      assert SlotIs(evs, assign, queue, i, q);
      BindingNext(evs, q, i);
      if Binds(evs, q, i) {
        assert BoundTo(evs, assign, last.value, i);
      }
    }
  }

  lemma {:induction false} FollowsIs(evs: seq<Msg>, assign: map<nat, nat>, last: Option<nat>, queue: map<nat, nat>, i: nat, sid: Option<nat>)
    requires i < |evs| && !IsRequest(evs[i]) && QueueIs(evs, assign, queue, i + 1) && LastIs(evs, assign, last, i)
    requires var e := evs[i];
             sid == if IsControl(e) && e.target.Some? && e.target.value in queue then Some(queue[e.target.value]) else last
    ensures sid.Some? <==> LastRequest(evs, i).Some?
    ensures sid.Some? ==> Follows(evs, i).Some? && Follows(evs, i).value in assign && assign[Follows(evs, i).value] == sid.value
  {
    hide LastRequest, Binding;
    var e := evs[i];
    if IsControl(e) && e.target.Some? {
      var q := e.target.value;
      assert SlotIs(evs, assign, queue, i + 1, q);
      if q in queue {
        var j := Binding(evs, q, i + 1).value;
        assert BoundTo(evs, assign, queue[q], j);
        RequestStays(evs, j, i);
      }
    }
  }

  lemma {:induction false} QueueStays(evs: seq<Msg>, assign: map<nat, nat>, assign': map<nat, nat>, queue: map<nat, nat>, n: nat)
    requires QueueIs(evs, assign, queue, n) && Extends(assign, assign')
    ensures QueueIs(evs, assign', queue, n)
  {
    hide LastRequest, Binding;
    forall q: nat ensures SlotIs(evs, assign', queue, n, q) {
      assert SlotIs(evs, assign, queue, n, q);
    }
  }

  lemma {:induction false} RememberMore(evs: seq<Msg>, assign: map<nat, nat>, assign': map<nat, nat>, last: Option<nat>, queue: map<nat, nat>, i: nat)
    requires i < |evs| && !IsRequest(evs[i]) && QueueIs(evs, assign, queue, i + 1) && Extends(assign, assign') && LastIs(evs, assign, last, i)
    ensures Remembers(evs, assign', last, queue, i + 1)
  {
    hide LastRequest, Binding, QueueIs;
    LastNext(evs, i);
    QueueStays(evs, assign, assign', queue, i + 1);
  }

  lemma {:induction false} RequestNext(evs: seq<Msg>, assign: map<nat, nat>, assign': map<nat, nat>, queue: map<nat, nat>, i: nat, sid: nat)
    requires i < |evs| && IsRequest(evs[i]) && QueueIs(evs, assign, queue, i) && Extends(assign, assign') && i in assign' && assign'[i] == sid
    ensures Remembers(evs, assign', Some(sid), queue, i + 1)
  {
    hide LastRequest, Binding;
    LastNext(evs, i);
    QueueStays(evs, assign, assign', queue, i);
    var n := i + 1;
    forall q: nat ensures SlotIs(evs, assign', queue, n, q) {
      assert SlotIs(evs, assign', queue, i, q);
      BindingNext(evs, q, i);
    }
  }

  // ---- sessions ---------------------------------------------------------------------------------

  lemma {:induction false} OpenAll(sessions: seq<Session>, i: nat)
    requires sessions == [] || sessions[|sessions| - 1].first < i
    ensures OpenBefore(sessions, i) == |sessions|
  {
  }

  lemma {:induction false} OpenSnoc(sessions: seq<Session>, s: Session, i: nat)
    requires i <= s.first
    ensures OpenBefore(sessions + [s], i) == OpenBefore(sessions, i)
  {
    assert (sessions + [s])[..|sessions|] == sessions;
  }

  /** When a message is reached, all sessions were opened before it, and its parent, if assigned, came before. */
  lemma {:induction false} OpenNow(evs: seq<Msg>, respectReply: bool, oracle: nat -> Answer, assign: map<nat, nat>, sessions: seq<Session>, i: nat)
    requires i < |evs| && Good(evs, respectReply, oracle, assign, sessions, i)
    ensures OpenBefore(sessions, i) == |sessions| && i !in assign
    ensures respectReply && ParentOf(evs, i).Some? && ParentOf(evs, i).value in assign <==> Determined(evs, respectReply, assign, i)
  {
    hide Rules, LastRequest, ValuesIn, OpenBefore, IndexOf;
    if sessions != [] {
      assert Opens(evs, assign, sessions[|sessions| - 1]);
    }
    OpenAll(sessions, i);
  }

  /** Earlier messages are judged the same after one more assignment. */
  lemma {:induction false} RulesStay(evs: seq<Msg>, respectReply: bool, oracle: nat -> Answer, assign: map<nat, nat>, sessions: seq<Session>, i: nat,
                                     sid: nat, sessions': seq<Session>)
    requires i < |evs| && DomainIs(evs, assign, i) && Rules(evs, respectReply, oracle, assign, sessions, i)
    requires sessions' == sessions || sessions' == sessions + [Session(sid, i)]
    requires Rule(evs, respectReply, oracle, assign[i := sid], sessions', i)
    ensures Rules(evs, respectReply, oracle, assign[i := sid], sessions', i + 1)
  {
    hide LastRequest, Binding, OpenBefore, IndexOf, Routed;
    var assign' := assign[i := sid];
    forall j | 0 <= j < i + 1 && j in assign' ensures Rule(evs, respectReply, oracle, assign', sessions', j) {
      if j < i {
        assert Rule(evs, respectReply, oracle, assign, sessions, j);
        OpenSnoc(sessions, Session(sid, i), j);
      }
    }
  }

  lemma {:induction false} DomainNext(evs: seq<Msg>, assign: map<nat, nat>, i: nat, sid: nat)
    requires i < |evs| && DomainIs(evs, assign, i) && Routed(evs, i)
    ensures DomainIs(evs, assign[i := sid], i + 1)
  {
    hide Routed;
  }

  lemma {:induction false} OpenersStay(evs: seq<Msg>, assign: map<nat, nat>, sessions: seq<Session>, i: nat, sid: nat)
    requires Openers(evs, assign, sessions) && i !in assign && (forall j :: j in assign ==> j < i)
    ensures Openers(evs, assign[i := sid], sessions)
  {
    forall k | 0 <= k < |sessions| ensures Opens(evs, assign[i := sid], sessions[k]) {
      assert Opens(evs, assign, sessions[k]);
    }
  }

  /** One more message in a session that is already open. */
  lemma {:induction false} TakeOpen(evs: seq<Msg>, respectReply: bool, oracle: nat -> Answer, assign: map<nat, nat>, sessions: seq<Session>, i: nat, sid: nat)
    requires i < |evs| && Good(evs, respectReply, oracle, assign, sessions, i) && Routed(evs, i) && 1 <= sid <= |sessions|
    requires Rule(evs, respectReply, oracle, assign[i := sid], sessions, i)
    ensures Good(evs, respectReply, oracle, assign[i := sid], sessions, i + 1)
  {
    hide Rule, Rules, Routed, Openers, Dense, LastRequest;
    RulesStay(evs, respectReply, oracle, assign, sessions, i, sid, sessions);
    DomainNext(evs, assign, i, sid);
    OpenersStay(evs, assign, sessions, i, sid);
  }

  lemma {:induction false} TakeFollowed(evs: seq<Msg>, respectReply: bool, oracle: nat -> Answer, assign: map<nat, nat>, sessions: seq<Session>, i: nat, sid: nat)
    requires i < |evs| && Good(evs, respectReply, oracle, assign, sessions, i) && !IsRequest(evs[i]) && evs[i].id != "" && LastRequest(evs, i).Some?
    requires Follows(evs, i).Some? && Follows(evs, i).value in assign && assign[Follows(evs, i).value] == sid
    ensures Good(evs, respectReply, oracle, assign[i := sid], sessions, i + 1) && Extends(assign, assign[i := sid])
  {
    hide Rules, Openers, Dense, LastRequest, Follows, OpenBefore;
    FollowsEarlier(evs, i);
    TakeOpen(evs, respectReply, oracle, assign, sessions, i, sid);
  }

  lemma {:induction false} FollowsEarlier(evs: seq<Msg>, i: nat)
    requires i < |evs| && Follows(evs, i).Some?
    ensures Follows(evs, i).value < i
  {
  }

  lemma {:induction false} LeaveOut(evs: seq<Msg>, respectReply: bool, oracle: nat -> Answer, assign: map<nat, nat>, sessions: seq<Session>, i: nat)
    requires i < |evs| && Good(evs, respectReply, oracle, assign, sessions, i) && !Routed(evs, i)
    ensures Good(evs, respectReply, oracle, assign, sessions, i + 1) && Extends(assign, assign)
  {
    hide Rule, Routed, Openers, Dense;
  }

  lemma {:induction false} TakeParent(evs: seq<Msg>, respectReply: bool, oracle: nat -> Answer, assign: map<nat, nat>, sessions: seq<Session>, i: nat)
    requires i < |evs| && Good(evs, respectReply, oracle, assign, sessions, i) && IsRequest(evs[i]) && Determined(evs, respectReply, assign, i)
    ensures var sid := assign[ParentOf(evs, i).value];
            Good(evs, respectReply, oracle, assign[i := sid], sessions, i + 1) && Extends(assign, assign[i := sid])
  {
    hide Rules, Openers, Dense, LastRequest, OpenBefore, IndexOf;
    TakeOpen(evs, respectReply, oracle, assign, sessions, i, assign[ParentOf(evs, i).value]);
  }

  lemma {:induction false} TakeChoice(evs: seq<Msg>, respectReply: bool, oracle: nat -> Answer, assign: map<nat, nat>, sessions: seq<Session>, i: nat)
    requires i < |evs| && Good(evs, respectReply, oracle, assign, sessions, i) && IsRequest(evs[i]) && !Determined(evs, respectReply, assign, i)
    requires OpenBefore(sessions, i) == |sessions| && oracle(i).Number? && 1 <= oracle(i).n <= |sessions|
    ensures Good(evs, respectReply, oracle, assign[i := oracle(i).n], sessions, i + 1) && Extends(assign, assign[i := oracle(i).n])
  {
    hide Rules, Openers, Dense, LastRequest, OpenBefore, IndexOf;
    TakeOpen(evs, respectReply, oracle, assign, sessions, i, oracle(i).n);
  }

  lemma {:induction false} OpenNew(evs: seq<Msg>, respectReply: bool, oracle: nat -> Answer, assign: map<nat, nat>, sessions: seq<Session>, i: nat)
    requires i < |evs| && Good(evs, respectReply, oracle, assign, sessions, i) && IsRequest(evs[i]) && !Determined(evs, respectReply, assign, i)
    requires OpenBefore(sessions, i) == |sessions| && !(sessions != [] && oracle(i).Number? && 1 <= oracle(i).n <= |sessions|)
    ensures var sid := |sessions| + 1;
            Good(evs, respectReply, oracle, assign[i := sid], sessions + [Session(sid, i)], i + 1) && Extends(assign, assign[i := sid])
  {
    hide Rules, LastRequest, OpenBefore, IndexOf, Openers;
    var sid := |sessions| + 1;
    var s := Session(sid, i);
    OpenSnoc(sessions, s, i);
    RulesStay(evs, respectReply, oracle, assign, sessions, i, sid, sessions + [s]);
    DomainNext(evs, assign, i, sid);
    OpenersStay(evs, assign, sessions, i, sid);
    NewOpener(evs, assign, sessions, i);
    AllEarlier(evs, assign, sessions, i);
  }

  lemma {:induction false} NewOpener(evs: seq<Msg>, assign: map<nat, nat>, sessions: seq<Session>, i: nat)
    requires i < |evs| && IsRequest(evs[i]) && ValuesIn(assign, sessions) && Openers(evs, assign[i := |sessions| + 1], sessions)
    ensures Openers(evs, assign[i := |sessions| + 1], sessions + [Session(|sessions| + 1, i)])
  {
    var all, assign' := sessions + [Session(|sessions| + 1, i)], assign[i := |sessions| + 1];
    forall k | 0 <= k < |all| ensures Opens(evs, assign', all[k]) {
      if k < |sessions| {
        assert all[k] == sessions[k] && Opens(evs, assign', sessions[k]);
      }
    }
  }

  lemma {:induction false} AllEarlier(evs: seq<Msg>, assign: map<nat, nat>, sessions: seq<Session>, i: nat)
    requires i < |evs| && DomainIs(evs, assign, i) && Openers(evs, assign, sessions)
    ensures forall k :: 0 <= k < |sessions| ==> sessions[k].first < i
  {
    hide Routed;
    forall k | 0 <= k < |sessions| ensures sessions[k].first < i {
      assert Opens(evs, assign, sessions[k]);
    }
  }

  // ---- consequences -----------------------------------------------------------------------------

  /** Every request has a session, and every session has at least its opener. */
  lemma {:induction false} RequestsRouted(evs: seq<Msg>, respectReply: bool, oracle: nat -> Answer, assign: map<nat, nat>, sessions: seq<Session>, i: nat)
    requires Good(evs, respectReply, oracle, assign, sessions, |evs|) && i < |evs| && IsRequest(evs[i])
    ensures i in assign && 1 <= assign[i] <= |sessions| && sessions[assign[i] - 1].id == assign[i] && sessions[assign[i] - 1].first <= i
  {
    hide Rules, LastRequest;
    assert Routed(evs, i);
    assert Opens(evs, assign, sessions[assign[i] - 1]);
  }

  /** Message i replies to p, the last message with the id it names. */
  ghost predicate RepliesTo(evs: seq<Msg>, i: nat, p: nat) {
    i < |evs| && p < |evs| && evs[i].parent == evs[p].id != "" && forall j :: p < j < |evs| ==> evs[j].id != evs[p].id
  }

  lemma {:induction false} ParentIs(evs: seq<Msg>, i: nat, p: nat)
    requires i < |evs|
    ensures ParentOf(evs, i) == Some(p) <==> RepliesTo(evs, i, p)
  {
    hide IndexOf;
  }

  /** A request that replies to an already assigned message takes its session. */
  lemma {:induction false} RepliesFollow(evs: seq<Msg>, oracle: nat -> Answer, assign: map<nat, nat>, sessions: seq<Session>, i: nat, p: nat)
    requires Good(evs, true, oracle, assign, sessions, |evs|) && i < |evs| && IsRequest(evs[i])
    requires RepliesTo(evs, i, p) && p < i && Routed(evs, p)
    ensures i in assign && p in assign && assign[i] == assign[p]
  {
    hide LastRequest, IndexOf, OpenBefore, Dense, Openers, ValuesIn;
    ParentIs(evs, i, p);
    assert Routed(evs, i);
    assert Rule(evs, true, oracle, assign, sessions, i);
  }

  /** A control command on a bound slot takes the session of the request that the slot was last bound to. */
  lemma {:induction false} ControlFollowsSlot(evs: seq<Msg>, respectReply: bool, oracle: nat -> Answer, assign: map<nat, nat>, sessions: seq<Session>, i: nat, q: nat, j: nat)
    requires Good(evs, respectReply, oracle, assign, sessions, |evs|) && i < |evs| && IsControl(evs[i]) && evs[i].id != ""
    requires evs[i].target == Some(q) && j <= i && Binds(evs, q, j) && forall k :: j < k <= i ==> !Binds(evs, q, k)
    ensures i in assign && LastRequest(evs, j).value in assign && assign[i] == assign[LastRequest(evs, j).value]
  {
    hide OpenBefore, IndexOf, Dense, Openers, ValuesIn;
    var b := Binding(evs, q, i + 1);
    assert b == Some(j);
    assert LastRequest(evs, i).Some? by { RequestStays(evs, j, i); }
    assert Routed(evs, i);
    assert Rule(evs, respectReply, oracle, assign, sessions, i);
  }

  lemma {:induction false} RequestStays(evs: seq<Msg>, j: nat, i: nat)
    requires j <= i <= |evs| && LastRequest(evs, j).Some?
    ensures LastRequest(evs, i).Some?
  {
    assert IsRequest(evs[LastRequest(evs, j).value]);
  }

  /** Requests that answer one another, each a reply to an earlier one. */
  ghost predicate Chain(evs: seq<Msg>, p: seq<nat>) {
    && p != [] && (forall k :: 0 <= k < |p| ==> p[k] < |evs| && IsRequest(evs[p[k]]))
    && (forall k :: 1 <= k < |p| ==> p[k - 1] < p[k] && RepliesTo(evs, p[k], p[k - 1]))
  }

  /** A whole chain of replies is in one session. */
  lemma {:induction false} ChainStaysTogether(evs: seq<Msg>, oracle: nat -> Answer, assign: map<nat, nat>, sessions: seq<Session>, p: seq<nat>)
    requires Good(evs, true, oracle, assign, sessions, |evs|) && Chain(evs, p)
    ensures p[0] in assign && p[|p| - 1] in assign && assign[p[0]] == assign[p[|p| - 1]]
  {
    hide IndexOf, Rules, Dense, Openers, ValuesIn, LastRequest, RepliesTo;
    var n := |p| - 1;
    assert Routed(evs, p[n]);
    if n > 0 {
      assert Routed(evs, p[n - 1]);
      RepliesFollow(evs, oracle, assign, sessions, p[n], p[n - 1]);
      ChainStaysTogether(evs, oracle, assign, sessions, p[..n]);
    }
  }

  /** Control commands on one slot go together as long as the slot is not bound anew. */
  lemma {:induction false} ControlsAgree(evs: seq<Msg>, respectReply: bool, oracle: nat -> Answer, assign: map<nat, nat>, sessions: seq<Session>, i: nat, k: nat, q: nat, j: nat)
    requires Good(evs, respectReply, oracle, assign, sessions, |evs|) && j <= i <= k < |evs| && Binds(evs, q, j)
    requires IsControl(evs[i]) && evs[i].id != "" && evs[i].target == Some(q) && IsControl(evs[k]) && evs[k].id != "" && evs[k].target == Some(q)
    requires forall m :: j < m <= k ==> !Binds(evs, q, m)
    ensures i in assign && k in assign && assign[i] == assign[k]
  {
    hide Good, LastRequest, Binds;
    ControlFollowsSlot(evs, respectReply, oracle, assign, sessions, i, q, j);
    ControlFollowsSlot(evs, respectReply, oracle, assign, sessions, k, q, j);
  }

  // ---- what the model decides -------------------------------------------------------------------

  /** A request that replies to an earlier message with a session. */
  predicate Replied(evs: seq<Msg>, respectReply: bool, i: nat)
    requires i < |evs|
  {
    respectReply && ParentOf(evs, i).Some? && ParentOf(evs, i).value < i && Routed(evs, ParentOf(evs, i).value)
  }

  ghost predicate SameAnswers(evs: seq<Msg>, respectReply: bool, o: nat -> Answer, o': nat -> Answer) {
    forall i: nat :: i < |evs| && IsRequest(evs[i]) && !Replied(evs, respectReply, i) ==> o(i) == o'(i)
  }

  lemma {:induction false} OpenCount(sessions: seq<Session>, i: nat)
    requires Dense(sessions)
    ensures OpenBefore(sessions, i) <= |sessions|
    ensures forall k :: 0 <= k < |sessions| ==> (k < OpenBefore(sessions, i) <==> sessions[k].first < i)
  {
    if sessions != [] && sessions[|sessions| - 1].first >= i {
      OpenCount(sessions[..|sessions| - 1], i);
    }
  }

  lemma {:induction false} OpenGrows(sessions: seq<Session>, i: nat)
    requires Dense(sessions)
    ensures var m := OpenBefore(sessions, i);
            OpenBefore(sessions, i + 1) == if m < |sessions| && sessions[m].first == i then m + 1 else m
  {
    OpenCount(sessions, i);
    if sessions != [] && sessions[|sessions| - 1].first >= i {
      var rest := sessions[..|sessions| - 1];
      OpenCount(rest, i);
      if sessions[|sessions| - 1].first > i {
        OpenGrows(rest, i);
      }
    }
  }

  /** Message i opens a session exactly when it is given the next number. */
  lemma {:induction false} OpenNext(evs: seq<Msg>, assign: map<nat, nat>, sessions: seq<Session>, i: nat)
    requires Dense(sessions) && ValuesIn(assign, sessions) && Openers(evs, assign, sessions)
    ensures var m := OpenBefore(sessions, i); OpenBefore(sessions, i + 1) == if i in assign && assign[i] == m + 1 then m + 1 else m
  {
    hide OpenBefore, IsRequest;
    var m := OpenBefore(sessions, i);
    OpenCount(sessions, i);
    OpenGrows(sessions, i);
    if m < |sessions| {
      assert Opens(evs, assign, sessions[m]) && sessions[m].first >= i;
    }
  }

  ghost predicate Agree(evs: seq<Msg>, a: map<nat, nat>, s: seq<Session>, a': map<nat, nat>, s': seq<Session>, n: nat) {
    OpenBefore(s, n) == OpenBefore(s', n) && forall i: nat :: i < n && i in a ==> i in a' && a[i] == a'[i]
  }

  lemma {:induction false} AgreeAt(evs: seq<Msg>, respectReply: bool, o: nat -> Answer, o': nat -> Answer,
                                   a: map<nat, nat>, s: seq<Session>, a': map<nat, nat>, s': seq<Session>, i: nat)
    requires i < |evs| && i in a && i in a' && DomainIs(evs, a, |evs|) && DomainIs(evs, a', |evs|) && SameAnswers(evs, respectReply, o, o')
    requires Rule(evs, respectReply, o, a, s, i) && Rule(evs, respectReply, o', a', s', i) && Agree(evs, a, s, a', s', i)
    ensures a[i] == a'[i]
  {
    hide OpenBefore, IndexOf, LastRequest, Binding;
    if IsRequest(evs[i]) {
      assert Determined(evs, respectReply, a, i) <==> Replied(evs, respectReply, i);
      assert Determined(evs, respectReply, a', i) <==> Replied(evs, respectReply, i);
    }
  }

  lemma {:induction false} AgreeUpTo(evs: seq<Msg>, respectReply: bool, o: nat -> Answer, o': nat -> Answer,
                                     a: map<nat, nat>, s: seq<Session>, a': map<nat, nat>, s': seq<Session>, n: nat)
    requires Good(evs, respectReply, o, a, s, |evs|) && Good(evs, respectReply, o', a', s', |evs|) && SameAnswers(evs, respectReply, o, o') && n <= |evs|
    ensures Agree(evs, a, s, a', s', n)
  {
    hide OpenBefore, SameAnswers, Rule, Dense, ValuesIn, Openers, Routed;
    if n > 0 {
      var i := n - 1;
      AgreeUpTo(evs, respectReply, o, o', a, s, a', s', i);
      if i in a {
        AgreeAt(evs, respectReply, o, o', a, s, a', s', i);
      }
      OpenNext(evs, a, s, i);
      OpenNext(evs, a', s', i);
    } else {
      OpenCount(s, 0);
      OpenCount(s', 0);
      NoneOpen(s);
      NoneOpen(s');
    }
  }

  lemma {:induction false} NoneOpen(sessions: seq<Session>)
    requires Dense(sessions)
    ensures OpenBefore(sessions, 0) == 0
  {
    hide OpenBefore;
    OpenCount(sessions, 0);
    assert sessions != [] ==> sessions[0].first >= 0;
  }

  /** A run is settled by the answers to the requests that are not decided by a reply; no other answer matters. */
  lemma {:induction false} OnlyOpenRequestsAsked(evs: seq<Msg>, respectReply: bool, o: nat -> Answer, o': nat -> Answer,
                                                 a: map<nat, nat>, s: seq<Session>, a': map<nat, nat>, s': seq<Session>)
    requires Good(evs, respectReply, o, a, s, |evs|) && Good(evs, respectReply, o', a', s', |evs|) && SameAnswers(evs, respectReply, o, o')
    ensures a == a' && s == s'
  {
    hide OpenBefore, SameAnswers, Rules, Routed, IsRequest;
    var n := |evs|;
    AgreeUpTo(evs, respectReply, o, o', a, s, a', s', n);
    assert a == a';
    OpenCount(s, n);
    OpenCount(s', n);
    AllOpen(evs, a, s);
    AllOpen(evs, a', s');
    forall k | 0 <= k < |s| ensures s[k] == s'[k] {
      assert Opens(evs, a, s[k]) && Opens(evs, a', s'[k]);
    }
  }

  lemma {:induction false} AllOpen(evs: seq<Msg>, assign: map<nat, nat>, sessions: seq<Session>)
    requires Dense(sessions) && Openers(evs, assign, sessions)
    ensures OpenBefore(sessions, |evs|) == |sessions|
  {
    hide OpenBefore;
    OpenCount(sessions, |evs|);
    if sessions != [] {
      assert Opens(evs, assign, sessions[|sessions| - 1]);
    }
  }
}
