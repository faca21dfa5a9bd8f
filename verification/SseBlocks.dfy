/** What a streamed message depends on: per block, the pieces of each kind put together - not how they were cut or mixed. */
module SseBlocks {
  import opened Sse
  import Framing = SseFraming

  // ---- one block at a time ----------------------------------------------------------------------

  /** What the loop holds for one index. */
  datatype Slot = Slot(block: Option<Block>, partial: Option<string>)

  function SlotOf(st: State, i: nat): Slot {
    Slot(if i < |st.blocks| then st.blocks[i] else None, if i in st.partial then Some(st.partial[i]) else None)
  }

  function Gathered(s: Slot): string {
    if s.partial.Some? then s.partial.value else ""
  }

  /** The effect of an event with this slot's index on the slot alone. */
  function SlotStep(parse: Parse, s: Slot, ev: Ev): Option<Slot> {
    match ev
    case BlockStart(_, b) => Some(Slot(Some(b), Some("")))
    case Delta(_, k, piece) =>
      if k == UnknownDelta then Some(s)
      else if k == JsonDelta then Some(s.(partial := Some(Gathered(s) + piece)))
      else if s.block.None? || Held(s.block.value, Field(k)).None? then None
      else Some(s.(block := Some(s.block.value[Field(k) := Str(Held(s.block.value, Field(k)).value + piece)])))
    case BlockStop(_) =>
      if Gathered(s) == "" then Some(s)
      else if s.block.None? then None
      else Some(s.(block := Some(WithInput(parse, s.block.value, Gathered(s)))))
    case _ => Some(s)
  }

  function SlotRun(parse: Parse, s: Slot, evs: seq<Ev>): Option<Slot> {
    if evs == [] then Some(s) else
      var before := SlotRun(parse, s, evs[..|evs| - 1]);
      if before.None? then None else SlotStep(parse, before.value, evs[|evs| - 1])
  }

  lemma {:induction false} SlotNext(parse: Parse, s: Slot, evs: seq<Ev>, ev: Ev)
    ensures SlotRun(parse, s, evs + [ev]) ==
            if SlotRun(parse, s, evs).None? then None else SlotStep(parse, SlotRun(parse, s, evs).value, ev)
  {
    hide SlotStep;
    assert (evs + [ev])[..|evs|] == evs;
  }

  lemma {:induction false} SlotNone(parse: Parse, s: Slot)
    ensures SlotRun(parse, s, []) == Some(s)
  {
  }

  predicate Indexed(ev: Ev) {
    ev.BlockStart? || ev.Delta? || ev.BlockStop?
  }

  /** The events of one index, in order. */
  function Proj(evs: seq<Ev>, i: nat): seq<Ev> {
    if evs == [] then [] else
      var last := evs[|evs| - 1];
      Proj(evs[..|evs| - 1], i) + (if Indexed(last) && last.index == i then [last] else [])
  }

  lemma {:induction false} ProjNext(evs: seq<Ev>, ev: Ev, i: nat)
    ensures Proj(evs + [ev], i) == if Indexed(ev) && ev.index == i then Proj(evs, i) + [ev] else Proj(evs, i)
  {
    assert (evs + [ev])[..|evs|] == evs;
  }

  lemma {:induction false} ProjNone(i: nat)
    ensures Proj([], i) == []
  {
  }

  /** The events about the message as a whole. */
  function Whole(evs: seq<Ev>): seq<Ev> {
    if evs == [] then [] else
      var last := evs[|evs| - 1];
      Whole(evs[..|evs| - 1]) + (if last.MessageDelta? then [last] else [])
  }

  function MsgRun(m: Msg, evs: seq<Ev>): Msg {
    if evs == [] then m else
      var last, before := evs[|evs| - 1], MsgRun(m, evs[..|evs| - 1]);
      if last.MessageDelta? then Updated(before, last.fields, last.usage) else before
  }

  lemma {:induction false} WholeNext(m: Msg, evs: seq<Ev>, ev: Ev)
    ensures Whole(evs + [ev]) == if ev.MessageDelta? then Whole(evs) + [ev] else Whole(evs)
    ensures MsgRun(m, evs + [ev]) == if ev.MessageDelta? then Updated(MsgRun(m, evs), ev.fields, ev.usage) else MsgRun(m, evs)
  {
    hide Updated;
    assert (evs + [ev])[..|evs|] == evs;
  }

  lemma {:induction false} WholeNone(m: Msg)
    ensures Whole([]) == [] && MsgRun(m, []) == m
  {
  }

  /** Only the events about the whole message matter to it. */
  lemma {:induction false} MsgOfWhole(m: Msg, evs: seq<Ev>)
    ensures MsgRun(m, evs) == MsgRun(m, Whole(evs))
  {
    hide MsgRun, Whole, Updated;
    if evs == [] {
      WholeNone(m);
    } else {
      var before, last := evs[..|evs| - 1], evs[|evs| - 1];
      MsgOfWhole(m, before);
      assert evs == before + [last];
      WholeNext(m, before, last);
      WholeNext(m, Whole(before), last);
    }
  }

  // ---- what the message deltas make of the message -------------------------------------------------

  type Fields = map<string, Json>

  /** What each event lays over the message's fields, and over its usage counters. */
  ghost function FieldLayers(evs: seq<Ev>): (r: seq<Fields>)
    ensures |r| == |evs| && forall i :: 0 <= i < |evs| ==> r[i] == if evs[i].MessageDelta? then evs[i].fields else map[]
  {
    seq(|evs|, i requires 0 <= i < |evs| => if evs[i].MessageDelta? then evs[i].fields else map[])
  }

  ghost function UsageLayers(evs: seq<Ev>): (r: seq<Fields>)
    ensures |r| == |evs| && forall i :: 0 <= i < |evs| ==> r[i] == if evs[i].MessageDelta? then evs[i].usage else map[]
  {
    seq(|evs|, i requires 0 <= i < |evs| => if evs[i].MessageDelta? then evs[i].usage else map[])
  }

  /** Layer k is the last that has the field. */
  ghost predicate TopLayer(layers: seq<Fields>, f: string, k: nat) {
    k < |layers| && f in layers[k] && forall j :: k < j < |layers| ==> f !in layers[j]
  }

  ghost predicate NoLayer(layers: seq<Fields>, f: string) {
    forall j :: 0 <= j < |layers| ==> f !in layers[j]
  }

  /** Every field is that of the last layer that has it, and where none has it, that of the base. */
  ghost predicate LastWins(base: Fields, layers: seq<Fields>, r: Fields) {
    forall f :: FieldLastWins(base, layers, r, f)
  }

  ghost predicate FieldLastWins(base: Fields, layers: seq<Fields>, r: Fields, f: string) {
    && (forall k: nat :: TopLayer(layers, f, k) ==> f in r && r[f] == layers[k][f])
    && (NoLayer(layers, f) ==> (f in r <==> f in base) && (f in r ==> r[f] == base[f]))
  }

  ghost function Counters(m: Msg): Fields {
    if m.usage.Some? then m.usage.value else map[]
  }

  /**
   * The message deltas among the events turn m0 into m, content aside: of each field and each counter the last one given
   * counts, and there is usage if there was some or some delta had any.
   */
  ghost predicate Spells(m0: Msg, evs: seq<Ev>, m: Msg) {
    && LastWins(m0.fields, FieldLayers(evs), m.fields)
    && LastWins(Counters(m0), UsageLayers(evs), Counters(m))
    && (m.usage.Some? <==> m0.usage.Some? || exists k :: 0 <= k < |evs| && UsageLayers(evs)[k] != map[])
  }

  lemma {:induction false} LayerNext(base: Fields, layers: seq<Fields>, r: Fields, l: Fields)
    requires LastWins(base, layers, r)
    ensures LastWins(base, layers + [l], r + l)
  {
    var layers' := layers + [l];
    forall f ensures FieldLastWins(base, layers', r + l, f) {
      assert FieldLastWins(base, layers, r, f);
      forall k: nat | TopLayer(layers', f, k) ensures f in r + l && (r + l)[f] == layers'[k][f] {
        if k < |layers| {
          assert layers'[|layers|] == l;
          assert TopLayer(layers, f, k) by {
            forall j | k < j < |layers| ensures f !in layers[j] {
              assert layers'[j] == layers[j];
            }
          }
        }
      }
      if NoLayer(layers', f) {
        assert layers'[|layers|] == l;
        forall j | 0 <= j < |layers| ensures f !in layers[j] {
          assert layers'[j] == layers[j];
        }
      }
    }
  }

  lemma {:induction false} LayerNone(base: Fields)
    ensures LastWins(base, [], base)
  {
  }

  lemma {:induction false} SomeTop(layers: seq<Fields>, f: string)
    ensures NoLayer(layers, f) || exists k: nat :: TopLayer(layers, f, k)
  {
    if layers != [] {
      var n := |layers| - 1;
      if f in layers[n] {
        assert TopLayer(layers, f, n);
      } else {
        SomeTop(layers[..n], f);
        if k: nat :| TopLayer(layers[..n], f, k) {
          assert TopLayer(layers, f, k);
        }
      }
    }
  }

  /** So the result is determined. */
  lemma {:induction false} LastWinsUnique(base: Fields, layers: seq<Fields>, r: Fields, r': Fields)
    requires LastWins(base, layers, r) && LastWins(base, layers, r')
    ensures r == r'
  {
    forall f ensures (f in r <==> f in r') && (f in r ==> r[f] == r'[f]) {
      assert FieldLastWins(base, layers, r, f) && FieldLastWins(base, layers, r', f);
      SomeTop(layers, f);
    }
  }

  lemma {:induction false} SpellsNext(m0: Msg, evs: seq<Ev>, m: Msg, ev: Ev)
    requires Spells(m0, evs, m)
    ensures Spells(m0, evs + [ev], if ev.MessageDelta? then Updated(m, ev.fields, ev.usage) else m)
  {
    hide LastWins;
    var evs' := evs + [ev];
    var f, u := if ev.MessageDelta? then ev.fields else map[], if ev.MessageDelta? then ev.usage else map[];
    var m' := if ev.MessageDelta? then Updated(m, ev.fields, ev.usage) else m;
    assert FieldLayers(evs') == FieldLayers(evs) + [f] && UsageLayers(evs') == UsageLayers(evs) + [u];
    LayerNext(m0.fields, FieldLayers(evs), m.fields, f);
    LayerNext(Counters(m0), UsageLayers(evs), Counters(m), u);
    assert m'.fields == m.fields + f && Counters(m') == Counters(m) + u;
    if k :| 0 <= k < |evs| && UsageLayers(evs)[k] != map[] {
      assert UsageLayers(evs')[k] == UsageLayers(evs)[k];
    }
    assert UsageLayers(evs')[|evs|] == u;
  }

  lemma {:induction false} MsgRunSpells(m0: Msg, evs: seq<Ev>)
    ensures Spells(m0, evs, MsgRun(m0, evs)) && MsgRun(m0, evs).content == m0.content
  {
    hide Spells;
    if evs == [] {
      SpellsNone(m0);
    } else {
      var before, last := evs[..|evs| - 1], evs[|evs| - 1];
      MsgRunSpells(m0, before);
      assert evs == before + [last];
      SpellsNext(m0, before, MsgRun(m0, before), last);
    }
  }

  lemma {:induction false} SpellsNone(m0: Msg)
    ensures Spells(m0, [], m0)
  {
    hide LastWins;
    assert FieldLayers([]) == [] && UsageLayers([]) == [];
    LayerNone(m0.fields);
    LayerNone(Counters(m0));
  }

  lemma {:induction false} SpellsUnique(m0: Msg, evs: seq<Ev>, m: Msg, m': Msg)
    requires Spells(m0, evs, m) && Spells(m0, evs, m')
    ensures m.fields == m'.fields && m.usage == m'.usage
  {
    hide LastWins;
    LastWinsUnique(m0.fields, FieldLayers(evs), m.fields, m'.fields);
    LastWinsUnique(Counters(m0), UsageLayers(evs), Counters(m), Counters(m'));
  }

  /** How many blocks there are: the list reaches up to the last index started. */
  function Reach(n: nat, evs: seq<Ev>): nat {
    if evs == [] then n else
      var last, before := evs[|evs| - 1], Reach(n, evs[..|evs| - 1]);
      if last.BlockStart? && last.index >= before then last.index + 1 else before
  }

  lemma {:induction false} ReachNext(n: nat, evs: seq<Ev>, ev: Ev)
    ensures Reach(n, evs + [ev]) == if ev.BlockStart? && ev.index >= Reach(n, evs) then ev.index + 1 else Reach(n, evs)
  {
    assert (evs + [ev])[..|evs|] == evs;
  }

  ghost predicate Starts(evs: seq<Ev>, i: nat) {
    exists k :: 0 <= k < |evs| && evs[k].BlockStart? && evs[k].index == i
  }

  lemma {:induction false} StartsNext(evs: seq<Ev>, ev: Ev, i: nat)
    ensures Starts(evs + [ev], i) <==> Starts(evs, i) || (ev.BlockStart? && ev.index == i)
  {
    var all := evs + [ev];
    if k :| 0 <= k < |evs| && evs[k].BlockStart? && evs[k].index == i {
      assert all[k] == evs[k];
    }
    assert all[|evs|] == ev;
    if k :| 0 <= k < |all| && all[k].BlockStart? && all[k].index == i {
      assert k < |evs| ==> all[k] == evs[k];
    }
  }

  /** An index is started exactly when its own events start it. */
  lemma {:induction false} StartsInProj(evs: seq<Ev>, i: nat)
    ensures Starts(evs, i) <==> Starts(Proj(evs, i), i)
  {
    hide Starts, Proj;
    if evs == [] {
      ProjNone(i);
    } else {
      var before, last := evs[..|evs| - 1], evs[|evs| - 1];
      StartsInProj(before, i);
      assert evs == before + [last];
      ProjNext(before, last, i);
      StartsNext(before, last, i);
      StartsNext(Proj(before, i), last, i);
    }
  }

  lemma {:induction false} ReachIs(n: nat, evs: seq<Ev>)
    ensures Reach(n, evs) >= n && (forall i: nat :: Starts(evs, i) ==> i < Reach(n, evs))
    ensures Reach(n, evs) == n || Starts(evs, Reach(n, evs) - 1)
  {
    hide Starts, Reach;
    if evs == [] {
      ReachNone(n);
    } else {
      var before, last := evs[..|evs| - 1], evs[|evs| - 1];
      ReachIs(n, before);
      assert evs == before + [last];
      ReachNext(n, before, last);
      forall i: nat ensures Starts(evs, i) <==> Starts(before, i) || (last.BlockStart? && last.index == i) {
        StartsNext(before, last, i);
      }
    }
  }

  lemma {:induction false} ReachNone(n: nat)
    ensures Reach(n, []) == n && forall i: nat :: !Starts([], i)
  {
  }

  // ---- the loop is its slots --------------------------------------------------------------------

  /** One event changes its own slot as the slot machine says, and no other. */
  lemma {:induction false} StepSlots(parse: Parse, st: State, ev: Ev, i: nat)
    requires !ev.MessageStart? && st.msg.Some?
    ensures Indexed(ev) && ev.index == i ==>
              (Step(parse, st, ev).Some? <==> SlotStep(parse, SlotOf(st, i), ev).Some?)
    ensures !Indexed(ev) ==> Step(parse, st, ev).Some?
    ensures Step(parse, st, ev).Some? ==>
              var st' := Step(parse, st, ev).value;
              && (if Indexed(ev) && ev.index == i then Some(SlotOf(st', i)) == SlotStep(parse, SlotOf(st, i), ev) else SlotOf(st', i) == SlotOf(st, i))
              && st'.msg == Some(if ev.MessageDelta? then Updated(st.msg.value, ev.fields, ev.usage) else st.msg.value)
              && |st'.blocks| == if ev.BlockStart? && ev.index >= |st.blocks| then ev.index + 1 else |st.blocks|
  {
    hide Updated, WithInput;
  }

  /** Every slot ran without raising. */
  ghost predicate AllRun(parse: Parse, st: State, evs: seq<Ev>) {
    forall i: nat :: SlotRun(parse, SlotOf(st, i), Proj(evs, i)).Some?
  }

  ghost predicate Matches(parse: Parse, m: Msg, st0: State, evs: seq<Ev>, st: State) {
    && (forall i: nat :: SlotRun(parse, SlotOf(st0, i), Proj(evs, i)) == Some(SlotOf(st, i)))
    && st.msg == Some(MsgRun(m, evs)) && |st.blocks| == Reach(|st0.blocks|, evs)
  }

  ghost predicate NoStart(evs: seq<Ev>) {
    forall k :: 0 <= k < |evs| ==> !evs[k].MessageStart?
  }

  /** The loop raises exactly when some slot does, and otherwise holds exactly what the slots hold. */
  lemma {:induction false} RunIsSlots(parse: Parse, m: Msg, st0: State, evs: seq<Ev>)
    requires NoStart(evs) && st0.msg == Some(m)
    ensures RunFrom(parse, st0, evs).Some? <==> AllRun(parse, st0, evs)
    ensures RunFrom(parse, st0, evs).Some? ==> Matches(parse, m, st0, evs, RunFrom(parse, st0, evs).value)
  {
    hide RunFrom, AllRun, Matches, Step;
    if evs == [] {
      SlotsAtStart(parse, m, st0);
    } else {
      var before, last := evs[..|evs| - 1], evs[|evs| - 1];
      RunIsSlots(parse, m, st0, before);
      assert evs == before + [last];
      RunNext(parse, st0, before, last);
      if RunFrom(parse, st0, before).Some? {
        SlotsNext(parse, m, st0, before, RunFrom(parse, st0, before).value, last);
      } else {
        StillRaised(parse, st0, before, last);
      }
    }
  }

  lemma {:induction false} SlotsAtStart(parse: Parse, m: Msg, st0: State)
    requires st0.msg == Some(m)
    ensures RunFrom(parse, st0, []) == Some(st0) && AllRun(parse, st0, []) && Matches(parse, m, st0, [], st0)
  {
    hide SlotRun, Proj;
    forall i: nat ensures SlotRun(parse, SlotOf(st0, i), Proj([], i)) == Some(SlotOf(st0, i)) {
      ProjNone(i);
      SlotNone(parse, SlotOf(st0, i));
    }
  }

  lemma {:induction false} SlotsNext(parse: Parse, m: Msg, st0: State, evs: seq<Ev>, st: State, ev: Ev)
    requires !ev.MessageStart? && Matches(parse, m, st0, evs, st)
    ensures Step(parse, st, ev).Some? <==> AllRun(parse, st0, evs + [ev])
    ensures Step(parse, st, ev).Some? ==> Matches(parse, m, st0, evs + [ev], Step(parse, st, ev).value)
  {
    hide SlotRun, Proj, Step, SlotStep, MsgRun, Reach, Updated;
    forall i: nat ensures SlotRun(parse, SlotOf(st0, i), Proj(evs + [ev], i)) ==
                          if Indexed(ev) && ev.index == i then SlotStep(parse, SlotOf(st, i), ev) else Some(SlotOf(st, i))
    {
      ProjNext(evs, ev, i);
      SlotNext(parse, SlotOf(st0, i), Proj(evs, i), ev);
    }
    WholeNext(m, evs, ev);
    ReachNext(|st0.blocks|, evs, ev);
    forall i: nat {
      StepSlots(parse, st, ev, i);
    }
    if Step(parse, st, ev).Some? {
      var st' := Step(parse, st, ev).value;
      StepSlots(parse, st, ev, 0);
      forall i: nat ensures SlotRun(parse, SlotOf(st0, i), Proj(evs + [ev], i)) == Some(SlotOf(st', i)) {
        StepSlots(parse, st, ev, i);
      }
    } else {
      StepSlots(parse, st, ev, 0);
      assert Indexed(ev);
      StepSlots(parse, st, ev, ev.index);
      assert SlotRun(parse, SlotOf(st0, ev.index), Proj(evs + [ev], ev.index)).None?;
    }
  }

  lemma {:induction false} StillRaised(parse: Parse, st0: State, evs: seq<Ev>, ev: Ev)
    requires !AllRun(parse, st0, evs)
    ensures !AllRun(parse, st0, evs + [ev])
  {
    hide SlotRun, Proj, SlotStep;
    var i: nat :| SlotRun(parse, SlotOf(st0, i), Proj(evs, i)).None?;
    ProjNext(evs, ev, i);
    SlotNext(parse, SlotOf(st0, i), Proj(evs, i), ev);
  }

  // ---- interleaving -----------------------------------------------------------------------------

  /** The same events per index and for the whole message, mixed differently. */
  ghost predicate SameThreads(evs: seq<Ev>, evs': seq<Ev>) {
    Whole(evs) == Whole(evs') && forall i: nat :: Proj(evs, i) == Proj(evs', i)
  }

  lemma {:induction false} SameReach(n: nat, evs: seq<Ev>, evs': seq<Ev>)
    requires forall i: nat :: Starts(Proj(evs, i), i) <==> Starts(Proj(evs', i), i)
    ensures Reach(n, evs) == Reach(n, evs')
  {
    hide Starts, Reach, Proj;
    ReachIs(n, evs);
    ReachIs(n, evs');
    forall i: nat ensures Starts(evs, i) <==> Starts(evs', i) {
      StartsInProj(evs, i);
      StartsInProj(evs', i);
    }
  }

  lemma {:induction false} SameBlocks(st: State, st': State)
    requires |st.blocks| == |st'.blocks| && forall i: nat :: SlotOf(st, i) == SlotOf(st', i)
    ensures st.blocks == st'.blocks
  {
    forall i | 0 <= i < |st.blocks| ensures st.blocks[i] == st'.blocks[i] {
      assert SlotOf(st, i) == SlotOf(st', i);
    }
  }

  /** A stream: the message's start, then everything else. */
  function Stream(m: Msg, evs: seq<Ev>): seq<Ev> {
    [MessageStart(m)] + evs
  }

  function Started(m: Msg): State {
    State(Some(m), m.content, map[])
  }

  lemma {:induction false} StreamRuns(parse: Parse, m: Msg, evs: seq<Ev>)
    ensures RunFrom(parse, START, Stream(m, evs)) == RunFrom(parse, Started(m), evs)
  {
    hide RunFrom;
    if evs == [] {
      assert Stream(m, evs) == [] + [MessageStart(m)];
      RunNext(parse, START, [], MessageStart(m));
      RunStart(parse);
      RunStartAt(parse, Started(m));
    } else {
      var before, last := evs[..|evs| - 1], evs[|evs| - 1];
      StreamRuns(parse, m, before);
      assert Stream(m, evs) == Stream(m, before) + [last] && evs == before + [last];
      RunNext(parse, START, Stream(m, before), last);
      RunNext(parse, Started(m), before, last);
    }
  }

  lemma {:induction false} RunStartAt(parse: Parse, st: State)
    ensures RunFrom(parse, st, []) == Some(st)
  {
  }

  /** For index i the two streams start the same blocks and leave the same in the slot. */
  ghost predicate SlotAgrees(parse: Parse, st: State, evs: seq<Ev>, evs': seq<Ev>, i: nat) {
    && (Starts(Proj(evs, i), i) <==> Starts(Proj(evs', i), i))
    && SlotRun(parse, SlotOf(st, i), Proj(evs, i)) == SlotRun(parse, SlotOf(st, i), Proj(evs', i))
  }

  /** Streams that agree on the whole message and on every slot rebuild the same message, or both raise. */
  lemma {:induction false} SlotsDecide(parse: Parse, m: Msg, evs: seq<Ev>, evs': seq<Ev>)
    requires NoStart(evs) && NoStart(evs') && Whole(evs) == Whole(evs')
    requires forall i: nat :: SlotAgrees(parse, Started(m), evs, evs', i)
    ensures Rebuild(parse, Stream(m, evs)) == Rebuild(parse, Stream(m, evs'))
  {
    hide RunFrom, SlotRun, Proj, Whole, MsgRun, Reach, SlotOf, Starts;
    var st0 := Started(m);
    StreamRuns(parse, m, evs);
    StreamRuns(parse, m, evs');
    RunIsSlots(parse, m, st0, evs);
    RunIsSlots(parse, m, st0, evs');
    forall i: nat ensures SlotRun(parse, SlotOf(st0, i), Proj(evs, i)) == SlotRun(parse, SlotOf(st0, i), Proj(evs', i)) {
      assert SlotAgrees(parse, st0, evs, evs', i);
    }
    assert AllRun(parse, st0, evs) <==> AllRun(parse, st0, evs');
    if RunFrom(parse, st0, evs).Some? {
      var st, st' := RunFrom(parse, st0, evs).value, RunFrom(parse, st0, evs').value;
      forall i: nat ensures Starts(Proj(evs, i), i) <==> Starts(Proj(evs', i), i) {
        assert SlotAgrees(parse, st0, evs, evs', i);
      }
      SameReach(|st0.blocks|, evs, evs');
      MsgOfWhole(m, evs);
      MsgOfWhole(m, evs');
      assert forall i: nat :: SlotRun(parse, SlotOf(st0, i), Proj(evs, i)) == Some(SlotOf(st, i)) == Some(SlotOf(st', i));
      SameBlocks(st, st');
    }
  }

  /** Every way of mixing the blocks' events gives the same message, or raises as well. */
  lemma {:induction false} InterleavingIrrelevant(parse: Parse, m: Msg, evs: seq<Ev>, evs': seq<Ev>)
    requires NoStart(evs) && NoStart(evs') && SameThreads(evs, evs')
    ensures Rebuild(parse, Stream(m, evs)) == Rebuild(parse, Stream(m, evs'))
  {
    hide Rebuild, SlotRun, Proj, Whole, SlotOf, Starts;
    SlotsDecide(parse, m, evs, evs');
  }

  // ---- the message's own fields -------------------------------------------------------------------

  /** A start forgets the message and the blocks before it; accumulated input is all that stays. */
  lemma {:induction false} Restart(parse: Parse, pre: seq<Ev>, m: Msg, evs: seq<Ev>)
    ensures RunFrom(parse, START, pre).None? ==> RunFrom(parse, START, pre + Stream(m, evs)).None?
    ensures RunFrom(parse, START, pre).Some? ==>
              RunFrom(parse, START, pre + Stream(m, evs)) == RunFrom(parse, State(Some(m), m.content, RunFrom(parse, START, pre).value.partial), evs)
  {
    hide RunFrom, Step;
    if RunFrom(parse, START, pre).None? {
      RunNone(parse, START, pre, Stream(m, evs));
    } else if evs == [] {
      assert pre + Stream(m, evs) == pre + [MessageStart(m)];
      RunNext(parse, START, pre, MessageStart(m));
      StartStep(parse, RunFrom(parse, START, pre).value, m);
      RunStartAt(parse, State(Some(m), m.content, RunFrom(parse, START, pre).value.partial));
    } else {
      var before, last := evs[..|evs| - 1], evs[|evs| - 1];
      Restart(parse, pre, m, before);
      assert pre + Stream(m, evs) == pre + Stream(m, before) + [last] && evs == before + [last];
      RunNext(parse, START, pre + Stream(m, before), last);
      RunNext(parse, State(Some(m), m.content, RunFrom(parse, START, pre).value.partial), before, last);
    }
  }

  lemma {:induction false} StartStep(parse: Parse, st: State, m: Msg)
    ensures Step(parse, st, MessageStart(m)) == Some(State(Some(m), m.content, st.partial))
  {
  }

  /**
   * Whatever came before the last start, a rebuilt message has the fields and counters of that start, each replaced by
   * the last message delta after it that gives it.
   */
  lemma {:induction false} FieldsAreLast(parse: Parse, pre: seq<Ev>, m: Msg, evs: seq<Ev>, r: Msg)
    requires NoStart(evs) && Rebuild(parse, pre + Stream(m, evs)) == Message(r)
    ensures Spells(m, evs, r)
  {
    hide RunFrom, SlotRun, Proj, MsgRun, Reach, SlotOf, Spells, AllRun;
    Restart(parse, pre, m, evs);
    var st0 := State(Some(m), m.content, RunFrom(parse, START, pre).value.partial);
    RunIsSlots(parse, m, st0, evs);
    MsgRunSpells(m, evs);
    SameSpelling(m, evs, MsgRun(m, evs), r);
  }

  /** No message comes out exactly when no start went in. */
  lemma {:induction false} NoMessageIff(parse: Parse, evs: seq<Ev>)
    requires Rebuild(parse, evs) != Raised
    ensures Rebuild(parse, evs) == NoMessage <==> NoStart(evs)
  {
    hide RunFrom;
    NoMessageYet(parse, evs);
  }

  lemma {:induction false} NoMessageYet(parse: Parse, evs: seq<Ev>)
    requires RunFrom(parse, START, evs).Some?
    ensures RunFrom(parse, START, evs).value.msg.None? <==> NoStart(evs)
  {
    hide RunFrom;
    if evs == [] {
      RunStart(parse);
    } else {
      var before, last := evs[..|evs| - 1], evs[|evs| - 1];
      assert evs == before + [last];
      RunNext(parse, START, before, last);
      NoMessageYet(parse, before);
      assert NoStart(evs) <==> NoStart(before) && !last.MessageStart?;
    }
  }

  // ---- chunking ---------------------------------------------------------------------------------

  /** Only deltas for index i. */
  ghost predicate Deltas(ds: seq<Ev>, i: nat) {
    forall k :: 0 <= k < |ds| ==> ds[k].Delta? && ds[k].index == i
  }

  /** The pieces of one kind put together; None if there are none. */
  function Joined(ds: seq<Ev>, kind: Kind): Option<string> {
    if ds == [] then None else
      var last, before := ds[|ds| - 1], Joined(ds[..|ds| - 1], kind);
      if last.Delta? && last.kind == kind then Some((if before.Some? then before.value else "") + last.piece) else before
  }

  lemma {:induction false} JoinedNext(ds: seq<Ev>, d: Ev, kind: Kind)
    ensures Joined(ds + [d], kind) ==
            if d.Delta? && d.kind == kind then Some((if Joined(ds, kind).Some? then Joined(ds, kind).value else "") + d.piece) else Joined(ds, kind)
  {
    assert (ds + [d])[..|ds|] == ds;
  }

  lemma {:induction false} JoinedNone(kind: Kind)
    ensures Joined([], kind) == None
  {
  }

  /** The block's field after the pieces of its kind. */
  function Extended(b: Block, f: string, more: Option<string>): Block {
    if more.None? || Held(b, f).None? then b else b[f := Str(Held(b, f).value + more.value)]
  }

  /** A block whose text-like fields can be appended to. */
  predicate Appendable(b: Block) {
    Held(b, TEXT).Some? && Held(b, THINKING).Some? && Held(b, SIGNATURE).Some?
  }

  function Grown(b: Block, ds: seq<Ev>): Block {
    Extended(Extended(Extended(b, TEXT, Joined(ds, TextDelta)), THINKING, Joined(ds, ThinkingDelta)), SIGNATURE, Joined(ds, SignatureDelta))
  }

  function JsonText(ds: seq<Ev>): string {
    var j := Joined(ds, JsonDelta);
    if j.Some? then j.value else ""
  }

  /** The finished block, from its start and what its deltas add up to. */
  function Complete(parse: Parse, b: Block, ds: seq<Ev>): Block {
    if JsonText(ds) == "" then Grown(b, ds) else WithInput(parse, Grown(b, ds), JsonText(ds))
  }

  lemma {:induction false} FieldsDiffer()
    ensures TEXT != THINKING && TEXT != SIGNATURE && THINKING != SIGNATURE && TEXT != INPUT && THINKING != INPUT && SIGNATURE != INPUT
    ensures TEXT == "text" && THINKING == "thinking" && SIGNATURE == "signature" && INPUT == "input" && INPUT_RAW == "input_raw"
    ensures INPUT != INPUT_RAW && INPUT_RAW != TEXT && INPUT_RAW != THINKING && INPUT_RAW != SIGNATURE
  {
    assert |TEXT| == 4 && |THINKING| == 8 && |SIGNATURE| == 9 && |INPUT| == 5 && |INPUT_RAW| == 9;
    assert SIGNATURE[0] != INPUT_RAW[0];
  }

  function Get(b: Block, f: string): Option<Json> {
    if f in b then Some(b[f]) else None
  }

  lemma {:induction false} SameGets(a: Block, b: Block)
    requires forall f :: Get(a, f) == Get(b, f)
    ensures a == b
  {
    forall f ensures f in a <==> f in b {
      assert Get(a, f) == Get(b, f);
    }
    forall f | f in a ensures a[f] == b[f] {
      assert Get(a, f) == Get(b, f);
    }
  }

  lemma {:induction false} GrownGet(b: Block, ds: seq<Ev>, k: Kind)
    requires Appendable(b) && Streams(k)
    ensures var f := Field(k);
            Get(Grown(b, ds), f) == if Joined(ds, k).None? then Get(b, f) else Some(Str(Held(b, f).value + Joined(ds, k).value))
  {
    hide Joined, TEXT, THINKING, SIGNATURE, INPUT, INPUT_RAW;
    FieldsDiffer();
  }

  lemma {:induction false} GrownOther(b: Block, ds: seq<Ev>, f: string)
    requires f != TEXT && f != THINKING && f != SIGNATURE
    ensures (f in Grown(b, ds) <==> f in b) && (f in b ==> Grown(b, ds)[f] == b[f])
  {
    hide Joined, TEXT, THINKING, SIGNATURE, INPUT, INPUT_RAW;
  }

  lemma {:induction false} GrownNext(b: Block, ds: seq<Ev>, d: Ev)
    requires Appendable(b) && d.Delta?
    ensures !Streams(d.kind) ==> Grown(b, ds + [d]) == Grown(b, ds)
    ensures Streams(d.kind) ==>
              var f, g := Field(d.kind), Grown(b, ds); Held(g, f).Some? && Grown(b, ds + [d]) == g[f := Str(Held(g, f).value + d.piece)]
  {
    hide Joined, Grown, TEXT, THINKING, SIGNATURE, INPUT, INPUT_RAW;
    var g := Grown(b, ds);
    if Streams(d.kind) {
      var f := Field(d.kind);
      GrownGet(b, ds, d.kind);
      assert Held(g, f).Some?;
      var g' := g[f := Str(Held(g, f).value + d.piece)];
      forall x ensures Get(Grown(b, ds + [d]), x) == Get(g', x) {
        GrownNextAt(b, ds, d, x);
      }
      SameGets(Grown(b, ds + [d]), g');
    } else {
      forall x ensures Get(Grown(b, ds + [d]), x) == Get(g, x) {
        GrownNextAt(b, ds, d, x);
      }
      SameGets(Grown(b, ds + [d]), g);
    }
  }

  /** One more piece changes its own field and no other. */
  lemma {:induction false} GrownNextAt(b: Block, ds: seq<Ev>, d: Ev, x: string)
    requires Appendable(b) && d.Delta?
    ensures Streams(d.kind) && x == Field(d.kind) ==>
              Held(Grown(b, ds), x).Some? && Get(Grown(b, ds + [d]), x) == Some(Str(Held(Grown(b, ds), x).value + d.piece))
    ensures !(Streams(d.kind) && x == Field(d.kind)) ==> Get(Grown(b, ds + [d]), x) == Get(Grown(b, ds), x)
  {
    hide Joined, Grown, TEXT, THINKING, SIGNATURE, INPUT, INPUT_RAW;
    FieldsDiffer();
    if x == TEXT {
      KindNextAt(b, ds, d, TextDelta);
    } else if x == THINKING {
      KindNextAt(b, ds, d, ThinkingDelta);
    } else if x == SIGNATURE {
      KindNextAt(b, ds, d, SignatureDelta);
    } else {
      GrownOther(b, ds, x);
      GrownOther(b, ds + [d], x);
    }
  }

  lemma {:induction false} KindNextAt(b: Block, ds: seq<Ev>, d: Ev, k: Kind)
    requires Appendable(b) && d.Delta? && Streams(k)
    ensures var x := Field(k);
            if d.kind == k then Held(Grown(b, ds), x).Some? && Get(Grown(b, ds + [d]), x) == Some(Str(Held(Grown(b, ds), x).value + d.piece))
            else Get(Grown(b, ds + [d]), x) == Get(Grown(b, ds), x)
  {
    hide Joined, Grown, Field, Appendable, Held, Get;
    var x, g, g' := Field(k), Grown(b, ds), Grown(b, ds + [d]);
    JoinedNext(ds, d, k);
    GrownGet(b, ds, k);
    GrownGet(b, ds + [d], k);
    HeldIs(b, k);
    HeldGet(b, x);
    HeldGet(g, x);
    if d.kind == k {
      var held, was := Held(b, x).value, Joined(ds, k);
      assert was.Some? ==> held + was.value + d.piece == held + (was.value + d.piece);
      assert "" + d.piece == d.piece;
    }
  }

  lemma {:induction false} HeldIs(b: Block, k: Kind)
    requires Appendable(b) && Streams(k)
    ensures Held(b, Field(k)).Some?
  {
  }

  lemma {:induction false} HeldGet(b: Block, f: string)
    ensures Held(b, f) == match Get(b, f) case None => Some("") case Some(v) => if v.Str? then Some(v.s) else None
  {
  }

  /** A started block after some deltas. */
  lemma {:induction false} DeltasGrow(parse: Parse, s: Slot, i: nat, b: Block, ds: seq<Ev>)
    requires Deltas(ds, i) && Appendable(b)
    ensures SlotRun(parse, s, [BlockStart(i, b)] + ds) == Some(Slot(Some(Grown(b, ds)), Some(JsonText(ds))))
  {
    hide SlotRun, Grown, Joined;
    if ds == [] {
      assert [BlockStart(i, b)] + ds == [] + [BlockStart(i, b)];
      SlotNext(parse, s, [], BlockStart(i, b));
      SlotNone(parse, s);
      GrownNone(b);
    } else {
      var before, last := ds[..|ds| - 1], ds[|ds| - 1];
      DeltasGrow(parse, s, i, b, before);
      assert ds == before + [last] && [BlockStart(i, b)] + ds == [BlockStart(i, b)] + before + [last];
      SlotNext(parse, s, [BlockStart(i, b)] + before, last);
      GrownNext(b, before, last);
      JoinedNext(before, last, JsonDelta);
    }
  }

  lemma {:induction false} GrownNone(b: Block)
    ensures Grown(b, []) == b && JsonText([]) == ""
  {
  }

  /** A whole block: start, deltas in any cut, stop. */
  function BlockEvents(i: nat, b: Block, ds: seq<Ev>): seq<Ev> {
    [BlockStart(i, b)] + ds + [BlockStop(i)]
  }

  lemma {:induction false} BlockCompletes(parse: Parse, s: Slot, i: nat, b: Block, ds: seq<Ev>)
    requires Deltas(ds, i) && Appendable(b)
    ensures SlotRun(parse, s, BlockEvents(i, b, ds)) == Some(Slot(Some(Complete(parse, b, ds)), Some(JsonText(ds))))
  {
    hide SlotRun, Grown, JsonText;
    DeltasGrow(parse, s, i, b, ds);
    SlotNext(parse, s, [BlockStart(i, b)] + ds, BlockStop(i));
  }

  ghost predicate SamePieces(ds: seq<Ev>, ds': seq<Ev>) {
    forall kind :: kind != UnknownDelta ==> Joined(ds, kind) == Joined(ds', kind)
  }

  /** However the pieces are cut and ordered across kinds, a block with the same text of each kind is the same block. */
  lemma {:induction false} SameBlock(parse: Parse, s: Slot, i: nat, b: Block, ds: seq<Ev>, ds': seq<Ev>)
    requires Deltas(ds, i) && Deltas(ds', i) && Appendable(b) && SamePieces(ds, ds')
    ensures SlotRun(parse, s, BlockEvents(i, b, ds)) == SlotRun(parse, s, BlockEvents(i, b, ds'))
  {
    hide SlotRun, Joined, Extended;
    BlockCompletes(parse, s, i, b, ds);
    BlockCompletes(parse, s, i, b, ds');
  }

  /** The same block in two cuts: one start, one stop, and deltas that put together the same text of each kind. */
  ghost predicate Recut(evs: seq<Ev>, evs': seq<Ev>, i: nat, b: Block, ds: seq<Ev>, ds': seq<Ev>) {
    && evs == BlockEvents(i, b, ds) && evs' == BlockEvents(i, b, ds')
    && Deltas(ds, i) && Deltas(ds', i) && Appendable(b) && SamePieces(ds, ds')
  }

  /** Per index the same events, or the same block in two cuts. */
  ghost predicate SameText(evs: seq<Ev>, evs': seq<Ev>, i: nat) {
    Proj(evs, i) == Proj(evs', i) || exists b, ds, ds' :: Recut(Proj(evs, i), Proj(evs', i), i, b, ds, ds')
  }

  /** Whatever the cuts within blocks and the mixture across them, the same message is rebuilt. */
  lemma {:induction false} ChunkingIrrelevant(parse: Parse, m: Msg, evs: seq<Ev>, evs': seq<Ev>)
    requires NoStart(evs) && NoStart(evs') && Whole(evs) == Whole(evs') && forall i: nat :: SameText(evs, evs', i)
    ensures Rebuild(parse, Stream(m, evs)) == Rebuild(parse, Stream(m, evs'))
  {
    hide Rebuild, SlotRun, Proj, Whole, SlotOf, Starts, Joined, SameText, Recut;
    forall i: nat ensures SlotAgrees(parse, Started(m), evs, evs', i) {
      assert SameText(evs, evs', i);
      SameTextAgrees(parse, Started(m), evs, evs', i);
    }
    SlotsDecide(parse, m, evs, evs');
  }

  lemma {:induction false} SameTextAgrees(parse: Parse, st: State, evs: seq<Ev>, evs': seq<Ev>, i: nat)
    requires SameText(evs, evs', i)
    ensures SlotAgrees(parse, st, evs, evs', i)
  {
    hide SlotRun, Proj, SlotOf, Starts, SamePieces;
    if Proj(evs, i) != Proj(evs', i) {
      var b, ds, ds' :| Recut(Proj(evs, i), Proj(evs', i), i, b, ds, ds');
      SameBlock(parse, SlotOf(st, i), i, b, ds, ds');
      FirstStarts(i, b, ds);
      FirstStarts(i, b, ds');
    }
  }

  /** Cutting a piece in two keeps what the pieces add up to. */
  lemma {:induction false} CutPiece(ds: seq<Ev>, i: nat, kind: Kind, x: string, y: string, rest: seq<Ev>)
    ensures SamePieces(ds + [Delta(i, kind, x + y)] + rest, ds + [Delta(i, kind, x), Delta(i, kind, y)] + rest)
  {
    hide Joined;
    if rest == [] {
      var one, two := ds + [Delta(i, kind, x + y)], ds + [Delta(i, kind, x), Delta(i, kind, y)];
      assert one + rest == one && two + rest == two && two == ds + [Delta(i, kind, x)] + [Delta(i, kind, y)];
      forall k | k != UnknownDelta ensures Joined(one, k) == Joined(two, k) {
        JoinedNext(ds, Delta(i, kind, x + y), k);
        JoinedNext(ds, Delta(i, kind, x), k);
        JoinedNext(ds + [Delta(i, kind, x)], Delta(i, kind, y), k);
        if k == kind {
          var old' := if Joined(ds, k).Some? then Joined(ds, k).value else "";
          assert old' + x + y == old' + (x + y);
        }
      }
    } else {
      var before, last := rest[..|rest| - 1], rest[|rest| - 1];
      CutPiece(ds, i, kind, x, y, before);
      var one, two := ds + [Delta(i, kind, x + y)], ds + [Delta(i, kind, x), Delta(i, kind, y)];
      assert one + rest == one + before + [last] && two + rest == two + before + [last];
      forall k | k != UnknownDelta ensures Joined(one + rest, k) == Joined(two + rest, k) {
        JoinedNext(one + before, last, k);
        JoinedNext(two + before, last, k);
      }
    }
  }

  /**
   * Accumulated input ends up in its block if and only if the stop event arrives, or the start held it already. A stream
   * that is cut off before the stop drops the text, however much of it had come.
   */
  lemma {:induction false} InputKeptIffStopped(parse: Parse, s: Slot, i: nat, b: Block, ds: seq<Ev>, stopped: bool)
    requires Deltas(ds, i) && Appendable(b) && JsonText(ds) != ""
    ensures var evs := [BlockStart(i, b)] + ds + (if stopped then [BlockStop(i)] else []);
            && SlotRun(parse, s, evs).Some? && SlotRun(parse, s, evs).value.block.Some?
            && var done := SlotRun(parse, s, evs).value.block.value;
               (Keeps(parse, done, JsonText(ds)) <==> stopped || Keeps(parse, b, JsonText(ds)))
  {
    hide SlotRun, Grown, JsonText, TEXT, THINKING, SIGNATURE, INPUT, INPUT_RAW;
    FieldsDiffer();
    GrownOther(b, ds, INPUT);
    GrownOther(b, ds, INPUT_RAW);
    if stopped {
      BlockCompletes(parse, s, i, b, ds);
      assert [BlockStart(i, b)] + ds + [BlockStop(i)] == BlockEvents(i, b, ds);
    } else {
      DeltasGrow(parse, s, i, b, ds);
      assert [BlockStart(i, b)] + ds + [] == [BlockStart(i, b)] + ds;
    }
  }

  /** The block holds the accumulated input, parsed or as raw text. */
  ghost predicate Keeps(parse: Parse, b: Block, text: string) {
    ("input" in b && parse(text) == Some(b["input"])) || ("input_raw" in b && b["input_raw"] == Str(text))
  }

  // ---- encoding and back ------------------------------------------------------------------------

  /** JSON printing; `parse` undoes it. */
  type Show = Json -> string

  ghost predicate Inverse(parse: Parse, show: Show) {
    forall v :: show(v) != "" && parse(show(v)) == Some(v)
  }

  /** Start b and deltas ds stand for block B: each field is either given at the start or spelled out in pieces. */
  ghost predicate Encodes(show: Show, b: Block, ds: seq<Ev>, B: Block) {
    && Appendable(b)
    && (forall k :: Streams(k) ==> FieldEncoded(b, ds, B, k))
    && (if JsonText(ds) == "" then Get(B, "input") == Get(b, "input") else "input" in B && JsonText(ds) == show(B["input"]))
    && (forall f :: f != "text" && f != "thinking" && f != "signature" && f != "input" ==> Get(B, f) == Get(b, f))
  }

  ghost predicate FieldEncoded(b: Block, ds: seq<Ev>, B: Block, k: Kind)
    requires Streams(k)
  {
    var f := match k case TextDelta => "text" case ThinkingDelta => "thinking" case SignatureDelta => "signature";
    if Joined(ds, k).None? then Get(B, f) == Get(b, f)
    else (f in b ==> b[f].Str?) && Get(B, f) == Some(Str((if f in b then b[f].s else "") + Joined(ds, k).value))
  }

  lemma {:induction false} EncodedCompletes(parse: Parse, show: Show, b: Block, ds: seq<Ev>, B: Block)
    requires Inverse(parse, show) && Encodes(show, b, ds, B)
    ensures Complete(parse, b, ds) == B
  {
    hide Joined, JsonText, Grown, TEXT, THINKING, SIGNATURE, INPUT, INPUT_RAW;
    var done := Complete(parse, b, ds);
    FieldsDiffer();
    forall f ensures Get(done, f) == Get(B, f) {
      FieldCompletes(parse, show, b, ds, B, f);
    }
    SameGets(done, B);
  }

  lemma {:induction false} FieldCompletes(parse: Parse, show: Show, b: Block, ds: seq<Ev>, B: Block, f: string)
    requires Inverse(parse, show) && Encodes(show, b, ds, B)
    ensures Get(Complete(parse, b, ds), f) == Get(B, f)
  {
    hide Joined, JsonText, Grown, TEXT, THINKING, SIGNATURE, INPUT, INPUT_RAW;
    FieldsDiffer();
    if f == TEXT {
      StreamedField(b, ds, B, TextDelta);
    } else if f == THINKING {
      StreamedField(b, ds, B, ThinkingDelta);
    } else if f == SIGNATURE {
      StreamedField(b, ds, B, SignatureDelta);
    } else {
      GrownOther(b, ds, f);
    }
  }

  lemma {:induction false} FieldIs(k: Kind)
    requires Streams(k)
    ensures Field(k) == match k case TextDelta => "text" case ThinkingDelta => "thinking" case SignatureDelta => "signature"
  {
  }

  lemma {:induction false} StreamedField(b: Block, ds: seq<Ev>, B: Block, k: Kind)
    requires Appendable(b) && Streams(k) && FieldEncoded(b, ds, B, k)
    ensures Get(Grown(b, ds), Field(k)) == Get(B, Field(k))
  {
    hide Joined, Grown, TEXT, THINKING, SIGNATURE;
    FieldIs(k);
    GrownGet(b, ds, k);
  }

  /** Index i's events spell out block B in some way. */
  ghost predicate Renders(show: Show, evs: seq<Ev>, i: nat, B: Block) {
    exists b, ds :: evs == BlockEvents(i, b, ds) && Deltas(ds, i) && Encodes(show, b, ds, B)
  }

  /** A stream that spells out the message: every block in pieces, in any mixture, and the rest in message deltas. */
  ghost predicate RendersMessage(show: Show, m0: Msg, evs: seq<Ev>, m: Msg) {
    && NoStart(evs) && m0.content == []
    && (forall i :: 0 <= i < |m.content| ==> m.content[i].Some? && Renders(show, Proj(evs, i), i, m.content[i].value))
    && (forall i: nat :: i >= |m.content| ==> Proj(evs, i) == [])
    && Spells(m0, evs, m)
  }

  /** Any stream that spells out a message is rebuilt into that message. */
  lemma {:induction false} RoundTrip(parse: Parse, show: Show, m0: Msg, evs: seq<Ev>, m: Msg)
    requires Inverse(parse, show) && RendersMessage(show, m0, evs, m)
    ensures Rebuild(parse, Stream(m0, evs)) == Message(m)
  {
    hide RunFrom, SlotRun, Proj, MsgRun, Renders, Reach, Inverse, Starts, Spells;
    var st0 := Started(m0);
    MsgRunSpells(m0, evs);
    SpellsUnique(m0, evs, m, MsgRun(m0, evs));
    forall i: nat ensures SlotRun(parse, SlotOf(st0, i), Proj(evs, i)).Some?
                       && SlotRun(parse, SlotOf(st0, i), Proj(evs, i)).value.block == (if i < |m.content| then m.content[i] else None)
    {
      SlotRendered(parse, show, st0, evs, m, i);
    }
    StreamRuns(parse, m0, evs);
    RunIsSlots(parse, m0, st0, evs);
    var st := RunFrom(parse, st0, evs).value;
    RenderedReach(show, m0, evs, m);
    forall i | 0 <= i < |m.content| ensures st.blocks[i] == m.content[i] {
      assert SlotOf(st, i).block == m.content[i];
    }
    assert st.blocks == m.content;
  }

  lemma {:induction false} SlotRendered(parse: Parse, show: Show, st0: State, evs: seq<Ev>, m: Msg, i: nat)
    requires Inverse(parse, show) && st0.blocks == [] && st0.partial == map[]
    requires i < |m.content| ==> m.content[i].Some? && Renders(show, Proj(evs, i), i, m.content[i].value)
    requires i >= |m.content| ==> Proj(evs, i) == []
    ensures SlotRun(parse, SlotOf(st0, i), Proj(evs, i)).Some?
    ensures SlotRun(parse, SlotOf(st0, i), Proj(evs, i)).value.block == if i < |m.content| then m.content[i] else None
  {
    hide SlotRun, Proj, Encodes, Inverse, Complete;
    if i < |m.content| {
      var B := m.content[i].value;
      var b, ds :| Proj(evs, i) == BlockEvents(i, b, ds) && Deltas(ds, i) && Encodes(show, b, ds, B);
      EncodedStart(show, b, ds, B);
      BlockCompletes(parse, SlotOf(st0, i), i, b, ds);
      EncodedCompletes(parse, show, b, ds, B);
    } else {
      SlotNone(parse, SlotOf(st0, i));
    }
  }

  lemma {:induction false} EncodedStart(show: Show, b: Block, ds: seq<Ev>, B: Block)
    requires Encodes(show, b, ds, B)
    ensures Appendable(b)
  {
    hide FieldEncoded, Appendable;
  }

  lemma {:induction false} RenderedReach(show: Show, m0: Msg, evs: seq<Ev>, m: Msg)
    requires RendersMessage(show, m0, evs, m)
    ensures Reach(0, evs) == |m.content|
  {
    hide Proj, Reach, Starts, Encodes, MsgRun;
    ReachIs(0, evs);
    forall i: nat ensures Starts(evs, i) <==> i < |m.content| {
      StartsInProj(evs, i);
      if i < |m.content| {
        var b, ds :| Proj(evs, i) == BlockEvents(i, b, ds) && Deltas(ds, i) && Encodes(show, b, ds, m.content[i].value);
        FirstStarts(i, b, ds);
      } else {
        NothingStarts(i);
      }
    }
    var r, n := Reach(0, evs), |m.content|;
    assert r > 0 ==> Starts(evs, r - 1);
    assert n > 0 ==> Starts(evs, n - 1);
  }

  lemma {:induction false} FirstStarts(i: nat, b: Block, ds: seq<Ev>)
    ensures Starts(BlockEvents(i, b, ds), i)
  {
    assert BlockEvents(i, b, ds)[0] == BlockStart(i, b);
  }

  lemma {:induction false} NothingStarts(i: nat)
    ensures !Starts([], i)
  {
  }

  // ---- one encoding, down to the text -------------------------------------------------------------

  /** Text-like fields hold text. */
  ghost predicate Spoken(b: Block) {
    forall k :: Streams(k) && Field(k) in b ==> b[Field(k)].Str?
  }

  function Piece(i: nat, b: Block, k: Kind): seq<Ev>
    requires Streams(k)
  {
    if Field(k) in b && b[Field(k)].Str? then [Delta(i, k, b[Field(k)].s)] else []
  }

  function InputPiece(show: Show, i: nat, b: Block): seq<Ev> {
    if INPUT in b then [Delta(i, JsonDelta, show(b[INPUT]))] else []
  }

  function Pieces(show: Show, i: nat, b: Block): seq<Ev> {
    Piece(i, b, TextDelta) + Piece(i, b, ThinkingDelta) + Piece(i, b, SignatureDelta) + InputPiece(show, i, b)
  }

  function Bare(b: Block): Block {
    b - {TEXT, THINKING, SIGNATURE, INPUT}
  }

  function EncodeBlock(show: Show, i: nat, b: Block): seq<Ev> {
    BlockEvents(i, Bare(b), Pieces(show, i, b))
  }

  lemma {:induction false} JoinedAppend(a: seq<Ev>, b: seq<Ev>, kind: Kind)
    requires |b| <= 1
    ensures Joined(a + b, kind) ==
            if b != [] && b[0].Delta? && b[0].kind == kind then Some((if Joined(a, kind).Some? then Joined(a, kind).value else "") + b[0].piece)
            else Joined(a, kind)
  {
    hide Joined;
    if b == [] {
      assert a + b == a;
    } else {
      assert b == [b[0]];
      JoinedNext(a, b[0], kind);
    }
  }

  lemma {:induction false} PiecesJoin(show: Show, i: nat, b: Block, kind: Kind)
    requires Spoken(b)
    ensures Streams(kind) ==> Joined(Pieces(show, i, b), kind) == if Field(kind) in b then Some(b[Field(kind)].s) else None
    ensures kind == JsonDelta ==> Joined(Pieces(show, i, b), kind) == if INPUT in b then Some(show(b[INPUT])) else None
  {
    hide Joined, TEXT, THINKING, SIGNATURE, INPUT;
    var t, h, g := Piece(i, b, TextDelta), Piece(i, b, ThinkingDelta), Piece(i, b, SignatureDelta);
    JoinedNone(kind);
    JoinedAppend([], t, kind);
    assert [] + t == t;
    JoinedAppend(t, h, kind);
    JoinedAppend(t + h, g, kind);
    JoinedAppend(t + h + g, InputPiece(show, i, b), kind);
    assert forall x: string :: "" + x == x;
  }

  lemma {:induction false} BlockEncodes(show: Show, i: nat, b: Block)
    requires Spoken(b) && forall v :: show(v) != ""
    ensures Encodes(show, Bare(b), Pieces(show, i, b), b) && Deltas(Pieces(show, i, b), i)
  {
    hide Joined, TEXT, THINKING, SIGNATURE, INPUT, INPUT_RAW;
    FieldsDiffer();
    forall k | Streams(k) ensures FieldEncoded(Bare(b), Pieces(show, i, b), b, k) {
      PiecesJoin(show, i, b, k);
      BareField(b, k);
      FieldIs(k);
      if Field(k) in b {
        assert "" + b[Field(k)].s == b[Field(k)].s;
      }
    }
    PiecesJoin(show, i, b, JsonDelta);
    BareField(b, TextDelta);
    BareField(b, ThinkingDelta);
    BareField(b, SignatureDelta);
  }

  lemma {:induction false} BareField(b: Block, k: Kind)
    requires Streams(k)
    ensures Get(Bare(b), Field(k)) == None && Held(Bare(b), Field(k)) == Some("")
  {
  }

  function EncodeBlocks(show: Show, content: seq<Option<Block>>, n: nat): seq<Ev>
    requires n <= |content|
  {
    if n == 0 then [] else
      EncodeBlocks(show, content, n - 1) + (if content[n - 1].Some? then EncodeBlock(show, n - 1, content[n - 1].value) else [])
  }

  /** The message as a stream: a start without content, block after block, and a delta that brings the rest up to date. */
  function Encode(show: Show, m0: Msg, m: Msg): seq<Ev> {
    Stream(m0.(content := []), EncodeBlocks(show, m.content, |m.content|) + [Closing(m)])
  }

  function Closing(m: Msg): Ev {
    MessageDelta(m.fields, if m.usage.Some? then m.usage.value else map[])
  }

  /** A start that a closing delta can turn into m: its values may differ, but it has no field or counter that m lacks. */
  ghost predicate Begins(m0: Msg, m: Msg) {
    && m0.fields.Keys <= m.fields.Keys && Counters(m0).Keys <= Counters(m).Keys
    && (m.usage.Some? <==> m0.usage.Some? || Counters(m) != map[])
  }

  lemma {:induction false} ClosingSpells(m0: Msg, evs: seq<Ev>, m: Msg)
    requires Begins(m0, m) && Whole(evs) == []
    ensures Spells(m0, evs + [Closing(m)], m)
  {
    hide MsgRun, Whole, Spells;
    MsgOfWhole(m0, evs);
    WholeNone(m0);
    WholeNext(m0, evs, Closing(m));
    MsgRunSpells(m0, evs + [Closing(m)]);
    assert m0.fields + m.fields == m.fields && Counters(m0) + Counters(m) == Counters(m);
    SameSpelling(m0, evs + [Closing(m)], MsgRun(m0, evs + [Closing(m)]), m);
  }

  lemma {:induction false} SameSpelling(m0: Msg, evs: seq<Ev>, m: Msg, m': Msg)
    requires Spells(m0, evs, m) && m.fields == m'.fields && m.usage == m'.usage
    ensures Spells(m0, evs, m')
  {
    hide LastWins;
  }

  /** All events belong to index i. */
  ghost predicate AllOf(evs: seq<Ev>, i: nat) {
    forall k :: 0 <= k < |evs| ==> Indexed(evs[k]) && evs[k].index == i
  }

  lemma {:induction false} ProjAppend(a: seq<Ev>, b: seq<Ev>, j: nat, i: nat)
    requires AllOf(b, j)
    ensures Proj(a + b, i) == if i == j then Proj(a, i) + b else Proj(a, i)
    ensures Whole(a + b) == Whole(a)
  {
    hide Proj, Whole;
    if b == [] {
      assert a + b == a;
    } else {
      var before, last := b[..|b| - 1], b[|b| - 1];
      ProjAppend(a, before, j, i);
      assert a + b == a + before + [last] && b == before + [last];
      ProjNext(a + before, last, i);
      WholeNext(Msg(map[], None, []), a + before, last);
    }
  }

  lemma {:induction false} EncodedAllOf(show: Show, i: nat, b: Block)
    requires Deltas(Pieces(show, i, b), i)
    ensures AllOf(EncodeBlock(show, i, b), i)
  {
    hide Pieces, Bare;
  }

  ghost predicate WellFormed(m: Msg) {
    forall i :: 0 <= i < |m.content| ==> m.content[i].Some? && Spoken(m.content[i].value)
  }

  lemma {:induction false} EncodedProj(show: Show, m: Msg, n: nat, i: nat)
    requires WellFormed(m) && n <= |m.content| && forall v :: show(v) != ""
    ensures Proj(EncodeBlocks(show, m.content, n), i) == if i < n then EncodeBlock(show, i, m.content[i].value) else []
    ensures Whole(EncodeBlocks(show, m.content, n)) == [] && NoStart(EncodeBlocks(show, m.content, n))
  {
    hide Proj, Whole, EncodeBlock, Spoken, NoStart, Indexed, AllOf, Deltas, Encodes, Pieces, Bare;
    if n == 0 {
      ProjNone(i);
      WholeNone(m);
      NoStartNone();
    } else {
      EncodedProj(show, m, n - 1, i);
      var b := m.content[n - 1].value;
      BlockEncodes(show, n - 1, b);
      EncodedAllOf(show, n - 1, b);
      ProjAppend(EncodeBlocks(show, m.content, n - 1), EncodeBlock(show, n - 1, b), n - 1, i);
      NoStartAppend(EncodeBlocks(show, m.content, n - 1), EncodeBlock(show, n - 1, b), n - 1);
    }
  }

  lemma {:induction false} NoStartNone()
    ensures NoStart([])
  {
  }

  lemma {:induction false} NoStartAppend(a: seq<Ev>, b: seq<Ev>, j: nat)
    requires NoStart(a) && AllOf(b, j)
    ensures NoStart(a + b)
  {
  }

  /** Encoding a message over any start and rebuilding it gives the message back. */
  lemma {:induction false} EncodeThenRebuild(parse: Parse, show: Show, m0: Msg, m: Msg)
    requires Inverse(parse, show) && WellFormed(m) && Begins(m0, m)
    ensures Rebuild(parse, Encode(show, m0, m)) == Message(m)
  {
    hide Proj, Whole, EncodeBlocks, MsgRun, Spoken, RunFrom, Pieces, Bare, Encodes, Spells, Begins, Closing;
    var blocks, n := EncodeBlocks(show, m.content, |m.content|), |m.content|;
    var evs := blocks + [Closing(m)];
    assert Closing(m).MessageDelta? by { ClosingIs(m); }
    forall i: nat ensures Proj(evs, i) == if i < n then EncodeBlock(show, i, m.content[i].value) else [] {
      EncodedProj(show, m, n, i);
      ProjNext(blocks, Closing(m), i);
    }
    EncodedProj(show, m, n, 0);
    forall i | 0 <= i < n ensures Renders(show, Proj(evs, i), i, m.content[i].value) {
      BlockEncodes(show, i, m.content[i].value);
    }
    BeginsBare(m0, m);
    ClosingSpells(m0.(content := []), blocks, m);
    RoundTrip(parse, show, m0.(content := []), evs, m);
  }

  lemma {:induction false} ClosingIs(m: Msg)
    ensures Closing(m).MessageDelta?
  {
  }

  lemma {:induction false} BeginsBare(m0: Msg, m: Msg)
    requires Begins(m0, m)
    ensures Begins(m0.(content := []), m)
  {
  }

  function Texts(encode: Ev -> string, evs: seq<Ev>): (r: seq<string>)
    ensures |r| == |evs| && forall i :: 0 <= i < |evs| ==> r[i] == encode(evs[i])
  {
    seq(|evs|, i requires 0 <= i < |evs| => encode(evs[i]))
  }

  /** Printed as frames, the events are read back one for one, so the rebuilt message is the one that was encoded. */
  lemma {:induction false} TextRoundTrip(parse: Parse, show: Show, decode: string -> Option<Ev>, encode: Ev -> string, m0: Msg, m: Msg)
    requires Inverse(parse, show) && WellFormed(m) && Begins(m0, m)
    requires forall e :: Framing.Frameable(encode(e)) && decode(encode(e)) == Some(e)
    ensures var evs := Encode(show, m0, m);
            DecodesTo(decode, Framing.Payloads(Framing.Frames(Texts(encode, evs))), evs) && Rebuild(parse, evs) == Message(m)
  {
    hide Framing.Frameable, Framing.Payloads, Framing.Frames, Rebuild, Encode, Begins;
    Framing.FramesRead(Texts(encode, Encode(show, m0, m)));
    EncodeThenRebuild(parse, show, m0, m);
  }
}
