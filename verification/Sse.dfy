/** Rebuilding the final message from the events of a streamed reply. */
module Sse {
  import Framing = SseFraming

  datatype Option<T> = None | Some(value: T)

  /** A JSON value: a string, or something this code never looks into. */
  datatype Json = Str(s: string) | Other(n: int)

  type Block = map<string, Json>

  /** A message: its plain fields, the usage counters if there are any, and the content blocks. */
  datatype Msg = Msg(fields: map<string, Json>, usage: Option<map<string, Json>>, content: seq<Option<Block>>)

  datatype Kind = TextDelta | ThinkingDelta | SignatureDelta | JsonDelta | UnknownDelta

  datatype Ev =
    | MessageStart(msg: Msg)
    | BlockStart(index: nat, block: Block)
    | Delta(index: nat, kind: Kind, piece: string)
    | BlockStop(index: nat)
    | MessageDelta(fields: map<string, Json>, usage: map<string, Json>)
    | Ignored

  /** `json.loads` on accumulated input; None when it does not parse. */
  type Parse = string -> Option<Json>

  const TEXT := "text"
  const THINKING := "thinking"
  const SIGNATURE := "signature"
  const INPUT := "input"
  const INPUT_RAW := "input_raw"

  predicate Streams(k: Kind) {
    k == TextDelta || k == ThinkingDelta || k == SignatureDelta
  }

  /** The block field that a text-like delta extends. */
  function Field(k: Kind): string
    requires Streams(k)
  {
    match k
    case TextDelta => TEXT
    case ThinkingDelta => THINKING
    case SignatureDelta => SIGNATURE
  }

  /** A field that can be appended to: a string, or missing and then empty. */
  function Held(b: Block, f: string): Option<string> {
    if f !in b then Some("") else if b[f].Str? then Some(b[f].s) else None
  }

  // ---- the loop ---------------------------------------------------------------------------------

  datatype State = State(msg: Option<Msg>, blocks: seq<Option<Block>>, partial: map<nat, string>)

  const START := State(None, [], map[])

  function Pad(blocks: seq<Option<Block>>, n: nat): (r: seq<Option<Block>>)
    ensures |r| == if n > |blocks| then n else |blocks|
    ensures forall i :: 0 <= i < |r| ==> r[i] == if i < |blocks| then blocks[i] else None
    decreases n - |blocks|
  {
    if n <= |blocks| then blocks else Pad(blocks + [None], n)
  }

  function Partial(st: State, i: nat): string {
    if i in st.partial then st.partial[i] else ""
  }

  predicate HasBlock(st: State, i: nat) {
    i < |st.blocks| && st.blocks[i].Some?
  }

  function Updated(m: Msg, fields: map<string, Json>, usage: map<string, Json>): Msg {
    Msg(m.fields + fields, if usage == map[] then m.usage else Some((if m.usage.Some? then m.usage.value else map[]) + usage), m.content)
  }

  /** One event; None where the loop raises. */
  function Step(parse: Parse, st: State, ev: Ev): Option<State> {
    match ev
    case MessageStart(msg) => Some(st.(msg := Some(msg), blocks := msg.content))
    case BlockStart(i, b) => Some(st.(blocks := Pad(st.blocks, i + 1)[i := Some(b)], partial := st.partial[i := ""]))
    case Delta(i, k, piece) =>
      if k == UnknownDelta then Some(st)
      else if k == JsonDelta then Some(st.(partial := st.partial[i := Partial(st, i) + piece]))
      else if !HasBlock(st, i) || Held(st.blocks[i].value, Field(k)) == None then None
      else
        var b := st.blocks[i].value;
        Some(st.(blocks := st.blocks[i := Some(b[Field(k) := Str(Held(b, Field(k)).value + piece)])]))
    case BlockStop(i) =>
      if Partial(st, i) == "" then Some(st)
      else if !HasBlock(st, i) then None
      else Some(st.(blocks := st.blocks[i := Some(WithInput(parse, st.blocks[i].value, Partial(st, i)))]))
    case MessageDelta(fields, usage) =>
      Some(if st.msg.None? then st else st.(msg := Some(Updated(st.msg.value, fields, usage))))
    case Ignored => Some(st)
  }

  /** The finished input: parsed, or the raw text when it does not parse. */
  function WithInput(parse: Parse, b: Block, text: string): Block {
    match parse(text)
    case Some(v) => b[INPUT := v]
    case None => b[INPUT_RAW := Str(text)]
  }

  function RunFrom(parse: Parse, st: State, evs: seq<Ev>): Option<State> {
    if evs == [] then Some(st) else
      var before := RunFrom(parse, st, evs[..|evs| - 1]);
      if before.None? then None else Step(parse, before.value, evs[|evs| - 1])
  }

  lemma {:induction false} RunNext(parse: Parse, st: State, evs: seq<Ev>, ev: Ev)
    ensures RunFrom(parse, st, evs + [ev]) ==
            if RunFrom(parse, st, evs).None? then None else Step(parse, RunFrom(parse, st, evs).value, ev)
  {
    hide Step;
    assert (evs + [ev])[..|evs|] == evs;
  }

  lemma {:induction false} RunNone(parse: Parse, st: State, evs: seq<Ev>, more: seq<Ev>)
    requires RunFrom(parse, st, evs).None?
    ensures RunFrom(parse, st, evs + more).None?
  {
    hide Step, RunFrom;
    if more == [] {
      assert evs + more == evs;
    } else {
      var last := |more| - 1;
      RunNone(parse, st, evs, more[..last]);
      assert evs + more == evs + more[..last] + [more[last]];
      RunNext(parse, st, evs + more[..last], more[last]);
    }
  }

  datatype Rebuilt = Raised | NoMessage | Message(msg: Msg)

  function Finish(st: State): Rebuilt {
    if st.msg.None? then NoMessage else Message(st.msg.value.(content := st.blocks))
  }

  function Rebuild(parse: Parse, evs: seq<Ev>): Rebuilt {
    match RunFrom(parse, START, evs)
    case None => Raised
    case Some(st) => Finish(st)
  }

  /** The events that a list of payloads decodes to. */
  ghost predicate DecodesTo(decode: string -> Option<Ev>, ps: seq<string>, evs: seq<Ev>) {
    |ps| == |evs| && forall i :: 0 <= i < |ps| ==> decode(ps[i]) == Some(evs[i])
  }

  /** The variables of the loop. */
  class Builder {
    var msg: Option<Msg>
    var blocks: seq<Option<Block>>
    var partial: map<nat, string>

    ghost function View(): State
      reads this
    {
      State(msg, blocks, partial)
    }

    constructor ()
      ensures View() == START
    {
      msg, blocks, partial := None, [], map[];
    }

    method PadTo(n: nat)
      modifies this`blocks
      ensures blocks == Pad(old(blocks), n)
    {
      while |blocks| < n
        invariant Pad(blocks, n) == Pad(old(blocks), n)
        decreases n - |blocks|
      {
        blocks := blocks + [None];
      }
    }

    /** Applies one event; false where the loop raises. */
    method Apply(parse: Parse, ev: Ev) returns (ok: bool)
      modifies this
      ensures ok <==> Step(parse, old(View()), ev).Some?
      ensures ok ==> View() == Step(parse, old(View()), ev).value
    {
      ok := true;
      match ev
      case MessageStart(m) =>
        msg, blocks := Some(m), m.content;
      case BlockStart(i, b) =>
        PadTo(i + 1);
        blocks := blocks[i := Some(b)];
        partial := partial[i := ""];
      case Delta(i, k, piece) =>
        if k == JsonDelta {
          partial := partial[i := (if i in partial then partial[i] else "") + piece];
        } else if k != UnknownDelta {
          if |blocks| <= i || blocks[i].None? || Held(blocks[i].value, Field(k)).None? {
            return false;
          }
          var b := blocks[i].value;
          blocks := blocks[i := Some(b[Field(k) := Str(Held(b, Field(k)).value + piece)])];
        }
      case BlockStop(i) =>
        if i in partial && partial[i] != "" {
          if |blocks| <= i || blocks[i].None? {
            return false;
          }
          blocks := blocks[i := Some(WithInput(parse, blocks[i].value, partial[i]))];
        }
      case MessageDelta(fields, usage) =>
        if msg.Some? {
          msg := Some(Updated(msg.value, fields, usage));
        }
      case Ignored =>
    }
  }

  /** The loop over lines: it raises on a payload that does not decode, or on an event that cannot be applied. */
  method ReconstructSseMessage(parse: Parse, decode: string -> Option<Ev>, text: string) returns (r: Rebuilt)
    ensures forall evs :: DecodesTo(decode, Framing.Payloads(text), evs) ==> r == Rebuild(parse, evs)
    ensures (exists i :: 0 <= i < |Framing.Payloads(text)| && decode(Framing.Payloads(text)[i]).None?) ==> r.Raised?
  {
    hide Step, RunFrom, DecodesTo, Framing.Lines, Framing.Payload, Framing.PayloadsOf;
    var lines := Framing.Lines(text);
    var builder := new Builder();
    ghost var seen: seq<Ev> := [];
    PrefixNone(lines, decode);
    RunStart(parse);
    for n := 0 to |lines|
      invariant fresh(builder) && RunFrom(parse, START, seen) == Some(builder.View())
      invariant DecodesTo(decode, Framing.PayloadsOf(lines[..n]), seen)
    {
      var data := Framing.Payload(lines[n]);
      PrefixNext(lines, n);
      if data != "" {
        var ev := decode(data);
        if ev.None? {
          BadPayload(decode, lines, n);
          return Raised;
        }
        RunNext(parse, START, seen, ev.value);
        DecodesNext(decode, Framing.PayloadsOf(lines[..n]), seen, data, ev.value);
        seen := seen + [ev.value];
        var ok := builder.Apply(parse, ev.value);
        if !ok {
          RaisesAnyway(parse, decode, lines, n + 1, seen);
          return Raised;
        }
      }
    }
    assert lines[..|lines|] == lines;
    DecodeUnique(decode, Framing.PayloadsOf(lines), seen);
    r := if builder.msg.None? then NoMessage else Message(builder.msg.value.(content := builder.blocks));
  }

  lemma {:induction false} DecodesNext(decode: string -> Option<Ev>, ps: seq<string>, evs: seq<Ev>, p: string, ev: Ev)
    requires DecodesTo(decode, ps, evs) && decode(p) == Some(ev)
    ensures DecodesTo(decode, ps + [p], evs + [ev])
  {
  }

  lemma {:induction false} RunStart(parse: Parse)
    ensures RunFrom(parse, START, []) == Some(START)
  {
  }

  lemma {:induction false} PrefixNone(lines: seq<string>, decode: string -> Option<Ev>)
    ensures DecodesTo(decode, Framing.PayloadsOf(lines[..0]), [])
  {
  }

  lemma {:induction false} NoLines()
    ensures Framing.PayloadsOf([]) == []
  {
  }

  lemma {:induction false} PayloadsAppend(a: seq<string>, b: seq<string>)
    ensures Framing.PayloadsOf(a + b) == Framing.PayloadsOf(a) + Framing.PayloadsOf(b)
  {
    hide Framing.Payload, Framing.PayloadsOf;
    if a == [] {
      assert a + b == b;
      NoLines();
    } else {
      var head, tail := a[0], a[1..];
      PayloadsAppend(tail, b);
      assert a + b == [head] + (tail + b) && a == [head] + tail;
      Framing.PayloadsCons(head, tail + b);
      Framing.PayloadsCons(head, tail);
    }
  }

  lemma {:induction false} PrefixNext(lines: seq<string>, n: nat)
    requires n < |lines|
    ensures Framing.PayloadsOf(lines[..n + 1]) ==
            if Framing.Payload(lines[n]) != "" then Framing.PayloadsOf(lines[..n]) + [Framing.Payload(lines[n])] else Framing.PayloadsOf(lines[..n])
  {
    hide Framing.Payload, Framing.PayloadsOf;
    assert lines[..n + 1] == lines[..n] + [lines[n]] && [lines[n]] == [lines[n]] + [];
    PayloadsAppend(lines[..n], [lines[n]]);
    Framing.PayloadsCons(lines[n], []);
    NoLines();
  }

  lemma {:induction false} BadPayload(decode: string -> Option<Ev>, lines: seq<string>, n: nat)
    requires n < |lines| && Framing.Payload(lines[n]) != "" && decode(Framing.Payload(lines[n])).None?
    ensures forall evs :: !DecodesTo(decode, Framing.PayloadsOf(lines), evs)
  {
    hide Framing.PayloadsOf, Framing.Payload;
    PrefixNext(lines, n);
    PayloadsAppend(lines[..n + 1], lines[n + 1..]);
    assert lines == lines[..n + 1] + lines[n + 1..];
    var ps, k := Framing.PayloadsOf(lines), |Framing.PayloadsOf(lines[..n])|;
    assert ps[k] == Framing.Payload(lines[n]);
  }

  lemma {:induction false} RaisesAnyway(parse: Parse, decode: string -> Option<Ev>, lines: seq<string>, n: nat, seen: seq<Ev>)
    requires n <= |lines| && DecodesTo(decode, Framing.PayloadsOf(lines[..n]), seen) && RunFrom(parse, START, seen).None?
    ensures forall evs :: DecodesTo(decode, Framing.PayloadsOf(lines), evs) ==> Rebuild(parse, evs) == Raised
  {
    hide Framing.PayloadsOf, RunFrom;
    PayloadsAppend(lines[..n], lines[n..]);
    assert lines == lines[..n] + lines[n..];
    var first, ps := Framing.PayloadsOf(lines[..n]), Framing.PayloadsOf(lines);
    forall evs | DecodesTo(decode, ps, evs) ensures Rebuild(parse, evs) == Raised {
      forall i | 0 <= i < |seen| ensures evs[i] == seen[i] {
        assert ps[i] == first[i];
      }
      assert evs == seen + evs[|seen|..];
      RunNone(parse, START, seen, evs[|seen|..]);
    }
  }

  lemma {:induction false} DecodeUnique(decode: string -> Option<Ev>, ps: seq<string>, evs: seq<Ev>)
    requires DecodesTo(decode, ps, evs)
    ensures forall evs' :: DecodesTo(decode, ps, evs') ==> evs' == evs
    ensures !exists i :: 0 <= i < |ps| && decode(ps[i]).None?
  {
  }
}
