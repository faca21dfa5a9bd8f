/**
 * Getting the data payloads out of an event stream's text (section 9.2 of the WHATWG HTML Living Standard), the way
 * Python's `splitlines` and `strip` do it.
 */
module SseFraming {

  /** Characters at which `splitlines` ends a line. */
  predicate IsBreak(c: char) {
    c in {'\n', '\r', '\U{0B}', '\U{0C}', '\U{1C}', '\U{1D}', '\U{1E}', '\U{85}', '\U{2028}', '\U{2029}'}
  }

  /** Characters that `strip` removes. */
  predicate IsSpace(c: char) {
    || IsBreak(c) || c in {' ', '\t', '\U{1F}', '\U{A0}', '\U{1680}', '\U{202F}', '\U{205F}', '\U{3000}'}
    || '\U{2000}' <= c <= '\U{200A}'
  }

  /** The same by code point, which is what `splitlines` and `isspace` of Python 3 go by. */
  lemma {:induction false} Codes(c: char)
    ensures var n := c as int;
            && (IsBreak(c) <==> 10 <= n <= 13 || 28 <= n <= 30 || n == 133 || n == 8232 || n == 8233)
            && (IsSpace(c) <==> 9 <= n <= 13 || 28 <= n <= 32 || n == 133 || n == 160 || n == 5760 || 8192 <= n <= 8202
                                || n == 8232 || n == 8233 || n == 8239 || n == 8287 || n == 12288)
  {
    assert '\n' as int == 10 && '\r' as int == 13 && '\t' as int == 9 && ' ' as int == 32;
  }

  function StripLeft(s: string): (r: string)
    ensures |r| <= |s| && (r != "" ==> !IsSpace(r[0]))
  {
    if s != "" && IsSpace(s[0]) then StripLeft(s[1..]) else s
  }

  function StripRight(s: string): (r: string)
    ensures r <= s && (r != "" ==> !IsSpace(r[|r| - 1]))
  {
    if s != "" && IsSpace(s[|s| - 1]) then StripRight(s[..|s| - 1]) else s
  }

  function Strip(s: string): (r: string)
    ensures |r| <= |s| && (r != "" ==> !IsSpace(r[0]) && !IsSpace(r[|r| - 1]))
  {
    StripRight(StripLeft(s))
  }

  ghost predicate Blank(s: string) {
    forall i :: 0 <= i < |s| ==> IsSpace(s[i])
  }

  /** What is taken off both ends is white space, and white space only. */
  lemma {:induction false} StripIs(s: string) returns (a: string, b: string)
    ensures s == a + Strip(s) + b && Blank(a) && Blank(b)
  {
    a := LeftIs(s);
    b := RightIs(StripLeft(s));
  }

  lemma {:induction false} LeftIs(s: string) returns (a: string)
    ensures s == a + StripLeft(s) && Blank(a)
  {
    if s != "" && IsSpace(s[0]) {
      var rest := LeftIs(s[1..]);
      a := [s[0]] + rest;
    } else {
      a := "";
    }
  }

  lemma {:induction false} RightIs(s: string) returns (b: string)
    ensures s == StripRight(s) + b && Blank(b)
  {
    if s != "" && IsSpace(s[|s| - 1]) {
      var rest := RightIs(s[..|s| - 1]);
      b := rest + [s[|s| - 1]];
    } else {
      b := "";
    }
  }

  /** Length of the first line. */
  function LineEnd(text: string): (k: nat)
    ensures k <= |text| && (k < |text| ==> IsBreak(text[k])) && forall i :: 0 <= i < k ==> !IsBreak(text[i])
  {
    if text == "" || IsBreak(text[0]) then 0 else 1 + LineEnd(text[1..])
  }

  function Lines(text: string): seq<string> {
    if text == "" then [] else
      var k := LineEnd(text);
      if k == |text| then [text] else [text[..k]] + Lines(text[k + 1..])
  }

  const DATA := "data:"

  /** The payload of a line, empty if it is not a data line. */
  function Payload(line: string): (r: string)
    ensures r != "" ==> |r| + |DATA| <= |line|
  {
    if |line| >= |DATA| && line[..|DATA|] == DATA then Strip(line[|DATA|..]) else ""
  }

  function PayloadsOf(lines: seq<string>): (r: seq<string>)
    ensures forall p :: p in r ==> p != ""
  {
    if lines == [] then [] else (if Payload(lines[0]) != "" then [Payload(lines[0])] else []) + PayloadsOf(lines[1..])
  }

  function Payloads(text: string): seq<string> {
    PayloadsOf(Lines(text))
  }

  // ---- framing and reading back -----------------------------------------------------------------

  /** One event as a server sends it. */
  function Frame(p: string): string {
    "data: " + p + "\n\n"
  }

  function Frames(ps: seq<string>): string {
    if ps == [] then "" else Frame(ps[0]) + Frames(ps[1..])
  }

  /** Text that comes through framing unchanged. */
  ghost predicate Frameable(p: string) {
    p != "" && !IsSpace(p[0]) && !IsSpace(p[|p| - 1]) && forall i :: 0 <= i < |p| ==> !IsBreak(p[i])
  }

  lemma {:induction false} LineEndIs(text: string, k: nat)
    requires k < |text| && IsBreak(text[k]) && forall i :: 0 <= i < k ==> !IsBreak(text[i])
    ensures LineEnd(text) == k
  {
  }

  lemma {:induction false} LinesAt(text: string, k: nat)
    requires k < |text| && IsBreak(text[k]) && forall i :: 0 <= i < k ==> !IsBreak(text[i])
    ensures Lines(text) == [text[..k]] + Lines(text[k + 1..])
  {
    LineEndIs(text, k);
  }

  lemma {:induction false} PayloadsCons(line: string, lines: seq<string>)
    ensures PayloadsOf([line] + lines) == (if Payload(line) != "" then [Payload(line)] else []) + PayloadsOf(lines)
  {
    assert ([line] + lines)[1..] == lines;
  }

  lemma {:induction false} StripSpaced(p: string)
    requires p != "" && !IsSpace(p[0]) && !IsSpace(p[|p| - 1])
    ensures Strip(" " + p) == p
  {
    assert (" " + p)[1..] == p && IsSpace((" " + p)[0]);
    assert StripLeft(p) == p;
    assert StripLeft(" " + p) == p;
    assert StripRight(p) == p;
  }

  lemma {:induction false} DataLine(p: string)
    ensures Payload(DATA + " " + p) == Strip(" " + p)
  {
    var line := DATA + " " + p;
    assert line == DATA + (" " + p);
    assert line[..|DATA|] == DATA && line[|DATA|..] == " " + p;
  }

  /** The line that a frame starts with, up to its first break. */
  lemma {:induction false} FrameLine(p: string, k: nat, rest: string)
    requires k <= |p| && (k < |p| ==> IsBreak(p[k])) && forall i :: 0 <= i < k ==> !IsBreak(p[i])
    ensures Payloads(Frame(p) + rest) ==
            (if Strip(" " + p[..k]) != "" then [Strip(" " + p[..k])] else []) + Payloads(if k < |p| then p[k + 1..] + "\n\n" + rest else "\n" + rest)
  {
    hide Strip, IsBreak, PayloadsOf, Lines, IsSpace, Frame;
    var text, at := Frame(p) + rest, |DATA| + 1 + k;
    var line, tail := DATA + " " + p[..k], if k < |p| then p[k + 1..] + "\n\n" + rest else "\n" + rest;
    FrameParts(p, k, rest);
    NewlineBreaks();
    FramePlain(p, k, rest);
    LinesAt(text, at);
    PayloadsCons(line, Lines(tail));
    DataLine(p[..k]);
  }

  lemma {:induction false} FrameParts(p: string, k: nat, rest: string)
    requires k <= |p|
    ensures var text, at := Frame(p) + rest, |DATA| + 1 + k;
            && at < |text| && text[..at] == DATA + " " + p[..k] && text[at] == (if k < |p| then p[k] else '\n')
            && text[at + 1..] == if k < |p| then p[k + 1..] + "\n\n" + rest else "\n" + rest
  {
    assert "data: " == DATA + " ";
  }

  lemma {:induction false} FramePlain(p: string, k: nat, rest: string)
    requires k <= |p| && forall i :: 0 <= i < k ==> !IsBreak(p[i])
    ensures |DATA| + 1 + k <= |Frame(p) + rest| && forall i :: 0 <= i < |DATA| + 1 + k ==> !IsBreak((Frame(p) + rest)[i])
  {
    hide IsBreak;
    var text := Frame(p) + rest;
    HeadPlain();
    assert "data: " == DATA + " ";
    forall i | 0 <= i < |DATA| + 1 + k ensures !IsBreak(text[i]) {
      if i < |DATA| + 1 {
        assert text[i] == (DATA + " ")[i];
      } else {
        assert text[i] == p[i - |DATA| - 1];
      }
    }
  }

  lemma {:induction false} HeadPlain()
    ensures forall i :: 0 <= i < |DATA + " "| ==> !IsBreak((DATA + " ")[i])
  {
  }

  lemma {:induction false} NewlineBreaks()
    ensures IsBreak('\n')
  {
  }

  lemma {:induction false} BlankLine(rest: string)
    ensures Payloads("\n" + rest) == Payloads(rest)
  {
    hide PayloadsOf, Lines;
    var text := "\n" + rest;
    LinesAt(text, 0);
    assert text[..0] == "" && text[1..] == rest;
    PayloadsCons("", Lines(rest));
  }

  /** A frame that can be read back is, whatever follows. */
  lemma {:induction false} FrameReads(p: string, rest: string)
    requires Frameable(p)
    ensures Payloads(Frame(p) + rest) == [p] + Payloads(rest)
  {
    hide Strip, Payloads, IsSpace, IsBreak, Frame;
    FrameLine(p, |p|, rest);
    assert p[..|p|] == p;
    StripSpaced(p);
    BlankLine(rest);
  }

  /** A stream of frames gives back its payloads in order. */
  lemma {:induction false} FramesRead(ps: seq<string>)
    requires forall i :: 0 <= i < |ps| ==> Frameable(ps[i])
    ensures Payloads(Frames(ps)) == ps
  {
    hide Frame, Frameable, Payloads;
    if ps == [] {
      NoPayloads();
    } else {
      FramesRead(ps[1..]);
      FrameReads(ps[0], Frames(ps[1..]));
    }
  }

  lemma {:induction false} NoPayloads()
    ensures Payloads("") == []
  {
  }

  lemma {:induction false} PayloadsShort(text: string)
    ensures forall p :: p in Payloads(text) ==> |p| + |DATA| <= |text|
  {
    hide PayloadsOf, Payload;
    if text == "" {
      NoPayloads();
    } else {
      var k := LineEnd(text);
      if k == |text| {
        assert Lines(text) == [text] + [];
        PayloadsCons(text, []);
        assert Lines("") == [];
        NoPayloads();
      } else {
        PayloadsShort(text[k + 1..]);
        PayloadsCons(text[..k], Lines(text[k + 1..]));
      }
    }
  }

  /**
   * A frame reads back as itself exactly when its payload is trimmed, not empty and free of every character at which
   * `splitlines` breaks - a longer list than the stream format's own CR and LF.
   */
  lemma {:induction false} FrameReadsIff(p: string)
    ensures Payloads(Frame(p)) == [p] <==> Frameable(p)
  {
    hide Payloads, IsBreak, IsSpace, Strip, StripLeft, StripRight;
    assert Frame(p) + "" == Frame(p);
    if Frameable(p) {
      FrameReads(p, "");
      NoPayloads();
    } else {
      var k := LineEnd(p);
      FrameLine(p, k, "");
      StripShortens(p[..k]);
      var tail := if k < |p| then p[k + 1..] + "\n\n" + "" else "\n" + "";
      PayloadsShort(tail);
      if Payloads(Frame(p)) == [p] {
        assert p in Payloads(Frame(p));
        NotItself(p, k, tail);
      }
    }
  }

  lemma {:induction false} StripShortens(s: string)
    ensures |Strip(" " + s)| <= |s|
  {
    assert (" " + s)[1..] == s;
  }

  lemma {:induction false} NotItself(p: string, k: nat, tail: string)
    requires k <= |p| && k == LineEnd(p) && !Frameable(p) && |Strip(" " + p[..k])| <= k
    requires (forall q :: q in Payloads(tail) ==> |q| + |DATA| <= |tail|) && |tail| == if k < |p| then |p| - k + 1 else 1
    ensures p !in (if Strip(" " + p[..k]) != "" then [Strip(" " + p[..k])] else []) + Payloads(tail)
  {
    hide Payloads, IsBreak, IsSpace, StripLeft, StripRight;
    var first := Strip(" " + p[..k]);
    assert p !in Payloads(tail);
    assert first != "" ==> !IsSpace(first[0]) && !IsSpace(first[|first| - 1]);
    assert first != "" ==> first != p;
    assert first == "" ==> [] + Payloads(tail) == Payloads(tail);
  }
}
