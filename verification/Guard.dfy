/** Repairing and checking detected corrections against the messages of their session. */
module Guard {
  datatype Option<T> = None | Some(value: T)

  /**
   * A message: `norm` is its text without white space; the flags say what the text patterns find in it, and
   * `bot` what the author's role and name say.
   */
  datatype Row = Row(
    id: string, bot: bool, placeholder: bool, norm: string, ts: int, parent: string,
    selfCorrects: bool, summary: bool, strong: bool, demand: bool, feedback: bool)

  /** A detected correction; `quote` is without white space, an empty `role` is a missing one. */
  datatype Corr = Corr(session: string, empty: bool, anchor: string, quote: string, corrector: string, role: string, selfId: string)

  const MIN_QUOTE := 4
  const USER := "user"

  /** Whether the bot messages in a stretch ask for output to be reported back. */
  type Asks = seq<Row> -> bool

  // ---- looking up -------------------------------------------------------------------------------

  /** The last position of an id, as in a dictionary filled in order. */
  function Pos(rows: seq<Row>, id: string): (r: Option<nat>)
    ensures r.Some? ==> r.value < |rows| && rows[r.value].id == id && forall i :: r.value < i < |rows| ==> rows[i].id != id
    ensures r.None? ==> forall i :: 0 <= i < |rows| ==> rows[i].id != id
  {
    if rows == [] then None
    else if rows[|rows| - 1].id == id then Some(|rows| - 1)
    else Pos(rows[..|rows| - 1], id)
  }

  function ById(rows: seq<Row>, id: string): Option<Row> {
    if Pos(rows, id).Some? then Some(rows[Pos(rows, id).value]) else None
  }

  predicate FoundAt(text: string, q: string, i: nat) {
    i + |q| <= |text| && text[i..i + |q|] == q
  }

  predicate Contains(text: string, q: string) {
    exists i :: 0 <= i <= |text| && FoundAt(text, q, i)
  }

  /** The quote stands somewhere in the text. */
  lemma {:induction false} ContainsIff(text: string, q: string)
    ensures Contains(text, q) <==> exists a, b :: text == a + q + b
  {
    if i :| 0 <= i <= |text| && FoundAt(text, q, i) {
      assert text == text[..i] + q + text[i + |q|..];
    }
    if a, b :| text == a + q + b {
      assert FoundAt(text, q, |a|);
    }
  }

  predicate Human(r: Row) {
    !r.placeholder && !r.bot
  }

  /** The bot said it. */
  predicate Said(r: Row, q: string) {
    r.bot && Contains(r.norm, q)
  }

  /** The first of the latest messages among those that qualify. */
  function Best(rows: seq<Row>, p: Row -> bool, n: nat): (r: Option<nat>)
    requires n <= |rows|
    ensures r.Some? ==> r.value < n
  {
    if n == 0 then None else
      var b := Best(rows, p, n - 1);
      if p(rows[n - 1]) && (b.None? || rows[b.value].ts < rows[n - 1].ts) then Some(n - 1) else b
  }

  ghost predicate IsBest(rows: seq<Row>, p: Row -> bool, b: nat) {
    && b < |rows| && p(rows[b])
    && (forall i :: 0 <= i < |rows| && p(rows[i]) ==> rows[i].ts <= rows[b].ts)
    && (forall i :: 0 <= i < b && p(rows[i]) ==> rows[i].ts < rows[b].ts)
  }

  lemma {:induction false} BestTo(rows: seq<Row>, p: Row -> bool, n: nat)
    requires n <= |rows|
    ensures Best(rows, p, n).None? <==> forall i :: 0 <= i < n ==> !p(rows[i])
    ensures Best(rows, p, n).Some? ==>
              var b := Best(rows, p, n).value;
              && p(rows[b])
              && (forall i :: 0 <= i < n && p(rows[i]) ==> rows[i].ts <= rows[b].ts)
              && (forall i :: 0 <= i < b && p(rows[i]) ==> rows[i].ts < rows[b].ts)
  {
    if n > 0 {
      BestTo(rows, p, n - 1);
    }
  }

  lemma {:induction false} BestIs(rows: seq<Row>, p: Row -> bool)
    ensures Best(rows, p, |rows|).None? <==> forall i :: 0 <= i < |rows| ==> !p(rows[i])
    ensures Best(rows, p, |rows|).Some? ==> IsBest(rows, p, Best(rows, p, |rows|).value)
  {
    BestTo(rows, p, |rows|);
  }

  lemma {:induction false} BestUnique(rows: seq<Row>, p: Row -> bool, b: nat)
    requires IsBest(rows, p, b)
    ensures Best(rows, p, |rows|) == Some(b)
  {
    BestIs(rows, p);
  }

  // ---- the repairs ------------------------------------------------------------------------------

  /** The bot message the quote is traced back to: the latest before the corrector, else the latest of all. */
  function Source(rows: seq<Row>, quote: string, corrector: string): Option<nat> {
    var said := (r: Row) => Said(r, quote);
    var c := ById(rows, corrector);
    var before := (r: Row) => Said(r, quote) && (c.None? || r.ts < c.value.ts);
    if c.Some? && Best(rows, before, |rows|).Some? then Best(rows, before, |rows|) else Best(rows, said, |rows|)
  }

  function Anchored(rows: seq<Row>, e: Corr): Corr {
    if |e.quote| < MIN_QUOTE || Source(rows, e.quote, e.corrector).None? then e
    else
      SourceInRange(rows, e.quote, e.corrector);
      e.(anchor := rows[Source(rows, e.quote, e.corrector).value].id)
  }

  lemma {:induction false} SourceInRange(rows: seq<Row>, quote: string, corrector: string)
    ensures Source(rows, quote, corrector).Some? ==> Source(rows, quote, corrector).value < |rows|
  {
  }

  /** A bot message with the quote that was said before the corrector spoke. */
  ghost predicate SaidBefore(rows: seq<Row>, quote: string, c: Option<Row>, i: nat)
    requires i < |rows|
  {
    Said(rows[i], quote) && c.Some? && rows[i].ts < c.value.ts
  }

  /**
   * What the trace finds: nothing iff no bot message has the quote; else the first of the latest ones said before the
   * corrector, or, when none was, the first of the latest ones at all.
   */
  lemma {:induction false} SourceIs(rows: seq<Row>, quote: string, corrector: string)
    ensures var s, c := Source(rows, quote, corrector), ById(rows, corrector);
            && (s.None? <==> forall i :: 0 <= i < |rows| ==> !Said(rows[i], quote))
            && (s.Some? ==> s.value < |rows| && Said(rows[s.value], quote))
            && (s.Some? && (exists i :: 0 <= i < |rows| && SaidBefore(rows, quote, c, i)) ==>
                  && SaidBefore(rows, quote, c, s.value)
                  && (forall i :: 0 <= i < |rows| && SaidBefore(rows, quote, c, i) ==> rows[i].ts <= rows[s.value].ts)
                  && (forall i :: 0 <= i < s.value && SaidBefore(rows, quote, c, i) ==> rows[i].ts < rows[s.value].ts))
            && (s.Some? && !(exists i :: 0 <= i < |rows| && SaidBefore(rows, quote, c, i)) ==>
                  && (forall i :: 0 <= i < |rows| && Said(rows[i], quote) ==> rows[i].ts <= rows[s.value].ts)
                  && (forall i :: 0 <= i < s.value && Said(rows[i], quote) ==> rows[i].ts < rows[s.value].ts))
  {
    hide Contains, Best, Pos;
    var c := ById(rows, corrector);
    var before := (r: Row) => Said(r, quote) && (c.None? || r.ts < c.value.ts);
    var said := (r: Row) => Said(r, quote);
    BestIs(rows, before);
    BestIs(rows, said);
    assert forall i :: 0 <= i < |rows| ==> (said(rows[i]) <==> Said(rows[i], quote));
    assert c.Some? ==> forall i :: 0 <= i < |rows| ==> (before(rows[i]) <==> SaidBefore(rows, quote, c, i));
  }

  /** The last qualifying position in from..end. */
  function LastIn(rows: seq<Row>, p: Row -> bool, from: nat, end: nat): (r: Option<nat>)
    requires end <= |rows|
    ensures r.Some? ==> from <= r.value < end && p(rows[r.value]) && forall i :: r.value < i < end ==> !p(rows[i])
    ensures r.None? ==> forall i :: from <= i < end ==> !p(rows[i])
    decreases end
  {
    if end <= from then None
    else if p(rows[end - 1]) then Some(end - 1)
    else LastIn(rows, p, from, end - 1)
  }

  /** The human who prompted the bot's own correction: the last to answer the anchor, else the last to speak. */
  function Prompter(rows: seq<Row>, anchor: string, from: nat, end: nat): (r: Option<nat>)
    requires end <= |rows|
    ensures r.Some? ==> from <= r.value < end && Human(rows[r.value])
  {
    var reply := LastIn(rows, (r: Row) => Human(r) && r.parent == anchor, from, end);
    if reply.Some? then reply else LastIn(rows, (r: Row) => Human(r), from, end)
  }

  function Corrected(rows: seq<Row>, e: Corr): Corr {
    var c, a := Pos(rows, e.corrector), Pos(rows, e.anchor);
    if c.None? || Human(rows[c.value]) || !rows[c.value].selfCorrects || a.None? || c.value <= a.value then e
    else
      var h := Prompter(rows, e.anchor, a.value + 1, c.value);
      if h.None? || (rows[h.value].summary && !rows[h.value].strong) then e
      else e.(corrector := rows[h.value].id, role := USER, selfId := e.corrector)
  }

  /** Position h is the last human between a and c, among those who answered the anchor if any did. */
  ghost predicate Prompts(rows: seq<Row>, anchor: string, a: nat, c: nat, h: nat) {
    && a < h < c <= |rows| && Human(rows[h])
    && (forall i :: h < i < c && Human(rows[i]) ==> rows[h].parent == anchor && rows[i].parent != anchor)
    && (rows[h].parent != anchor ==> forall i :: a < i < c && Human(rows[i]) ==> rows[i].parent != anchor)
  }

  /** There is such a position iff a human spoke in between, and it is what the scan finds. */
  lemma {:induction false} PrompterIs(rows: seq<Row>, anchor: string, a: nat, c: nat, h: nat)
    requires a < c <= |rows|
    ensures Prompts(rows, anchor, a, c, h) <==> Prompter(rows, anchor, a + 1, c) == Some(h)
    ensures Prompter(rows, anchor, a + 1, c).Some? <==> exists i :: a < i < c && Human(rows[i])
  {
    hide LastIn;
    var reply := LastIn(rows, (r: Row) => Human(r) && r.parent == anchor, a + 1, c);
    var human := LastIn(rows, (r: Row) => Human(r), a + 1, c);
    if reply.Some? {
      assert Human(rows[reply.value]);
    }
    if Prompts(rows, anchor, a, c, h) {
      assert Human(rows[h]);
    }
  }

  /** A bot corrects itself after the anchor, and h prompted it with more than a summary. */
  ghost predicate Moves(rows: seq<Row>, e: Corr, a: nat, c: nat, h: nat) {
    && Pos(rows, e.anchor) == Some(a) && Pos(rows, e.corrector) == Some(c)
    && !Human(rows[c]) && rows[c].selfCorrects
    && Prompts(rows, e.anchor, a, c, h) && (rows[h].summary ==> rows[h].strong)
  }

  /** A corrector moves exactly then, to that human, and nothing else changes but its role and the note of the old one. */
  lemma {:induction false} CorrectedIs(rows: seq<Row>, e: Corr)
    ensures forall a: nat, c: nat, h: nat :: Moves(rows, e, a, c, h) ==> Corrected(rows, e) == e.(corrector := rows[h].id, role := USER, selfId := e.corrector)
    ensures (forall a: nat, c: nat, h: nat :: !Moves(rows, e, a, c, h)) ==> Corrected(rows, e) == e
  {
    hide Pos, Prompter, Prompts;
    var c, a := Pos(rows, e.corrector), Pos(rows, e.anchor);
    if c.Some? && a.Some? && a.value < c.value {
      var h := Prompter(rows, e.anchor, a.value + 1, c.value);
      forall x: nat ensures Prompts(rows, e.anchor, a.value, c.value, x) <==> h == Some(x) {
        PrompterIs(rows, e.anchor, a.value, c.value, x);
      }
      assert h.Some? && Corrected(rows, e) != e ==> Moves(rows, e, a.value, c.value, h.value);
    } else {
      forall a': nat, c': nat, h: nat ensures !Moves(rows, e, a', c', h) {
        NotAfter(rows, e.anchor, a', c', h);
      }
    }
  }

  lemma {:induction false} NotAfter(rows: seq<Row>, anchor: string, a: nat, c: nat, h: nat)
    ensures Prompts(rows, anchor, a, c, h) ==> a < c
  {
  }

  // ---- the check --------------------------------------------------------------------------------

  datatype Reason =
    | Fine | NoAnchor | AnchorNotBot | AnchorPlaceholder | QuoteShort | QuoteNotSaid | NoCorrector | RoleNotUser
    | CorrectorPlaceholder | CorrectorBot | DemandChange | ReportsBack | NotLater

  function From(a: nat, c: nat): nat {
    if a + 4 >= c then a else c - 4
  }

  function BotsIn(rows: seq<Row>): seq<Row> {
    if rows == [] then [] else (if rows[0].bot then [rows[0]] else []) + BotsIn(rows[1..])
  }

  /** The corrector only reports the output the bot asked for. */
  predicate Reporting(asks: Asks, rows: seq<Row>, a: nat, c: nat)
    requires a < |rows| && c < |rows|
  {
    !rows[c].strong && rows[c].feedback && a < c && asks(BotsIn(rows[From(a, c)..c]))
  }

  function Check(asks: Asks, rows: seq<Row>, e: Corr): Reason {
    var a, c := Pos(rows, e.anchor), Pos(rows, e.corrector);
    if a.None? then NoAnchor
    else if !rows[a.value].bot then AnchorNotBot
    else if rows[a.value].placeholder then AnchorPlaceholder
    else if |e.quote| < MIN_QUOTE then QuoteShort
    else if !Contains(rows[a.value].norm, e.quote) then QuoteNotSaid
    else if c.None? then NoCorrector
    else if e.role != "" && e.role != USER then RoleNotUser
    else if rows[c.value].placeholder then CorrectorPlaceholder
    else if rows[c.value].bot then CorrectorBot
    else if rows[c.value].demand then DemandChange
    else if Reporting(asks, rows, a.value, c.value) then ReportsBack
    else if rows[c.value].ts <= rows[a.value].ts then NotLater
    else Fine
  }

  /**
   * What survives the check: a real bot statement containing the quote, turned down later by a human who neither changes
   * the demand nor only reports what the bot asked for.
   */
  ghost predicate Genuine(asks: Asks, rows: seq<Row>, e: Corr) {
    exists a, c :: 0 <= a < |rows| && 0 <= c < |rows| && IsGenuine(asks, rows, e, a, c)
  }

  ghost predicate IsGenuine(asks: Asks, rows: seq<Row>, e: Corr, a: nat, c: nat)
    requires a < |rows| && c < |rows|
  {
    && LastWith(rows, e.anchor, a) && rows[a].bot && !rows[a].placeholder && |e.quote| >= 4 && Contains(rows[a].norm, e.quote)
    && LastWith(rows, e.corrector, c) && !rows[c].bot && !rows[c].placeholder && !rows[c].demand && !ReportsOn(asks, rows, a, c)
    && rows[a].ts < rows[c].ts && (e.role == "" || e.role == "user")
  }

  /** Row i is the last with the id. */
  ghost predicate LastWith(rows: seq<Row>, id: string, i: nat) {
    i < |rows| && rows[i].id == id && forall j :: i < j < |rows| ==> rows[j].id != id
  }

  /**
   * The corrector gives feedback without strong words, and of the four messages before it, from the anchor on, the
   * bot's asked for that.
   */
  ghost predicate ReportsOn(asks: Asks, rows: seq<Row>, a: nat, c: nat)
    requires a < |rows| && c < |rows|
  {
    !rows[c].strong && rows[c].feedback && a < c && asks(BotsIn(rows[if c >= 4 && a <= c - 4 then c - 4 else a..c]))
  }

  /** The bot's messages among some, in order. */
  lemma {:induction false} BotsInIs(rows: seq<Row>, r: Row)
    ensures BotsIn([]) == [] && BotsIn(rows + [r]) == BotsIn(rows) + (if r.bot then [r] else [])
  {
    if rows == [] {
      assert [] + [r] == [r] && [r][1..] == [];
    } else {
      BotsInIs(rows[1..], r);
      assert (rows + [r])[1..] == rows[1..] + [r];
    }
  }

  lemma {:induction false} PosIs(rows: seq<Row>, id: string, i: nat)
    ensures Pos(rows, id) == Some(i) <==> LastWith(rows, id, i)
  {
    hide Pos;
  }

  /** The twelve steps of the check come to exactly that. */
  lemma {:induction false} FineIffGenuine(asks: Asks, rows: seq<Row>, e: Corr)
    ensures Check(asks, rows, e) == Fine <==> Genuine(asks, rows, e)
    ensures Check(asks, rows, e) == Fine ==>
              && Pos(rows, e.anchor).Some? && Pos(rows, e.corrector).Some?
              && IsGenuine(asks, rows, e, Pos(rows, e.anchor).value, Pos(rows, e.corrector).value)
  {
    hide Pos, Contains, BotsIn;
    if Check(asks, rows, e) == Fine {
      assert IsGenuine(asks, rows, e, Pos(rows, e.anchor).value, Pos(rows, e.corrector).value);
    }
    if a, c :| 0 <= a < |rows| && 0 <= c < |rows| && IsGenuine(asks, rows, e, a, c) {
      PosIs(rows, e.anchor, a);
      PosIs(rows, e.corrector, c);
    }
  }

  /** What each reason for dropping a correction says, given that the steps before it passed. */
  ghost predicate Fails(asks: Asks, rows: seq<Row>, e: Corr, r: Reason) {
    match r
    case Fine => false
    case NoAnchor => forall i :: 0 <= i < |rows| ==> rows[i].id != e.anchor
    case AnchorNotBot => exists a :: 0 <= a < |rows| && LastWith(rows, e.anchor, a) && !rows[a].bot
    case AnchorPlaceholder => exists a :: 0 <= a < |rows| && LastWith(rows, e.anchor, a) && rows[a].placeholder
    case QuoteShort => |e.quote| < 4
    case QuoteNotSaid => exists a :: 0 <= a < |rows| && LastWith(rows, e.anchor, a) && !Contains(rows[a].norm, e.quote)
    case NoCorrector => forall i :: 0 <= i < |rows| ==> rows[i].id != e.corrector
    case RoleNotUser => e.role != "" && e.role != "user"
    case CorrectorPlaceholder => exists c :: 0 <= c < |rows| && LastWith(rows, e.corrector, c) && rows[c].placeholder
    case CorrectorBot => exists c :: 0 <= c < |rows| && LastWith(rows, e.corrector, c) && rows[c].bot
    case DemandChange => exists c :: 0 <= c < |rows| && LastWith(rows, e.corrector, c) && rows[c].demand
    case ReportsBack => exists a, c :: 0 <= a < |rows| && 0 <= c < |rows| && Ends(rows, e, a, c) && ReportsOn(asks, rows, a, c)
    case NotLater => exists a, c :: 0 <= a < |rows| && 0 <= c < |rows| && Ends(rows, e, a, c) && rows[c].ts <= rows[a].ts
  }

  ghost predicate Ends(rows: seq<Row>, e: Corr, a: nat, c: nat) {
    LastWith(rows, e.anchor, a) && LastWith(rows, e.corrector, c)
  }

  const STEPS := [NoAnchor, AnchorNotBot, AnchorPlaceholder, QuoteShort, QuoteNotSaid, NoCorrector, RoleNotUser,
                  CorrectorPlaceholder, CorrectorBot, DemandChange, ReportsBack, NotLater]

  lemma {:induction false} PosFacts(rows: seq<Row>, id: string)
    ensures Pos(rows, id).None? <==> forall i :: 0 <= i < |rows| ==> rows[i].id != id
    ensures Pos(rows, id).Some? ==> LastWith(rows, id, Pos(rows, id).value)
    ensures forall i: nat :: LastWith(rows, id, i) ==> Pos(rows, id) == Some(i)
  {
    hide Pos;
  }

  /** The first step from j on that fails. */
  ghost function FirstFail(asks: Asks, rows: seq<Row>, e: Corr, j: nat): Reason
    requires j <= |STEPS|
    decreases |STEPS| - j
  {
    if j == |STEPS| then Fine else if Fails(asks, rows, e, STEPS[j]) then STEPS[j] else FirstFail(asks, rows, e, j + 1)
  }

  /** The reason is that of the first step that fails. */
  lemma {:induction false} ReasonIsFirst(asks: Asks, rows: seq<Row>, e: Corr)
    ensures Check(asks, rows, e) == FirstFail(asks, rows, e, 0)
  {
    hide Pos, Contains, Fails, Reporting;
    AnchorFails(asks, rows, e);
    CorrectorFails(asks, rows, e);
    if Pos(rows, e.anchor).Some? && Pos(rows, e.corrector).Some? {
      PairFails(asks, rows, e, Pos(rows, e.anchor).value, Pos(rows, e.corrector).value);
    }
    Unrolled(asks, rows, e);
  }

  lemma {:induction false} Unrolled(asks: Asks, rows: seq<Row>, e: Corr)
    ensures var f := (r: Reason) => Fails(asks, rows, e, r);
            FirstFail(asks, rows, e, 0) ==
              if f(NoAnchor) then NoAnchor else if f(AnchorNotBot) then AnchorNotBot else if f(AnchorPlaceholder) then AnchorPlaceholder
              else if f(QuoteShort) then QuoteShort else if f(QuoteNotSaid) then QuoteNotSaid else if f(NoCorrector) then NoCorrector
              else if f(RoleNotUser) then RoleNotUser else if f(CorrectorPlaceholder) then CorrectorPlaceholder
              else if f(CorrectorBot) then CorrectorBot else if f(DemandChange) then DemandChange
              else if f(ReportsBack) then ReportsBack else if f(NotLater) then NotLater else Fine
  {
    hide Fails;
    var f := (r: Reason) => Fails(asks, rows, e, r);
    assert FirstFail(asks, rows, e, 11) == if f(NotLater) then NotLater else Fine;
    assert FirstFail(asks, rows, e, 10) == if f(ReportsBack) then ReportsBack else FirstFail(asks, rows, e, 11);
    assert FirstFail(asks, rows, e, 9) == if f(DemandChange) then DemandChange else FirstFail(asks, rows, e, 10);
    assert FirstFail(asks, rows, e, 8) == if f(CorrectorBot) then CorrectorBot else FirstFail(asks, rows, e, 9);
    assert FirstFail(asks, rows, e, 7) == if f(CorrectorPlaceholder) then CorrectorPlaceholder else FirstFail(asks, rows, e, 8);
    assert FirstFail(asks, rows, e, 6) == if f(RoleNotUser) then RoleNotUser else FirstFail(asks, rows, e, 7);
    assert FirstFail(asks, rows, e, 5) == if f(NoCorrector) then NoCorrector else FirstFail(asks, rows, e, 6);
    assert FirstFail(asks, rows, e, 4) == if f(QuoteNotSaid) then QuoteNotSaid else FirstFail(asks, rows, e, 5);
    assert FirstFail(asks, rows, e, 3) == if f(QuoteShort) then QuoteShort else FirstFail(asks, rows, e, 4);
    assert FirstFail(asks, rows, e, 2) == if f(AnchorPlaceholder) then AnchorPlaceholder else FirstFail(asks, rows, e, 3);
    assert FirstFail(asks, rows, e, 1) == if f(AnchorNotBot) then AnchorNotBot else FirstFail(asks, rows, e, 2);
  }

  lemma {:induction false} AnchorFails(asks: Asks, rows: seq<Row>, e: Corr)
    ensures Fails(asks, rows, e, NoAnchor) <==> Pos(rows, e.anchor).None?
    ensures Fails(asks, rows, e, QuoteShort) <==> |e.quote| < MIN_QUOTE
    ensures Pos(rows, e.anchor).Some? ==> (Fails(asks, rows, e, AnchorNotBot) <==> !rows[Pos(rows, e.anchor).value].bot)
    ensures Pos(rows, e.anchor).Some? ==> (Fails(asks, rows, e, AnchorPlaceholder) <==> rows[Pos(rows, e.anchor).value].placeholder)
    ensures Pos(rows, e.anchor).Some? ==> (Fails(asks, rows, e, QuoteNotSaid) <==> !Contains(rows[Pos(rows, e.anchor).value].norm, e.quote))
  {
    hide Pos, Contains, LastWith;
    PosFacts(rows, e.anchor);
  }

  lemma {:induction false} CorrectorFails(asks: Asks, rows: seq<Row>, e: Corr)
    ensures Fails(asks, rows, e, NoCorrector) <==> Pos(rows, e.corrector).None?
    ensures Fails(asks, rows, e, RoleNotUser) <==> e.role != "" && e.role != USER
    ensures Pos(rows, e.corrector).Some? ==> (Fails(asks, rows, e, CorrectorPlaceholder) <==> rows[Pos(rows, e.corrector).value].placeholder)
    ensures Pos(rows, e.corrector).Some? ==> (Fails(asks, rows, e, CorrectorBot) <==> rows[Pos(rows, e.corrector).value].bot)
    ensures Pos(rows, e.corrector).Some? ==> (Fails(asks, rows, e, DemandChange) <==> rows[Pos(rows, e.corrector).value].demand)
  {
    hide Pos, LastWith;
    PosFacts(rows, e.corrector);
  }

  lemma {:induction false} PairFails(asks: Asks, rows: seq<Row>, e: Corr, a: nat, c: nat)
    requires Pos(rows, e.anchor) == Some(a) && Pos(rows, e.corrector) == Some(c)
    ensures Fails(asks, rows, e, ReportsBack) <==> Reporting(asks, rows, a, c)
    ensures Fails(asks, rows, e, NotLater) <==> rows[c].ts <= rows[a].ts
  {
    hide Pos, BotsIn, LastWith;
    PosFacts(rows, e.anchor);
    PosFacts(rows, e.corrector);
    assert Ends(rows, e, a, c);
  }

  /** Both repairs. */
  function Repaired(rows: seq<Row>, e: Corr): Corr {
    Corrected(rows, Anchored(rows, e))
  }

  function Kept(asks: Asks, rows: seq<Row>, events: seq<Corr>): seq<Corr> {
    if events == [] then [] else
      Kept(asks, rows, events[..|events| - 1]) +
      (var e := Repaired(rows, events[|events| - 1]); if Check(asks, rows, e) == Fine then [e] else [])
  }

  lemma {:induction false} KeptNext(asks: Asks, rows: seq<Row>, events: seq<Corr>, e: Corr)
    ensures Kept(asks, rows, events + [e]) ==
            Kept(asks, rows, events) + (if Check(asks, rows, Repaired(rows, e)) == Fine then [Repaired(rows, e)] else [])
  {
    hide Check, Repaired;
    assert (events + [e])[..|events|] == events;
  }

  lemma {:induction false} KeptNone(asks: Asks, rows: seq<Row>)
    ensures Kept(asks, rows, []) == []
  {
  }

  // ---- the loops --------------------------------------------------------------------------------

  method ResolveAnchors(rows: seq<Row>, events: seq<Corr>) returns (out: seq<Corr>)
    ensures |out| == |events| && forall i :: 0 <= i < |events| ==> out[i] == Anchored(rows, events[i])
  {
    hide Source, Best;
    out := events;
    for n := 0 to |events|
      invariant |out| == |events| && (forall i :: 0 <= i < n ==> out[i] == Anchored(rows, events[i]))
      invariant forall i :: n <= i < |events| ==> out[i] == events[i]
    {
      var e := out[n];
      if |e.quote| >= MIN_QUOTE {
        var pick := Source(rows, e.quote, e.corrector);
        SourceInRange(rows, e.quote, e.corrector);
        if pick.Some? && rows[pick.value].id != e.anchor {
          out := out[n := e.(anchor := rows[pick.value].id)];
        }
      }
    }
  }

  /** Scans the stretch after the anchor for the last human, and the last who answered it. */
  method FindPrompter(rows: seq<Row>, anchor: string, a: nat, c: nat) returns (h: Option<nat>)
    requires a < c <= |rows|
    ensures h.None? <==> forall i :: a < i < c ==> !Human(rows[i])
    ensures h.Some? ==> Prompts(rows, anchor, a, c, h.value)
  {
    var human: Option<nat>, reply: Option<nat> := None, None;
    for i := a + 1 to c
      invariant human.None? ==> forall j :: a < j < i ==> !Human(rows[j])
      invariant human.Some? ==> a < human.value < i && Human(rows[human.value]) && forall j :: human.value < j < i ==> !Human(rows[j])
      invariant reply.None? ==> forall j :: a < j < i && Human(rows[j]) ==> rows[j].parent != anchor
      invariant reply.Some? ==> a < reply.value < i && Human(rows[reply.value]) && rows[reply.value].parent == anchor
      invariant reply.Some? ==> forall j :: reply.value < j < i && Human(rows[j]) ==> rows[j].parent != anchor
    {
      if Human(rows[i]) {
        human := Some(i);
        if rows[i].parent == anchor {
          reply := Some(i);
        }
      }
    }
    h := if reply.Some? then reply else human;
  }

  method ResolveCorrectors(rows: seq<Row>, events: seq<Corr>) returns (out: seq<Corr>)
    ensures |out| == |events| && forall i :: 0 <= i < |events| ==> out[i] == Corrected(rows, events[i])
  {
    hide Pos, Prompter, Prompts;
    out := events;
    for n := 0 to |events|
      invariant |out| == |events| && (forall i :: 0 <= i < n ==> out[i] == Corrected(rows, events[i]))
      invariant forall i :: n <= i < |events| ==> out[i] == events[i]
    {
      var e := out[n];
      var c, a := Pos(rows, e.corrector), Pos(rows, e.anchor);
      if c.Some? && !Human(rows[c.value]) && rows[c.value].selfCorrects && a.Some? && a.value < c.value {
        var h := FindPrompter(rows, e.anchor, a.value, c.value);
        PrompterIs(rows, e.anchor, a.value, c.value, if h.Some? then h.value else 0);
        if h.Some? && !(rows[h.value].summary && !rows[h.value].strong) {
          out := out[n := e.(corrector := rows[h.value].id, role := USER, selfId := e.corrector)];
        }
      }
    }
  }

  method ValidateEvents(asks: Asks, rows: seq<Row>, events: seq<Corr>) returns (kept: seq<Corr>, dropped: seq<(Corr, Reason)>)
    ensures kept == Passing(asks, rows, events) && dropped == Failing(asks, rows, events)
  {
    hide Check;
    kept, dropped := [], [];
    for n := 0 to |events|
      invariant kept == Passing(asks, rows, events[..n]) && dropped == Failing(asks, rows, events[..n])
    {
      assert events[..n + 1][..n] == events[..n];
      var reason := Check(asks, rows, events[n]);
      if reason == Fine {
        kept := kept + [events[n]];
      } else {
        dropped := dropped + [(events[n], reason)];
      }
    }
    assert events[..|events|] == events;
  }

  function Failing(asks: Asks, rows: seq<Row>, events: seq<Corr>): seq<(Corr, Reason)> {
    if events == [] then [] else
      var last := events[|events| - 1];
      Failing(asks, rows, events[..|events| - 1]) + (if Check(asks, rows, last) == Fine then [] else [(last, Check(asks, rows, last))])
  }

  /** Every detected correction is kept or dropped, none is both, and the kept ones are those that pass. */
  lemma {:induction false} EachJudged(asks: Asks, rows: seq<Row>, events: seq<Corr>)
    ensures |Passing(asks, rows, events)| + |Failing(asks, rows, events)| == |events|
    ensures forall e :: e in Passing(asks, rows, events) <==> e in events && Check(asks, rows, e) == Fine
    ensures forall e, r :: (e, r) in Failing(asks, rows, events) <==> e in events && r == Check(asks, rows, e) != Fine
  {
    hide Check;
    if events != [] {
      EachJudged(asks, rows, events[..|events| - 1]);
    }
  }

  function Passing(asks: Asks, rows: seq<Row>, events: seq<Corr>): seq<Corr> {
    if events == [] then [] else
      Passing(asks, rows, events[..|events| - 1]) +
      (if Check(asks, rows, events[|events| - 1]) == Fine then [events[|events| - 1]] else [])
  }

  lemma {:induction false} PassingIsKept(asks: Asks, rows: seq<Row>, events: seq<Corr>, repaired: seq<Corr>)
    requires |repaired| == |events| && forall i :: 0 <= i < |events| ==> repaired[i] == Repaired(rows, events[i])
    ensures Passing(asks, rows, repaired) == Kept(asks, rows, events)
  {
    hide Check, Repaired;
    if events != [] {
      PassingIsKept(asks, rows, events[..|events| - 1], repaired[..|events| - 1]);
    }
  }

  /** Repair, then check. */
  method GuardEvents(asks: Asks, rows: seq<Row>, events: seq<Corr>) returns (kept: seq<Corr>, dropped: seq<(Corr, Reason)>)
    ensures kept == Kept(asks, rows, events) && |kept| + |dropped| == |events|
  {
    hide Check, Anchored, Corrected, Passing, Failing, Kept;
    var anchored := ResolveAnchors(rows, events);
    var repaired := ResolveCorrectors(rows, anchored);
    kept, dropped := ValidateEvents(asks, rows, repaired);
    PassingIsKept(asks, rows, events, repaired);
    EachJudged(asks, rows, repaired);
  }

  // ---- idempotence ------------------------------------------------------------------------------

  ghost predicate InOrder(rows: seq<Row>) {
    forall i, j :: 0 <= i < j < |rows| ==> rows[i].ts <= rows[j].ts
  }

  ghost predicate Distinct(rows: seq<Row>) {
    forall i, j :: 0 <= i < j < |rows| ==> rows[i].id != rows[j].id
  }

  lemma {:induction false} PosOf(rows: seq<Row>, i: nat)
    requires Distinct(rows) && i < |rows|
    ensures Pos(rows, rows[i].id) == Some(i)
  {
  }

  /** A bot message with the quote that comes after the anchor and before the corrector. */
  ghost predicate Nearer(rows: seq<Row>, quote: string, a: nat, c: nat, i: nat)
    requires a < |rows| && c < |rows| && i < |rows|
  {
    Said(rows[i], quote) && rows[a].ts < rows[i].ts < rows[c].ts
  }

  ghost predicate NoneNearer(rows: seq<Row>, quote: string, a: nat, c: nat)
    requires a < |rows| && c < |rows|
  {
    forall i :: 0 <= i < |rows| ==> !Nearer(rows, quote, a, c, i)
  }

  /** For a correction that passed the check, tracing the quote again finds the same message iff none is nearer. */
  lemma {:induction false} TracedAgain(asks: Asks, rows: seq<Row>, e: Corr, was: string)
    requires Distinct(rows) && Check(asks, rows, e) == Fine && Source(rows, e.quote, was) == Pos(rows, e.anchor)
    ensures Pos(rows, e.anchor).Some? && Pos(rows, e.corrector).Some?
    ensures Anchored(rows, e) == e <==> NoneNearer(rows, e.quote, Pos(rows, e.anchor).value, Pos(rows, e.corrector).value)
  {
    hide Check, Contains, Best, Pos, Source, IsBest, NoneNearer;
    FineIffGenuine(asks, rows, e);
    var a, c := Pos(rows, e.anchor).value, Pos(rows, e.corrector).value;
    SourceFirst(rows, e.quote, was, a);
    var b := Retraced(rows, e.quote, e.corrector, a, c);
    PosOf(rows, b);
    PosOf(rows, a);
    SameSource(rows, e.quote, a, b, c);
  }

  /** With a qualifying message before the corrector, the trace is the best of those. */
  lemma {:induction false} Retraced(rows: seq<Row>, quote: string, corrector: string, a: nat, c: nat) returns (b: nat)
    requires a < |rows| && Pos(rows, corrector) == Some(c) && Said(rows[a], quote) && rows[a].ts < rows[c].ts
    ensures b < |rows| && Source(rows, quote, corrector) == Some(b) && IsBest(rows, r => Said(r, quote) && r.ts < rows[c].ts, b)
  {
    hide Contains, Best, Pos;
    var found := ById(rows, corrector);
    var before := (r: Row) => Said(r, quote) && (found.None? || r.ts < found.value.ts);
    BestIs(rows, before);
    assert before(rows[a]);
    b := Best(rows, before, |rows|).value;
  }

  lemma {:induction false} SameSource(rows: seq<Row>, quote: string, a: nat, b: nat, c: nat)
    requires a < |rows| && c < |rows| && IsBest(rows, r => Said(r, quote) && r.ts < rows[c].ts, b)
    requires Said(rows[a], quote) && rows[a].ts < rows[c].ts && forall i :: 0 <= i < a && Said(rows[i], quote) ==> rows[i].ts != rows[a].ts
    ensures b == a <==> NoneNearer(rows, quote, a, c)
  {
    hide Contains;
    var before := (r: Row) => Said(r, quote) && r.ts < rows[c].ts;
    assert before(rows[a]);
    if !NoneNearer(rows, quote, a, c) {
      var i :| 0 <= i < |rows| && Nearer(rows, quote, a, c, i);
      assert before(rows[i]);
    } else {
      assert !Nearer(rows, quote, a, c, b);
    }
  }

  /** No earlier message with the quote has the anchor's time. */
  lemma {:induction false} SourceFirst(rows: seq<Row>, quote: string, was: string, a: nat)
    requires Source(rows, quote, was) == Some(a)
    ensures a < |rows| && Said(rows[a], quote) && forall i :: 0 <= i < a && Said(rows[i], quote) ==> rows[i].ts != rows[a].ts
  {
    hide Contains, Best, Pos;
    var c := ById(rows, was);
    var before := (r: Row) => Said(r, quote) && (c.None? || r.ts < c.value.ts);
    var said := (r: Row) => Said(r, quote);
    BestIs(rows, before);
    BestIs(rows, said);
    assert said(rows[a]);
    forall i | 0 <= i < a && Said(rows[i], quote) ensures rows[i].ts != rows[a].ts {
      assert said(rows[i]);
      assert before(rows[i]) || !before(rows[i]);
    }
  }

  /** In a session in time order, the check rules out anything nearer. */
  lemma {:induction false} OrderedNoneNearer(asks: Asks, rows: seq<Row>, e0: Corr)
    requires Distinct(rows) && InOrder(rows) && Check(asks, rows, Repaired(rows, e0)) == Fine
    ensures var e := Repaired(rows, e0);
            && Pos(rows, e.anchor).Some? && Pos(rows, e.corrector).Some? && Source(rows, e.quote, e0.corrector) == Pos(rows, e.anchor)
            && NoneNearer(rows, e.quote, Pos(rows, e.anchor).value, Pos(rows, e.corrector).value)
  {
    hide Check, Contains, Best, Pos, Source, IsBest, Prompter, NoneNearer;
    var e := Repaired(rows, e0);
    FineIffGenuine(asks, rows, e);
    var a, c := Pos(rows, e.anchor).value, Pos(rows, e.corrector).value;
    TracedOnce(rows, e0, a);
    if e.corrector == e0.corrector {
      var b := Retraced(rows, e.quote, e.corrector, a, c);
      SourceFirst(rows, e.quote, e.corrector, a);
      SameSource(rows, e.quote, a, b, c);
    } else {
      var c0 := Moved(rows, Anchored(rows, e0));
      assert rows[c].ts <= rows[c0].ts by { assert c < c0; }
      var b := Retraced(rows, e.quote, e0.corrector, a, c0);
      SourceFirst(rows, e.quote, e0.corrector, a);
      SameSource(rows, e.quote, a, b, c0);
      FewerNearer(rows, e.quote, a, c, c0);
    }
  }

  lemma {:induction false} FewerNearer(rows: seq<Row>, quote: string, a: nat, c: nat, c0: nat)
    requires a < |rows| && c < |rows| && c0 < |rows| && rows[c].ts <= rows[c0].ts && NoneNearer(rows, quote, a, c0)
    ensures NoneNearer(rows, quote, a, c)
  {
    hide Contains;
    forall i | 0 <= i < |rows| ensures !Nearer(rows, quote, a, c, i) {
      assert !Nearer(rows, quote, a, c0, i);
    }
  }

  /** The anchor of a checked correction is where its quote was traced to. */
  lemma {:induction false} TracedOnce(rows: seq<Row>, e0: Corr, a: nat)
    requires Distinct(rows) && a < |rows| && Pos(rows, Repaired(rows, e0).anchor) == Some(a) && Said(rows[a], e0.quote) && |e0.quote| >= MIN_QUOTE
    ensures Source(rows, e0.quote, e0.corrector) == Some(a)
  {
    hide Contains, Best, Pos, Prompter;
    var s := Source(rows, e0.quote, e0.corrector);
    var said := (r: Row) => Said(r, e0.quote);
    BestIs(rows, said);
    assert said(rows[a]);
    assert s.Some?;
    SourceInRange(rows, e0.quote, e0.corrector);
    PosOf(rows, s.value);
  }

  /** A moved corrector stood before the old one. */
  lemma {:induction false} Moved(rows: seq<Row>, e: Corr) returns (c0: nat)
    requires Distinct(rows) && Corrected(rows, e).corrector != e.corrector
    ensures Pos(rows, e.corrector) == Some(c0) && c0 < |rows|
    ensures Pos(rows, Corrected(rows, e).corrector).Some? && Pos(rows, Corrected(rows, e).corrector).value < c0
  {
    hide Pos, Prompter;
    c0 := Pos(rows, e.corrector).value;
    var h := Prompter(rows, e.anchor, Pos(rows, e.anchor).value + 1, c0);
    PosOf(rows, h.value);
  }

  lemma {:induction false} HumanStays(asks: Asks, rows: seq<Row>, e: Corr)
    requires Check(asks, rows, e) == Fine
    ensures Corrected(rows, e) == e
  {
    hide Check, Pos, Prompter, Contains;
    FineIffGenuine(asks, rows, e);
  }

  /** What one pass keeps, another pass leaves exactly as it is. */
  lemma {:induction false} KeptIsFixed(asks: Asks, rows: seq<Row>, e0: Corr)
    requires Distinct(rows) && InOrder(rows) && Check(asks, rows, Repaired(rows, e0)) == Fine
    ensures Repaired(rows, Repaired(rows, e0)) == Repaired(rows, e0)
  {
    hide Check, Pos, Source, Corrected, NoneNearer, InOrder, Distinct;
    var e := Repaired(rows, e0);
    OrderedNoneNearer(asks, rows, e0);
    TracedAgain(asks, rows, e, e0.corrector);
    HumanStays(asks, rows, e);
  }

  ghost predicate AllFixed(asks: Asks, rows: seq<Row>, events: seq<Corr>) {
    forall i :: 0 <= i < |events| ==> Fixed(asks, rows, events[i])
  }

  ghost predicate Fixed(asks: Asks, rows: seq<Row>, e: Corr) {
    Repaired(rows, e) == e && Check(asks, rows, e) == Fine
  }

  lemma {:induction false} KeptFixed(asks: Asks, rows: seq<Row>, events: seq<Corr>)
    requires AllFixed(asks, rows, events)
    ensures Kept(asks, rows, events) == events
  {
    hide Kept, Repaired, Check;
    if events == [] {
      KeptNone(asks, rows);
    } else {
      var before, last := events[..|events| - 1], events[|events| - 1];
      KeptFixed(asks, rows, before);
      assert events == before + [last] && Fixed(asks, rows, last);
      KeptNext(asks, rows, before, last);
    }
  }

  lemma {:induction false} KeptAllFixed(asks: Asks, rows: seq<Row>, events: seq<Corr>)
    requires Distinct(rows) && InOrder(rows)
    ensures AllFixed(asks, rows, Kept(asks, rows, events))
  {
    hide Kept, Repaired, Check, InOrder, Distinct;
    if events == [] {
      KeptNone(asks, rows);
    } else {
      var before, last := events[..|events| - 1], events[|events| - 1];
      KeptAllFixed(asks, rows, before);
      assert events == before + [last];
      KeptNext(asks, rows, before, last);
      if Check(asks, rows, Repaired(rows, last)) == Fine {
        KeptIsFixed(asks, rows, last);
      }
    }
  }

  /** Guarding the guard's own output changes no anchor or corrector and drops nothing. */
  lemma {:induction false} GuardIdempotent(asks: Asks, rows: seq<Row>, events: seq<Corr>)
    requires Distinct(rows) && InOrder(rows)
    ensures Kept(asks, rows, Kept(asks, rows, events)) == Kept(asks, rows, events)
  {
    hide Kept, AllFixed;
    KeptAllFixed(asks, rows, events);
    KeptFixed(asks, rows, Kept(asks, rows, events));
  }

  // The bot's own correction S carries an earlier time than the human message H before it.
  function BotRow(id: string, t: int): Row {
    Row(id, true, false, "abcd", t, "", false, false, false, false, false)
  }

  function UnorderedRows(): seq<Row> {
    [BotRow("A", 1), Row("H", false, false, "", 10, "", false, false, false, false, false),
     Row("S", true, false, "", 5, "", true, false, false, false, false), BotRow("B", 7)]
  }

  function UnorderedEvent(): Corr {
    Corr("S1", false, "A", "abcd", "S", "", "")
  }

  lemma {:induction false} UnorderedBest()
    ensures var rows := UnorderedRows();
            IsBest(rows, r => Said(r, "abcd") && r.ts < rows[2].ts, 0) && IsBest(rows, r => Said(r, "abcd") && r.ts < rows[1].ts, 3)
  {
    hide Contains;
    Whole("abcd");
    NotIn("", "abcd");
  }

  lemma {:induction false} UnorderedFacts()
    ensures var rows := UnorderedRows();
            && |rows| == 4 && Distinct(rows)
            && Pos(rows, "A") == Some(0) && Pos(rows, "H") == Some(1) && Pos(rows, "S") == Some(2) && Pos(rows, "B") == Some(3)
            && Source(rows, "abcd", "S") == Some(0) && Source(rows, "abcd", "H") == Some(3)
  {
    hide Source, Best, Contains, Pos, IsBest;
    var rows := UnorderedRows();
    PosOf(rows, 0);
    PosOf(rows, 1);
    PosOf(rows, 2);
    PosOf(rows, 3);
    UnorderedBest();
    TracedTo(rows, "abcd", "S", 2, 0);
    TracedTo(rows, "abcd", "H", 1, 3);
  }

  /** Time order is needed: without it the second pass can move the anchor to a statement made in between. */
  lemma {:induction false} UnorderedMoves(asks: Asks)
    ensures var rows, e := UnorderedRows(), UnorderedEvent();
            && Distinct(rows) && Check(asks, rows, Repaired(rows, e)) == Fine
            && Repaired(rows, e).anchor == "A" && Repaired(rows, Repaired(rows, e)).anchor == "B"
  {
    hide Source, Best, Contains, Pos, Prompter, Distinct;
    var rows, e := UnorderedRows(), UnorderedEvent();
    UnorderedFacts();
    OnlyHuman(rows);
    Whole("abcd");
    var e' := e.(corrector := "H", role := USER, selfId := "S");
    assert Repaired(rows, e) == e';
    assert Check(asks, rows, e') == Fine;
    assert Anchored(rows, e') == e'.(anchor := "B");
    assert Corrected(rows, e'.(anchor := "B")).anchor == "B";
  }

  lemma {:induction false} OnlyHuman(rows: seq<Row>)
    requires |rows| == 4 && Human(rows[1]) && rows[1].parent == ""
    ensures Prompter(rows, "A", 1, 2) == Some(1)
  {
    var replies := (r: Row) => Human(r) && r.parent == "A";
    assert !replies(rows[1]);
  }

  lemma {:induction false} Whole(q: string)
    ensures Contains(q, q)
  {
    assert FoundAt(q, q, 0);
  }

  lemma {:induction false} NotIn(text: string, q: string)
    requires |text| < |q|
    ensures !Contains(text, q)
  {
  }

  lemma {:induction false} TracedTo(rows: seq<Row>, quote: string, corrector: string, c: nat, b: nat)
    requires c < |rows| && Pos(rows, corrector) == Some(c) && IsBest(rows, r => Said(r, quote) && r.ts < rows[c].ts, b)
    ensures Source(rows, quote, corrector) == Some(b)
  {
    hide Contains, Pos, Best;
    var found := ById(rows, corrector);
    var before := (r: Row) => Said(r, quote) && (found.None? || r.ts < found.value.ts);
    assert IsBest(rows, before, b);
    BestUnique(rows, before, b);
  }

  // ---- replaying the cache ----------------------------------------------------------------------

  predicate Live(e: Corr) {
    !e.empty && e.session != ""
  }

  /** The cached corrections of one session, in order. */
  function Group(cached: seq<Corr>, sid: string): seq<Corr> {
    if cached == [] then [] else
      var last := cached[|cached| - 1];
      Group(cached[..|cached| - 1], sid) + (if Live(last) && last.session == sid then [last] else [])
  }

  /** The sessions in the order they first appear. */
  function Sids(cached: seq<Corr>): seq<string> {
    if cached == [] then [] else
      var last, before := cached[|cached| - 1], Sids(cached[..|cached| - 1]);
      if Live(last) && last.session !in before then before + [last.session] else before
  }

  lemma {:induction false} GroupNext(cached: seq<Corr>, e: Corr, sid: string)
    ensures Group(cached + [e], sid) == if Live(e) && e.session == sid then Group(cached, sid) + [e] else Group(cached, sid)
    ensures Sids(cached + [e]) == if Live(e) && e.session !in Sids(cached) then Sids(cached) + [e.session] else Sids(cached)
  {
    assert (cached + [e])[..|cached|] == cached;
  }

  lemma {:induction false} GroupNone(sid: string)
    ensures Group([], sid) == [] && Sids([]) == []
  {
  }

  function Guarded(asks: Asks, sessions: map<string, seq<Row>>, cached: seq<Corr>, sid: string): seq<Corr> {
    if sid in sessions && sessions[sid] != [] then Kept(asks, sessions[sid], Group(cached, sid)) else []
  }

  function Replay(asks: Asks, sessions: map<string, seq<Row>>, cached: seq<Corr>, sids: seq<string>): seq<Corr> {
    if sids == [] then [] else
      Replay(asks, sessions, cached, sids[..|sids| - 1]) + Guarded(asks, sessions, cached, sids[|sids| - 1])
  }

  ghost predicate Grouped(cached: seq<Corr>, sids: seq<string>, groups: map<string, seq<Corr>>) {
    sids == Sids(cached) && forall sid :: GroupIs(cached, sids, groups, sid)
  }

  ghost predicate GroupIs(cached: seq<Corr>, sids: seq<string>, groups: map<string, seq<Corr>>, sid: string) {
    && (sid in groups <==> sid in sids)
    && Group(cached, sid) == if sid in groups then groups[sid] else []
  }

  /** Cached detections pass through today's guard again, session by session. */
  method ReguardCachedRows(asks: Asks, sessions: map<string, seq<Row>>, cached: seq<Corr>) returns (kept: seq<Corr>)
    ensures kept == Replay(asks, sessions, cached, Sids(cached))
  {
    hide Kept, Group, Sids, Grouped;
    var sids: seq<string>, groups: map<string, seq<Corr>> := [], map[];
    GroupedNone();
    assert cached[..0] == [];
    for n := 0 to |cached|
      invariant Grouped(cached[..n], sids, groups)
    {
      var e := cached[n];
      assert cached[..n + 1] == cached[..n] + [e];
      GroupedNext(cached[..n], sids, groups, e);
      if !e.empty && e.session != "" {
        if e.session in groups {
          groups := groups[e.session := groups[e.session] + [e]];
        } else {
          sids, groups := sids + [e.session], groups[e.session := [e]];
        }
      }
    }
    assert cached[..|cached|] == cached;
    kept := [];
    for k := 0 to |sids|
      invariant kept == Replay(asks, sessions, cached, sids[..k])
    {
      var sid := sids[k];
      assert sids[..k + 1][..k] == sids[..k];
      GroupedAt(cached, sids, groups, k);
      if sid in sessions && sessions[sid] != [] {
        var good, _ := GuardEvents(asks, sessions[sid], groups[sid]);
        kept := kept + good;
      }
    }
    assert sids[..|sids|] == sids;
    GroupedSids(cached, sids, groups);
  }

  lemma {:induction false} GroupedNone()
    ensures Grouped([], [], map[])
  {
  }

  lemma {:induction false} GroupedNext(cached: seq<Corr>, sids: seq<string>, groups: map<string, seq<Corr>>, e: Corr)
    requires Grouped(cached, sids, groups)
    ensures if !Live(e) then Grouped(cached + [e], sids, groups)
            else if e.session in groups then Grouped(cached + [e], sids, groups[e.session := groups[e.session] + [e]])
            else Grouped(cached + [e], sids + [e.session], groups[e.session := [e]])
  {
    hide Group, Sids, GroupIs, Live;
    GroupNext(cached, e, e.session);
    assert GroupIs(cached, sids, groups, e.session);
    SidKnown(cached, sids, groups, e.session);
    var more := cached + [e];
    var sids' := if Live(e) && e.session !in groups then sids + [e.session] else sids;
    var groups' := if !Live(e) then groups else if e.session in groups then groups[e.session := groups[e.session] + [e]] else groups[e.session := [e]];
    forall sid: string ensures GroupIs(more, sids', groups', sid) {
      assert GroupIs(cached, sids, groups, sid);
      GroupStep(cached, sids, groups, e, sid);
    }
    assert Grouped(more, sids', groups');
  }

  lemma {:induction false} SidKnown(cached: seq<Corr>, sids: seq<string>, groups: map<string, seq<Corr>>, sid: string)
    requires GroupIs(cached, sids, groups, sid)
    ensures sid in groups <==> sid in sids
  {
  }

  lemma {:induction false} GroupStep(cached: seq<Corr>, sids: seq<string>, groups: map<string, seq<Corr>>, e: Corr, sid: string)
    requires GroupIs(cached, sids, groups, sid)
    ensures !Live(e) ==> GroupIs(cached + [e], sids, groups, sid)
    ensures Live(e) && e.session in groups ==> GroupIs(cached + [e], sids, groups[e.session := groups[e.session] + [e]], sid)
    ensures Live(e) && e.session !in groups ==> GroupIs(cached + [e], sids + [e.session], groups[e.session := [e]], sid)
  {
    hide Group, Sids, Live;
    GroupNext(cached, e, sid);
    assert [] + [e] == [e];
  }

  lemma {:induction false} GroupedAt(cached: seq<Corr>, sids: seq<string>, groups: map<string, seq<Corr>>, k: nat)
    requires Grouped(cached, sids, groups) && k < |sids|
    ensures sids[k] in groups && groups[sids[k]] == Group(cached, sids[k])
  {
    hide Group, Sids;
    assert GroupIs(cached, sids, groups, sids[k]);
  }

  lemma {:induction false} GroupedSids(cached: seq<Corr>, sids: seq<string>, groups: map<string, seq<Corr>>)
    requires Grouped(cached, sids, groups)
    ensures sids == Sids(cached)
  {
  }

  /** A cached row: a correction the guard kept for its session, stamped with the session. */
  ghost predicate WasKept(asks: Asks, sessions: map<string, seq<Row>>, made: map<string, seq<Corr>>, row: Corr) {
    && row.session != "" && row.session in sessions && row.session in made
    && exists k :: k in Kept(asks, sessions[row.session], made[row.session]) && row == k.(session := row.session)
  }

  /** Sessions hold distinct messages in time order. */
  ghost predicate Sound(sessions: map<string, seq<Row>>) {
    forall sid :: sid in sessions ==> sessions[sid] != [] && Distinct(sessions[sid]) && InOrder(sessions[sid])
  }

  /** Every row of the cache is a sentinel or was kept, whatever was detected. */
  ghost predicate CacheGood(asks: Asks, sessions: map<string, seq<Row>>, made: map<string, seq<Corr>>, cached: seq<Corr>) {
    Sound(sessions) && forall i :: 0 <= i < |cached| && !cached[i].empty ==> WasKept(asks, sessions, made, cached[i])
  }

  const SENTINEL := Corr("", true, "", "", "", "", "")

  /** The corrections stamped with their session. */
  function Stamped(es: seq<Corr>, sid: string): (r: seq<Corr>)
    ensures |r| == |es| && forall i :: 0 <= i < |es| ==> r[i] == es[i].(session := sid)
  {
    seq(|es|, i requires 0 <= i < |es| => es[i].(session := sid))
  }

  ghost predicate AllLive(es: seq<Corr>) {
    forall i :: 0 <= i < |es| ==> !es[i].empty
  }

  /** What the cache holds after the first n sessions: for each of them what was kept, for others nothing. */
  ghost predicate Written(asks: Asks, sessions: map<string, seq<Row>>, made: map<string, seq<Corr>>, sids: seq<string>, n: nat, cached: seq<Corr>)
    requires forall i :: 0 <= i < |sids| ==> sids[i] in sessions && sids[i] in made
  {
    && n <= |sids| && (forall i :: 0 <= i < n && AllLive(made[sids[i]]) ==> Group(cached, sids[i]) == Stamped(Kept(asks, sessions[sids[i]], made[sids[i]]), sids[i]))
    && (forall sid :: sid !in sids[..n] ==> Group(cached, sid) == [])
  }

  /** Detection writes, for each session, what the guard kept, or a sentinel if that is nothing. */
  method WriteCache(asks: Asks, sessions: map<string, seq<Row>>, made: map<string, seq<Corr>>, sids: seq<string>) returns (cached: seq<Corr>)
    requires Sound(sessions) && forall i :: 0 <= i < |sids| ==> sids[i] != "" && sids[i] in sessions && sids[i] in made
    requires forall i, j :: 0 <= i < j < |sids| ==> sids[i] != sids[j]
    ensures CacheGood(asks, sessions, made, cached) && Written(asks, sessions, made, sids, |sids|, cached)
    ensures forall i :: 0 <= i < |sids| ==> IsDone(cached, sids[i])
  {
    hide Sound, Kept, Written, Group, CacheGood, AllLive, IsDone;
    cached := [];
    NothingWritten(asks, sessions, made, sids);
    for n := 0 to |sids|
      invariant CacheGood(asks, sessions, made, cached) && Written(asks, sessions, made, sids, n, cached)
      invariant forall i :: 0 <= i < n ==> IsDone(cached, sids[i])
    {
      var sid := sids[n];
      var found, _ := GuardEvents(asks, sessions[sid], made[sid]);
      ghost var was := cached;
      var rows := WriteSession(sid, found);
      cached := cached + rows;
      RowsWritten(asks, sessions, made, sids, n, was, rows);
      DoneNext(was, rows, sid);
      forall i | 0 <= i < n ensures IsDone(cached, sids[i]) {
        DoneStays(was, rows, sids[i]);
      }
    }
  }

  /** The cache shows that the session was processed. */
  ghost predicate IsDone(cached: seq<Corr>, sid: string) {
    exists e :: e in cached && e.session == sid
  }

  lemma {:induction false} DoneNext(cached: seq<Corr>, rows: seq<Corr>, sid: string)
    requires rows != [] && rows[0].session == sid
    ensures IsDone(cached + rows, sid)
  {
    assert (cached + rows)[|cached|] == rows[0];
  }

  lemma {:induction false} DoneStays(cached: seq<Corr>, rows: seq<Corr>, sid: string)
    requires IsDone(cached, sid)
    ensures IsDone(cached + rows, sid)
  {
  }

  method WriteSession(sid: string, found: seq<Corr>) returns (rows: seq<Corr>)
    ensures rows == if found == [] then [SENTINEL.(session := sid)] else Stamped(found, sid)
  {
    rows := [];
    if found == [] {
      rows := [SENTINEL.(session := sid)];
    }
    for k := 0 to |found|
      invariant rows == if found == [] then [SENTINEL.(session := sid)] else Stamped(found[..k], sid)
    {
      rows := rows + [found[k].(session := sid)];
    }
    assert found[..|found|] == found;
  }

  lemma {:induction false} NothingWritten(asks: Asks, sessions: map<string, seq<Row>>, made: map<string, seq<Corr>>, sids: seq<string>)
    requires Sound(sessions) && forall i :: 0 <= i < |sids| ==> sids[i] in sessions && sids[i] in made
    ensures CacheGood(asks, sessions, made, []) && Written(asks, sessions, made, sids, 0, [])
  {
    hide Sound, Kept;
  }

  lemma {:induction false} KeptLive(asks: Asks, rows: seq<Row>, es: seq<Corr>)
    requires AllLive(es)
    ensures AllLive(Kept(asks, rows, es))
  {
    hide Check, Repaired;
    if es != [] {
      KeptLive(asks, rows, es[..|es| - 1]);
      RepairedLive(rows, es[|es| - 1]);
    }
  }

  lemma {:induction false} RepairedLive(rows: seq<Row>, e: Corr)
    ensures Repaired(rows, e).empty == e.empty
  {
    hide Pos, Source, Prompter;
  }

  lemma {:induction false} GroupOf(cached: seq<Corr>, rows: seq<Corr>, sid: string, own: string)
    requires forall i :: 0 <= i < |rows| ==> rows[i].session == own && own != ""
    ensures sid != own ==> Group(cached + rows, sid) == Group(cached, sid)
    ensures AllLive(rows) ==> Group(cached + rows, own) == Group(cached, own) + rows
  {
    hide Group;
    if rows == [] {
      assert cached + rows == cached;
    } else {
      var before, last := rows[..|rows| - 1], rows[|rows| - 1];
      GroupOf(cached, before, sid, own);
      assert cached + rows == (cached + before) + [last] && rows == before + [last];
      GroupNext(cached + before, last, sid);
      GroupNext(cached + before, last, own);
    }
  }

  lemma {:induction false} OwnGroup(cached: seq<Corr>, rows: seq<Corr>, kept: seq<Corr>, own: string)
    requires AllLive(kept) && own != "" && Group(cached, own) == []
    requires rows == if kept == [] then [SENTINEL.(session := own)] else Stamped(kept, own)
    ensures Group(cached + rows, own) == Stamped(kept, own)
  {
    hide Group;
    if kept == [] {
      GroupNext(cached, rows[0], own);
    } else {
      GroupOf(cached, rows, own, own);
    }
  }

  lemma {:induction false} RowsWritten(asks: Asks, sessions: map<string, seq<Row>>, made: map<string, seq<Corr>>, sids: seq<string>, n: nat, cached: seq<Corr>, rows: seq<Corr>)
    requires (forall i :: 0 <= i < |sids| ==> sids[i] != "" && sids[i] in sessions && sids[i] in made) && n < |sids|
    requires (forall i, j :: 0 <= i < j < |sids| ==> sids[i] != sids[j])
    requires CacheGood(asks, sessions, made, cached) && Written(asks, sessions, made, sids, n, cached)
    requires var kept := Kept(asks, sessions[sids[n]], made[sids[n]]);
             rows == if kept == [] then [SENTINEL.(session := sids[n])] else Stamped(kept, sids[n])
    ensures CacheGood(asks, sessions, made, cached + rows) && Written(asks, sessions, made, sids, n + 1, cached + rows)
  {
    hide Sound, Kept, Group;
    var own, kept := sids[n], Kept(asks, sessions[sids[n]], made[sids[n]]);
    forall i | 0 <= i < |rows| && !rows[i].empty ensures WasKept(asks, sessions, made, rows[i]) {
      assert kept[i] in kept;
    }
    forall sid ensures sid != own ==> Group(cached + rows, sid) == Group(cached, sid) {
      GroupOf(cached, rows, sid, own);
    }
    if AllLive(made[own]) {
      KeptLive(asks, sessions[own], made[own]);
      OwnGroup(cached, rows, kept, own);
    }
    assert sids[..n + 1] == sids[..n] + [own] && own !in sids[..n];
  }

  /** The stamp plays no part in the guard. */
  lemma {:induction false} StampIrrelevant(asks: Asks, rows: seq<Row>, e: Corr, sid: string)
    requires Fixed(asks, rows, e)
    ensures Fixed(asks, rows, e.(session := sid))
  {
    hide Pos, Source, Prompter, Contains, Reporting;
    var f := e.(session := sid);
    assert Anchored(rows, f) == Anchored(rows, e).(session := sid);
    assert Repaired(rows, f) == Repaired(rows, e).(session := sid);
  }

  /** So what was kept once is left alone by the guard. */
  lemma {:induction false} WasKeptFixed(asks: Asks, sessions: map<string, seq<Row>>, made: map<string, seq<Corr>>, row: Corr)
    requires Sound(sessions) && WasKept(asks, sessions, made, row)
    ensures Fixed(asks, sessions[row.session], row)
  {
    hide Kept, Fixed, Distinct, InOrder;
    var rows, kept := sessions[row.session], Kept(asks, sessions[row.session], made[row.session]);
    var k :| k in kept && row == k.(session := row.session);
    KeptAllFixed(asks, rows, made[row.session]);
    var i :| 0 <= i < |kept| && kept[i] == k;
    StampIrrelevant(asks, rows, k, row.session);
  }

  lemma {:induction false} GroupFixed(asks: Asks, sessions: map<string, seq<Row>>, made: map<string, seq<Corr>>, cached: seq<Corr>, sid: string)
    requires CacheGood(asks, sessions, made, cached)
    ensures Group(cached, sid) != [] ==> sid in sessions && sessions[sid] != [] && AllFixed(asks, sessions[sid], Group(cached, sid))
  {
    hide Group, Fixed, WasKept;
    if cached == [] {
      GroupNone(sid);
    } else {
      var before, last := cached[..|cached| - 1], cached[|cached| - 1];
      GroupFixed(asks, sessions, made, before, sid);
      assert cached == before + [last];
      GroupNext(before, last, sid);
      if Live(last) {
        WasKeptFixed(asks, sessions, made, last);
        KeptSession(asks, sessions, made, last);
      }
    }
  }

  lemma {:induction false} KeptSession(asks: Asks, sessions: map<string, seq<Row>>, made: map<string, seq<Corr>>, row: Corr)
    requires Sound(sessions) && WasKept(asks, sessions, made, row)
    ensures row.session in sessions && sessions[row.session] != []
  {
  }

  /** Replaying such a cache gives back, for every session, exactly its corrections, unchanged and in order. */
  lemma {:induction false} ReplayStable(asks: Asks, sessions: map<string, seq<Row>>, made: map<string, seq<Corr>>, cached: seq<Corr>, sid: string)
    requires CacheGood(asks, sessions, made, cached)
    ensures Guarded(asks, sessions, cached, sid) == Group(cached, sid)
  {
    hide Group, Kept, CacheGood;
    GroupFixed(asks, sessions, made, cached, sid);
    if Group(cached, sid) != [] {
      KeptFixed(asks, sessions[sid], Group(cached, sid));
    } else if sid in sessions {
      KeptNone(asks, sessions[sid]);
    }
  }

  function LiveOnly(cached: seq<Corr>): seq<Corr> {
    if cached == [] then [] else
      LiveOnly(cached[..|cached| - 1]) + (if Live(cached[|cached| - 1]) then [cached[|cached| - 1]] else [])
  }

  /** All groups one after the other. */
  function Groups(cached: seq<Corr>, sids: seq<string>): seq<Corr> {
    if sids == [] then [] else Groups(cached, sids[..|sids| - 1]) + Group(cached, sids[|sids| - 1])
  }

  lemma {:induction false} GroupsNext(cached: seq<Corr>, e: Corr, sids: seq<string>)
    requires forall i, j :: 0 <= i < j < |sids| ==> sids[i] != sids[j]
    ensures multiset(Groups(cached + [e], sids)) ==
            multiset(Groups(cached, sids)) + (if Live(e) && e.session in sids then multiset{e} else multiset{})
  {
    hide Group;
    if sids != [] {
      var before, last := sids[..|sids| - 1], sids[|sids| - 1];
      GroupsNext(cached, e, before);
      GroupNext(cached, e, last);
      assert sids == before + [last];
      assert last !in before;
    }
  }

  lemma {:induction false} SidsDistinct(cached: seq<Corr>)
    ensures forall i, j :: 0 <= i < j < |Sids(cached)| ==> Sids(cached)[i] != Sids(cached)[j]
  {
    if cached != [] {
      SidsDistinct(cached[..|cached| - 1]);
    }
  }

  lemma {:induction false} GroupsSnoc(cached: seq<Corr>, sids: seq<string>, sid: string)
    ensures Groups(cached, sids + [sid]) == Groups(cached, sids) + Group(cached, sid)
  {
    hide Group;
    assert (sids + [sid])[..|sids|] == sids;
  }

  lemma {:induction false} NewSidEmpty(cached: seq<Corr>, sid: string)
    requires sid !in Sids(cached)
    ensures Group(cached, sid) == []
  {
    hide Group, Sids;
    if cached == [] {
      GroupNone(sid);
    } else {
      var before, last := cached[..|cached| - 1], cached[|cached| - 1];
      assert cached == before + [last];
      GroupNext(before, last, sid);
      NewSidEmpty(before, sid);
    }
  }

  /** Grouping loses and adds nothing. */
  lemma {:induction false} GroupsCover(cached: seq<Corr>)
    ensures multiset(Groups(cached, Sids(cached))) == multiset(LiveOnly(cached))
  {
    hide Group, Sids, Groups;
    if cached == [] {
      GroupNone("");
      NoGroups();
    } else {
      var before, last := cached[..|cached| - 1], cached[|cached| - 1];
      GroupsCover(before);
      assert cached == before + [last];
      GroupNext(before, last, last.session);
      SidsDistinct(before);
      SidsDistinct(cached);
      GroupsNext(before, last, Sids(cached));
      if Live(last) && last.session !in Sids(before) {
        GroupsSnoc(before, Sids(before), last.session);
        NewSidEmpty(before, last.session);
      }
    }
  }

  lemma {:induction false} NoGroups()
    ensures Groups([], []) == []
  {
  }

  /** Replaying a cache of kept corrections keeps every one of them, unchanged. */
  lemma {:induction false} ReplayKeepsAll(asks: Asks, sessions: map<string, seq<Row>>, made: map<string, seq<Corr>>, cached: seq<Corr>)
    requires CacheGood(asks, sessions, made, cached)
    ensures multiset(Replay(asks, sessions, cached, Sids(cached))) == multiset(LiveOnly(cached))
  {
    hide CacheGood, Groups, LiveOnly, Replay, Sids;
    ReplayGroups(asks, sessions, made, cached, Sids(cached));
    GroupsCover(cached);
  }

  lemma {:induction false} ReplayGroups(asks: Asks, sessions: map<string, seq<Row>>, made: map<string, seq<Corr>>, cached: seq<Corr>, sids: seq<string>)
    requires CacheGood(asks, sessions, made, cached)
    ensures Replay(asks, sessions, cached, sids) == Groups(cached, sids)
  {
    hide CacheGood, Group, Guarded;
    if sids != [] {
      ReplayGroups(asks, sessions, made, cached, sids[..|sids| - 1]);
      ReplayStable(asks, sessions, made, cached, sids[|sids| - 1]);
    }
  }
}
