/** A task too big for one call: decomposed chunk by chunk, renumbered and put together again. */
module Chunks {
  import opened Events
  import opened Lists
  import opened Overlaps
  import opened OverlapRepair
  import Gaps
  import TerminalTail

  // ---- ids --------------------------------------------------------------------------------------

  predicate Digits(s: string) {
    forall i :: 0 <= i < |s| ==> '0' <= s[i] <= '9'
  }

  /** Decimal spelling. */
  function Decimal(n: nat): (r: string)
    ensures r != [] && Digits(r)
  {
    (if n < 10 then [] else Decimal(n / 10)) + ['0' + (n % 10) as char]
  }

  lemma {:induction false} DecimalInjective(m: nat, n: nat)
    requires Decimal(m) == Decimal(n)
    ensures m == n
  {
    var a, b := Decimal(m), Decimal(n);
    assert a[|a| - 1] == '0' + (m % 10) as char && b[|b| - 1] == '0' + (n % 10) as char;
    assert m % 10 == n % 10;
    assert a[..|a| - 1] == if m < 10 then [] else Decimal(m / 10);
    assert b[..|b| - 1] == if n < 10 then [] else Decimal(n / 10);
    if m >= 10 && n >= 10 {
      DecimalInjective(m / 10, n / 10);
    }
  }

  /** A segment's id within chunk ci of the task. */
  function ChunkId(ci: nat, id: string): string {
    "S" + Decimal(ci) + "." + id
  }

  lemma {:induction false} DotAfterDigits(a: string, b: string, x: string, y: string)
    requires Digits(a) && Digits(b) && a + "." + x == b + "." + y
    ensures a == b && x == y
  {
    var s := a + "." + x;
    DotPosition(s, a, x, b, y);
    DotPosition(s, b, y, a, x);
    assert a == s[..|a|] && b == s[..|b|];
    assert x == s[|a| + 1..] && y == s[|b| + 1..];
  }

  lemma {:induction false} DotPosition(s: string, a: string, x: string, b: string, y: string)
    requires s == a + "." + x && s == b + "." + y && Digits(b)
    ensures |b| <= |a|
  {
    assert s[|a|] == '.';
    assert forall i :: 0 <= i < |b| ==> s[i] == b[i];
  }

  /** Ids from different chunks differ, and within a chunk they differ when they did before. */
  lemma {:induction false} ChunkIdInjective(ci: nat, cj: nat, x: string, y: string)
    requires ChunkId(ci, x) == ChunkId(cj, y)
    ensures ci == cj && x == y
  {
    hide Decimal;
    var p, q := Decimal(ci) + "." + x, Decimal(cj) + "." + y;
    assert ChunkId(ci, x)[1..] == p && ChunkId(cj, y)[1..] == q;
    DotAfterDigits(Decimal(ci), Decimal(cj), x, y);
    DecimalInjective(ci, cj);
  }

  // ---- merging ----------------------------------------------------------------------------------

  /** One chunk's answer and how many rows it was given. */
  datatype Part = Part(subs: seq<Sub>, edges: seq<Edge>, size: nat)

  function ShiftEntry(e: Entry, offset: nat): Entry {
    Num((if e.Num? then e.n else 0) + offset)
  }

  function ShiftEntries(es: seq<Entry>, offset: nat): (r: seq<Entry>)
    ensures |r| == |es|
  {
    seq(|es|, i requires 0 <= i < |es| => ShiftEntry(es[i], offset))
  }

  function ShiftSub(ci: nat, offset: nat, s: Sub): Sub {
    s.(id := ChunkId(ci, s.id), members := ShiftEntries(s.members, offset))
  }

  function ShiftSubs(ci: nat, offset: nat, subs: seq<Sub>): (r: seq<Sub>)
    ensures |r| == |subs|
  {
    seq(|subs|, i requires 0 <= i < |subs| => ShiftSub(ci, offset, subs[i]))
  }

  predicate Known(subs: seq<Sub>, id: string) {
    exists i :: 0 <= i < |subs| && subs[i].id == id
  }

  /** Names of this chunk's segments get the chunk's prefix, anything else stays. */
  function ShiftName(ci: nat, subs: seq<Sub>, id: string): string {
    if Known(subs, id) then ChunkId(ci, id) else id
  }

  function ShiftEdges(ci: nat, subs: seq<Sub>, edges: seq<Edge>): (r: seq<Edge>)
    ensures |r| == |edges|
  {
    seq(|edges|, k requires 0 <= k < |edges| => Edge(ShiftName(ci, subs, edges[k].from), ShiftName(ci, subs, edges[k].to), edges[k].label'))
  }

  function Offset(parts: seq<Part>, k: nat): nat
    requires k <= |parts|
  {
    if k == 0 then 0 else Offset(parts, k - 1) + parts[k - 1].size
  }

  function MergedSubs(parts: seq<Part>, n: nat): seq<Sub>
    requires n <= |parts|
  {
    if n == 0 then [] else MergedSubs(parts, n - 1) + ShiftSubs(n, Offset(parts, n - 1), parts[n - 1].subs)
  }

  function MergedEdges(parts: seq<Part>, n: nat): seq<Edge>
    requires n <= |parts|
  {
    if n == 0 then [] else MergedEdges(parts, n - 1) + ShiftEdges(n, parts[n - 1].subs, parts[n - 1].edges)
  }

  /** Where the segments of chunk k start in the merged list. */
  function Base(parts: seq<Part>, k: nat): nat
    requires k <= |parts|
  {
    if k == 0 then 0 else Base(parts, k - 1) + |parts[k - 1].subs|
  }

  lemma {:induction false} MergedAt(parts: seq<Part>, n: nat, k: nat, i: nat)
    requires k < n <= |parts| && i < |parts[k].subs|
    ensures |MergedSubs(parts, n)| == Base(parts, n) && Base(parts, k) + i < Base(parts, n)
    ensures MergedSubs(parts, n)[Base(parts, k) + i] == ShiftSub(k + 1, Offset(parts, k), parts[k].subs[i])
  {
    MergedLength(parts, n);
    MergedLength(parts, n - 1);
    if k < n - 1 {
      MergedAt(parts, n - 1, k, i);
    }
  }

  lemma {:induction false} MergedLength(parts: seq<Part>, n: nat)
    requires n <= |parts|
    ensures |MergedSubs(parts, n)| == Base(parts, n)
  {
    if n > 0 {
      MergedLength(parts, n - 1);
    }
  }

  /** Every merged segment is one segment of one chunk, renamed and renumbered. */
  lemma {:induction false} MergedFrom(parts: seq<Part>, n: nat, x: nat) returns (k: nat, i: nat)
    requires n <= |parts| && x < |MergedSubs(parts, n)|
    ensures k < n && i < |parts[k].subs| && x == Base(parts, k) + i
    ensures MergedSubs(parts, n)[x] == ShiftSub(k + 1, Offset(parts, k), parts[k].subs[i])
  {
    hide ShiftSub;
    MergedLength(parts, n - 1);
    if x < Base(parts, n - 1) {
      k, i := MergedFrom(parts, n - 1, x);
    } else {
      k, i := n - 1, x - Base(parts, n - 1);
    }
  }

  // ---- numbers ----------------------------------------------------------------------------------

  predicate InsideEntry(e: Entry, size: nat) {
    e.Num? && 1 <= e.n <= size
  }

  /** All members of all segments are rows of the chunk. */
  ghost predicate Inside(p: Part) {
    forall i, a {:trigger p.subs[i].members[a]} :: 0 <= i < |p.subs| && 0 <= a < |p.subs[i].members| ==> InsideEntry(p.subs[i].members[a], p.size)
  }

  /** A member lands in its own chunk's range exactly when it was a row of that chunk; text without a number does not. */
  lemma {:induction false} ShiftStaysIff(e: Entry, offset: nat, size: nat)
    ensures ShiftEntry(e, offset).Num?
    ensures offset < ShiftEntry(e, offset).n <= offset + size <==> InsideEntry(e, size)
  {
  }

  lemma {:induction false} ShiftHas(ci: nat, offset: nat, s: Sub, v: nat)
    ensures v in Has(ShiftSub(ci, offset, s)) <==> exists a :: 0 <= a < |s.members| && ShiftEntry(s.members[a], offset) == Num(v)
  {
    var es := ShiftEntries(s.members, offset);
    if v in Has(ShiftSub(ci, offset, s)) {
      var a :| 0 <= a < |es| && es[a] == Num(v);
      assert ShiftEntry(s.members[a], offset) == Num(v);
    }
    if a :| 0 <= a < |s.members| && ShiftEntry(s.members[a], offset) == Num(v) {
      assert es[a] == Num(v);
    }
  }

  /** Renumbering moves exactly the chunk's own numbers. */
  lemma {:induction false} ShiftNumbers(ci: nat, p: Part, i: nat, offset: nat, v: nat)
    requires Inside(p) && i < |p.subs|
    ensures v in Has(ShiftSub(ci, offset, p.subs[i])) <==> v > offset && v - offset in Has(p.subs[i])
    ensures v in Has(ShiftSub(ci, offset, p.subs[i])) ==> offset < v <= offset + p.size
  {
    hide ShiftSub, Inside;
    var s := p.subs[i];
    ShiftHas(ci, offset, s, v);
    forall a | 0 <= a < |s.members| ensures InsideEntry(s.members[a], p.size) {
      InsideAt(p, i, a);
    }
    if v > offset && v - offset in Has(s) {
      var a :| 0 <= a < |s.members| && s.members[a] == Num(v - offset);
      assert ShiftEntry(s.members[a], offset) == Num(v);
    }
    if v in Has(ShiftSub(ci, offset, s)) {
      var a :| 0 <= a < |s.members| && ShiftEntry(s.members[a], offset) == Num(v);
      assert s.members[a] == Num(v - offset);
    }
  }

  lemma {:induction false} InsideAt(p: Part, i: nat, a: nat)
    requires Inside(p) && i < |p.subs| && a < |p.subs[i].members|
    ensures InsideEntry(p.subs[i].members[a], p.size)
  {
  }

  lemma {:induction false} OffsetsAscend(parts: seq<Part>, j: nat, k: nat)
    requires j < k <= |parts|
    ensures Offset(parts, j) + parts[j].size <= Offset(parts, k)
  {
    if j < k - 1 {
      OffsetsAscend(parts, j, k - 1);
    }
  }

  ghost predicate AllInside(parts: seq<Part>) {
    forall k :: 0 <= k < |parts| ==> Inside(parts[k])
  }

  ghost predicate AllExclusive(parts: seq<Part>) {
    forall k :: 0 <= k < |parts| ==> Exclusive(parts[k].subs)
  }

  /** Segments of different chunks never share a number. */
  lemma {:induction false} ChunksDisjoint(parts: seq<Part>, j: nat, a: nat, k: nat, b: nat, v: nat)
    requires AllInside(parts) && j < k < |parts| && a < |parts[j].subs| && b < |parts[k].subs|
    ensures !(v in Has(ShiftSub(j + 1, Offset(parts, j), parts[j].subs[a])) && v in Has(ShiftSub(k + 1, Offset(parts, k), parts[k].subs[b])))
  {
    hide Has, ShiftSub, Inside;
    OffsetsAscend(parts, j, k);
    ShiftNumbers(j + 1, parts[j], a, Offset(parts, j), v);
    ShiftNumbers(k + 1, parts[k], b, Offset(parts, k), v);
  }

  /** If no chunk has two segments sharing a message, neither has the merged task. */
  lemma {:induction false} MergedExclusive(parts: seq<Part>)
    requires AllInside(parts) && AllExclusive(parts)
    ensures Exclusive(MergedSubs(parts, |parts|))
  {
    hide Has, MergedSubs, ShiftSub, Inside, Base, Offset;
    var all := MergedSubs(parts, |parts|);
    forall x, y | 0 <= x < y < |all| ensures Has(all[x]) !! Has(all[y]) {
      forall v | v in Has(all[x]) ensures v !in Has(all[y]) {
        MergedShares(parts, x, y, v);
      }
    }
  }

  lemma {:induction false} MergedShares(parts: seq<Part>, x: nat, y: nat, v: nat)
    requires AllInside(parts) && AllExclusive(parts) && x < y < |MergedSubs(parts, |parts|)|
    ensures !(v in Has(MergedSubs(parts, |parts|)[x]) && v in Has(MergedSubs(parts, |parts|)[y]))
  {
    hide Has, MergedSubs, ShiftSub, Inside, Offset, Exclusive;
    var j, a := MergedFrom(parts, |parts|, x);
    var k, b := MergedFrom(parts, |parts|, y);
    BaseOrder(parts, j, a, k, b);
    if j < k {
      ChunksDisjoint(parts, j, a, k, b, v);
    } else {
      ShiftNumbers(j + 1, parts[j], a, Offset(parts, j), v);
      ShiftNumbers(j + 1, parts[j], b, Offset(parts, j), v);
      ExclusiveAt(parts[j].subs, a, b, v - Offset(parts, j));
    }
  }

  lemma {:induction false} ExclusiveAt(subs: seq<Sub>, a: nat, b: nat, v: int)
    requires Exclusive(subs) && a < b < |subs|
    ensures !(v >= 0 && v in Has(subs[a]) && v in Has(subs[b]))
  {
    hide Has;
    assert Has(subs[a]) !! Has(subs[b]);
  }

  lemma {:induction false} BasesAscend(parts: seq<Part>, j: nat, k: nat)
    requires j < k <= |parts|
    ensures Base(parts, j) + |parts[j].subs| <= Base(parts, k)
  {
    if j < k - 1 {
      BasesAscend(parts, j, k - 1);
    }
  }

  lemma {:induction false} BaseOrder(parts: seq<Part>, j: nat, a: nat, k: nat, b: nat)
    requires j < |parts| && k < |parts| && a < |parts[j].subs| && b < |parts[k].subs| && Base(parts, j) + a < Base(parts, k) + b
    ensures j < k || (j == k && a < b)
  {
    if k < j {
      BasesAscend(parts, k, j);
    }
  }

  // ---- reading messages back --------------------------------------------------------------------

  /** The message ids a segment's members stand for in a list of events. */
  function MsgIds(es: seq<Entry>, eff: seq<Event>): seq<string> {
    if es == [] then [] else
      var n := |es| - 1;
      MsgIds(es[..n], eff) +
      (if es[n].Num? && 0 < es[n].n <= |eff| && eff[es[n].n - 1].id != "" then [eff[es[n].n - 1].id] else [])
  }

  /** Chunks in order, with the sizes the merge counted. */
  ghost predicate Splits(chunks: seq<seq<Event>>, parts: seq<Part>) {
    |chunks| == |parts| && forall k :: 0 <= k < |parts| ==> parts[k].size == |chunks[k]|
  }

  lemma {:induction false} FlatOffset(chunks: seq<seq<Event>>, parts: seq<Part>, k: nat)
    requires Splits(chunks, parts) && k <= |parts|
    ensures |Flat(chunks[..k])| == Offset(parts, k)
  {
    if k == 0 {
      assert chunks[..0] == [];
    } else {
      FlatOffset(chunks, parts, k - 1);
      assert chunks[..k] == chunks[..k - 1] + [chunks[k - 1]];
      FlatSnoc(chunks[..k - 1], chunks[k - 1]);
    }
  }

  /** Row m of chunk k is row Offset(k) + m of the task. */
  lemma {:induction false} SameRow(chunks: seq<seq<Event>>, parts: seq<Part>, k: nat, m: nat)
    requires Splits(chunks, parts) && k < |parts| && 1 <= m <= parts[k].size
    ensures Offset(parts, k) + m <= |Flat(chunks)|
    ensures Flat(chunks)[Offset(parts, k) + m - 1] == chunks[k][m - 1]
  {
    hide Offset;
    FlatOffset(chunks, parts, k);
    FlatSplit(chunks, k);
  }

  /** The message ids read back from the merged task are those of the chunk itself. */
  lemma {:induction false} ReadBack(chunks: seq<seq<Event>>, parts: seq<Part>, k: nat, i: nat)
    requires Splits(chunks, parts) && k < |parts| && Inside(parts[k]) && i < |parts[k].subs|
    ensures MsgIds(ShiftSub(k + 1, Offset(parts, k), parts[k].subs[i]).members, Flat(chunks)) == MsgIds(parts[k].subs[i].members, chunks[k])
  {
    hide Offset, MsgIds;
    var es := parts[k].subs[i].members;
    forall a | 0 <= a < |es| ensures InsideEntry(es[a], parts[k].size) {
      assert InsideEntry(parts[k].subs[i].members[a], parts[k].size);
    }
    ReadBackEntries(chunks, parts, k, es);
  }

  lemma {:induction false} ReadBackEntries(chunks: seq<seq<Event>>, parts: seq<Part>, k: nat, es: seq<Entry>)
    requires Splits(chunks, parts) && k < |parts| && forall a :: 0 <= a < |es| ==> InsideEntry(es[a], parts[k].size)
    ensures MsgIds(ShiftEntries(es, Offset(parts, k)), Flat(chunks)) == MsgIds(es, chunks[k])
  {
    hide Offset, Flat, MsgIds;
    var offset, eff := Offset(parts, k), Flat(chunks);
    if es == [] {
      assert ShiftEntries(es, offset) == [];
      MsgIdsNone(eff);
      MsgIdsNone(chunks[k]);
    } else {
      var before, last := es[..|es| - 1], es[|es| - 1];
      ReadBackEntries(chunks, parts, k, before);
      assert ShiftEntries(es, offset) == ShiftEntries(before, offset) + [ShiftEntry(last, offset)];
      assert es == before + [last];
      MsgIdsNext(before, last, chunks[k]);
      MsgIdsNext(ShiftEntries(before, offset), ShiftEntry(last, offset), eff);
      SameRow(chunks, parts, k, last.n);
    }
  }

  lemma {:induction false} MsgIdsNone(eff: seq<Event>)
    ensures MsgIds([], eff) == []
  {
  }

  lemma {:induction false} MsgIdsNext(es: seq<Entry>, e: Entry, eff: seq<Event>)
    ensures MsgIds(es + [e], eff) ==
            MsgIds(es, eff) + (if e.Num? && 0 < e.n <= |eff| && eff[e.n - 1].id != "" then [eff[e.n - 1].id] else [])
  {
    assert (es + [e])[..|es|] == es;
  }

  // ---- edges and ids ----------------------------------------------------------------------------

  ghost predicate AllClosed(parts: seq<Part>) {
    forall k :: 0 <= k < |parts| ==> Closed(parts[k].subs, parts[k].edges)
  }

  /** Edges that only named segments of their chunk only name merged segments. */
  lemma {:induction false} MergedClosed(parts: seq<Part>, n: nat)
    requires AllClosed(parts) && n <= |parts|
    ensures Closed(MergedSubs(parts, n), MergedEdges(parts, n))
  {
    hide ShiftSub, ChunkId, Known, Offset;
    if n > 0 {
      MergedClosed(parts, n - 1);
      var subs, edges := MergedSubs(parts, n - 1), MergedEdges(parts, n - 1);
      var p := parts[n - 1];
      var more := ShiftEdges(n, p.subs, p.edges);
      var shifted := ShiftSubs(n, Offset(parts, n - 1), p.subs);
      forall k | 0 <= k < |more| ensures NamesSub(shifted, more[k].from) && NamesSub(shifted, more[k].to) {
        assert NamesSub(p.subs, p.edges[k].from) && NamesSub(p.subs, p.edges[k].to);
        ShiftNamed(n, Offset(parts, n - 1), p.subs, p.edges[k].from);
        ShiftNamed(n, Offset(parts, n - 1), p.subs, p.edges[k].to);
      }
      ClosedConcat(subs, edges, shifted, more);
    }
  }

  lemma {:induction false} ShiftNamed(ci: nat, offset: nat, subs: seq<Sub>, id: string)
    requires NamesSub(subs, id)
    ensures NamesSub(ShiftSubs(ci, offset, subs), ShiftName(ci, subs, id))
  {
    hide ChunkId;
    var i :| 0 <= i < |subs| && subs[i].id == id;
    assert ShiftSubs(ci, offset, subs)[i].id == ChunkId(ci, id);
  }

  lemma {:induction false} ClosedConcat(subs: seq<Sub>, edges: seq<Edge>, subs': seq<Sub>, edges': seq<Edge>)
    requires Closed(subs, edges) && Closed(subs', edges')
    ensures Closed(subs + subs', edges + edges')
  {
    hide NamesSub;
    forall k | 0 <= k < |edges + edges'|
      ensures NamesSub(subs + subs', (edges + edges')[k].from) && NamesSub(subs + subs', (edges + edges')[k].to)
    {
      var e := (edges + edges')[k];
      assert k < |edges| ==> e == edges[k];
      assert k >= |edges| ==> e == edges'[k - |edges|];
      NamesEither(subs, subs', e.from);
      NamesEither(subs, subs', e.to);
    }
  }

  lemma {:induction false} NamesEither(subs: seq<Sub>, subs': seq<Sub>, id: string)
    ensures NamesSub(subs, id) || NamesSub(subs', id) ==> NamesSub(subs + subs', id)
  {
    if i :| 0 <= i < |subs| && subs[i].id == id {
      assert (subs + subs')[i].id == id;
    }
    if i :| 0 <= i < |subs'| && subs'[i].id == id {
      assert (subs + subs')[|subs| + i].id == id;
    }
  }

  /** Edge e' of the merged result is edge e of chunk k between the renamed ends. */
  ghost predicate Renamed(parts: seq<Part>, k: nat, e: Edge, e': Edge) {
    k < |parts| && e'.label' == e.label' && Renames(k + 1, parts[k].subs, e.from, e'.from) && Renames(k + 1, parts[k].subs, e.to, e'.to)
  }

  ghost predicate Renames(ci: nat, subs: seq<Sub>, id: string, id': string) {
    if exists s :: s in subs && s.id == id then id' == "S" + Decimal(ci) + "." + id else id' == id
  }

  /** The merged edges are the chunks' edges, each between the same segments as before. */
  lemma {:induction false} EdgesCarryOver(parts: seq<Part>, n: nat)
    requires n <= |parts|
    ensures forall k: nat, e :: k < n && e in parts[k].edges ==> exists e' :: e' in MergedEdges(parts, n) && Renamed(parts, k, e, e')
    ensures forall e' :: e' in MergedEdges(parts, n) ==> exists k: nat, e :: k < n && e in parts[k].edges && Renamed(parts, k, e, e')
  {
    hide ShiftEdges, Renamed;
    if n > 0 {
      EdgesCarryOver(parts, n - 1);
      var before, p, all := MergedEdges(parts, n - 1), parts[n - 1], MergedEdges(parts, n);
      var new' := ShiftEdges(n, p.subs, p.edges);
      forall i | 0 <= i < |p.edges| ensures Renamed(parts, n - 1, p.edges[i], new'[i]) {
        EdgeRenamed(parts, n - 1, i);
      }
      forall k: nat, e | k < n && e in parts[k].edges ensures exists e' :: e' in all && Renamed(parts, k, e, e') {
        if k < n - 1 {
          var e' :| e' in before && Renamed(parts, k, e, e');
          assert e' in all;
        } else {
          var i :| 0 <= i < |p.edges| && p.edges[i] == e;
          assert new'[i] in all;
        }
      }
      forall e' | e' in all ensures exists k: nat, e :: k < n && e in parts[k].edges && Renamed(parts, k, e, e') {
        if e' in before {
          var k: nat, e :| k < n - 1 && e in parts[k].edges && Renamed(parts, k, e, e');
          assert k < n;
        } else {
          var i :| 0 <= i < |new'| && new'[i] == e';
          assert p.edges[i] in parts[n - 1].edges;
        }
      }
    }
  }

  lemma {:induction false} EdgeRenamed(parts: seq<Part>, k: nat, i: nat)
    requires k < |parts| && i < |parts[k].edges|
    ensures Renamed(parts, k, parts[k].edges[i], ShiftEdges(k + 1, parts[k].subs, parts[k].edges)[i])
  {
    var e := parts[k].edges[i];
    NameShifts(k + 1, parts[k].subs, e.from);
    NameShifts(k + 1, parts[k].subs, e.to);
  }

  lemma {:induction false} NameShifts(ci: nat, subs: seq<Sub>, id: string)
    ensures Renames(ci, subs, id, ShiftName(ci, subs, id))
  {
    hide Decimal;
    if i :| 0 <= i < |subs| && subs[i].id == id {
      assert subs[i] in subs;
    }
  }

  ghost predicate AllIdsDistinct(parts: seq<Part>) {
    forall k :: 0 <= k < |parts| ==> IdsDistinct(parts[k].subs)
  }

  lemma {:induction false} MergedIdsDistinct(parts: seq<Part>)
    requires AllIdsDistinct(parts)
    ensures IdsDistinct(MergedSubs(parts, |parts|))
  {
    hide MergedSubs, Base, Offset, ChunkId;
    var all := MergedSubs(parts, |parts|);
    forall x, y | 0 <= x < y < |all| ensures all[x].id != all[y].id {
      var j, a := MergedFrom(parts, |parts|, x);
      var k, b := MergedFrom(parts, |parts|, y);
      assert IdsDistinct(parts[j].subs);
      if all[x].id == all[y].id {
        ChunkIdInjective(j + 1, k + 1, parts[j].subs[a].id, parts[k].subs[b].id);
      }
    }
  }

  // ---- the merge loop ---------------------------------------------------------------------------

  /** Appends one chunk's answer to what has been merged so far. */
  method MergePart(d: Decomposition, ci: nat, offset: nat, subs: seq<Sub>, edges: seq<Edge>)
    modifies d
    ensures d.subs == old(d.subs) + ShiftSubs(ci, offset, subs)
    ensures d.edges == old(d.edges) + ShiftEdges(ci, subs, edges)
  {
    hide ChunkId, ShiftEntries;
    var idmap: map<string, string> := map[];
    for n := 0 to |subs|
      invariant d.subs == old(d.subs) + ShiftSubs(ci, offset, subs)[..n] && d.edges == old(d.edges)
      invariant forall id :: id in idmap <==> exists i :: 0 <= i < n && subs[i].id == id
      invariant forall id :: id in idmap ==> idmap[id] == ChunkId(ci, id)
    {
      idmap := idmap[subs[n].id := ChunkId(ci, subs[n].id)];
      d.subs := d.subs + [subs[n].(id := ChunkId(ci, subs[n].id), members := ShiftEntries(subs[n].members, offset))];
    }
    for n := 0 to |edges|
      invariant d.subs == old(d.subs) + ShiftSubs(ci, offset, subs)
      invariant d.edges == old(d.edges) + ShiftEdges(ci, subs, edges)[..n]
    {
      var e := edges[n];
      var from := if e.from in idmap then idmap[e.from] else e.from;
      var to := if e.to in idmap then idmap[e.to] else e.to;
      d.edges := d.edges + [Edge(from, to, e.label')];
    }
  }

  lemma {:induction false} MergedGrows(parts: seq<Part>, p: Part, n: nat)
    requires n <= |parts|
    ensures Offset(parts + [p], n) == Offset(parts, n)
    ensures MergedSubs(parts + [p], n) == MergedSubs(parts, n) && MergedEdges(parts + [p], n) == MergedEdges(parts, n)
  {
    hide ShiftSubs, ShiftEdges;
    if n > 0 {
      MergedGrows(parts, p, n - 1);
      assert (parts + [p])[n - 1] == parts[n - 1];
    }
  }

  lemma {:induction false} MergedNext(parts: seq<Part>, p: Part)
    ensures var n, all := |parts|, parts + [p];
            && Offset(all, n + 1) == Offset(parts, n) + p.size
            && MergedSubs(all, n + 1) == MergedSubs(parts, n) + ShiftSubs(n + 1, Offset(parts, n), p.subs)
            && MergedEdges(all, n + 1) == MergedEdges(parts, n) + ShiftEdges(n + 1, p.subs, p.edges)
  {
    hide ShiftSubs, ShiftEdges;
    MergedGrows(parts, p, |parts|);
    assert (parts + [p])[|parts|] == p;
  }

  /** What the model is shown: neither noise nor empty. */
  function Effective(heard: Event -> bool, evs: seq<Event>): (r: seq<Event>)
    ensures forall e :: e in r <==> e in evs && heard(e)
  {
    if evs == [] then [] else (if heard(evs[0]) then [evs[0]] else []) + Effective(heard, evs[1..])
  }

  /** Filtering a chunk of what was already filtered drops nothing, so row counts are chunk lengths. */
  lemma {:induction false} EffectiveTwice(heard: Event -> bool, evs: seq<Event>)
    requires forall i :: 0 <= i < |evs| ==> heard(evs[i])
    ensures Effective(heard, evs) == evs
  {
    if evs != [] {
      EffectiveTwice(heard, evs[1..]);
    }
  }

  lemma {:induction false} ChunkHeard(heard: Event -> bool, evs: seq<Event>, chunks: seq<seq<Event>>, k: nat)
    requires Flat(chunks) == Effective(heard, evs) && k < |chunks|
    ensures Effective(heard, chunks[k]) == chunks[k]
  {
    hide Flat, Effective;
    forall i | 0 <= i < |chunks[k]| ensures heard(chunks[k][i]) {
      FlatMembers(chunks, chunks[k][i]);
      assert chunks[k][i] in chunks[k];
    }
    EffectiveTwice(heard, chunks[k]);
  }

  /** A part is the settled outcome of a chunk's calls. */
  ghost predicate PartOf(attempts: seq<Attempt>, rows: nat, p: Part) {
    p.size == rows && exists j: nat :: Settles(attempts, j, Result(p.subs, p.edges))
  }

  ghost predicate AllFailed(attempts: seq<Attempt>) {
    forall k :: 0 <= k < |attempts| ==> attempts[k].Failed?
  }

  ghost predicate PartsOf(calls: nat -> seq<Attempt>, chunks: seq<seq<Event>>, parts: seq<Part>) {
    |parts| <= |chunks| && forall k :: 0 <= k < |parts| ==> PartOf(calls(k), |chunks[k]|, parts[k])
  }

  /** A run over the task: its chunks, their settled answers, and the segment ruled to be last. */
  datatype Run = Run(chunks: seq<seq<Event>>, parts: seq<Part>, tail: nat)

  ghost predicate RanFor(eff: seq<Event>, calls: nat -> seq<Attempt>, run: Run) {
    Flat(run.chunks) == eff && |run.parts| == |run.chunks| && PartsOf(calls, run.chunks, run.parts)
  }

  /** Segments and edges before the final ruling. */
  ghost function WholeSubs(whole: bool, parts: seq<Part>): seq<Sub>
    requires whole ==> parts != []
  {
    if whole then parts[0].subs else MergedSubs(parts, |parts|)
  }

  ghost function WholeEdges(whole: bool, parts: seq<Part>): seq<Edge>
    requires whole ==> parts != []
  {
    if whole then parts[0].edges else MergedEdges(parts, |parts|)
  }

  ghost predicate Delivered(whole: bool, run: Run, terminal: bool, r: Outcome) {
    && (whole ==> run.parts != []) && r.Result?
    && r.edges == WholeEdges(whole, run.parts)
    && TerminalTail.RuledAll(WholeSubs(whole, run.parts), r.edges, terminal, run.tail, r.subs)
  }

  /** The outcome of a run: an error iff every attempt for some chunk failed, else what was delivered. */
  ghost predicate Outcomes(eff: seq<Event>, calls: nat -> seq<Attempt>, terminal: bool, threshold: nat, run: Run, r: Outcome) {
    && Flat(run.chunks) == eff
    && (r.Error? <==> exists k :: 0 <= k < |run.chunks| && AllFailed(calls(k)))
    && (r.Result? ==> RanFor(eff, calls, run) && Delivered(|eff| <= threshold, run, terminal, r))
  }

  /** The entry point: one call sequence for a small task, one per chunk for a big one, then the final ruling. */
  method DecomposeTask(cluster: seq<Event>, heard: Event -> bool, calls: nat -> seq<Attempt>, terminal: bool, threshold: nat, target: nat, ties: Ties)
    returns (r: Outcome, rows: nat)
    requires target >= 1
    ensures r.Result? ==> rows == |Effective(heard, cluster)|
    ensures exists run :: Outcomes(Effective(heard, cluster), calls, terminal, threshold, run, r)
  {
    hide Settles, AllFailed, Effective, Gaps.Cuts, Gaps.ChunksOf, Flat, RanFor, Delivered;
    var eff := Effective(heard, cluster);
    ghost var run;
    if |eff| <= threshold {
      r, run := DecomposeWhole(eff, calls, terminal, ties);
      rows := |eff|;
    } else {
      var chunks, _ := Gaps.SplitByGaps(eff, target);
      var d, ok, offset, parts := DecomposeChunks(heard, cluster, chunks, calls, ties);
      run := Run(chunks, parts, 0);
      r, rows := Error, 0;
      if ok {
        ghost var t := TerminalTail.EnforceTerminalTail(d, terminal);
        run := Run(chunks, parts, t);
        r, rows := Result(d.subs, d.edges), offset;
        ChunksDelivered(eff, calls, run, terminal, r);
      }
    }
    assert Outcomes(eff, calls, terminal, threshold, run, r);
  }

  lemma {:induction false} ChunksDelivered(eff: seq<Event>, calls: nat -> seq<Attempt>, run: Run, terminal: bool, r: Outcome)
    requires Flat(run.chunks) == eff && |run.parts| == |run.chunks| && PartsOf(calls, run.chunks, run.parts)
    requires r.Result? && r.edges == MergedEdges(run.parts, |run.parts|)
    requires TerminalTail.RuledAll(MergedSubs(run.parts, |run.parts|), r.edges, terminal, run.tail, r.subs)
    ensures RanFor(eff, calls, run) && Delivered(false, run, terminal, r)
  {
  }

  method DecomposeWhole(eff: seq<Event>, calls: nat -> seq<Attempt>, terminal: bool, ties: Ties) returns (r: Outcome, ghost run: Run)
    ensures run.chunks == [eff] && Flat(run.chunks) == eff
    ensures r.Error? <==> AllFailed(calls(0))
    ensures r.Result? ==> RanFor(eff, calls, run) && Delivered(true, run, terminal, r)
  {
    hide Settles, Repaired, Exclusive, TerminalTail.RuledAll;
    FlatSnoc([], eff);
    assert [] + [eff] == [eff] && [] + eff == eff && Flat<Event>([]) == [];
    run := Run([eff], [], 0);
    r := DecomposeOnce(calls(0), |eff|, ties);
    if r.Result? {
      var d := new Decomposition(r.subs, r.edges);
      ghost var p := Part(r.subs, r.edges, |eff|);
      ghost var t := TerminalTail.EnforceTerminalTail(d, terminal);
      run := Run([eff], [p], t);
      assert PartOf(calls(0), |eff|, p);
      r := Result(d.subs, d.edges);
    }
  }

  method DecomposeChunks(heard: Event -> bool, ghost cluster: seq<Event>, chunks: seq<seq<Event>>, calls: nat -> seq<Attempt>, ties: Ties)
    returns (d: Decomposition, ok: bool, offset: nat, ghost parts: seq<Part>)
    requires Flat(chunks) == Effective(heard, cluster)
    ensures fresh(d) && PartsOf(calls, chunks, parts)
    ensures ok <==> !exists k :: 0 <= k < |chunks| && AllFailed(calls(k))
    ensures ok ==> |parts| == |chunks| && d.subs == MergedSubs(parts, |parts|) && d.edges == MergedEdges(parts, |parts|)
    ensures ok ==> offset == |Effective(heard, cluster)|
  {
    hide Settles, MergedSubs, MergedEdges, Offset, ShiftSubs, ShiftEdges, AllFailed, Flat, Effective, PartOf;
    d := new Decomposition([], []);
    offset, parts, ok := 0, [], true;
    MergedNone();
    for n := 0 to |chunks|
      invariant fresh(d) && |parts| == n && PartsOf(calls, chunks, parts) && offset == Offset(parts, n)
      invariant d.subs == MergedSubs(parts, n) && d.edges == MergedEdges(parts, n)
      invariant forall k :: 0 <= k < n ==> !AllFailed(calls(k))
    {
      ChunkHeard(heard, cluster, chunks, n);
      var rows := |Effective(heard, chunks[n])|;
      var res := DecomposeOnce(calls(n), rows, ties);
      FailedIff(calls(n), res);
      if res.Error? {
        ok := false;
        return;
      }
      ghost var p := Part(res.subs, res.edges, rows);
      SettledPart(calls(n), rows, res);
      MergePart(d, n + 1, offset, res.subs, res.edges);
      MergedNext(parts, p);
      offset := offset + rows;
      parts := parts + [p];
    }
    WholeLength(chunks, calls, parts);
  }

  lemma {:induction false} MergedNone()
    ensures MergedSubs([], 0) == [] && MergedEdges([], 0) == [] && Offset([], 0) == 0
  {
  }

  lemma {:induction false} FailedIff(attempts: seq<Attempt>, r: Outcome)
    requires r.Error? <==> forall k :: 0 <= k < |attempts| ==> attempts[k].Failed?
    ensures r.Error? <==> AllFailed(attempts)
  {
  }

  lemma {:induction false} SettledPart(attempts: seq<Attempt>, rows: nat, r: Outcome)
    requires r.Result? && exists k :: Settles(attempts, k, r)
    ensures PartOf(attempts, rows, Part(r.subs, r.edges, rows))
  {
    hide Settles;
    var k :| Settles(attempts, k, r);
    assert r == Result(r.subs, r.edges);
  }

  lemma {:induction false} WholeLength(chunks: seq<seq<Event>>, calls: nat -> seq<Attempt>, parts: seq<Part>)
    requires PartsOf(calls, chunks, parts) && |parts| == |chunks|
    ensures Splits(chunks, parts) && Offset(parts, |parts|) == |Flat(chunks)|
  {
    hide Settles, Flat;
    forall k | 0 <= k < |parts| ensures parts[k].size == |chunks[k]| {
      assert PartOf(calls(k), |chunks[k]|, parts[k]);
    }
    FlatOffset(chunks, parts, |parts|);
    assert chunks[..|chunks|] == chunks;
  }

  // ---- the delivered task -----------------------------------------------------------------------

  ghost predicate SubsInside(subs: seq<Sub>, size: nat) {
    forall s :: s in subs ==> SubInside(s, size)
  }

  ghost predicate SubInside(s: Sub, size: nat) {
    forall e :: e in s.members ==> InsideEntry(e, size)
  }

  /** Every answer of every call only lists rows it was given. */
  ghost predicate AnswersInside(calls: nat -> seq<Attempt>, chunks: seq<seq<Event>>) {
    forall k, j {:trigger calls(k)[j]} :: 0 <= k < |chunks| && 0 <= j < |calls(k)| && calls(k)[j].Answered? ==> SubsInside(calls(k)[j].subs, |chunks[k]|)
  }

  lemma {:induction false} TrimmedInside(subs: seq<Sub>, subs': seq<Sub>, size: nat)
    requires SubsInside(subs, size) && Trimmed(subs, subs')
    ensures SubsInside(subs', size)
  {
    hide Kept, Has;
    var mid :| Shrunk(subs, mid) && (subs' == mid || subs' == Kept(mid));
    forall s | s in subs' ensures SubInside(s, size) {
      assert s in mid;
      var i :| 0 <= i < |mid| && mid[i] == s;
      assert Less(subs[i], mid[i]) && subs[i] in subs;
      LessInside(subs[i], s, size);
    }
  }

  lemma {:induction false} LessInside(s: Sub, s': Sub, size: nat)
    requires Less(s, s') && SubInside(s, size)
    ensures SubInside(s', size)
  {
    forall e | e in s'.members ensures InsideEntry(e, size) {
      assert e in multiset(s'.members);
    }
  }

  /** Repair keeps numbers inside, and leaves every part without overlaps. */
  lemma {:induction false} PartsGood(calls: nat -> seq<Attempt>, chunks: seq<seq<Event>>, parts: seq<Part>)
    requires PartsOf(calls, chunks, parts) && |parts| == |chunks|
    ensures AllExclusive(parts) && (AnswersInside(calls, chunks) ==> AllInside(parts))
  {
    hide Exclusive, SubsInside, Trimmed, Inside, Chosen;
    forall k | 0 <= k < |parts| ensures Exclusive(parts[k].subs) && (AnswersInside(calls, chunks) ==> Inside(parts[k])) {
      var p := parts[k];
      assert PartOf(calls(k), |chunks[k]|, p);
      var j: nat :| Settles(calls(k), j, Result(p.subs, p.edges));
      ChosenIn(calls(k), j);
      if AnswersInside(calls, chunks) {
        assert SubsInside(calls(k)[j].subs, |chunks[k]|);
        RepairedTrims(calls(k)[j].subs, calls(k)[j].edges, p.subs, p.edges);
        TrimmedInside(calls(k)[j].subs, p.subs, p.size);
        InsidePart(p);
      }
    }
  }

  lemma {:induction false} ChosenIn(attempts: seq<Attempt>, j: nat)
    requires Chosen(attempts, j)
    ensures j < |attempts| && attempts[j].Answered?
  {
    hide OnlyAnswer, Large;
  }

  lemma {:induction false} RepairedTrims(subs: seq<Sub>, edges: seq<Edge>, subs': seq<Sub>, edges': seq<Edge>)
    requires Repaired(subs, edges, subs', edges')
    ensures Trimmed(subs, subs')
  {
    hide Trimmed;
  }

  lemma {:induction false} InsidePart(p: Part)
    requires SubsInside(p.subs, p.size)
    ensures Inside(p)
  {
    forall i, a | 0 <= i < |p.subs| && 0 <= a < |p.subs[i].members| ensures InsideEntry(p.subs[i].members[a], p.size) {
      assert p.subs[i] in p.subs && SubInside(p.subs[i], p.size);
    }
  }

  lemma {:induction false} SameNumbersExclusive(subs: seq<Sub>, subs': seq<Sub>)
    requires |subs| == |subs'| && (forall i :: 0 <= i < |subs| ==> Has(subs'[i]) == Has(subs[i])) && Exclusive(subs)
    ensures Exclusive(subs')
  {
    hide Has;
  }

  /** In the delivered task no message is in two segments, if the answers kept to their rows or there was only one chunk. */
  lemma {:induction false} TaskExclusive(eff: seq<Event>, calls: nat -> seq<Attempt>, whole: bool, run: Run, terminal: bool, r: Outcome)
    requires RanFor(eff, calls, run) && Delivered(whole, run, terminal, r) && (whole || AnswersInside(calls, run.chunks))
    ensures Exclusive(r.subs)
  {
    hide Has, PartsOf, AnswersInside, AllInside, MergedSubs, TerminalTail.IsTail, TerminalTail.Reworked;
    PartsGood(calls, run.chunks, run.parts);
    var subs := WholeSubs(whole, run.parts);
    if whole {
      assert Exclusive(run.parts[0].subs);
    } else {
      MergedExclusive(run.parts);
    }
    forall i | 0 <= i < |subs| ensures Has(r.subs[i]) == Has(subs[i]) {
      TerminalTail.OpenIffTail(subs, r.edges, terminal, run.tail, r.subs, i);
    }
    SameNumbersExclusive(subs, r.subs);
  }

  /** Every answer's edges name its own segments. */
  ghost predicate AnswersClosed(calls: nat -> seq<Attempt>, n: nat) {
    forall k, j {:trigger calls(k)[j]} :: 0 <= k < n && 0 <= j < |calls(k)| && calls(k)[j].Answered? ==> Closed(calls(k)[j].subs, calls(k)[j].edges)
  }

  lemma {:induction false} PartsClosed(calls: nat -> seq<Attempt>, chunks: seq<seq<Event>>, parts: seq<Part>)
    requires PartsOf(calls, chunks, parts) && |parts| == |chunks| && AnswersClosed(calls, |chunks|)
    ensures AllClosed(parts)
  {
    hide Exclusive, Trimmed, Chosen, Closed, Once, KeepsSafe, OnlyPivots;
    forall k | 0 <= k < |parts| ensures Closed(parts[k].subs, parts[k].edges) {
      var p := parts[k];
      assert PartOf(calls(k), |chunks[k]|, p);
      var j: nat :| Settles(calls(k), j, Result(p.subs, p.edges));
      ChosenIn(calls(k), j);
      assert Closed(calls(k)[j].subs, calls(k)[j].edges);
    }
  }

  lemma {:induction false} SameIdsClosed(subs: seq<Sub>, subs': seq<Sub>, edges: seq<Edge>)
    requires |subs| == |subs'| && (forall i :: 0 <= i < |subs| ==> subs'[i].id == subs[i].id) && Closed(subs, edges)
    ensures Closed(subs', edges)
  {
    forall k | 0 <= k < |edges| ensures NamesSub(subs', edges[k].from) && NamesSub(subs', edges[k].to) {
      assert NamesSub(subs, edges[k].from) && NamesSub(subs, edges[k].to);
    }
  }

  /** In the delivered task every edge names delivered segments, if the answers' edges named theirs. */
  lemma {:induction false} TaskClosed(eff: seq<Event>, calls: nat -> seq<Attempt>, whole: bool, run: Run, terminal: bool, r: Outcome)
    requires RanFor(eff, calls, run) && Delivered(whole, run, terminal, r) && AnswersClosed(calls, |run.chunks|)
    ensures Closed(r.subs, r.edges)
  {
    hide Has, PartsOf, AnswersClosed, MergedSubs, MergedEdges, Closed, TerminalTail.IsTail, TerminalTail.Reworked;
    PartsClosed(calls, run.chunks, run.parts);
    var subs := WholeSubs(whole, run.parts);
    if whole {
      assert Closed(run.parts[0].subs, run.parts[0].edges);
    } else {
      MergedClosed(run.parts, |run.parts|);
    }
    SameIdsClosed(subs, r.subs, r.edges);
  }

  /** A member that comes to name another chunk's row, which that chunk has placed too, puts the row into two segments. */
  lemma {:induction false} StrayBreaks(parts: seq<Part>, j: nat, a: nat, k: nat, b: nat, e: Entry, m: nat)
    requires j < |parts| && k < |parts| && j != k && a < |parts[j].subs| && b < |parts[k].subs|
    requires e in parts[k].subs[b].members && Num(m) in parts[j].subs[a].members && ShiftEntry(e, Offset(parts, k)) == Num(Offset(parts, j) + m)
    ensures !Exclusive(MergedSubs(parts, |parts|))
  {
    hide Has, MergedSubs, ShiftSub, Offset;
    var n := |parts|;
    MergedAt(parts, n, j, a);
    MergedAt(parts, n, k, b);
    ShiftPlaces(j + 1, Offset(parts, j), parts[j].subs[a], Num(m));
    ShiftPlaces(k + 1, Offset(parts, k), parts[k].subs[b], e);
    var x, y := Base(parts, j) + a, Base(parts, k) + b;
    assert x != y by {
      if j < k {
        BasesAscend(parts, j, k);
      } else {
        BasesAscend(parts, k, j);
      }
    }
  }

  lemma {:induction false} ShiftPlaces(ci: nat, offset: nat, s: Sub, e: Entry)
    requires e in s.members
    ensures ShiftEntry(e, offset).Num? && ShiftEntry(e, offset).n in Has(ShiftSub(ci, offset, s))
  {
    hide ShiftSub, Has;
    ShiftStaysIff(e, offset, 0);
    var a :| 0 <= a < |s.members| && s.members[a] == e;
    ShiftHas(ci, offset, s, ShiftEntry(e, offset).n);
  }

  /** So one member without a number breaks exclusivity, if the chunk before placed its last row. */
  lemma {:induction false} JunkBreaks(parts: seq<Part>, a: nat, k: nat, b: nat)
    requires 0 < k < |parts| && a < |parts[k - 1].subs| && b < |parts[k].subs|
    requires Junk in parts[k].subs[b].members && Num(parts[k - 1].size) in parts[k - 1].subs[a].members
    ensures !Exclusive(MergedSubs(parts, |parts|))
  {
    hide MergedSubs;
    StrayBreaks(parts, k - 1, a, k, b, Junk, parts[k - 1].size);
  }

  /** In the delivered task a segment is unfinished only if the task is, only one is, and no message comes after it. */
  lemma {:induction false} TaskTail(whole: bool, run: Run, terminal: bool, r: Outcome, i: nat, j: nat, n: nat)
    requires Delivered(whole, run, terminal, r) && i < |r.subs| && j < |r.subs| && r.subs[i].status == TerminalTail.OPEN
    ensures !terminal && (r.subs[j].status == TerminalTail.OPEN ==> j == i)
    ensures n in Has(r.subs[j]) ==> exists m :: m in Has(r.subs[i]) && n <= m
  {
    hide Has, MergedSubs, TerminalTail.RuledAll;
    var subs := WholeSubs(whole, run.parts);
    TerminalTail.OpenIffTail(subs, r.edges, terminal, run.tail, r.subs, i);
    TerminalTail.OpenIffTail(subs, r.edges, terminal, run.tail, r.subs, j);
    if n in Has(r.subs[j]) {
      TerminalTail.OpenIsLast(subs, r.edges, terminal, run.tail, r.subs, i, j, n);
    }
  }

  /** Each segment of a chunked task stands for the very messages its chunk's segment stood for. */
  lemma {:induction false} TaskReadBack(eff: seq<Event>, calls: nat -> seq<Attempt>, run: Run, terminal: bool, r: Outcome, x: nat) returns (k: nat, i: nat)
    requires RanFor(eff, calls, run) && Delivered(false, run, terminal, r) && AnswersInside(calls, run.chunks) && x < |r.subs|
    ensures k < |run.parts| && i < |run.parts[k].subs|
    ensures MsgIds(r.subs[x].members, eff) == MsgIds(run.parts[k].subs[i].members, run.chunks[k])
  {
    hide MsgIds, PartsOf, AnswersInside, MergedSubs, Inside, Flat, TerminalTail.IsTail, TerminalTail.Reworked, Offset, ShiftEntries;
    PartsGood(calls, run.chunks, run.parts);
    WholeLength(run.chunks, calls, run.parts);
    var subs := MergedSubs(run.parts, |run.parts|);
    assert r.subs[x].members == subs[x].members;
    k, i := MergedFrom(run.parts, |run.parts|, x);
    ReadBack(run.chunks, run.parts, k, i);
  }

  /** A member without a number does not drop out: in a later chunk it comes to name the last message of the chunk before. */
  lemma {:induction false} JunkNamesPrevious(chunks: seq<seq<Event>>, parts: seq<Part>, k: nat)
    requires Splits(chunks, parts) && 0 < k < |parts| && chunks[k - 1] != []
    ensures var n := ShiftEntry(Junk, Offset(parts, k)).n;
            0 < n <= |Flat(chunks)| && Flat(chunks)[n - 1] == chunks[k - 1][|chunks[k - 1]| - 1]
  {
    SameRow(chunks, parts, k - 1, parts[k - 1].size);
  }
}
