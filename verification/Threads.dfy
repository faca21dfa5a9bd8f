/** Thread ids online and offline, and the grouping of a session's calls into threads. */
module Threads {
  import opened MessageTree

  datatype Call = Call(system: seq<Block>, messages: seq<Item>)

  function PathOf(c: Call): (p: Path)
    ensures p != []
  {
    CallSeq(c.system, c.messages)
  }

  /** The id stamped while capturing: a fresh tree per call. */
  method CaptureId(c: Call) returns (id: Path, provisional: bool)
    ensures id == ThreadId(PathOf(c)) && provisional == !HasAssistant(PathOf(c))
  {
    hide ThreadId, HasAssistant;
    var tree := new Tree();
    id, provisional := tree.Mount(PathOf(c));
  }

  ghost function Paths(calls: seq<Call>): set<Path> {
    set c | c in calls :: PathOf(c)
  }

  /** The ids recomputed offline: one shared tree, every call in order. They are the ids stamped online. */
  method ReplaySession(tree: Tree, calls: seq<Call>) returns (out: seq<(Path, bool)>)
    requires tree.Valid()
    modifies tree, tree.at.Values
    ensures tree.Valid() && tree.mounted == old(tree.mounted) + Paths(calls)
    ensures |out| == |calls| && forall i :: 0 <= i < |calls| ==> out[i] == (ThreadId(PathOf(calls[i])), !HasAssistant(PathOf(calls[i])))
  {
    hide ThreadId, HasAssistant, PathOf, Tree.Valid;
    out := [];
    for i := 0 to |calls|
      invariant tree.Valid() && fresh(tree.at.Values - old(tree.at.Values))
      invariant tree.mounted == old(tree.mounted) + Paths(calls[..i])
      invariant |out| == i && forall k :: 0 <= k < i ==> out[k] == (ThreadId(PathOf(calls[k])), !HasAssistant(PathOf(calls[k])))
    {
      assert calls[..i + 1] == calls[..i] + [calls[i]];
      assert Paths(calls[..i + 1]) == Paths(calls[..i]) + {PathOf(calls[i])};
      var id, provisional := tree.Mount(PathOf(calls[i]));
      out := out + [(id, provisional)];
    }
    assert calls[..|calls|] == calls;
  }

  // ---- where a call without an assistant belongs ------------------------------------------------

  /** Some mounted call that has an assistant continues this one, and all that do are in thread t. */
  ghost predicate SoleThread(mounted: set<Path>, call: Path, t: Path) {
    && (exists c :: c in mounted && HasAssistant(c) && call <= c)
    && (forall c :: c in mounted && HasAssistant(c) && call <= c ==> ThreadId(c) == t)
  }

  /** Before the first assistant, extending a call and extending its id are the same. */
  lemma {:induction false} ContinuesAnchor(call: Path, c: Path)
    requires !HasAssistant(call) && HasAssistant(c)
    ensures call <= c <==> call <= ThreadId(c)
  {
    NoAssistant(call);
    var n := AnchorLen(c);
    assert call <= c ==> |call| < n;
  }

  lemma {:induction false} AnchorsAreThreads(anchors: set<Path>, mounted: set<Path>, call: Path, t: Path)
    requires AnchorsAre(anchors, mounted) && !HasAssistant(call)
    ensures OnlyAnchor(anchors, call, t) <==> SoleThread(mounted, call, t)
  {
    hide HasAssistant, ThreadId;
    forall c | c in mounted && HasAssistant(c) ensures (call <= c <==> Above(call, ThreadId(c))) && ThreadId(c) in anchors {
      ContinuesAnchor(call, c);
      assert AnchorsSome(mounted, ThreadId(c));
    }
    forall q | q in anchors ensures exists c :: c in mounted && HasAssistant(c) && ThreadId(c) == q {
      assert AnchorsSome(mounted, q);
    }
    if OnlyAnchor(anchors, call, t) {
      var c :| c in mounted && HasAssistant(c) && ThreadId(c) == t;
      assert call <= c;
    }
  }

  /** For a mounted call without an assistant: the thread of every continuation, when there is just one. */
  method Resolution(tree: Tree, call: Path) returns (r: Option<Path>)
    requires tree.Valid() && call in tree.mounted && call != [] && !HasAssistant(call)
    ensures forall t :: r == Some(t) <==> SoleThread(tree.mounted, call, t)
  {
    hide ThreadId, HasAssistant, Names, AnchorsAre, Covers, OnlyAnchor, SoleThread;
    NoAssistant(call);
    MountedIsThere(tree, call);
    r := tree.UniqueDescendant(call);
    forall t ensures r == Some(t) <==> SoleThread(tree.mounted, call, t) {
      AnchorsAreThreads(tree.anchors, tree.mounted, call, t);
    }
  }

  lemma {:induction false} MountedIsThere(tree: Tree, call: Path)
    requires tree.Valid() && call in tree.mounted
    ensures call in tree.at
  {
    assert OnSomeCall(tree.mounted, call);
  }

  // ---- grouping ---------------------------------------------------------------------------------

  /** The thread a call is filed under; it depends on the set of calls, not on their order. */
  ghost function Thread(mounted: set<Path>, call: Path): Path {
    if HasAssistant(call) then ThreadId(call)
    else if exists t :: SoleThread(mounted, call, t) then
      var t :| SoleThread(mounted, call, t); t
    else call
  }

  ghost predicate Filed(calls: seq<Call>, mounted: set<Path>, i: nat, t: Path)
    requires i < |calls|
  {
    calls[i].messages != [] && Thread(mounted, PathOf(calls[i])) == t
  }

  function WithMessages(calls: seq<Call>): (r: seq<Call>)
    ensures forall c :: c in r <==> c in calls && c.messages != []
  {
    if calls == [] then [] else (if calls[0].messages == [] then [] else [calls[0]]) + WithMessages(calls[1..])
  }

  /** The calls that are mounted: those with messages. */
  ghost function Mounted(calls: seq<Call>): set<Path> {
    set c | c in calls && c.messages != [] :: PathOf(c)
  }

  ghost predicate SomeFiled(calls: seq<Call>, mounted: set<Path>, n: nat, t: Path)
    requires n <= |calls|
  {
    exists i: nat :: i < n && Filed(calls, mounted, i, t)
  }

  /** The indexes, below n and ascending, of the calls filed under t. */
  ghost predicate Row(calls: seq<Call>, mounted: set<Path>, n: nat, t: Path, row: seq<nat>)
    requires n <= |calls|
  {
    && (forall i: nat :: i in row <==> i < n && Filed(calls, mounted, i, t))
    && (forall j, k :: 0 <= j < k < |row| ==> row[j] < row[k])
  }

  /** One group per thread that has a call, holding exactly its calls. */
  ghost predicate Partition(calls: seq<Call>, mounted: set<Path>, n: nat, groups: map<Path, seq<nat>>)
    requires n <= |calls|
  {
    && (forall t :: t in groups <==> SomeFiled(calls, mounted, n, t))
    && (forall t :: t in groups ==> Row(calls, mounted, n, t, groups[t]))
  }

  lemma {:induction false} SomeFiledNext(calls: seq<Call>, mounted: set<Path>, n: nat, t: Path)
    requires n < |calls|
    ensures SomeFiled(calls, mounted, n + 1, t) <==> SomeFiled(calls, mounted, n, t) || Filed(calls, mounted, n, t)
  {
    if SomeFiled(calls, mounted, n, t) {
      var i: nat :| i < n && Filed(calls, mounted, i, t);
      assert i < n + 1;
    }
  }

  lemma {:induction false} RowNext(calls: seq<Call>, mounted: set<Path>, n: nat, t: Path, row: seq<nat>)
    requires n < |calls| && Row(calls, mounted, n, t, row)
    ensures Row(calls, mounted, n + 1, t, if Filed(calls, mounted, n, t) then row + [n] else row)
  {
    hide Filed;
    forall k | 0 <= k < |row| ensures row[k] < n {
      assert row[k] in row;
    }
  }

  lemma {:induction false} NoRow(calls: seq<Call>, mounted: set<Path>, n: nat, t: Path)
    requires n <= |calls| && !SomeFiled(calls, mounted, n, t)
    ensures Row(calls, mounted, n, t, [])
  {
  }

  lemma {:induction false} FileNext(calls: seq<Call>, mounted: set<Path>, n: nat, groups: map<Path, seq<nat>>, t: Path)
    requires n < |calls| && Partition(calls, mounted, n, groups) && Filed(calls, mounted, n, t)
    ensures Partition(calls, mounted, n + 1, groups[t := (if t in groups then groups[t] else []) + [n]])
  {
    hide SomeFiled, Row;
    var groups' := groups[t := (if t in groups then groups[t] else []) + [n]];
    forall u ensures u in groups' <==> SomeFiled(calls, mounted, n + 1, u) {
      SomeFiledNext(calls, mounted, n, u);
    }
    forall u | u in groups' ensures Row(calls, mounted, n + 1, u, groups'[u]) {
      if u !in groups {
        NoRow(calls, mounted, n, u);
      }
      RowNext(calls, mounted, n, u, if u in groups then groups[u] else []);
    }
  }

  lemma {:induction false} SkipNext(calls: seq<Call>, mounted: set<Path>, n: nat, groups: map<Path, seq<nat>>)
    requires n < |calls| && Partition(calls, mounted, n, groups) && calls[n].messages == []
    ensures Partition(calls, mounted, n + 1, groups)
  {
    hide SomeFiled, Row;
    forall u ensures u in groups <==> SomeFiled(calls, mounted, n + 1, u) {
      SomeFiledNext(calls, mounted, n, u);
    }
    forall u | u in groups ensures Row(calls, mounted, n + 1, u, groups[u]) {
      RowNext(calls, mounted, n, u, groups[u]);
    }
  }

  ghost predicate InGroup(groups: map<Path, seq<nat>>, t: Path, i: nat) {
    t in groups && i in groups[t]
  }

  /**
   * Call i is in the group of its own thread if it has an assistant; otherwise in that of the one thread that
   * continues it, and by itself only if there is not exactly one. Without messages it is in none.
   */
  ghost predicate Belongs(calls: seq<Call>, groups: map<Path, seq<nat>>, i: nat)
    requires i < |calls|
  {
    var path, mounted := PathOf(calls[i]), Mounted(calls);
    if calls[i].messages == [] then forall t :: !InGroup(groups, t, i)
    else if HasAssistant(path) then forall t :: InGroup(groups, t, i) <==> t == ThreadId(path)
    else
      && (forall t :: t != path ==> (InGroup(groups, t, i) <==> SoleThread(mounted, path, t)))
      && (InGroup(groups, path, i) <==> forall t :: !SoleThread(mounted, path, t))
  }

  lemma {:induction false} FiledBelongs(calls: seq<Call>, groups: map<Path, seq<nat>>, i: nat)
    requires Partition(calls, Mounted(calls), |calls|, groups) && i < |calls|
    ensures Belongs(calls, groups, i)
  {
    hide ThreadId, HasAssistant, PathOf, Thread, SoleThread;
    var mounted, path := Mounted(calls), PathOf(calls[i]);
    forall t ensures InGroup(groups, t, i) <==> Filed(calls, mounted, i, t) {
      assert Filed(calls, mounted, i, t) ==> SomeFiled(calls, mounted, |calls|, t);
      assert t in groups ==> Row(calls, mounted, |calls|, t, groups[t]);
    }
    ThreadIs(mounted, path);
  }

  /** The filing rule, in terms of the threads that continue the call. */
  lemma {:induction false} ThreadIs(mounted: set<Path>, call: Path)
    ensures HasAssistant(call) ==> Thread(mounted, call) == ThreadId(call)
    ensures !HasAssistant(call) ==> forall t :: t != call ==> (Thread(mounted, call) == t <==> SoleThread(mounted, call, t))
    ensures !HasAssistant(call) ==> (Thread(mounted, call) == call <==> forall t :: !SoleThread(mounted, call, t))
  {
    hide ThreadId, HasAssistant;
    if !HasAssistant(call) {
      forall t | SoleThread(mounted, call, t) ensures t != call {
        var c :| c in mounted && HasAssistant(c) && call <= c;
        ThreadsGoOn(call, c);
      }
    }
  }

  lemma {:induction false} ThreadsGoOn(call: Path, c: Path)
    requires !HasAssistant(call) && HasAssistant(c) && call <= c
    ensures ThreadId(c) != call
  {
    NoAssistant(call);
    var n := AnchorLen(c);
    assert ThreadId(c)[n - 1] == c[n - 1];
  }

  /** Files every call that has messages under its thread, in order. */
  method BuildGroups(calls: seq<Call>) returns (groups: map<Path, seq<nat>>)
    ensures Partition(calls, Mounted(calls), |calls|, groups)
    ensures forall i: nat :: i < |calls| ==> Belongs(calls, groups, i)
  {
    hide Belongs, ThreadId, HasAssistant, PathOf, Partition, Filed, AnchorsAre, Covers, Names, WithMessages;
    var tree := new Tree();
    var kept := WithMessages(calls);
    var _ := ReplaySession(tree, kept);
    assert Paths(kept) == Mounted(calls);
    groups := map[];
    Nobody(calls, tree.mounted);
    for n := 0 to |calls|
      invariant tree.Valid() && tree.mounted == Mounted(calls)
      invariant Partition(calls, tree.mounted, n, groups)
    {
      if calls[n].messages == [] {
        SkipNext(calls, tree.mounted, n, groups);
      } else {
        assert calls[n] in kept;
        var t := FileUnder(tree, PathOf(calls[n]));
        FiledThere(calls, tree.mounted, n, t);
        FileNext(calls, tree.mounted, n, groups, t);
        groups := groups[t := (if t in groups then groups[t] else []) + [n]];
      }
    }
    forall i: nat | i < |calls| ensures Belongs(calls, groups, i) {
      FiledBelongs(calls, groups, i);
    }
  }

  lemma {:induction false} Nobody(calls: seq<Call>, mounted: set<Path>)
    ensures Partition(calls, mounted, 0, map[])
  {
  }

  lemma {:induction false} FiledThere(calls: seq<Call>, mounted: set<Path>, n: nat, t: Path)
    requires n < |calls| && calls[n].messages != [] && t == Thread(mounted, PathOf(calls[n]))
    ensures Filed(calls, mounted, n, t)
  {
  }

  method FileUnder(tree: Tree, call: Path) returns (t: Path)
    requires tree.Valid() && call in tree.mounted && call != []
    ensures t == Thread(tree.mounted, call)
  {
    hide ThreadId, AnchorsAre, Covers, Names, SoleThread;
    t := ThreadId(call);
    if !HasAssistant(call) {
      NoAssistant(call);
      var u := Resolution(tree, call);
      if u.Some? {
        t := u.value;
      }
    }
  }

  /** The same calls in any order are filed in the same groups. */
  lemma {:induction false} OrderDoesNotMatter(calls: seq<Call>, calls': seq<Call>, groups: map<Path, seq<nat>>, groups': map<Path, seq<nat>>)
    requires multiset(calls) == multiset(calls')
    requires Partition(calls, Mounted(calls), |calls|, groups)
    requires Partition(calls', Mounted(calls'), |calls'|, groups')
    ensures groups.Keys == groups'.Keys
    ensures forall t, i: nat, j: nat :: t in groups && i < |calls| && j < |calls'| && calls[i] == calls'[j] ==>
              (i in groups[t] <==> j in groups'[t])
  {
    hide Thread, PathOf, Filed, Row, SomeFiled;
    assert forall c :: c in calls <==> c in multiset(calls);
    assert forall c :: c in calls' <==> c in multiset(calls');
    var mounted := Mounted(calls);
    assert mounted == Mounted(calls');
    KeysAgree(calls, calls', mounted, groups, groups');
    KeysAgree(calls', calls, mounted, groups', groups);
    forall t, i: nat, j: nat | t in groups && i < |calls| && j < |calls'| && calls[i] == calls'[j]
      ensures i in groups[t] <==> j in groups'[t]
    {
      RowsAgree(calls, calls', mounted, t, groups[t], groups'[t], i, j);
    }
  }

  lemma {:induction false} RowsAgree(calls: seq<Call>, calls': seq<Call>, mounted: set<Path>, t: Path, row: seq<nat>, row': seq<nat>, i: nat, j: nat)
    requires Row(calls, mounted, |calls|, t, row) && Row(calls', mounted, |calls'|, t, row')
    requires i < |calls| && j < |calls'| && calls[i] == calls'[j]
    ensures i in row <==> j in row'
  {
    hide Thread, PathOf;
  }

  lemma {:induction false} KeysAgree(calls: seq<Call>, calls': seq<Call>, mounted: set<Path>, groups: map<Path, seq<nat>>, groups': map<Path, seq<nat>>)
    requires forall c :: c in calls ==> c in calls'
    requires Partition(calls, mounted, |calls|, groups) && Partition(calls', mounted, |calls'|, groups')
    ensures groups.Keys <= groups'.Keys
  {
    hide Thread, PathOf, Row;
    forall t | t in groups ensures t in groups' {
      var i: nat :| i < |calls| && Filed(calls, mounted, i, t);
      assert calls[i] in calls';
      var j: nat :| j < |calls'| && calls'[j] == calls[i];
      assert Filed(calls', mounted, j, t);
    }
  }
}
