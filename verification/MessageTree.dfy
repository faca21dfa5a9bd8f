/** The per-session message tree and the thread ids read off it. */
module MessageTree {

  datatype Option<T> = None | Some(value: T)

  /** A block of the system prompt; billing blocks change with every call and are dropped. */
  datatype Block = Block(text: string, billing: bool)

  /**
   * One level of a call's path. Fingerprints are taken to be collision-free, so an item stands for its own
   * fingerprint; the empty role stands for a missing one.
   */
  datatype Item = System(blocks: seq<Block>) | Message(role: string, content: string)

  type Path = seq<Item>

  function StripBilling(blocks: seq<Block>): (r: seq<Block>)
    ensures forall b :: b in r <==> b in blocks && !b.billing
  {
    if blocks == [] then [] else (if blocks[0].billing then [] else [blocks[0]]) + StripBilling(blocks[1..])
  }

  lemma {:induction false} StripBillingCons(h: Block, t: seq<Block>)
    ensures StripBilling([]) == [] && StripBilling([h] + t) == (if h.billing then [] else [h]) + StripBilling(t)
  {
    assert ([h] + t)[1..] == t;
  }

  /** The other blocks stay in order. */
  lemma {:induction false} StripBillingNext(blocks: seq<Block>, b: Block)
    ensures StripBilling(blocks + [b]) == if b.billing then StripBilling(blocks) else StripBilling(blocks) + [b]
  {
    hide StripBilling;
    StripBillingCons(b, []);
    if blocks == [] {
      assert blocks + [b] == [b] + [];
    } else {
      var h, t := blocks[0], blocks[1..];
      StripBillingNext(t, b);
      StripBillingCons(h, t);
      StripBillingCons(h, t + [b]);
      assert blocks == [h] + t && blocks + [b] == [h] + (t + [b]);
    }
  }

  function Role(i: Item): string {
    match i
    case System(_) => "system"
    case Message(role, _) => if role == "" then "?" else role
  }

  predicate IsAssistant(i: Item) {
    Role(i) == "assistant"
  }

  /** A call laid out as a path: the cleaned system prompt, then the messages. */
  function CallSeq(system: seq<Block>, messages: seq<Item>): (r: Path)
    ensures r != []
  {
    [System(StripBilling(system))] + messages
  }

  /** How far the anchor reaches: through the first assistant message, or to the end if there is none. */
  function AnchorLen(call: Path): (n: nat)
    ensures n <= |call|
    ensures forall i :: 0 <= i < n - 1 ==> !IsAssistant(call[i])
    ensures n < |call| ==> n > 0 && IsAssistant(call[n - 1])
    ensures call != [] ==> n > 0
  {
    if call == [] then 0 else if IsAssistant(call[0]) then 1 else 1 + AnchorLen(call[1..])
  }

  predicate HasAssistant(call: Path) {
    call != [] && IsAssistant(call[AnchorLen(call) - 1])
  }

  /** The thread id: the path to the anchor, standing for its hash. */
  function ThreadId(call: Path): Path {
    call[..AnchorLen(call)]
  }

  lemma {:induction false} NoAssistant(call: Path)
    ensures HasAssistant(call) <==> exists i :: 0 <= i < |call| && IsAssistant(call[i])
    ensures !HasAssistant(call) ==> ThreadId(call) == call
  {
    if exists i :: 0 <= i < |call| && IsAssistant(call[i]) {
      var i :| 0 <= i < |call| && IsAssistant(call[i]);
      assert i >= AnchorLen(call) - 1;
    }
  }

  /** A call has an assistant exactly when one of its messages has that role. */
  lemma {:induction false} HasAssistantIff(system: seq<Block>, messages: seq<Item>)
    ensures HasAssistant(CallSeq(system, messages)) <==> exists m :: m in messages && m.Message? && m.role == "assistant"
  {
    hide HasAssistant, AnchorLen;
    var call := CallSeq(system, messages);
    NoAssistant(call);
    if i :| 0 <= i < |call| && IsAssistant(call[i]) {
      assert i > 0 && call[i] == messages[i - 1];
    }
    if m :| m in messages && m.Message? && m.role == "assistant" {
      var i :| 0 <= i < |messages| && messages[i] == m;
      assert call[i + 1] == m;
    }
  }

  // ---- what an id says --------------------------------------------------------------------------

  lemma {:induction false} AnchorOfPrefix(call: Path, n: nat)
    requires AnchorLen(call) <= n <= |call| && HasAssistant(call)
    ensures AnchorLen(call[..n]) == AnchorLen(call) && HasAssistant(call[..n])
  {
    if !IsAssistant(call[0]) {
      NoAssistant(call);
      NoAssistant(call[1..]);
      assert HasAssistant(call[1..]);
      AnchorOfPrefix(call[1..], n - 1);
      assert call[..n][1..] == call[1..][..n - 1];
    }
  }

  /** Appending to a thread never changes its id. */
  lemma {:induction false} AppendKeepsId(call: Path, more: Path)
    requires HasAssistant(call)
    ensures HasAssistant(call + more) && ThreadId(call + more) == ThreadId(call)
  {
    NoAssistant(call);
    NoAssistant(call + more);
    var n := AnchorLen(call);
    assert (call + more)[n - 1] == call[n - 1];
    assert AnchorLen(call + more) <= n;
    AnchorOfPrefix(call + more, n);
    assert (call + more)[..n] == call[..n];
    AnchorOfPrefix(call, n);
  }

  /** The message lists agree through position k, the first assistant message. */
  ghost predicate Opening(msgs: seq<Item>, msgs': seq<Item>, k: nat) {
    && k < |msgs| && k < |msgs'| && msgs[..k + 1] == msgs'[..k + 1]
    && IsAssistant(msgs[k]) && forall i :: 0 <= i < k ==> !IsAssistant(msgs[i])
  }

  /** Two calls agree on the cleaned system prompt and on the messages through the first assistant of each. */
  ghost predicate SameOpening(sys: seq<Block>, msgs: seq<Item>, sys': seq<Block>, msgs': seq<Item>) {
    StripBilling(sys) == StripBilling(sys') && exists k: nat :: Opening(msgs, msgs', k)
  }

  /** For calls that have an assistant message, equal ids mean exactly: the same opening. */
  lemma {:induction false} IdIsOpening(sys: seq<Block>, msgs: seq<Item>, sys': seq<Block>, msgs': seq<Item>)
    requires HasAssistant(CallSeq(sys, msgs)) && HasAssistant(CallSeq(sys', msgs'))
    ensures ThreadId(CallSeq(sys, msgs)) == ThreadId(CallSeq(sys', msgs')) <==> SameOpening(sys, msgs, sys', msgs')
  {
    hide ThreadId, HasAssistant, Opening;
    var c, d := CallSeq(sys, msgs), CallSeq(sys', msgs');
    assert c[0] == System(StripBilling(sys)) && d[0] == System(StripBilling(sys')) && !IsAssistant(c[0]);
    assert c[1..] == msgs && d[1..] == msgs';
    if ThreadId(c) == ThreadId(d) {
      var k := OpeningOf(c, d, msgs, msgs');
    }
    if SameOpening(sys, msgs, sys', msgs') {
      var k: nat :| Opening(msgs, msgs', k);
      OpeningGives(c, d, msgs, msgs', k);
    }
  }

  lemma {:induction false} OpeningOf(c: Path, d: Path, msgs: seq<Item>, msgs': seq<Item>) returns (k: nat)
    requires |c| == |msgs| + 1 && c[1..] == msgs && |d| == |msgs'| + 1 && d[1..] == msgs'
    requires HasAssistant(c) && HasAssistant(d) && ThreadId(c) == ThreadId(d) && !IsAssistant(c[0])
    ensures c[0] == d[0] && Opening(msgs, msgs', k)
  {
    hide IsAssistant;
    var n := AnchorLen(c);
    assert n == |ThreadId(c)| == |ThreadId(d)| == AnchorLen(d);
    k := n - 2;
    assert msgs[k] == c[n - 1];
    assert c[0] == ThreadId(c)[0] && d[0] == ThreadId(d)[0];
    forall i | 0 <= i < k + 1 ensures msgs[i] == msgs'[i] {
      assert msgs[i] == c[i + 1] == ThreadId(c)[i + 1] == ThreadId(d)[i + 1] == d[i + 1];
    }
    forall i | 0 <= i < k ensures !IsAssistant(msgs[i]) {
      assert msgs[i] == c[i + 1];
    }
  }

  lemma {:induction false} OpeningGives(c: Path, d: Path, msgs: seq<Item>, msgs': seq<Item>, k: nat)
    requires |c| == |msgs| + 1 && c[1..] == msgs && |d| == |msgs'| + 1 && d[1..] == msgs'
    requires c[0] == d[0] && !IsAssistant(c[0]) && Opening(msgs, msgs', k)
    ensures ThreadId(c) == ThreadId(d)
  {
    hide IsAssistant, ThreadId;
    forall i | 0 <= i < k + 2 ensures c[i] == d[i] {
      if i > 0 {
        assert c[i] == msgs[i - 1] == msgs[..k + 1][i - 1] == msgs'[..k + 1][i - 1] == d[i];
      }
    }
    assert c[k + 1] == msgs[k];
    forall i | 0 <= i < k + 1 ensures !IsAssistant(c[i]) {
      if i > 0 {
        assert c[i] == msgs[i - 1];
      }
    }
    OpeningAgrees(c, d, k + 2);
  }

  lemma {:induction false} OpeningAgrees(c: Path, d: Path, n: nat)
    requires 0 < n <= |c| && n <= |d| && c[..n] == d[..n]
    requires IsAssistant(c[n - 1]) && forall i :: 0 <= i < n - 1 ==> !IsAssistant(c[i])
    ensures ThreadId(c) == ThreadId(d)
  {
    forall i | 0 <= i < n ensures d[i] == c[i] {
      assert c[i] == c[..n][i] && d[i] == d[..n][i];
    }
    assert AnchorLen(c) == n && AnchorLen(d) == n;
  }

  /** n is one past the first assistant among the first i items, 0 if there is none. */
  ghost predicate FirstAt(call: Path, i: nat, n: nat) {
    && n <= i <= |call| && (forall j :: 0 <= j < (if n == 0 then i else n - 1) ==> !IsAssistant(call[j]))
    && (n > 0 ==> IsAssistant(call[n - 1]))
  }

  lemma {:induction false} FirstNext(call: Path, i: nat, n: nat)
    requires i < |call| && FirstAt(call, i, n)
    ensures FirstAt(call, i + 1, if n == 0 && IsAssistant(call[i]) then i + 1 else n)
  {
  }

  lemma {:induction false} AnchorFound(call: Path, n: nat)
    requires call != [] && FirstAt(call, |call|, n)
    ensures HasAssistant(call) <==> n > 0
    ensures ThreadId(call) == if n == 0 then call else call[..n]
  {
    NoAssistant(call);
  }

  // ---- the tree ---------------------------------------------------------------------------------

  class Node {
    const item: Item
    var children: map<Item, Node>
    var isAnchor: bool
    var branchId: Option<Path>

    constructor (item: Item)
      ensures this.item == item && children == map[] && !isAnchor && branchId == None
    {
      this.item, children, isAnchor, branchId := item, map[], false, None;
    }
  }

  /** Some mounted call passes through p. */
  ghost predicate OnSomeCall(mounted: set<Path>, p: Path) {
    p == [] || exists c :: c in mounted && p <= c
  }

  /** Some mounted call with an assistant message is anchored at p. */
  ghost predicate AnchorsSome(mounted: set<Path>, p: Path) {
    exists c :: c in mounted && HasAssistant(c) && ThreadId(c) == p
  }

  function Down(p: Path, i: Item): Path {
    p + [i]
  }

  /** p is among the first n steps of the call. */
  ghost predicate OnCall(p: Path, call: Path, n: nat) {
    |p| <= n && p <= call
  }

  lemma {:induction false} DownIs(call: Path, i: nat)
    requires i < |call|
    ensures Down(call[..i], call[i]) == call[..i + 1]
    ensures forall p :: OnCall(p, call, i + 1) <==> OnCall(p, call, i) || p == call[..i + 1]
  {
    assert call[..i + 1] == call[..i] + [call[i]];
  }

  lemma {:induction false} DownInjective(p: Path, i: Item, q: Path, j: Item)
    requires Down(p, i) == Down(q, j)
    ensures p == q && i == j
  {
    assert Down(p, i)[..|p|] == p && Down(q, j)[..|q|] == q;
    assert Down(p, i)[|p|] == i && Down(q, j)[|q|] == j;
  }

  /** Paths name nodes one to one, and with a path its prefixes. */
  ghost predicate Names(at: map<Path, Node>, root: Node) {
    && [] in at && at[[]] == root
    && (forall p, i {:trigger Down(p, i)} :: Down(p, i) in at ==> p in at)
    && (forall p, q :: p in at && q in at && at[p] == at[q] ==> p == q)
  }

  lemma {:induction false} NamesGrow(at: map<Path, Node>, root: Node, p: Path, i: Item, child: Node)
    requires Names(at, root) && p in at && Down(p, i) !in at && child !in at.Values
    ensures Names(at[Down(p, i) := child], root)
  {
    var at' := at[Down(p, i) := child];
    assert Down(p, i) != [];
    forall r, j | Down(r, j) in at' ensures r in at' {
      if Down(r, j) == Down(p, i) {
        DownInjective(r, j, p, i);
      }
    }
    forall r, s | r in at' && s in at' && at'[r] == at'[s] ensures r == s {
    }
  }

  /** The anchors are the thread ids of the mounted calls that have an assistant message. */
  ghost predicate AnchorsAre(anchors: set<Path>, mounted: set<Path>) {
    forall p :: p in anchors <==> AnchorsSome(mounted, p)
  }

  /** The nodes are the prefixes of the calls mounted. */
  ghost predicate Covers(paths: set<Path>, mounted: set<Path>) {
    forall p :: p in paths <==> OnSomeCall(mounted, p)
  }

  lemma {:induction false} CoversMore(paths: set<Path>, paths': set<Path>, mounted: set<Path>, call: Path)
    requires Covers(paths, mounted) && forall p :: p in paths' <==> p in paths || OnCall(p, call, |call|)
    ensures Covers(paths', mounted + {call})
  {
    forall p ensures p in paths' <==> OnSomeCall(mounted + {call}, p) {
      if OnSomeCall(mounted, p) && p != [] {
        var c :| c in mounted && p <= c;
        assert c in mounted + {call};
      }
      if p <= call {
        assert call in mounted + {call};
      }
    }
  }

  lemma {:induction false} AnchorsMore(anchors: set<Path>, mounted: set<Path>, call: Path)
    requires AnchorsAre(anchors, mounted)
    ensures AnchorsAre(if HasAssistant(call) then anchors + {ThreadId(call)} else anchors, mounted + {call})
  {
    hide HasAssistant, ThreadId;
    forall p ensures AnchorsSome(mounted + {call}, p) <==> AnchorsSome(mounted, p) || (p == ThreadId(call) && HasAssistant(call)) {
      if AnchorsSome(mounted, p) {
        var c :| c in mounted && HasAssistant(c) && ThreadId(c) == p;
        assert c in mounted + {call};
      }
      if p == ThreadId(call) && HasAssistant(call) {
        assert call in mounted + {call};
      }
    }
  }

  // ---- looking for the threads below a node -----------------------------------------------------

  ghost predicate Above(p: Path, q: Path) {
    p <= q
  }

  ghost predicate Closed(keys: set<Path>) {
    forall p, i {:trigger Down(p, i)} :: Down(p, i) in keys ==> p in keys
  }

  lemma {:induction false} PrefixIn(keys: set<Path>, q: Path, n: nat)
    requires Closed(keys) && q in keys && n <= |q|
    ensures q[..n] in keys
    decreases |q|
  {
    if n < |q| {
      var m := |q| - 1;
      assert q == Down(q[..m], q[m]);
      PrefixIn(keys, q[..m], n);
      assert q[..m][..n] == q[..n];
    } else {
      assert q[..n] == q;
    }
  }

  /** Depth-first search below p: `todo` are disjoint subtrees not yet looked at, `done` are the nodes looked at. */
  ghost predicate Searching(keys: set<Path>, p: Path, todo: seq<Path>, done: set<Path>) {
    && (forall k :: 0 <= k < |todo| ==> todo[k] in keys && Above(p, todo[k]))
    && (forall j, k :: 0 <= j < |todo| && 0 <= k < |todo| && j != k ==> !Above(todo[j], todo[k]))
    && (forall k, d :: 0 <= k < |todo| && d in done ==> !Above(todo[k], d))
    && (forall d :: d in done ==> d in keys && Above(p, d))
    && (forall q :: q in keys && Above(p, q) ==> q in done || Pending(todo, q))
  }

  ghost predicate Pending(todo: seq<Path>, q: Path) {
    exists k :: 0 <= k < |todo| && Above(todo[k], q)
  }

  /** `below` lists the children of x, each once. */
  ghost predicate Steps(keys: set<Path>, x: Path, items: seq<Item>) {
    && (forall j, k :: 0 <= j < k < |items| ==> items[j] != items[k])
    && (forall i :: i in items <==> Down(x, i) in keys)
  }

  function Downs(x: Path, items: seq<Item>): (r: seq<Path>)
    ensures |r| == |items| && forall k :: 0 <= k < |items| ==> r[k] == Down(x, items[k])
  {
    seq(|items|, k requires 0 <= k < |items| => Down(x, items[k]))
  }

  lemma {:induction false} AboveDown(x: Path, i: Item, q: Path)
    ensures Above(Down(x, i), q) ==> Above(x, q)
    ensures Above(q, Down(x, i)) ==> Above(q, x) || q == Down(x, i)
    ensures Above(x, Down(x, i)) && !Above(Down(x, i), x)
  {
    assert Down(x, i)[..|x|] == x;
    if Above(q, Down(x, i)) && |q| <= |x| {
      assert q == Down(x, i)[..|q|] == x[..|q|];
    }
  }

  lemma {:induction false} SiblingsApart(x: Path, i: Item, j: Item)
    requires i != j
    ensures !Above(Down(x, i), Down(x, j))
  {
    assert Down(x, i)[|x|] == i && Down(x, j)[|x|] == j;
  }

  lemma {:induction false} BelowOne(keys: set<Path>, x: Path, items: seq<Item>, q: Path)
    requires Closed(keys) && Steps(keys, x, items) && q in keys && Above(x, q) && q != x
    ensures Pending(Downs(x, items), q)
  {
    var i := q[|x|];
    assert q[..|x| + 1] == Down(x, i);
    PrefixIn(keys, q, |x| + 1);
    assert i in items;
    var k :| 0 <= k < |items| && items[k] == i;
    assert Downs(x, items)[k] == Down(x, i) && Above(Down(x, i), q);
  }

  /** Looking at the last subtree's root and queueing its children keeps the search going. */
  lemma {:induction false} SearchStep(keys: set<Path>, p: Path, todo: seq<Path>, done: set<Path>, x: Path, items: seq<Item>)
    requires Closed(keys) && Searching(keys, p, todo + [x], done) && Steps(keys, x, items)
    ensures Searching(keys, p, todo + Downs(x, items), done + {x}) && x !in done && x in keys
  {
    hide Above, Down, Closed;
    var all, next := todo + [x], todo + Downs(x, items);
    assert all[|todo|] == x && Above(x, x) by { Itself(x); }
    SearchQueue(keys, p, todo, done, x, items);
    SearchSeen(keys, p, todo, done, x, items);
    forall q | q in keys && Above(p, q) ensures q in done + {x} || Pending(next, q) {
      if q !in done && q != x {
        var k :| 0 <= k < |all| && Above(all[k], q);
        if k < |todo| {
          assert next[k] == all[k];
        } else {
          BelowOne(keys, x, items, q);
          var m :| 0 <= m < |items| && Above(Downs(x, items)[m], q);
          assert next[|todo| + m] == Downs(x, items)[m];
        }
      }
    }
  }

  lemma {:induction false} Itself(x: Path)
    ensures Above(x, x)
  {
  }

  lemma {:induction false} AboveTransitive(p: Path, q: Path, r: Path)
    requires Above(p, q) && Above(q, r)
    ensures Above(p, r)
  {
  }

  lemma {:induction false} SearchQueue(keys: set<Path>, p: Path, todo: seq<Path>, done: set<Path>, x: Path, items: seq<Item>)
    requires Searching(keys, p, todo + [x], done) && Steps(keys, x, items)
    ensures var next := todo + Downs(x, items);
            && (forall k :: 0 <= k < |next| ==> next[k] in keys && Above(p, next[k]))
            && (forall j, k :: 0 <= j < |next| && 0 <= k < |next| && j != k ==> !Above(next[j], next[k]))
  {
    hide Above, Down, Pending;
    var all, next := todo + [x], todo + Downs(x, items);
    assert all[|todo|] == x;
    forall k | 0 <= k < |next| ensures next[k] in keys && Above(p, next[k]) {
      if k < |todo| {
        assert next[k] == all[k];
      } else {
        var i := items[k - |todo|];
        assert i in items && next[k] == Down(x, i);
        AboveDown(x, i, p);
        AboveTransitive(p, x, Down(x, i));
      }
    }
    forall j, k | 0 <= j < |next| && 0 <= k < |next| && j != k ensures !Above(next[j], next[k]) {
      QueueApart(keys, p, todo, done, x, items, j, k);
    }
  }

  lemma {:induction false} QueueApart(keys: set<Path>, p: Path, todo: seq<Path>, done: set<Path>, x: Path, items: seq<Item>, j: nat, k: nat)
    requires Searching(keys, p, todo + [x], done) && Steps(keys, x, items)
    requires j < |todo| + |items| && k < |todo| + |items| && j != k
    ensures !Above((todo + Downs(x, items))[j], (todo + Downs(x, items))[k])
  {
    hide Above, Down, Pending;
    var all := todo + [x];
    assert all[|todo|] == x && forall m :: 0 <= m < |todo| ==> all[m] == todo[m];
    if j < |todo| && k < |todo| {
      assert !Above(all[j], all[k]);
    } else if j < |todo| {
      assert !Above(all[j], x) && !Above(x, all[j]);
      AboveDown(x, items[k - |todo|], all[j]);
    } else if k < |todo| {
      assert !Above(x, all[k]);
      AboveDown(x, items[j - |todo|], all[k]);
    } else {
      assert items[j - |todo|] != items[k - |todo|];
      SiblingsApart(x, items[j - |todo|], items[k - |todo|]);
    }
  }

  lemma {:induction false} SearchSeen(keys: set<Path>, p: Path, todo: seq<Path>, done: set<Path>, x: Path, items: seq<Item>)
    requires Searching(keys, p, todo + [x], done) && Steps(keys, x, items)
    ensures var next := todo + Downs(x, items);
            && (forall k, d :: 0 <= k < |next| && d in done + {x} ==> !Above(next[k], d))
            && (forall d :: d in done + {x} ==> d in keys && Above(p, d)) && x !in done
  {
    hide Above, Down, Pending;
    var all, next := todo + [x], todo + Downs(x, items);
    assert all[|todo|] == x && forall m :: 0 <= m < |todo| ==> all[m] == todo[m];
    Itself(x);
    forall k, d | 0 <= k < |next| && d in done + {x} ensures !Above(next[k], d) {
      if k < |todo| {
        assert !Above(all[k], x);
      } else {
        AboveDown(x, items[k - |todo|], d);
      }
    }
  }

  /** t is the one anchor below p. */
  ghost predicate OnlyAnchor(anchors: set<Path>, p: Path, t: Path) {
    t in anchors && Above(p, t) && forall q :: q in anchors && Above(p, q) ==> q == t
  }

  class Tree {
    const root: Node
    /** Every node by its path; which nodes are anchors, and which have their id cached. */
    ghost var at: map<Path, Node>
    ghost var anchors: set<Path>
    ghost var cached: set<Path>
    ghost var mounted: set<Path>

    /** The children of a node are exactly the paths one step longer. */
    ghost predicate Links()
      reads this`at, at.Values`children
    {
      && (forall p, i {:trigger Down(p, i)} :: p in at ==> (i in at[p].children <==> Down(p, i) in at))
      && (forall p, i {:trigger Down(p, i)} :: p in at && i in at[p].children ==> Down(p, i) in at && at[p].children[i] == at[Down(p, i)])
    }

    /** A cached id is the node's own path. */
    ghost predicate Marks()
      reads this`at, this`anchors, this`cached, at.Values`isAnchor, at.Values`branchId
    {
      && anchors <= cached <= at.Keys
      && (forall p :: p in at ==> (at[p].isAnchor <==> p in anchors))
      && (forall p :: p in at ==> at[p].branchId == if p in cached then Some(p) else None)
    }

    ghost predicate Shape()
      reads this, at.Values
    {
      Names(at, root) && Links() && Marks()
    }

    ghost predicate Valid()
      reads this, at.Values
    {
      Shape() && AnchorsAre(anchors, mounted) && Covers(at.Keys, mounted)
    }

    constructor ()
      ensures Valid() && mounted == {} && fresh(at.Values)
    {
      var r := new Node(Message("root", "__root__"));
      root := r;
      at, anchors, cached, mounted := map[[] := r], {}, {}, {};
      new;
      StartsEmpty();
    }

    static lemma StartsEmpty()
      ensures AnchorsAre({}, {}) && Covers({[]}, {})
    {
    }

    /** The child of `node` for item i, made if there is none. */
    method Child(ghost p: Path, node: Node, i: Item) returns (child: Node)
      requires Shape() && p in at && at[p] == node
      modifies this`at, node`children
      ensures Shape() && Down(p, i) in at && at[Down(p, i)] == child
      ensures if Down(p, i) in old(at) then at == old(at) else fresh(child) && at == old(at)[Down(p, i) := child]
    {
      hide Names, Down, Marks;
      assert i in node.children <==> Down(p, i) in at;
      if i in node.children {
        child := node.children[i];
      } else {
        child := Grow(p, node, i);
      }
    }

    method Grow(ghost p: Path, node: Node, i: Item) returns (child: Node)
      requires Shape() && p in at && at[p] == node && Down(p, i) !in at
      modifies this`at, node`children
      ensures Shape() && fresh(child) && at == old(at)[Down(p, i) := child]
    {
      hide Names, Links, Down;
      child := new Node(i);
      NamesGrow(at, root, p, i, child);
      Attach(p, node, i, child);
    }

    method Attach(ghost p: Path, node: Node, i: Item, child: Node)
      requires Names(at, root) && Links() && p in at && at[p] == node && Down(p, i) !in at
      requires child !in at.Values && child.children == map[]
      modifies this`at, node`children
      ensures Links() && at == old(at)[Down(p, i) := child]
    {
      hide Down;
      node.children := node.children[i := child];
      at := at[Down(p, i) := child];
      forall q, j ensures q in at ==> (j in at[q].children <==> Down(q, j) in at) {
        if Down(q, j) == Down(p, i) {
          DownInjective(q, j, p, i);
        }
      }
    }
  
    /** `node` is where the first i steps of the call lead, and only they have been added. */
    ghost predicate Along(call: Path, i: nat, node: Node, before: set<Path>)
      reads this, at.Values
    {
      && Shape() && i <= |call|
      && call[..i] in at && at[call[..i]] == node
      && (forall p :: p in at <==> p in before || OnCall(p, call, i))
    }

    /** The anchor found so far is the node of the first assistant step, null if n is 0. */
    ghost predicate Anchored(call: Path, n: nat, anchor: Node?)
      reads this
    {
      && (anchor == null <==> n == 0)
      && (anchor != null ==> n <= |call| && call[..n] in at && at[call[..n]] == anchor)
    }

    /** One step down. */
    method Extend(call: Path, i: nat, node: Node, ghost before: set<Path>, ghost n: nat, ghost anchor: Node?) returns (child: Node)
      requires i < |call| && Along(call, i, node, before) && Anchored(call, n, anchor)
      modifies this`at, node`children
      ensures Along(call, i + 1, child, before) && Anchored(call, n, anchor) && child in at.Values
      ensures fresh(at.Values - old(at.Values)) && old(at.Keys) <= at.Keys
    {
      hide Names, Links, Marks, Down, OnCall;
      DownIs(call, i);
      child := Child(call[..i], node, call[i]);
      if anchor != null {
        assert call[..n] in old(at);
      }
    }

    /** Mounts a call; the id depends on nothing but the call. */
    method Mount(call: Path) returns (id: Path, provisional: bool)
      requires Valid() && call != []
      modifies this, at.Values
      ensures Valid() && mounted == old(mounted) + {call}
      ensures id == ThreadId(call) && provisional == !HasAssistant(call)
      ensures fresh(at.Values - old(at.Values))
    {
      hide Names, Links, Marks, AnchorsAre, Covers, ThreadId, HasAssistant, Along, FirstAt, Anchored;
      ghost var before := at.Keys;
      var node, anchor, n := Walk(call);
      provisional := anchor == null;
      MountEnd(call, node, before, n, anchor);
      if anchor == null {
        anchor, n := node, |call|;
      }
      id := Stamp(call, call[..n], anchor, provisional, before);
    }

    /** Follows the call down, making what is missing and noting the first assistant. */
    method Walk(call: Path) returns (node: Node, anchor: Node?, n: nat)
      requires Shape()
      modifies this`at, at.Values
      ensures Along(call, |call|, node, old(at.Keys)) && FirstAt(call, |call|, n) && Anchored(call, n, anchor)
      ensures node in at.Values && (anchor != null ==> anchor in at.Values)
      ensures fresh(at.Values - old(at.Values))
    {
      hide Names, Links, Marks, Along, FirstAt, Anchored, Shape;
      node, anchor, n := root, null, 0;
      AlongStart(call);
      for i := 0 to |call|
        invariant Along(call, i, node, old(at.Keys)) && node in at.Values && fresh(at.Values - old(at.Values))
        invariant FirstAt(call, i, n) && Anchored(call, n, anchor)
      {
        node := Extend(call, i, node, old(at.Keys), n, anchor);
        FirstNext(call, i, n);
        NotYet(call, n, anchor);
        if anchor == null && Role(call[i]) == "assistant" {
          AnchorHere(call, i + 1, node, old(at.Keys));
          anchor, n := node, i + 1;
        }
      }
      NotYet(call, n, anchor);
    }

    lemma {:induction false} AlongStart(call: Path)
      requires Shape()
      ensures Along(call, 0, root, at.Keys) && root in at.Values && FirstAt(call, 0, 0) && Anchored(call, 0, null)
    {
      hide Links, Marks;
      assert call[..0] == [];
    }

    lemma {:induction false} AnchorHere(call: Path, i: nat, node: Node, before: set<Path>)
      requires Along(call, i, node, before) && i > 0
      ensures Anchored(call, i, node)
    {
    }

    lemma {:induction false} NotYet(call: Path, n: nat, anchor: Node?)
      requires Anchored(call, n, anchor)
      ensures (anchor == null <==> n == 0) && (anchor != null ==> anchor in at.Values)
    {
    }

    lemma {:induction false} MountEnd(call: Path, node: Node, before: set<Path>, n: nat, anchor: Node?)
      requires call != [] && Along(call, |call|, node, before) && FirstAt(call, |call|, n) && Anchored(call, n, anchor)
      ensures Shape() && n <= |call| && (anchor == null <==> n == 0) && (anchor == null <==> !HasAssistant(call))
      ensures forall p :: p in at <==> p in before || OnCall(p, call, |call|)
      ensures ThreadId(call) in at
      ensures if anchor == null then call[..|call|] == ThreadId(call) && at[ThreadId(call)] == node
              else call[..n] == ThreadId(call) && at[ThreadId(call)] == anchor
    {
      hide Names, Links, Marks, HasAssistant, ThreadId, OnCall;
      AnchorFound(call, n);
      assert call[..|call|] == call;
    }

    /** Marks the anchor and caches its id. */
    method Stamp(ghost call: Path, keys: Path, anchor: Node, provisional: bool, ghost before: set<Path>) returns (id: Path)
      requires Shape() && AnchorsAre(anchors, mounted) && Covers(before, mounted)
      requires forall p :: p in at <==> p in before || OnCall(p, call, |call|)
      requires keys == ThreadId(call) && keys in at && at[keys] == anchor && provisional == !HasAssistant(call)
      modifies this`mounted, this`anchors, this`cached, anchor`isAnchor, anchor`branchId
      ensures Valid() && mounted == old(mounted) + {call} && id == ThreadId(call)
    {
      hide AnchorsAre, Covers, ThreadId, HasAssistant, OnCall, Names, Links, Marks;
      AnchorsMore(anchors, mounted, call);
      CoversMore(before, at.Keys, mounted, call);
      id := Mark(keys, anchor, provisional);
      mounted := mounted + {call};
    }

    lemma {:induction false} OneName(keys: Path)
      requires Names(at, root) && keys in at
      ensures forall p :: p in at && at[p] == at[keys] ==> p == keys
    {
    }

    method Mark(keys: Path, anchor: Node, provisional: bool) returns (id: Path)
      requires Shape() && keys in at && at[keys] == anchor
      modifies this`anchors, this`cached, anchor`isAnchor, anchor`branchId
      ensures Shape() && id == keys && anchors == if provisional then old(anchors) else old(anchors) + {keys}
    {
      hide Names, Links;
      OneName(keys);
      if !provisional {
        anchor.isAnchor := true;
        anchors := anchors + {keys};
      }
      if anchor.branchId.None? {
        anchor.branchId := Some(keys);
      }
      cached := cached + {keys};
      id := anchor.branchId.value;
    }
  
    lemma {:induction false} KeysClosed()
      requires Names(at, root)
      ensures Closed(at.Keys)
    {
    }

    /** Follows a call without changing anything: the node of its anchor, null if the tree does not have it. */
    method WalkToAnchor(call: Path) returns (node: Node?)
      requires Shape() && call != []
      ensures if ThreadId(call) in at then node == at[ThreadId(call)] else node == null
    {
      hide Names, Marks, Down, ThreadId, FirstAt;
      AlongStart(call);
      KeysClosed();
      var cur := root;
      for i := 0 to |call|
        invariant FirstAt(call, i, 0)
        invariant call[..i] in at && at[call[..i]] == cur
      {
        DownIs(call, i);
        if call[i] !in cur.children {
          NotReached(at.Keys, call, i);
          return null;
        }
        cur := cur.children[call[i]];
        FirstNext(call, i, 0);
        if Role(call[i]) == "assistant" {
          FoundAt(call, i);
          return cur;
        }
      }
      AnchorFound(call, 0);
      assert call[..|call|] == call;
      node := cur;
    }

    /** Queues the children of a node, in any order. */
    method Push(stack: seq<Node>, node: Node, ghost x: Path) returns (next: seq<Node>, ghost items: seq<Item>)
      requires Links() && x in at && at[x] == node
      ensures Steps(at.Keys, x, items) && |next| == |stack| + |items|
      ensures forall k :: 0 <= k < |stack| ==> next[k] == stack[k]
      ensures forall k :: 0 <= k < |items| ==> Down(x, items[k]) in at && next[|stack| + k] == at[Down(x, items[k])]
    {
      hide Down;
      next, items := stack, [];
      var rest := node.children.Keys;
      while rest != {}
        invariant rest <= node.children.Keys
        invariant |next| == |stack| + |items| && forall k :: 0 <= k < |stack| ==> next[k] == stack[k]
        invariant forall j, k :: 0 <= j < k < |items| ==> items[j] != items[k]
        invariant forall i :: i in items <==> i in node.children && i !in rest
        invariant forall k :: 0 <= k < |items| ==> next[|stack| + k] == node.children[items[k]]
        decreases rest
      {
        var i :| i in rest;
        rest := rest - {i};
        next, items := next + [node.children[i]], items + [i];
      }
      forall i ensures i in items <==> Down(x, i) in at {
      }
      forall k | 0 <= k < |items| ensures Down(x, items[k]) in at && next[|stack| + k] == at[Down(x, items[k])] {
        assert items[k] in items;
      }
    }

    /** The stack holds the nodes of the subtrees still to do, and ids the anchors seen. */
    ghost predicate Collecting(p: Path, stack: seq<Node>, todo: seq<Path>, done: set<Path>, ids: set<Path>)
      reads this
    {
      && |stack| == |todo| && Searching(at.Keys, p, todo, done)
      && (forall k :: 0 <= k < |stack| ==> todo[k] in at && at[todo[k]] == stack[k])
      && ids == done * anchors
    }

    /** The thread of the only anchor below a call's own anchor, if there is exactly one. */
    method UniqueDescendant(call: Path) returns (r: Option<Path>)
      requires Shape() && call != []
      ensures ThreadId(call) in at ==> forall t :: r == Some(t) <==> OnlyAnchor(anchors, ThreadId(call), t)
      ensures ThreadId(call) !in at ==> r == None
    {
      hide Names, Links, Marks, ThreadId, Searching, Closed, Steps;
      var start := WalkToAnchor(call);
      if start == null {
        return None;
      }
      ghost var p := ThreadId(call);
      var stack: seq<Node> := [start];
      var ids: set<Path> := {};
      ghost var todo, done := [p], {};
      SearchStart(at.Keys, p);
      while stack != []
        invariant Collecting(p, stack, todo, done, ids)
        decreases at.Keys - done
      {
        stack, ids, todo, done := Visit(p, stack, ids, todo, done);
      }
      SearchEnd(at.Keys, p, done);
      DoneAnchors(p, done, ids);
      if |ids| == 1 {
        var t :| t in ids;
        Singleton(ids, t);
        r := Some(t);
      } else {
        r := None;
      }
      Sole(anchors, p, ids, r);
    }

    method Visit(ghost p: Path, stack: seq<Node>, ids: set<Path>, ghost todo: seq<Path>, ghost done: set<Path>)
      returns (stack': seq<Node>, ids': set<Path>, ghost todo': seq<Path>, ghost done': set<Path>)
      requires Shape() && stack != [] && Collecting(p, stack, todo, done, ids)
      ensures Collecting(p, stack', todo', done', ids') && done < done' <= at.Keys
    {
      hide Names, Links, Searching, Closed, Steps, Down;
      var m := |stack| - 1;
      var n := stack[m];
      ghost var x := todo[m];
      assert todo == todo[..m] + [x];
      ids' := ids;
      if n.isAnchor && n.branchId.Some? {
        ids' := ids + {n.branchId.value};
      }
      ghost var items;
      stack', items := Push(stack[..m], n, x);
      KeysClosed();
      SearchStep(at.Keys, p, todo[..m], done, x, items);
      todo', done' := todo[..m] + Downs(x, items), done + {x};
      DoneInKeys(at.Keys, p, todo', done');
    }

    lemma {:induction false} DoneAnchors(p: Path, done: set<Path>, ids: set<Path>)
      requires Marks() && ids == done * anchors && forall q :: q in done <==> q in at && Above(p, q)
      ensures forall q :: q in ids <==> q in anchors && Above(p, q)
    {
    }
  }

  lemma {:induction false} NotReached(keys: set<Path>, call: Path, i: nat)
    requires Closed(keys) && i < |call| && FirstAt(call, i, 0) && call[..i + 1] !in keys
    ensures ThreadId(call) !in keys
  {
    var n := AnchorLen(call);
    assert n > i && ThreadId(call)[..i + 1] == call[..i + 1];
    if ThreadId(call) in keys {
      PrefixIn(keys, ThreadId(call), i + 1);
    }
  }

  lemma {:induction false} FoundAt(call: Path, i: nat)
    requires i < |call| && FirstAt(call, i, 0) && IsAssistant(call[i])
    ensures ThreadId(call) == call[..i + 1]
  {
  }

  lemma {:induction false} SearchStart(keys: set<Path>, p: Path)
    requires p in keys
    ensures Searching(keys, p, [p], {})
  {
    forall q | Above(p, q) ensures Pending([p], q) {
      assert [p][0] == p;
    }
  }

  lemma {:induction false} SearchEnd(keys: set<Path>, p: Path, done: set<Path>)
    requires Searching(keys, p, [], done)
    ensures forall q :: q in done <==> q in keys && Above(p, q)
  {
  }

  lemma {:induction false} DoneInKeys(keys: set<Path>, p: Path, todo: seq<Path>, done: set<Path>)
    requires Searching(keys, p, todo, done)
    ensures done <= keys
  {
  }

  lemma {:induction false} Singleton(ids: set<Path>, t: Path)
    requires |ids| == 1 && t in ids
    ensures ids == {t}
  {
    assert |ids - {t}| == 0;
  }

  lemma {:induction false} Sole(anchors: set<Path>, p: Path, ids: set<Path>, r: Option<Path>)
    requires forall q :: q in ids <==> q in anchors && Above(p, q)
    requires if |ids| == 1 then r.Some? && ids == {r.value} else r == None
    ensures forall t :: r == Some(t) <==> OnlyAnchor(anchors, p, t)
  {
    forall t ensures r == Some(t) <==> OnlyAnchor(anchors, p, t) {
      if OnlyAnchor(anchors, p, t) {
        assert ids == {t};
      }
    }
  }
}
