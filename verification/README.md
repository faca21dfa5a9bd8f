# Agent trajectories: a verified model

This project models the deterministic core of a system that turns group-chat history and captured model calls into
training trajectories, and proves what that core keeps for every answer a language model can give. Every call to a
model, an embedding or the network is an arbitrary value: a parameter, an oracle function, or a list of answers.

The parts, with the files that hold them:

- **Incremental segmentation** (`Atomic`, `Clusters`, `SplitGuard`, `Terminal`, `Titles`, `Incremental`,
  `Rounds`): events are cut into atomic segments, segments are welded along reply edges with a union-find, an oracle groups
  them into tasks, finished tasks are frozen, one unfinished task stays open, and later rounds thaw, reopen and re-segment.
  The class `Pipeline` holds the saved state; `Rounds` drives it over whole histories.
- **Message tree and threads** (`MessageTree`, `Threads`): a mutable tree of messages that gives every captured call a thread id,
  online with a fresh tree per call and offline with one shared tree.
- **Sub-requirement repair** (`Gaps`, `Overlaps`, `OverlapRepair`, `Rollback`, `TerminalTail`, `Chunks`): a task too long for one call
  is cut at pauses, every chunk's answer is repaired in place, and the pieces are renumbered and merged.
- **Reply-chain components** (`UnionFind`, `ReplyGold`): a path-compressing union-find over reply edges. The module `Forests` is the
  theory shared with the path-halving union-find of the atomic segments.
- **Stream and routing machines** (`SseFraming`, `Sse`, `SseBlocks`, `Router`, `CorrectionWindows`, `Guard`): rebuilding a streamed
  reply, routing a day's messages into sessions, cutting a session into detection windows, and repairing and checking
  detected corrections.
- `Lists`, `Sorting` and `Events` are shared vocabulary.

Conventions. Timestamps are integers, in milliseconds for chat events. A text predicate (noise, topic label, closure word,
control command, placeholder, self-correction and the like) is a field of the record it is asked of. A missing id or parent is
the empty string. A fingerprint of a message is the message itself, so a thread id is the path it is computed from. The fixed
similarity function and the JSON printer and parser are function parameters. Where the source raises, the model
returns an error value.

Hypotheses that the theorems state where they need them: event ids are not empty and distinct within a first fetch, and an id
always stands for the same event; a later fetch is live, that is, it starts at the whole second of the watermark; the thaw
window is at least one hour; messages of a session are in time order.

Where code and documentation differ, the code is modelled:

- The documentation of `gold_components` says components are numbered by their smallest id. They are numbered by sorted root;
  `ReplyGold.SmallestIdDoesNotNumber` is a counterexample. `ReplyGold.GoldComponents` states the order that holds, and that it
  is that of the smallest ids when every reply sorts after its parent.
- The documentation of `_windows` says no window exceeds the character limit. `CorrectionWindows.LimitKeptIff` says when that is so.
- The comment on accumulated tool input says truncated input is kept. `SseBlocks.InputKeptIffStopped` says when it is.
- The comment on overlaps says no information is lost. `OverlapRepair.Decomposition.Resolve` keeps every message for which all but
  at most two holders open earlier with a message of their own, so any that at most two segments share. A message that is the only
  shared one is kept exactly then, or if the first holder that opens with it wins all its ties. `OverlapRepair.ThreeAlike` is a
  family of inputs that lose theirs.

## Model

| member | source | states |
|---|---|---|
| `Reachability.LabelConstant` | trajectory_extract/task_stitch.py:549-569 | a label that agrees across every edge agrees along every path |
| `Forests.Shortcut` | trajectory_extract/task_stitch.py:554-558 | pointing a non-root at a lower member of its own class changes no representative, so path halving and path compression are both harmless |
| `Forests.Hang` | trajectory_extract/reply_chain_gold.py:76-79 | hanging one root under another merges exactly their two classes |
| `Forests.ClassesInner` | trajectory_extract/task_stitch.py:565 | an edge inside one class leaves connectivity as it was, so skipping it is right |
| `Forests.SameClass` | trajectory_extract/reply_chain_gold.py:63-79 | equal representatives mean exactly: connected by edges |
| `Forests.FindHalving` | trajectory_extract/task_stitch.py:554-558 | path halving ends, returns the representative, and keeps every representative |
| `ReplyGold.Dsu.constructor` | trajectory_extract/reply_chain_gold.py:63-65 | an empty structure that represents no edges |
| `ReplyGold.Dsu.Find` | trajectory_extract/reply_chain_gold.py:67-74 | both walks end; the root of the class is returned, every class is kept, and only the asked id can be new |
| `ReplyGold.Dsu.Union` | trajectory_extract/reply_chain_gold.py:76-79 | the classes become those of the edges with this one added, whatever finds and unions came before |
| `ReplyGold.ExtractEdges` | trajectory_extract/reply_chain_gold.py:84-103 | in the order of the messages, one reply per message with an id and a present parent; so exactly the replies with both ends present |
| `ReplyGold.UnionAll` | trajectory_extract/reply_chain_gold.py:108-110 | classes are those of all edges; with one parent per message the roots are messages that reply to nothing, and if replies sort after their parents each root is the least id of its class |
| `ReplyGold.OpenerIsRoot` | trajectory_extract/reply_chain_gold.py:106-117 | with one parent per message, following replies upwards ends at the representative |
| `ReplyGold.GoldComponents` | trajectory_extract/reply_chain_gold.py:106-117 | same number iff connected by replies; the numbers in use are 0..k-1; with one parent per message they follow the order of the opening messages' ids; if replies also sort after their parents, the order of the smallest ids |
| `ReplyGold.SmallestIdDoesNotNumber` | trajectory_extract/reply_chain_gold.py:106-112 | a reply graph whose component with the smallest id is not numbered first |
| `Sorting.SortSorts` | trajectory_extract/task_stitch.py:574-578 | sorting permutes and orders |
| `Sorting.SortStable` | trajectory_extract/task_stitch.py:574-578 | sorting keeps the order of elements with equal keys |
| `Atomic.EffectiveTopics` | trajectory_extract/task_stitch.py:520-526 | the topic at each event is the latest label a bot gave up to there, or unknown |
| `Atomic.Cut` | trajectory_extract/task_stitch.py:527-548 | segments are contiguous, concatenate to the events, and start exactly at a long pause or at a topic change that lasts into the next event |
| `Atomic.FirstPassUnique` | trajectory_extract/task_stitch.py:520-548 | that description leaves no choice: topics, segments and positions are determined by the events |
| `Atomic.CutIff` | trajectory_extract/task_stitch.py:527-548 | a segment starts iff forty minutes have passed, or the topic is known, new, and lasts into the next event |
| `Atomic.BlipAbsorbed` | trajectory_extract/task_stitch.py:538-547 | a single message on another topic does not cut: the segment goes on after it |
| `Atomic.StrongIff` | trajectory_extract/task_stitch.py:471-490 | a reply welds unless both topics are known and differ and its similarity is below 0.6 or, without one, a day lies between |
| `Atomic.SegmentOf` | trajectory_extract/task_stitch.py:550-551 | the table finds every event's segment and event by id |
| `Atomic.Weld` | trajectory_extract/task_stitch.py:565-569 | one reply edge: classes become those with the edge added if it passes the stitch test, else they stay |
| `Atomic.Stitch` | trajectory_extract/task_stitch.py:549-569 | the classes are the components of the graph of reply edges that pass the stitch test |
| `Atomic.Collect` | trajectory_extract/task_stitch.py:570-573 | one group per class, in the order classes are first met, holding exactly the events of its segments |
| `Atomic.Sift` | trajectory_extract/task_stitch.py:574-579 | groups are sorted by time, all-noise groups go, nothing else does, and groups come in order of their first event |
| `Atomic.AtomicSegments` | trajectory_extract/task_stitch.py:511-579 | two events end up together exactly when their first-pass segments are connected by reply edges passing the stitch test; each event outside an all-noise group appears exactly once; segments and their events are in time order |
| `Atomic.RepliesWeld` | trajectory_extract/task_stitch.py:549-569 | a reply that welds ends up with what it answers |
| `Atomic.TopicsApart` | trajectory_extract/task_stitch.py:549-569 | if no reply across topics welds, no atom mixes topics |
| `Clusters.AssembleClusters` | trajectory_extract/llm_segment.py:370-399 | for every answer, with repeats, gaps and numbers out of range: each atom is in exactly one cluster, that of the first task in order of least member that claims it or one of its own; events are those of the atoms; clusters are in order of first event |
| `Clusters.Conserved` | trajectory_extract/llm_segment.py:370-399 | the multiset of events in the clusters is that of the atoms |
| `Clusters.ClaimTasks` | trajectory_extract/llm_segment.py:377-391 | every in-range member is claimed once, by the earliest task that lists it |
| `Clusters.OwnerStartsFirst` | trajectory_extract/llm_segment.py:374-383 | of the tasks that claim an atom, the one whose least member is smallest gets it |
| `Clusters.RowsAreAtoms` | trajectory_extract/llm_segment.py:377-391 | a cluster has exactly the events of the atoms it lists |
| `Clusters.TitleIs` | trajectory_extract/llm_segment.py:370-397 | a cluster has the title of the task that claims its atoms; an atom no task mentions is alone and marked as unclassified |
| `Clusters.AddOrphans` | trajectory_extract/llm_segment.py:392-397 | every atom no task claimed becomes a cluster by itself |
| `SplitGuard.Ids` | trajectory_extract/llm_segment.py:332 | sorted without repeats, with the same members |
| `SplitGuard.SplitAudit` | trajectory_extract/llm_segment.py:288-319 | raises iff two or more ids are asked about and one is beyond the last atom; otherwise, whatever the audit says, the result parts the ids: each in exactly one non-empty group |
| `SplitGuard.AuditFollowed` | trajectory_extract/llm_segment.py:308-319 | two ids are in one group iff the first group that names either is the same, or neither is named |
| `SplitGuard.SplitTask` | trajectory_extract/llm_segment.py:322-345 | the parts of one task refine it and share no atom; raises as the audit does |
| `SplitGuard.ApplySplitGuard` | trajectory_extract/llm_segment.py:322-345 | raises iff switched on and some task of several atoms names one beyond the last; otherwise the split answer refines the answer; switched off, nothing changes |
| `SplitGuard.SplitRefines` | trajectory_extract/llm_segment.py:322-399 | if tasks share no atom, clustering the split answer refines clustering the unsplit one |
| `SplitGuard.SplitNeedsApart` | trajectory_extract/llm_segment.py:322-399 | if two tasks claim one atom, a split can join atoms that were apart: a concrete answer and audit, and what the guard makes of them |
| `Terminal.ScanFindsLast` | trajectory_extract/task_stitch.py:666-674 | scanning newest first for a row that is not noise finds the row that speaks last |
| `Terminal.ComputeTerminal` | trajectory_extract/task_stitch.py:643-676 | a cluster is open exactly when it is the one touched last and its last word does not close it, so at most one is |
| `Titles.ScoresAddUp` | trajectory_extract/incremental_segment.py:78-90 | two disjoint clusters cannot both contain more than half of one anchor |
| `Titles.EnoughIff` | trajectory_extract/incremental_segment.py:82-92 | the score is the share of the old task that the cluster contains; six tenths are enough |
| `Titles.GreedyIsRule` | trajectory_extract/incremental_segment.py:63-98 | above one half, greedy carry-over with its used set equals the order-free rule: the first best-contained anchor that reaches the threshold |
| `Titles.HalfIsNotEnough` | trajectory_extract/incremental_segment.py:63-98 | at one half or below it does not: a concrete pair of clusters |
| `Titles.OrderFree` | trajectory_extract/incremental_segment.py:63-98 | in whatever order disjoint clusters are taken, each gets the same anchor |
| `Titles.NoAnchorTwice` | trajectory_extract/incremental_segment.py:63-98 | no anchor titles two clusters, disjoint or not |
| `Titles.TitleSticks` | trajectory_extract/incremental_segment.py:63-98 | a task that a cluster contains whole keeps its title however much the cluster has grown |
| `Titles.TitleStays` | trajectory_extract/incremental_segment.py:63-98 | a cluster with less than six tenths of every old task keeps the title it came with |
| `Titles.CarryForward` | trajectory_extract/incremental_segment.py:63-98 | titles are rewritten in place to the chosen anchors' titles, others stay, and the changes are counted |
| `Incremental.ReopenedIndexes` | trajectory_extract/incremental_segment.py:201-211 | exactly the frozen tasks that are the last to hold an id some new event replies to |
| `Incremental.HardFrozenIndexes` | trajectory_extract/incremental_segment.py:214-225 | exactly the tasks not reopened, decomposed, terminal and quiet since before the cutoff |
| `Incremental.LatestById` | trajectory_extract/incremental_segment.py:372-376 | one event per id, the one given last |
| `Incremental.Dedup` | trajectory_extract/incremental_segment.py:372-377 | one event per id, the one given last, in time order |
| `Incremental.SegmentEvents` | trajectory_extract/incremental_segment.py:236-252 | the clusters are the atoms of the events in time order, grouped as the answer says, with titles carried over by the order-free rule; every event is in one cluster or was noise in an all-noise atom |
| `Incremental.PutAway` | trajectory_extract/incremental_segment.py:386-403 | with at most one open cluster, freezing the others and overwriting the tail keeps every event |
| `Incremental.RecordsFiled` | trajectory_extract/incremental_segment.py:280-310 | one record per finished cluster, in order, with its title, events, ids and latest time, and what was answered for it |
| `Incremental.TailIs` | trajectory_extract/incremental_segment.py:386-403 | the tail and its title are those of the one cluster in flight, empty if there is none |
| `Incremental.StartKeeps` | trajectory_extract/incremental_segment.py:341-359 | the first round establishes the conservation invariant |
| `Incremental.FollowKeeps` | trajectory_extract/incremental_segment.py:361-415 | a later round keeps it if it does not fetch a carried-over event again |
| `Incremental.RefetchDuplicates` | trajectory_extract/incremental_segment.py:361-415 | fetching a carried-over event that is not noise again puts it in two places |
| `Incremental.LiveNeverRefetches` | trajectory_extract/incremental_segment.py:331-337 | a live fetch never does, when the thaw window is at least an hour |
| `Incremental.RunKeeps` | trajectory_extract/incremental_segment.py:326-426 | the invariant holds after every round of every live sequence of rounds, for every segmenter answer |
| `Incremental.EachEventOnce` | trajectory_extract/incremental_segment.py:326-426 | every event ever fetched that is not noise is in exactly one frozen task or the tail, and its id is nowhere else |
| `Incremental.HardIff` | trajectory_extract/incremental_segment.py:361-369 | a frozen task is carried over unchanged iff it is decomposed and finished, its last message is more than the thaw window before the watermark, and no new event replies to one of its members |
| `Incremental.FrozenForGood` | trajectory_extract/incremental_segment.py:387-406 | under a fixed thaw window an eligible record is carried unchanged through all later rounds until something replies to it, because the watermark never falls |
| `Incremental.TitleSurvives` | trajectory_extract/incremental_segment.py:63-98 | a stored task all of whose messages are in one cluster of the next round gives it its title, if no other stored task is contained as well |
| `Incremental.Pipeline.constructor` | trajectory_extract/incremental_segment.py:329-341 | no state yet |
| `Incremental.Pipeline.Store` | trajectory_extract/incremental_segment.py:280-310 | carried records stay in front; the clusters are the atoms grouped by the answer with titles carried over, finished by the rule of the last word; finished ones become records, the open one becomes the tail |
| `Incremental.Pipeline.SplitFrozen` | trajectory_extract/incremental_segment.py:365-371 | carried records and thawed events, in order |
| `Incremental.Pipeline.Increment` | trajectory_extract/incremental_segment.py:361-415 | the new state is the one the step relation describes, with clusters and terminal flags determined by the answer; the anchors are those of the new tasks and tail |
| `Incremental.Pipeline.Run` | trajectory_extract/incremental_segment.py:326-426 | first round, nothing fetched, or increment: the whole new state in each case, tied to the answer |
| `Rounds.Drive` | trajectory_extract/incremental_segment.py:326-426 | running the pipeline over any list of histories, with any answers: every message that is not noise, and in its round is not before the whole second of the stored watermark, is in exactly one frozen task or the tail of the final state; if nothing arrives late and nothing is withdrawn, that is every message of the last history |
| `Rounds.FirstRound` | trajectory_extract/incremental_segment.py:341-359 | from two bot messages on different topics that nobody groups, the first round freezes the earlier and keeps the later open |
| `Rounds.NoThawDuplicates` | trajectory_extract/incremental_segment.py:214-225 | from that state, with a thaw window of zero, a live fetch of the earlier one puts it in two places |
| `Rounds.WithoutThaw` | trajectory_extract/incremental_segment.py:326-426 | two real runs of the pipeline that end so: the hour of thaw is needed |
| `MessageTree.AppendKeepsId` | trajectory-collect/scripts/message_tree.py:87-117 | appending messages to a call that has an assistant message never changes its id |
| `MessageTree.IdIsOpening` | trajectory-collect/scripts/message_tree.py:79-117 | two calls with an assistant have equal ids iff their systems, billing blocks aside, and their messages through the first assistant agree |
| `MessageTree.HasAssistantIff` | trajectory-collect/scripts/message_tree.py:79-112 | a call counts as having an assistant iff one of its messages has that role |
| `MessageTree.StripBillingNext` | trajectory-collect/scripts/message_tree.py:40-42 | billing blocks go, the others stay in order |
| `MessageTree.Tree.constructor` | trajectory-collect/scripts/message_tree.py:72-76 | an empty tree in which nothing is mounted |
| `MessageTree.Tree.Mount` | trajectory-collect/scripts/message_tree.py:87-117 | in every reachable tree, the id and the provisional flag are functions of the call alone; the call is added to what is mounted and the tree stays well-formed |
| `MessageTree.Tree.WalkToAnchor` | trajectory-collect/scripts/message_tree.py:120-132 | the node of the call's anchor, or null exactly when the tree lacks it |
| `MessageTree.Tree.UniqueDescendant` | trajectory-collect/scripts/message_tree.py:135-151 | the depth-first search ends and returns t iff t is the only anchor below the call's own |
| `Threads.CaptureId` | trajectory-collect/scripts/anthropic_capture_proxy.py:173-183 | the id stamped online with an empty tree is the id of the call |
| `Threads.ReplaySession` | trajectory-collect/scripts/message_tree.py:154-165 | replaying calls into one shared tree gives each the id stamped online |
| `Threads.Resolution` | trajectory-collect/scripts/message_tree.py:135-151 | for a mounted call without an assistant: t iff some mounted call with an assistant extends it and all such calls have id t |
| `Threads.BuildGroups` | trajectory-collect/scripts/export_context.py:547-565 | a call with an assistant is in the group of its own id; one without is in the group of t iff all its continuations with an assistant, of which there are some, are in thread t, and by itself iff there is no such t; calls without messages are in none; groups list their calls in order |
| `Threads.OrderDoesNotMatter` | trajectory-collect/scripts/export_context.py:547-565 | the same calls in any order are filed in the same groups |
| `Gaps.Windows` | trajectory_extract/llm_decompose.py:203-208 | the search windows reach a third of a chunk both ways, as far as the list goes, and do not meet |
| `Gaps.FindCut` | trajectory_extract/llm_decompose.py:206-213 | the first position of the largest pause in the window |
| `Gaps.LongestSilence` | trajectory_extract/llm_decompose.py:206-213 | the cut is at the first of the longest silences of its window, or in the middle if all of them run backwards by a second or more |
| `Gaps.SplitByGaps` | trajectory_extract/llm_decompose.py:196-221 | above the target: exactly ceil(n/target) non-empty chunks that concatenate to the input, none longer than target + 2*(target/3), at strictly increasing cuts in 1..n-1, each at the largest pause of its window; otherwise one chunk |
| `Overlaps.DedupOnce` | trajectory_extract/llm_decompose.py:432-442 | afterwards each number is listed once at most, and nothing is added |
| `Overlaps.StripSnoc` | trajectory_extract/llm_decompose.py:400-403 | stripping takes the given numbers out and leaves everything else in order |
| `Overlaps.DedupSnoc` | trajectory_extract/llm_decompose.py:432-442 | of a repeated number the first one stays, and everything else in order |
| `Overlaps.MsgToSubs` | trajectory_extract/llm_decompose.py:406-413 | for every number, exactly the segments that have it, in order; the numbers come in the order they are first met |
| `Overlaps.FindPairs` | trajectory_extract/llm_decompose.py:452-459 | every two segments that share something, each once, with all they share, in the order of the first number met that they share and then of the segments |
| `Overlaps.ExclusiveIff` | trajectory_extract/llm_decompose.py:352-366 | with no repeats inside segments, no number is counted twice iff no two segments share one |
| `Overlaps.AuditMembership` | trajectory_extract/llm_decompose.py:352-366 | ascending: the numbers listed more than once, and those of 1..n in no segment |
| `Overlaps.TwoAreSafe` | trajectory_extract/llm_decompose.py:461-469 | a number that at most two segments share is safe: all holders but at most two open before these with a number of their own |
| `Overlaps.PassOneSafe` | trajectory_extract/llm_decompose.py:461-469 | the first pass keeps every safe number, whatever the ties and the order of pairs |
| `Overlaps.NarrowerIs` | trajectory_extract/llm_decompose.py:394-397 | a segment is narrower iff it has numbers and either the other has none or its greatest minus its least number is smaller |
| `Overlaps.PassOneExclusive` | trajectory_extract/llm_decompose.py:461-469 | when all shared sets are small, the first pass leaves no overlap |
| `Overlaps.PassTwoExclusive` | trajectory_extract/llm_decompose.py:475-482 | after the second pass no number is in two segments |
| `Overlaps.PassTwoStep` | trajectory_extract/llm_decompose.py:476-482 | settling one number changes no other and loses none |
| `OverlapRepair.Decomposition.constructor` | trajectory_extract/llm_decompose.py:292 | the answer as given |
| `OverlapRepair.Decomposition.DedupAll` | trajectory_extract/llm_decompose.py:431-442 | same segments, same numbers, no repeats |
| `OverlapRepair.Decomposition.EnsurePivotEdge` | trajectory_extract/llm_decompose.py:416-424 | one pivot edge is appended exactly when both ids are there, differ and no such edge exists |
| `OverlapRepair.Decomposition.StripPivot` | trajectory_extract/llm_decompose.py:467-469 | of the two, one that starts no later gives up what they share, and an edge relates them |
| `OverlapRepair.Decomposition.StripPivots` | trajectory_extract/llm_decompose.py:461-469 | small pairs no longer overlap, safe numbers are kept, old edges stay in front, only pivot edges are added; says whether some pair shares more |
| `OverlapRepair.Decomposition.KeepNarrowest` | trajectory_extract/llm_decompose.py:479-482 | of the holders the first with the least distance between least and greatest number keeps the number; the others lose it and nothing else |
| `OverlapRepair.Decomposition.StripWider` | trajectory_extract/llm_decompose.py:475-482 | no overlap is left, segments only shrink, and every number stays somewhere; number by number, in the order they are first met, the first holder with the least span at that moment keeps it and no other number moves |
| `OverlapRepair.Decomposition.PruneEmpty` | trajectory_extract/llm_decompose.py:488-499 | exactly the segments without numbers go, and exactly the edges that name them |
| `OverlapRepair.Decomposition.Resolve` | trajectory_extract/llm_decompose.py:427-485 | true iff not soft, not forced and two segments share more than two; otherwise, unless soft, no number is in two segments; always: segments only lose members, a safe number never vanishes, closed edges stay closed, added edges are pivots, and among surviving segments with distinct ids no relation is lost; unless soft, a number that is the only one shared survives iff it is safe or the first segment that opens with it wins every tie against the others; a forced result comes from the first pass by giving each number still shared to its narrowest holder |
| `OverlapRepair.SoleIff` | trajectory_extract/llm_decompose.py:452-469 | the same for the first pass over the pairs in the order they are met: exactly when a number that is the only one shared is lost |
| `OverlapRepair.ThreeAlike` | trajectory_extract/llm_decompose.py:427-485 | three segments of one and the same message lose it in `Resolve`, unless the first wins both its ties |
| `OverlapRepair.DecomposeOnce` | trajectory_extract/llm_decompose.py:285-312 | fails iff every attempt failed; otherwise the result is the first answer, or the second if the first had a large overlap, repaired so that no two segments share a message |
| `OverlapRepair.RepairedTwice` | trajectory_extract/llm_decompose.py:309-311 | resolving an already stripped answer by force keeps all guarantees with respect to the original answer |
| `Rollback.EnforceRollbackPurity` | trajectory_extract/llm_decompose.py:502-555 | fails iff some rollback segment's scan runs off the message list; otherwise one more segment and one more edge per cut, in place |
| `Rollback.CutShape` | trajectory_extract/llm_decompose.py:525-549 | a cut falls right before the first user message: the stray part is all the bot's, comes first and is marked as reworked aside; the rest starts with the user and keeps kind, status and title |
| `Rollback.PurityConserves` | trajectory_extract/llm_decompose.py:517-549 | every number is listed exactly as often as before |
| `Rollback.LeaveIffPure` | trajectory_extract/llm_decompose.py:522-532 | a segment is left alone iff it is no rollback segment with a user message that starts with something else |
| `Rollback.PurityHolds` | trajectory_extract/llm_decompose.py:502-555 | afterwards every rollback segment that has a user message starts with one |
| `Rollback.RollbackStartsWithUser` | trajectory_extract/llm_decompose.py:502-549 | in the result, the first message of a rollback segment is the user's if any of its messages is |
| `Rollback.FailIff` | trajectory_extract/llm_decompose.py:513-524 | the pass fails on a segment iff it is a rollback segment of several numbers in which a number beyond the list comes before any user message |
| `Rollback.PurityIdempotent` | trajectory_extract/llm_decompose.py:502-555 | a second pass fails nowhere and changes neither segments nor edges |
| `Rollback.PurityKeepsClosed` | trajectory_extract/llm_decompose.py:541-549 | edges that only named segments still only name segments |
| `Rollback.EdgesFollow` | trajectory_extract/llm_decompose.py:541-547 | edges keep their place and label; an end at a cut segment moves to the half that goes back |
| `Rollback.CutIsNoted` | trajectory_extract/llm_decompose.py:547-549 | every cut leaves a rework edge from the wrong turn to the half that goes back |
| `TerminalTail.FindTail` | trajectory_extract/llm_decompose.py:241-251 | the first segment with the greatest index |
| `TerminalTail.ReworkIds` | trajectory_extract/llm_decompose.py:245-249 | exactly the ids that a rework edge touches |
| `TerminalTail.EnforceTerminalTail` | trajectory_extract/llm_decompose.py:224-272 | each segment's status is ruled in place: only the tail of an unfinished task is unfinished, a withdrawn mark becomes what the rework edges support |
| `TerminalTail.OpenIffTail` | trajectory_extract/llm_decompose.py:224-272 | a segment is unfinished iff the task is and the segment is the tail; members and ids stay |
| `TerminalTail.OpenIsLast` | trajectory_extract/llm_decompose.py:224-272 | no message comes after the unfinished segment, and no other segment is unfinished |
| `TerminalTail.WithdrawnIs` | trajectory_extract/llm_decompose.py:250-272 | a segment whose unfinished mark is withdrawn becomes reworked iff a rework edge touches it, else passed at once |
| `TerminalTail.ReworkIs` | trajectory_extract/llm_decompose.py:245-249 | an edge is a rework edge iff its label contains the word |
| `Chunks.EffectiveTwice` | trajectory_extract/llm_decompose.py:184-193 | filtering what was already filtered drops nothing, so row counts are chunk lengths |
| `Chunks.ChunkIdInjective` | trajectory_extract/llm_decompose.py:329-330 | prefixed ids are equal only for the same chunk and the same id |
| `Chunks.MergePart` | trajectory_extract/llm_decompose.py:327-338 | segments and edges of one chunk are appended, renamed and renumbered |
| `Chunks.ShiftStaysIff` | trajectory_extract/llm_decompose.py:333 | a member lands in its own chunk's range iff it was a row of that chunk |
| `Chunks.JunkNamesPrevious` | trajectory_extract/llm_decompose.py:333 | a member without a number comes to name the last message of the chunk before |
| `Chunks.SameRow` | trajectory_extract/llm_decompose.py:320-339 | row m of chunk k is row offset+m of the whole |
| `Chunks.ChunksDisjoint` | trajectory_extract/llm_decompose.py:320-339 | segments of different chunks share no number |
| `Chunks.MergedExclusive` | trajectory_extract/llm_decompose.py:320-339 | if no chunk has overlapping segments, neither has the merged result |
| `Chunks.MergedClosed` | trajectory_extract/llm_decompose.py:334-338 | edges closed within chunks are closed after merging |
| `Chunks.EdgesCarryOver` | trajectory_extract/llm_decompose.py:334-338 | the merged edges are the chunks' edges, with the same labels, between the renamed segments |
| `Chunks.MergedIdsDistinct` | trajectory_extract/llm_decompose.py:328-333 | ids distinct within chunks are distinct after merging |
| `Chunks.ReadBack` | trajectory_extract/llm_segment.py:430-446 | message ids read back from merged segments are those of direct lookup in the chunk |
| `Chunks.DecomposeTask` | trajectory_extract/llm_decompose.py:275-341 | fails iff all attempts for some chunk failed; the row count is the number of effective messages; the result is the merge of the chunks' repaired answers with the final ruling applied |
| `Chunks.TaskExclusive` | trajectory_extract/llm_decompose.py:275-341 | in the delivered result no message is in two segments, if there was one chunk or every answer listed only rows it was given |
| `Chunks.TaskClosed` | trajectory_extract/llm_decompose.py:275-341 | in the delivered result every edge names delivered segments, if every answer's edges named its own |
| `Chunks.StrayBreaks` | trajectory_extract/llm_decompose.py:333 | a member that comes to name a row which another chunk placed makes merged segments overlap |
| `Chunks.JunkBreaks` | trajectory_extract/llm_decompose.py:333 | a single member without a number does, if the chunk before placed its last row |
| `Chunks.TaskTail` | trajectory_extract/llm_decompose.py:275-341 | in the delivered result at most one segment is unfinished, only if the task is, and nothing comes after it |
| `Chunks.TaskReadBack` | trajectory_extract/llm_segment.py:430-446 | each delivered segment stands for the very messages its chunk's segment stood for |
| `SseFraming.FramesRead` | trajectory-collect/scripts/anthropic_capture_proxy.py:115-121 | a stream of frames gives back its payloads in order |
| `SseFraming.FrameReadsIff` | trajectory-collect/scripts/anthropic_capture_proxy.py:115-121 | a frame reads back as itself iff its payload is not empty, trimmed, and free of every character at which `splitlines` breaks, which are more than the CR and LF of section 9.2 of the WHATWG HTML Living Standard |
| `SseFraming.Codes` | trajectory-collect/scripts/anthropic_capture_proxy.py:115-119 | the characters that end a line and those that are trimmed, by code point |
| `SseFraming.StripIs` | trajectory-collect/scripts/anthropic_capture_proxy.py:118 | trimming takes off white space at both ends and nothing else |
| `Sse.Builder.constructor` | trajectory-collect/scripts/anthropic_capture_proxy.py:112-114 | the loop's variables before the first line |
| `Sse.Builder.Apply` | trajectory-collect/scripts/anthropic_capture_proxy.py:122-154 | one event changes message, blocks and partial input as the step says, and raises exactly where the step does |
| `Sse.ReconstructSseMessage` | trajectory-collect/scripts/anthropic_capture_proxy.py:110-157 | the message rebuilt from the decoded events; raises if a payload does not decode or an event cannot be applied |
| `SseBlocks.RunIsSlots` | trajectory-collect/scripts/anthropic_capture_proxy.py:126-150 | the loop raises iff some block index alone would, and otherwise holds per index what that index's own events produce |
| `SseBlocks.SlotsDecide` | trajectory-collect/scripts/anthropic_capture_proxy.py:110-157 | streams that agree on the whole-message events and on what every block index makes of its own rebuild the same message, or both raise |
| `SseBlocks.InterleavingIrrelevant` | trajectory-collect/scripts/anthropic_capture_proxy.py:110-157 | every interleaving across indexes rebuilds the same message, or raises as well |
| `SseBlocks.Restart` | trajectory-collect/scripts/anthropic_capture_proxy.py:123-125 | a message start forgets the message and the blocks before it, whatever they were |
| `SseBlocks.FieldsAreLast` | trajectory-collect/scripts/anthropic_capture_proxy.py:151-154 | in every stream, a field of the rebuilt message is that of the last message delta since the last start that gives it, else that of the start; the same for each usage counter, and there is usage iff the start had it or some delta had any |
| `SseBlocks.NoMessageIff` | trajectory-collect/scripts/anthropic_capture_proxy.py:110-157 | no message comes out iff no start went in |
| `SseBlocks.BlockCompletes` | trajectory-collect/scripts/anthropic_capture_proxy.py:126-150 | a block is its start, its pieces of each kind put together, and its input parsed or kept raw |
| `SseBlocks.SameBlock` | trajectory-collect/scripts/anthropic_capture_proxy.py:132-150 | delta lists that put together the same text per kind complete the same block |
| `SseBlocks.ChunkingIrrelevant` | trajectory-collect/scripts/anthropic_capture_proxy.py:110-157 | whole streams whose blocks have the same starts and the same text per kind, in any cuts and any mixture across blocks, rebuild the same message |
| `SseBlocks.CutPiece` | trajectory-collect/scripts/anthropic_capture_proxy.py:132-142 | cutting any delta in two keeps what the deltas put together |
| `SseBlocks.InputKeptIffStopped` | trajectory-collect/scripts/anthropic_capture_proxy.py:143-149 | accumulated tool input ends up in the block iff the stop event arrives or the start held that input already |
| `SseBlocks.RoundTrip` | trajectory-collect/scripts/anthropic_capture_proxy.py:110-157 | any stream that spells out a message, its blocks in any cut and mixture and its fields in message deltas over other values, is rebuilt into that message |
| `SseBlocks.EncodeThenRebuild` | trajectory-collect/scripts/anthropic_capture_proxy.py:110-157 | encoding a message over a start with other values and rebuilding it gives the message back |
| `SseBlocks.TextRoundTrip` | trajectory-collect/scripts/anthropic_capture_proxy.py:110-157 | the same down to the text of the stream |
| `CorrectionWindows.Windows` | trajectory_extract/session_corrections.py:193-206 | windows are slices with strictly increasing ends, the first from the start and the last to the end; each starts 8 messages before the previous end or at the beginning; each but the last was closed because the next message did not fit; one over the limit has at most 9 messages |
| `CorrectionWindows.NeighboursTogether` | trajectory_extract/session_corrections.py:190-206 | any two messages at most 8 apart are together in some window, so every message is in one |
| `CorrectionWindows.LimitKeptIff` | trajectory_extract/session_corrections.py:193-206 | all windows keep the character limit iff no nine or fewer consecutive messages exceed it |
| `Guard.BestIs` | trajectory_extract/session_corrections.py:324-329 | the pick is the first of the latest qualifying messages |
| `Guard.SourceIs` | trajectory_extract/session_corrections.py:316-329 | the trace finds nothing iff no bot message has the quote; otherwise the first of the latest said before the corrector, or of the latest at all when none was |
| `Guard.ContainsIff` | trajectory_extract/correction_census.py:166-167 | a quote is found iff the text is something, the quote, and something |
| `Guard.BotsInIs` | trajectory_extract/correction_census.py:137-141 | of a stretch, the bot's messages in order |
| `Guard.PrompterIs` | trajectory_extract/session_corrections.py:370-375 | the scan finds a human iff one spoke in between: the last who answered the anchor, else the last |
| `Guard.CorrectedIs` | trajectory_extract/session_corrections.py:359-382 | a corrector moves exactly when it is a bot that corrects itself after the anchor and the last human in between, those who answered the anchor first, said more than a summary; it moves to that human, and nothing else changes |
| `Guard.FindPrompter` | trajectory_extract/session_corrections.py:370-375 | the loop: that human, or none iff no human spoke in between |
| `Guard.ResolveAnchors` | trajectory_extract/session_corrections.py:301-334 | each anchor becomes the bot message its quote is traced to, latest before the corrector if there is one |
| `Guard.ResolveCorrectors` | trajectory_extract/session_corrections.py:350-384 | each correction a bot makes of itself after the anchor is handed to the human that the scan finds, unless that was a summary; all others stay |
| `Guard.ValidateEvents` | trajectory_extract/correction_census.py:144-184 | exactly the corrections that pass all checks are kept, in order; every other is dropped, in order, with its reason |
| `Guard.EachJudged` | trajectory_extract/correction_census.py:144-184 | every correction is kept or dropped and none is both |
| `Guard.ReasonIsFirst` | trajectory_extract/correction_census.py:144-184 | the reason is the first of the twelve steps that fails, each spelled out on the messages |
| `Guard.FineIffGenuine` | trajectory_extract/correction_census.py:144-184 | a correction passes iff it has a real bot statement that contains the quote and a later human message that turns it down and is no mere report back |
| `Guard.GuardEvents` | trajectory_extract/session_corrections.py:395-406 | both repairs, then the check |
| `Guard.TracedAgain` | trajectory_extract/session_corrections.py:301-334 | for a kept correction, tracing the quote again finds the same message iff no bot message with the quote lies between anchor and corrector in time |
| `Guard.KeptIsFixed` | trajectory_extract/session_corrections.py:301-406 | in a session in time order, a kept correction is left exactly as it is by another pass |
| `Guard.GuardIdempotent` | trajectory_extract/session_corrections.py:395-406 | guarding the guard's own output changes no anchor or corrector and drops nothing |
| `Guard.UnorderedMoves` | trajectory_extract/session_corrections.py:301-384 | without time order a second pass can move an anchor: a concrete session |
| `Guard.ReguardCachedRows` | trajectory_extract/session_corrections.py:436-461 | cached corrections are guarded session by session, in order of first appearance |
| `Guard.WriteCache` | trajectory_extract/session_corrections.py:513-537 | what detection writes: per session exactly what the guard kept of the detected list, in order; every session leaves a row |
| `Guard.ReplayStable` | trajectory_extract/session_corrections.py:436-461 | a cache holding per session only what the guard kept of some detected list is given back per session unchanged and in order, for sessions in time order |
| `Guard.ReplayKeepsAll` | trajectory_extract/session_corrections.py:436-461 | none of its corrections is lost or added overall |
| `Router.RouteDay` | trajectory_extract/route_day.py:90-189 | for every oracle: ids are 1..k in order of opening; each session's opener is a request, belongs to it and is the least index that does; exactly the requests, and messages with an id after one, are assigned; and each by its rule |
| `Router.RequestsRouted` | trajectory_extract/route_day.py:107-186 | every user request has a session that is open by then |
| `Router.RepliesFollow` | trajectory_extract/route_day.py:132-142 | a request whose parent is the id of an earlier message with a session, no later message having that id, takes its session |
| `Router.ChainStaysTogether` | trajectory_extract/route_day.py:132-142 | a whole chain of requests, each a reply to the one before, is in one session |
| `Router.ControlFollowsSlot` | trajectory_extract/route_day.py:113-130 | a control command on a bound slot takes the session of the request the slot was last bound to |
| `Router.ControlsAgree` | trajectory_extract/route_day.py:113-130 | control commands on one slot go together until the slot is bound anew |
| `Router.OnlyOpenRequestsAsked` | trajectory_extract/route_day.py:90-189 | oracles that agree on the requests no reply decides give the same sessions and the same assignment, so the description of a run leaves no choice |

## Left out

- Resolve: when several numbers are shared at once, a number that is not safe may still survive, depending on what the other pairs strip first; the exact condition is proved for a number that is the only one shared.
- SplitRefines: goes one way, under the condition that tasks share no atom; which overlapping answers still refine is not characterised.
- StripPivot: which of two segments with the same first number counts as earlier follows Python's set iteration and is a parameter.
- ReconstructSseMessage: block indexes are natural numbers, and a message delta carries neither usage nor content among its plain fields.
- Rendering (Markdown, JSONL, chat cards), file state, gzip, command lines, locks, background processes.
- All calls to models, embeddings and the network, with their prompts, retries, back-off and rate limits, other than the retry loop around overlap repair.
- Text handling: noise, topic and closure patterns, stripping of chat markup, anonymising, fingerprint hashing and its collisions.
- Rounds of incremental segmentation that read a history file although state exists, and the fallback key for events without an id.
- State written before the `decompose_ok` flag existed: the flag is always there in the model.
- Titles, lead quotes and dominant speakers of sub-requirements, apart from the title of a cut-off wrong turn.
- `enforce_status_sanity`, `confirmation_status`, the decision logs of the router, and the audit lists of repaired and dropped corrections are not modelled.
- Survival of rollback purity after overlap stripping: the code does not promise it.
- The cross-window de-duplication in `detect_session` and the second, adversarial verification by a model.
- `decompose_task` and its rule-based routing: its clean-up can absorb a segment into one already dropped, so conservation does not hold.
- `_classify_and_wire`: substring matching permits a thread to be its own parent.
- Evaluation, replay, gold-review and snapshot scripts, and everything about packaging and continuous integration.
