# The episub gossip stack, modelled and verified

Episub spreads messages among the subscribers of a topic. A partial membership
view (HyParView, "HyParView: a membership protocol for reliable gossip-based
broadcast", DSN 2007) decides whom a node talks to; a broadcast tree (PlumTree,
"Epidemic Broadcast Trees", SRDS 2007) over those peers decides who forwards
what to whom; an expiring cache under the tree remembers what was received and
announced; a connection handler puts messages on the wire one at a time. Where
the papers, the comments and the code differ, this model follows the code.

## How the model is built

* Each stateful object of the source is a class with the same fields, whose
  methods keep the source's branches and loops: `Cache.ExpiringCache`,
  `PlumTrees.PlumTree`, `HyParViews.HyParView`, `TopicMeshes.TopicMesh`,
  `EpisubHandlers.EpisubHandler`. Every method is proved equal to a function of
  the old state (`Cache`, `TreeSpec`, `ViewSpec`, `Mesh`, `HandlerSpec`).
* Whatever the source leaves to chance is an argument of those functions with a
  predicate saying which values are possible: the order of a walk over a hash
  set and where each binary search lands among equal timestamps, anew for every
  tick (`TreeSpec.Choice`, `TreeSpec.Permits`, `Cache.IsSearch`), a random draw
  (`ViewSpec.Pick`, `ViewSpec.Allows`), what the substream answers
  (`HandlerSpec.Sink`). The class methods report what was chosen in ghost results.
  The theorems hold for every possible choice.
* Above the node level, `Gossip` and `Membership` are transition systems: node
  states, a bag of packets in flight of which any may arrive next or be lost, a
  clock that never runs backwards, and one step per delivery, tick, publication,
  membership change or connection event. `Mesh` is the same for one topic's view,
  queue and tree. A theorem about `Run` is a theorem about every run.

| file | contents |
|---|---|
| `Types.dfy` | identities, the messages of `rpc.proto`, queued actions |
| `Cache.dfy`, `CacheHistory.dfy` | the two-index cache; the map it refines; what it answers after any history |
| `TreeSpec.dfy`, `Tree.dfy` | one PlumTree node |
| `TreeHistory.dfy` | one node, any run: its caches, links and deliveries told from its inputs alone |
| `TreeRuns.dfy` | one node, any run: at most once, servable announcements, graft rounds, recovery |
| `Network.dfy`, `Gossip.dfy`, `GossipRuns.dfy` | a network of nodes: hop bound, the log of first receipts, payload integrity, coverage |
| `Broadcast.dfy`, `Reach.dfy` | broadcasts among ticks and announcements: termination; whom one reaches over any eager links |
| `BroadcastInvariants.dfy`, `BroadcastOutcome.dfy`, `Graphs.dfy` | one broadcast over symmetric links: the life of each link, the spanning tree |
| `Cycles.dfy`, `StableTree.dfy` | any number of concurrent broadcasts over a tree |
| `Cuts.dfy`, `CrossTraffic.dfy` | concurrent broadcasts over any links: when they can cut the network |
| `Triangle.dfy` | the smallest network with a redundant link: one broadcast, and two at once |
| `ViewSpec.dfy`, `View.dfy` | one HyParView node |
| `ViewEffects.dfy` | everything an input does to one, told without its building blocks |
| `Membership.dfy` | a network of them: capacity, quiescence |
| `Provenance.dfy` | where the peers a node knows come from, among its own kind and among whomever |
| `Overflow.dfy`, `ConfiguredLimits.dfy` | capacity at its exact condition: a run that overflows a single slot, and which settings leave one, two or none |
| `Mesh.dfy`, `Topic.dfy` | view and tree kept in step |
| `HandlerSpec.dfy`, `Handler.dfy` | the outbound half of a connection |
| `Config.dfy` | derived sizes |

## Where the code is not what it seems

Each of these is modelled as the code has it.

* The priority of a neighbour request is computed after the insertion
  (`view.rs:449,470-473`), so it is always low: `Membership.NeverHighPriority`.
* `free_up_active_slot` draws from the passive view (`view.rs:142`) and frees a
  slot only if that peer is active as well: `Membership.FreeingFreesIff`. It
  announces the removal of the drawn peer in any case.
* A low-priority request at capacity is neither answered nor remembered
  (`view.rs:295`), although the comment above it says so:
  `Membership.RequestAtCapacity`.
* Dropping a drain iterator empties the set (`view.rs:433-435`), so one peer too
  many in a shuffle reply costs the whole passive view: `Membership.ReplyTrimsIff`.
* The last insertion of a shuffle is not guarded by capacity (`view.rs:416`). It is
  harmless with two active slots: `Membership.Capacity`, `Membership.TwoSlotsIff`. A
  network of one configuration stays within capacity unless that gives exactly one
  slot: `Overflow.CapacityIff`. A high-priority request from outside can overflow a
  view; `Membership.HighPrioritySafeIff` says exactly which.
* Two broadcasts at once can prune a part of the network out of the eager graph
  (`tree.rs:168-186`): over any connected links with a cycle, and never without one or
  with the optimization off (`CrossTraffic.TreesAndOnlyTrees`).
  `Triangle.TwoBroadcastsCutANodeOff` is the smallest case.
* `repair_tree` sends grafts and leaves its own eager and lazy sets alone
  (`tree.rs:338-350`), and a graft is answered with the stored hop, nothing added
  (`tree.rs:220`).
* A prune or graft is obeyed whoever sends it (`tree.rs:198-206`), so a stranger
  becomes a tree neighbour without being active: `Mesh.StrangersBreakAgreement`
  says exactly when.
* A connection opened only for a shuffle reply becomes an ordinary one as soon as
  a send is held up (`handler.rs:296,313`): `HandlerSpec.TemporaryOpensWhenStalled`.
* A negotiated substream replaces the state unasked (`handler.rs:131-132`), and
  loses a message exactly when one was being sent: `HandlerSpec.NegotiationLoses`.
* `config.rs` documents natural logarithms and 10 000 nodes; the code uses
  logarithms to base two and 1000.

## Model

Paths are relative to the root of the repository.

| member | source | states |
|---|---|---|
| `Cache.ExpiringCache.constructor` | src/network/episub/cache.rs:69-74 | a new cache has two empty indexes and is well formed at any time |
| `Cache.ExpiringCache.Insert` | src/network/episub/cache.rs:76-95 | reports whether the key was new; a better record replaces the map entry only, a new one enters both indexes; well-formedness is kept |
| `Cache.ExpiringCache.Get` | src/network/episub/cache.rs:97-99 | the record in the map, if the id is present |
| `Cache.ExpiringCache.IterRange` | src/network/episub/cache.rs:101-111 | the slice between two binary searches, or a panic when they come out backwards |
| `Cache.ExpiringCache.RemoveOlderThan` | src/network/episub/cache.rs:113-121 | an id survives exactly when its first sighting is later than the cut-off, with its map entry untouched |
| `Cache.InsertKeepsCoherent` | src/network/episub/cache.rs:76-95 | under a non-decreasing clock the deque stays sorted with distinct ids, equal to the map's keys, each map entry being the deque entry or a later one with fewer hops |
| `Cache.PopKeepsCoherent` | src/network/episub/cache.rs:118-119 | removing the front of the deque and its key keeps that, and leaves every other id's first record |
| `Cache.ExpiryPopsDue` | src/network/episub/cache.rs:113-121 | expiry removes a prefix of the deque: exactly the due entries at its front |
| `Cache.ExpiryExact` | src/network/episub/cache.rs:113-121 | expiry goes by first sighting in both indexes, even where a better record was stored later; survivors keep both records |
| `Cache.WindowExact` | src/network/episub/cache.rs:101-111 | with start <= end the indices are ordered, and the slice has every entry strictly inside the range and none outside the closed one, whichever of several equal timestamps the searches land on |
| `Cache.WindowMembers` | src/network/episub/cache.rs:101-111 | the same read as records: members are first records of present ids, and every first record strictly inside is a member |
| `Cache.BackwardsWindowPanics` | src/network/episub/cache.rs:101-111 | for any backwards range there is a cache on which the slice panics, so start <= end is the exact requirement |
| `Cache.BackwardsWindowEmpty` | src/network/episub/cache.rs:101-111 | where a backwards range does not panic it holds nothing |
| `Cache.LowerBoundIsSearch` | src/network/episub/cache.rs:102-109 | the contract assumed of the library's binary search is one a search can meet |
| `CacheHistory.InsertRefines` | src/network/episub/cache.rs:76-95 | insertion refines: new id, first and best record; fewer hops, best record only; otherwise nothing |
| `CacheHistory.ExpiryRefines` | src/network/episub/cache.rs:113-121 | expiry refines: drop the ids whose first time is not later than the cut-off |
| `CacheHistory.QueriesRefine` | src/network/episub/cache.rs:97-111 | `get` answers from the best records, `iter_range` from the first ones |
| `CacheHistory.HistoryTheorem` | src/network/episub/cache.rs:76-121 | after any history under a non-decreasing clock: the map holds the earliest of the fewest-hop inserts since the id last became present, the deque the first of them, and nothing else is present |
| `PlumTrees.PlumTree.constructor` | src/network/episub/tree.rs:39-51 | no neighbours, empty caches, nothing queued |
| `PlumTrees.PlumTree.InjectNeighborUp` | src/network/episub/tree.rs:54-56 | the peer joins the eager set; nothing else changes |
| `PlumTrees.PlumTree.InjectNeighborDown` | src/network/episub/tree.rs:59-62 | the peer leaves both sets; nothing else changes |
| `PlumTrees.PlumTree.Push` | src/network/episub/tree.rs:88-100 | one copy to each target but the excepted one, each once |
| `PlumTrees.PlumTree.Publish` | src/network/episub/tree.rs:64-108 | refused without effect if received or observed before; otherwise pushed to each eager peer with hop 1 and recorded with hop 0 |
| `PlumTrees.PlumTree.InjectMessage` | src/network/episub/tree.rs:110-188 | first receipt: delivered, recorded and forwarded with one hop more to every other eager peer; duplicate: an eager sender is demoted and told so, if that is enabled |
| `PlumTrees.PlumTree.InjectIHave` | src/network/episub/tree.rs:190-196 | only the record of announcements changes |
| `PlumTrees.PlumTree.InjectPrune` | src/network/episub/tree.rs:198-201 | the sender becomes lazy, whoever it is |
| `PlumTrees.PlumTree.InjectGraft` | src/network/episub/tree.rs:203-224 | the sender becomes eager, and gets the stored records among those it asked for, in order, with their stored hop |
| `PlumTrees.PlumTree.RecentMessages` | src/network/episub/tree.rs:230-239 | the announcements of the lazy push window, without a panic |
| `PlumTrees.PlumTree.PublishIHaves` | src/network/episub/tree.rs:229-257 | the same non-empty announcement to each lazy peer once, or nothing |
| `PlumTrees.PlumTree.PruneOldHistory` | src/network/episub/tree.rs:259-265 | both caches lose exactly the ids first seen a history window ago or earlier |
| `PlumTrees.PlumTree.DueAnnouncements` | src/network/episub/tree.rs:280-285 | the repair window is never given backwards when it is at least two ticks long |
| `PlumTrees.PlumTree.CollectGrafts` | src/network/episub/tree.rs:287-336 | whatever the order in which the loop walks the hash set, a peer is in the map exactly when it first announced a missing id, or one on record with the factor more hops than it announced, not zero; its ids are exactly the missing ones it announced first, each once |
| `PlumTrees.PlumTree.SendGrafts` | src/network/episub/tree.rs:338-350 | one graft per row of the map |
| `PlumTrees.PlumTree.RepairTree` | src/network/episub/tree.rs:271-354 | one repair round: grafts out, history pruned, eager and lazy sets untouched |
| `PlumTrees.PlumTree.Maintain` | src/network/episub/tree.rs:363-369 | a tick announces, repairs and restarts the timer, in that order |
| `PlumTrees.PlumTree.Poll` | src/network/episub/tree.rs:360-376 | maintenance exactly when due, the timer restarting exactly then, and the oldest queued action, first in first out |
| `TreeSpec.NextKeepsSound` | src/network/episub/tree.rs:54-265 | every input keeps both caches well formed and dated no later than now |
| `TreeSpec.RepliesMembers` | src/network/episub/tree.rs:209-223 | a graft's replies are exactly the stored records among the ids asked for |
| `TreeRuns.SurfacingIsNew` | src/network/episub/tree.rs:65-143 | an id handed to the application or accepted for publishing was not on record, is from then on, and a turn hands over one at most |
| `TreeRuns.RunKeepsReceived` | src/network/episub/tree.rs:259-265 | a first record stays, through any interleaving of inserts and prunes, until the history window has run out |
| `TreeRuns.AtMostOncePerWindow` | src/network/episub/tree.rs:107-143 | in every run two surfacings of one id are at least a history window apart, local publications counted, even where a better duplicate replaced the record in between |
| `TreeRuns.AnnouncedIsRecent` | src/network/episub/tree.rs:229-257 | announcements go to lazy peers only and name first records no older than the lazy push window |
| `TreeRuns.AdvertisedIsServable` | src/network/episub/tree.rs:203-265 | every id announced is still on record at every later point before a history window less a lazy push window has passed |
| `TreeRuns.GraftsExact` | src/network/episub/tree.rs:287-336 | the map built by the loop: who is in it, and each peer's ids, each once, read off the window without the order of the walk |
| `TreeRuns.GraftsOrderFree` | src/network/episub/tree.rs:288-336 | any two orders of the walk graft the same peers and ask each for the same ids as often |
| `TreeRuns.GraftsOnTheWire` | src/network/episub/tree.rs:338-350 | the grafts a tick sends are exactly the rows of that map |
| `TreeRuns.NobodyGraftedTwice` | src/network/episub/tree.rs:338-350 | no peer is sent two grafts in a tick |
| `TreeRuns.HeldIsAnnounced` | src/network/episub/tree.rs:229-257 | a tick announces every id strictly inside the lazy push window to every lazy peer |
| `TreeRuns.GraftRound` | src/network/episub/tree.rs:271-354 | in every repair round of every run the ids asked for are exactly those announced and missing, each once, from the first announcer; an empty graft is sent exactly where nothing is missing from that peer and it announced something, not with hop 0, that is on record with the factor more hops |
| `TreeRuns.GraftRoundByTime` | src/network/episub/tree.rs:280-336 | the same by the clock: what is asked for was first announced by that peer inside the closed repair window and is missing; whatever it first announced strictly inside and is missing, or is a shortcut, brings it a graft |
| `TreeRuns.MissingIsRequested` | src/network/episub/tree.rs:190-196 | an id first heard of from a peer and still missing when it falls in the repair window is asked for from that peer |
| `TreeRuns.RequestIsServed` | src/network/episub/tree.rs:203-224 | a request arriving in time makes the link eager and is answered with the message |
| `TreeRuns.BoundedRecovery` | src/network/episub/tree.rs:190-257 | end to end between two nodes with any other traffic interleaved: held inside the lazy push window with the other lazy, hence announced; first heard of there and missing inside the repair window, hence requested; served in time over a link made eager; delivered if still missing |
| `TreeHistory.TickForgets` | src/network/episub/tree.rs:259-265 | a tick keeps exactly the ids first seen less than a history window ago, in both caches, with their records as they were |
| `TreeHistory.CachesAreHistories` | src/network/episub/tree.rs:64-265 | after any run from empty caches, whatever peers sent, both caches are determined by the inputs: an id is present exactly when it was recorded (announced) since it was last forgotten, with the first record and the earliest of those with the fewest hops |
| `TreeHistory.SurfacesExactly` | src/network/episub/tree.rs:64-143 | in every such run an id is delivered exactly when it arrives with nothing recorded of it since it was last forgotten, and accepted for publishing exactly when nothing was announced of it either |
| `TreeHistory.ForgottenSurfacesAgain` | src/network/episub/tree.rs:110-167 | an id whose history window has run out at some tick is delivered when it next arrives and forwarded to exactly the eager peers but its sender, and nobody is pruned for it |
| `TreeHistory.LinksExactly` | src/network/episub/tree.rs:54-224 | for every input and peer: whether the peer is eager or lazy afterwards, and that a prune is sent to it exactly when it is eager and sent a duplicate with the optimization on |
| `TreeHistory.LinksAreHistories` | src/network/episub/tree.rs:54-224 | so after any run who is eager and who is lazy is told from the inputs alone |
| `TreeHistory.AnnouncementsExactly` | src/network/episub/tree.rs:229-257 | a tick announces to exactly the lazy peers, and only if there is something to announce, sends nothing else but grafts, and restarts the timer |
| `TreeHistory.TimerIsLastTick` | src/network/episub/tree.rs:363-369 | after any run the timer stands at its last tick |
| `Gossip.MessagesSent` | src/network/episub/tree.rs:81-224 | a message is sent exactly when it is a publication of a new id to an eager peer with hop 1, a first receipt forwarded one hop on to an eager peer other than its sender, or a stored record a grafter asked for, as stored |
| `Gossip.RecordsStored` | src/network/episub/tree.rs:107-130 | every record on file was there before, published here, or arrived as it is stored |
| `Gossip.ReceiptsExact` | src/network/episub/tree.rs:107-143 | a turn logs a first receipt exactly when it puts a new id on record |
| `GossipRuns.LogIsExact` | src/network/episub/tree.rs:107-143 | in every run the log of first receipts covers everything on record; without expiry it has exactly one entry for each node and id on record |
| `Gossip.StepKeepsSound` | src/network/episub/tree.rs:54-265 | every step of the network keeps every node's caches well formed |
| `GossipRuns.StepKeepsHops` | src/network/episub/tree.rs:81-224 | a step keeps hops in flight at most, and stored hops below, the number of holders of the id |
| `GossipRuns.HopBound` | src/network/episub/tree.rs:81-151 | without expiry, among fewer than 2^32 nodes, with losses, grafts and better duplicates: no message has made more hops than its id has holders, no stored record as many, and forwarding a first receipt cannot wrap the counter |
| `GossipRuns.PayloadIntegrity` | src/network/episub/tree.rs:81-167 | in every run, if an id is published with one text only, every copy in flight, stored record and delivery of it carries that text, through forwarding, grafts, expiry and churn |
| `GossipRuns.StepKeepsCovered` | src/network/episub/tree.rs:88-167 | a step never leaves a peer a message was pushed to without the message or a copy on its way |
| `GossipRuns.Coverage` | src/network/episub/tree.rs:88-107 | in every reachable state of a lossless run without expiry each peer that was eager when a node first got an id holds it or has a copy in flight to it from that node |
| `Broadcast.ArrivalLowersWork` | src/network/episub/tree.rs:110-201 | each delivery of a message or prune lowers a weighted count of missing receipts, copies and prunes, whatever announcements are in flight |
| `Broadcast.QuietKeepsWork` | src/network/episub/tree.rs:190-265 | ticks that graft nobody, and announcements heard, leave that count as it is |
| `Broadcast.PublicationKeepsWork` | src/network/episub/tree.rs:64-108 | a publication, refused or not, does not raise that count, which reckons with it already |
| `Broadcast.BroadcastTerminates` | src/network/episub/tree.rs:110-201 | any number of concurrent broadcasts, prunes included, end after at most that many deliveries of messages and prunes, in any order, whenever they are published; announcements, and ticks that graft nobody and expire nothing, may come in between |
| `Reach.StepKeepsSpreading` | src/network/episub/tree.rs:88-224 | through deliveries, prunes, grafts and ticks of a single broadcast: nodes without the message keep their eager links, prunes travel between holders only, and each holder's initial eager peers hold the message or have a copy on its way |
| `Reach.ReachedNodesHold` | src/network/episub/tree.rs:88-167 | over any eager links, symmetric or not, with prunes, grafts for the message and ticks that expire nothing: when nothing is left to deliver, every node the origin's initial eager links lead to holds the message |
| `Broadcast.ArrivalPossible` | src/network/episub/tree.rs:110-201 | and cannot get stuck earlier: whatever is in flight can be delivered |
| `BroadcastInvariants.DemotionCrossed` | src/network/episub/tree.rs:168-186 | a duplicate or a prune only ever travels between two holders neither of which had the message from the other first |
| `BroadcastInvariants.ArrivalKeepsInvariant` | src/network/episub/tree.rs:110-201 | the life of every link (copy on its way, used for a first delivery, or given up at both ends) and the order of first deliveries towards the origin are kept by every delivery |
| `BroadcastInvariants.CalmKeepsInvariant` | src/network/episub/tree.rs:110-265 | and by every announcement heard and every tick that grafts nobody and expires nothing |
| `BroadcastInvariants.BroadcastInvariant` | src/network/episub/tree.rs:64-265 | in every reachable state of one broadcast, with announcements and ticks that graft nobody and expire nothing in between |
| `BroadcastOutcome.EagerLinksAreTree` | src/network/episub/tree.rs:168-201 | in such a state a link is eager exactly when a first copy came over it, and those links are a spanning tree |
| `BroadcastOutcome.SpanningTreeTheorem` | src/network/episub/tree.rs:64-201 | from connected, symmetric eager links, in any order of delivery and with announcements and ticks that graft nobody and expire nothing in between, every quiescent state has everyone holding the message, the first-delivery links eager at both ends, all others lazy at both ends, and the eager links a spanning tree |
| `BroadcastOutcome.BroadcastBound` | src/network/episub/tree.rs:110-201 | among N nodes of degree D a broadcast is over after 2*D*N deliveries of messages and prunes, over any eager links |
| `BroadcastOutcome.BroadcastCompletes` | src/network/episub/tree.rs:110-201 | every broadcast, over any eager links, can be continued to quiescence |
| `Graphs.RankedIsSpanningTree` | src/network/episub/tree.rs:168-187 | links to parents of lower rank are connected and have no cycle |
| `Cycles.CrossingMakesCycle` | src/network/episub/tree.rs:169-172 | two holders of which neither had the message from the other, joined by a link, close a cycle: what the comment on duplicates claims |
| `Cycles.NothingCrosses` | src/network/episub/tree.rs:168-187 | so without a cycle of initial eager links no copy meets its like |
| `StableTree.DeliveryIsFirst` | src/network/episub/tree.rs:125-167 | and every delivery of a message is a first receipt |
| `StableTree.TreeIsStable` | src/network/episub/tree.rs:64-201 | over eager links that are a spanning tree any number of concurrent broadcasts, from any nodes, with announcements and ticks that graft nobody and expire nothing in between, prune nothing and change no eager or lazy set; at quiescence everyone holds every message and each has taken exactly one delivery per node but its origin |
| `StableTree.TreeServesLaterBroadcasts` | src/network/episub/tree.rs:168-201 | so the tree left by one broadcast carries all later ones, concurrent or not, unchanged |
| `Cuts.BranchIsCut` | src/network/episub/tree.rs:168-187 | if only links to parents are left, and not the one a branch hung by, the branch is cut off |
| `CrossTraffic.Flood` | src/network/episub/tree.rs:88-143 | over connected links any message published can be brought to everybody by first receipts alone, whatever else is under way, without a link given up |
| `CrossTraffic.OnlyParentLinks` | src/network/episub/tree.rs:168-187 | with nothing left to deliver no link that a message crossed on is still eager, however many other messages there were |
| `CrossTraffic.BranchLost` | src/network/episub/tree.rs:168-201 | once both messages are with everybody and all is delivered, the part of the second message's tree below a link the first did not use has no eager link to the rest |
| `CrossTraffic.CycleAllowsCut` | src/network/episub/tree.rs:168-201 | round any cycle: two broadcasts have a run after which all is delivered, everyone holds both messages, no eager link is new, and none is left between one part of the network and the other |
| `CrossTraffic.TreesAndOnlyTrees` | src/network/episub/tree.rs:64-201 | from any connected, symmetric eager links, given two unused ids: every run of broadcasts that reaches quiescence, from whatever nodes, with announcements and ticks that graft nobody and expire nothing in between, leaves the eager links connected if and only if they have no cycle or the optimization is off |
| `Triangle.TriangleLosesALink` | src/network/episub/tree.rs:64-201 | three fully linked nodes meet every premise of the spanning tree theorem, reach quiescence, and have given up a link by then |
| `Triangle.TwoBroadcastsCutANodeOff` | src/network/episub/tree.rs:168-201 | the smallest case: two broadcasts at once over the triangle have a run after which all hold both messages and some node has no eager link left at either end, so that the eager links no longer connect the network |
| `HyParViews.HyParView.constructor` | src/network/episub/view.rs:75-86 | empty views, nothing queued |
| `HyParViews.HyParView.IsActive` | src/network/episub/view.rs:115-120 | membership in the active view by peer id alone |
| `HyParViews.HyParView.AddNodeToActiveView` | src/network/episub/view.rs:440-486 | never the node itself, never twice; an initiator dials and asks before announcing the new peer |
| `HyParViews.HyParView.AddNodeToPassiveView` | src/network/episub/view.rs:488-500 | one peer absorbed, at most one evicted, capacity kept |
| `HyParViews.HyParView.FreeUpActiveSlot` | src/network/episub/view.rs:140-169 | when full, a passive peer is struck from the active view, told and announced as removed; the passive view is as before |
| `HyParViews.HyParView.InitiateJoin` | src/network/episub/view.rs:174-188 | one join request with the configured walk length |
| `HyParViews.HyParView.Forward` | src/network/episub/view.rs:211-227 | one copy to each active peer but two, each once |
| `HyParViews.HyParView.PlaceNode` | src/network/episub/view.rs:200-208 | active if there is room, else absorbed into the passive view |
| `HyParViews.HyParView.InjectJoin` | src/network/episub/view.rs:190-228 | nothing for an active peer; otherwise placed, and forwarded once to each other active peer |
| `HyParViews.HyParView.InjectForwardJoin` | src/network/episub/view.rs:230-273 | a cyclic walk is ignored; at the end of the walk a slot may be freed first; otherwise placed and forwarded with a smaller ttl |
| `HyParViews.HyParView.InjectNeighbor` | src/network/episub/view.rs:275-298 | accepted with room, accepted at high priority, otherwise nothing |
| `HyParViews.HyParView.InjectDisconnect` | src/network/episub/view.rs:306-339 | an active peer leaves and is announced as removed; alive, it is kept in the passive view, dead, struck from it |
| `HyParViews.HyParView.Merge` | src/network/episub/view.rs:376-385 | absorbing peers one by one with random evictions yields a largest possible subset of all of them |
| `HyParViews.HyParView.ChooseMultiple` | src/network/episub/view.rs:517-522 | a draw without replacement of as many as there are up to the maximum |
| `HyParViews.HyParView.SendShuffleReply` | src/network/episub/view.rs:532-565 | a reply, over a temporary connection if the originator is not active |
| `HyParViews.HyParView.InjectShuffle` | src/network/episub/view.rs:346-419 | replies with news only, absorbs the unknown only, and goes on to an active peer other than the last two, or else activates the originator |
| `HyParViews.HyParView.InjectShuffleReply` | src/network/episub/view.rs:421-436 | all merged, or nothing left when that is too many |
| `HyParViews.HyParView.SendShuffleTo` | src/network/episub/view.rs:505-530 | a sample of both views for one peer |
| `HyParViews.HyParView.MaybeMoveRandomPassiveToActive` | src/network/episub/view.rs:567-576 | when starved a passive peer is promoted and asked |
| `HyParViews.HyParView.MaybeShuffle` | src/network/episub/view.rs:587-605 | a shuffle when due and sampled; the timer restarts when due |
| `HyParViews.HyParView.MaybeTopUp` | src/network/episub/view.rs:609-617 | a promotion when due and starved; the timer restarts when due |
| `HyParViews.HyParView.Poll` | src/network/episub/view.rs:582-624 | periodic work exactly when due, each timer restarting exactly then, and the oldest queued action, first in first out |
| `HyParViews.AbsorbsMore` | src/network/episub/view.rs:383-385 | two absorptions in a row are one of both sets |
| `ViewEffects.ActiveExactly` | src/network/episub/view.rs:136-617 | for every input and peer, whether the peer is active afterwards: who enters (a joiner with room, also room just made; a neighbour in its own name, with room or at high priority; the originator of a shuffle with nowhere else to go; a passive peer when starved) and who leaves |
| `ViewEffects.PassiveExactly` | src/network/episub/view.rs:136-617 | for every input what becomes of the passive view: whom it takes in up to capacity, whom it loses |
| `ViewEffects.DoesExactly` | src/network/episub/view.rs:136-617 | for every input exactly which messages are sent, dials made and changes announced; a walk is passed on with its ttl less one, about the joiner, to each active peer but the joiner and the one it came from |
| `ViewEffects.SampleExactly` | src/network/episub/view.rs:346-374 | a shuffle or its answer names peers of the two views only, as many as there are up to the maximum, the answer none the question named; a shuffle goes on to an active peer other than its sender and originator |
| `ViewEffects.RefusedExactly` | src/network/episub/topic.rs:85-137 | bytes that are no peer id, in each of the four kinds, and a neighbour naming another are refused as such and have no effect; nothing else is refused |
| `ViewEffects.NewcomersAreIntroduced` | src/network/episub/view.rs:190-436 | an input brings nobody into a view whom it does not name; as a neighbour only its sender |
| `Membership.NeverHighPriority` | src/network/episub/view.rs:449-473 | no input makes a node send a high-priority request |
| `Membership.NextKeepsCapacity` | src/network/episub/view.rs:190-436 | with two active slots or more, and no promotions into a full view (a minimum within the maximum, or no passive view), no input but a high-priority request lets a view outgrow its capacity |
| `Membership.Capacity` | src/network/episub/view.rs:190-486 | in every reachable state of a network of nodes that all run this code, each with its own such limits, no high-priority request is in flight and every active view is within its capacity, the unguarded insertion included |
| `Membership.FewerSlotsOverflow` | src/network/episub/view.rs:413-417 | with fewer than two slots the unguarded insertion overflows a full view |
| `Membership.TwoSlotsIff` | src/network/episub/view.rs:190-617 | for any limits: every step but a high-priority request keeps every view within capacity exactly when there are two slots and either a minimum within the maximum or no passive view |
| `Overflow.OneSlotOverflows` | src/network/episub/view.rs:190-486 | with one slot each and any other limits a configuration can give with it, three nodes that all run this code overflow a view in eight steps from empty views |
| `Overflow.NoSlotsNoPeers` | src/network/episub/view.rs:190-617 | with no slots and no passive view nobody ever knows anybody, and only requests to join are ever in flight |
| `Overflow.CapacityIff` | src/network/episub/view.rs:190-617 | for any configuration: networks whose nodes all have it stay within capacity in every reachable state exactly when it does not give exactly one slot |
| `ConfiguredLimits.RoomyIff` | src/network/episub/config.rs:117-143 | exactly which settings the capacity theorem applies to, and that they are exactly those under which every step but a high-priority request is harmless |
| `Membership.HighPriorityOverflows` | src/network/episub/view.rs:288-290 | one high-priority request from outside overflows a full view whose passive view is empty |
| `Membership.HighPriorityOverflowsIff` | src/network/episub/view.rs:275-298 | for a given draw it overflows exactly when the view is full, the peer is new and the draw is not an active peer |
| `Membership.HighPrioritySafeIff` | src/network/episub/view.rs:275-298 | no draw can make it overflow exactly when there is room, the peer is known or the node itself, or the passive view is non-empty and within the active one |
| `Membership.FreeingFreesIff` | src/network/episub/view.rs:136-169 | a slot is freed exactly when the peer drawn is in both views, never while they are disjoint |
| `Membership.RequestAtCapacity` | src/network/episub/view.rs:283-296 | a request at capacity has no effect exactly when its priority is not high |
| `Membership.ReplyTrimsIff` | src/network/episub/view.rs:428-435 | a reply is trimmed to capacity, as documented, exactly when there was nothing to trim or no capacity |
| `Membership.DeliveryLowersWeight` | src/network/episub/view.rs:190-436 | everything one membership message makes a node send weighs less than the message |
| `Membership.MembershipQuiesces` | src/network/episub/view.rs:190-436 | with no ticks, connection events or new joins, deliveries in any order stop after as many steps as the messages in flight weigh, for any bound on the active views |
| `Membership.ClosedSystemStaysSmall` | src/network/episub/view.rs:190-486 | among nodes that all run this code the largest active capacity is such a bound |
| `Membership.WalkIsGeometric` | src/network/episub/view.rs:253-272 | a forwarded walk's weight is at most five times a power of the bound with the ttl as exponent |
| `Membership.JoinCascade` | src/network/episub/view.rs:190-273 | a single join request and all it sets off end within such a geometric number of deliveries, for any bound on the nodes' active capacities |
| `Provenance.WalksAreAboutApplicants` | src/network/episub/view.rs:174-436 | in every reachable state of a network of nodes that all run this code: every walk in flight is about a peer that asked to join in that run, joins and neighbour requests are in their sender's own name, nothing in flight would be refused, and views name members of the network only |
| `Provenance.EverybodyWasIntroduced` | src/network/episub/topic.rs:78-155 | in every run of a topic, whatever its peers send, everybody in a view was introduced by a message of that run, as a neighbour only in its own name |
| `Provenance.NeighborsSpeakForThemselves` | src/network/episub/topic.rs:104-115 | a neighbour request makes nobody but its sender active, and one that names another leaves view, queue and tree as they were |
| `Mesh.NextTells` | src/network/episub/view.rs:190-486 | replaying the additions and removals an input announces turns the old active view into the new one, and only peers not in it are announced as added |
| `Mesh.BridgeReplays` | src/network/episub/topic.rs:171-187 | handing one event to the tree leaves the replay of the rest unchanged |
| `Mesh.StepKeepsFollowing` | src/network/episub/topic.rs:158-194 | every step keeps every active peer a tree neighbour once the queue is drained |
| `Mesh.StepKeepsAgreement` | src/network/episub/topic.rs:158-194 | every step keeps equality, with eager and lazy disjoint, if prunes and grafts come from current neighbours |
| `Mesh.ViewTreeAgreement` | src/network/episub/topic.rs:158-194 | both in every reachable state of a topic |
| `Mesh.OneStranger` | src/network/episub/tree.rs:198-206 | what one more tree neighbour does to the replay of any queue |
| `Mesh.StrangersBreakAgreement` | src/network/episub/tree.rs:198-206 | a prune or graft keeps the agreement exactly when its sender is a neighbour, or the next the queue says of it is that it left |
| `TopicMeshes.TopicMesh.constructor` | src/network/episub/topic.rs:35-42 | view and tree start in agreement |
| `TopicMeshes.TopicMesh.Disconnected` | src/network/episub/topic.rs:58-60 | a membership step, agreement kept |
| `TopicMeshes.TopicMesh.InitiateJoin` | src/network/episub/topic.rs:62-64 | a membership step, agreement kept |
| `TopicMeshes.TopicMesh.Publish` | src/network/episub/topic.rs:66-73 | a broadcast step, agreement kept |
| `TopicMeshes.TopicMesh.InjectIHaves` | src/network/episub/topic.rs:139-144 | every announcement of a batch is recorded, in order |
| `TopicMeshes.TopicMesh.Dispatch` | src/network/episub/topic.rs:83-152 | each message reaches the handler its kind calls for with the right arguments; bytes that are no peer id, and a neighbour naming another than its sender, are refused as such, and nothing else is |
| `TopicMeshes.TopicMesh.InjectRpcCall` | src/network/episub/topic.rs:78-155 | a call is a legal membership step and a legal broadcast step of the topic, or is refused exactly for bytes that are no peer id or a neighbour naming another, and then without any effect; agreement is kept if prunes and grafts come from neighbours |
| `TopicMeshes.TopicMesh.NotifyTree` | src/network/episub/topic.rs:174-184 | additions and removals reach the tree, other events do not |
| `TopicMeshes.TopicMesh.PollNodes` | src/network/episub/topic.rs:170-187 | an event leaves the view's queue and reaches the tree in the same step |
| `TopicMeshes.TopicMesh.PollTree` | src/network/episub/topic.rs:189-192 | the tree runs only when it knows every active peer, and exactly those if everyone was well-mannered |
| `TopicMeshes.TopicMesh.Poll` | src/network/episub/topic.rs:161-195 | own events, then the view's, then the tree's; agreement kept throughout |
| `EpisubHandlers.EpisubHandler.constructor` | src/network/episub/handler.rs:83-97 | no substream, empty queue, keep-alive unless temporary |
| `EpisubHandlers.EpisubHandler.InjectFullyNegotiatedInbound` | src/network/episub/handler.rs:115-122 | only the presence of an inbound substream changes |
| `EpisubHandlers.EpisubHandler.InjectFullyNegotiatedOutbound` | src/network/episub/handler.rs:124-133 | the outbound state is replaced, whatever it was |
| `EpisubHandlers.EpisubHandler.InjectEvent` | src/network/episub/handler.rs:135-151 | queued last, if admitted |
| `EpisubHandlers.EpisubHandler.ProcessOutboundPoll` | src/network/episub/handler.rs:249-368 | the take-and-replace loop equals the recursive poll for every sink, and ends by queue length and state rank |
| `HandlerSpec.PollConserves` | src/network/episub/handler.rs:249-368 | a poll neither reorders nor drops messages unaccounted for |
| `HandlerSpec.PoisonMeansClosed` | src/network/episub/handler.rs:253-362 | the poisoned state is left behind exactly when the poll asks to close; only then is a message lost, and at most one; the closing state is never entered |
| `HandlerSpec.PendingMeansStuck` | src/network/episub/handler.rs:258-351 | a pending poll is idle with nothing queued, waiting for the substream to open, or held up by it with the connection kept alive |
| `HandlerSpec.PollIsShort` | src/network/episub/handler.rs:253-365 | at most three passes a queued message and three for the one in hand |
| `HandlerSpec.ObligingSinkDrains` | src/network/episub/handler.rs:258-308 | a substream that keeps up gets the whole queue, in order, in one poll |
| `HandlerSpec.FlushDecides` | src/network/episub/handler.rs:266-317 | when the substream takes a message its next answer decides: held up, the poll ends waiting for the flush and keeps the connection alive; broken, it asks for a close; only when flushed does it go on |
| `HandlerSpec.FlushResumes` | src/network/episub/handler.rs:303-317 | a flush held up in one poll is what the next begins with |
| `HandlerSpec.NothingUnflushed` | src/network/episub/handler.rs:266-317 | no message is taken on top of an unflushed one, and a poll that ends idle has flushed every message it sent |
| `HandlerSpec.TooLargeNeedsNoFlush` | src/network/episub/handler.rs:276-283 | after a message found too large the substream is not asked to flush: its next answer makes no difference |
| `HandlerSpec.NegotiationLoses` | src/network/episub/handler.rs:124-133 | negotiation loses a message exactly when one was being sent |
| `HandlerSpec.Conservation` | src/network/episub/handler.rs:124-368 | in every run whatsoever what was accepted is, in order, what met a fate, then the message being sent, then the queue |
| `HandlerSpec.FifoDelivery` | src/network/episub/handler.rs:124-368 | until a close is asked for no poll panics, and everything accepted was handed to the substream or dropped as too large, in order, but for what is still held: exactly when negotiation never completed over a message being sent |
| `HandlerSpec.KeepAliveIff` | src/network/episub/handler.rs:83-317 | in every run a connection is kept alive exactly when it was opened as an ordinary one whose inbound half did not close before the outbound half was asked for, or a poll was held up |
| `HandlerSpec.TemporaryOpensWhenStalled` | src/network/episub/handler.rs:135-151 | a temporary connection takes other messages than shuffle replies exactly when a poll was held up before |
| `Config.RoundLog2IsNearest` | src/network/episub/config.rs:117-120 | the integer form of the rounded logarithm is the nearest integer to it, and there are no ties |
| `Config.TwoActiveSlots` | src/network/episub/config.rs:117-120 | which settings give the two active slots `Membership.Capacity` needs |
| `Config.ViewSizesOrdered` | src/network/episub/config.rs:129-139 | the minimum is half the maximum rounded down, and below it as soon as there is a slot; walks are two to six long |
| `Config.WalkLengthExact` | src/network/episub/config.rs:137-139 | a walk is as long as the base-two logarithm of the network size, rounded down, between two and six |
| `Config.DefaultSizes` | src/network/episub/config.rs:146-168 | what the defaults come to |

## Left out

- The swarm glue of `behaviour.rs` (subscriptions, bans, early peers): its calls into a topic are steps of the environment here.
- Framing, the protobuf codec and protocol negotiation (`codec.rs`, `connection.rs`): they come from libraries that are not part of this model.
- The inbound half of `handler.rs`: it only wraps a framed stream; whether an inbound substream is there is part of the model because the keep-alive flag depends on it.
- A message without an action, which the dispatch unwraps (`topic.rs:83`), and a payload zstd cannot decode (`tree.rs:132`): both panic in the source and are not represented. Compression is a decode function; `GossipRuns.PayloadIntegrity` assumes that it inverts the encoding of the text published.
- Addresses, dial options, logging, shuffle probability sampling and the topic name; peers are their ids, as the source compares them.
- Several readings of the clock in one call are one reading, and instants are integers: an instant less a window longer than the clock has run panics in the source and does not here.
- Hop counters wrap as in a release build; a debug build panics instead.
- The queue between a node and the swarm, and the connections between nodes, are one bag in the network models: order of arrival is arbitrary there, which allows more runs than the source does. The queue itself is exact in the class methods and in `Mesh`.
- GossipRuns.HopBound: about runs in which no record expires; hops in runs with expiry are not treated.
- GossipRuns.Coverage: about runs without losses and expiry.
- BroadcastOutcome.SpanningTreeTheorem: about one broadcast from symmetric links, without grafts, expiry or membership changes. For concurrent broadcasts `CrossTraffic.TreesAndOnlyTrees` says when the eager links stay connected; how many links a cyclic network keeps is not treated.
- Reach.ReachedNodesHold: about one broadcast; grafts for other messages, and the copies they bring, are not treated.
- TreeRuns.BoundedRecovery: pairs two nodes' runs by the messages passed between them; that a message sent does arrive is a premise, as the network may lose it.
- HyParViews.HyParView.InjectShuffleReply: the drain that empties the set is written as an assignment of the empty set.
- Config.RoundLog2IsNearest: floating-point error in the logarithm is idealised away.
