# A verified model of dig-gossip

dig-gossip connects a node to its peers and spreads small messages among them. This project models the parts of it
whose correctness spans many operations, in Dafny, and proves what those parts promise:

* the **address manager** (`AddressTables`, `AddressInvariant`, `AddressPromotion`, `AddressRuns`, `AddressEffects`,
  `AddressExact`, `AddressPrivacy`, `AddressRepeats`, `AddressQueue`, `AddressDeadQueue`, `AddressHazard`,
  `AddressWitness`, `AddressBuckets`, `AddressSnapshot`, `AddressManager`): two matrices of cells, a host index, rows, a random order with back-pointers, reference counts, counters and a collision queue, kept consistent by every operation and restored
  exactly from a snapshot;
* **gossip**: fan-out of one message (`FanOut`), Plumtree membership (`Plumtree`), flooding over a network (`Flood`),
  the seen set and the message cache (`Lru`), the priority queue (`Priority`);
* **sessions and admission**: newest-wins sessions with generation-guarded teardown (`Sessions`, `SessionHistory`), the
  ways into the pool of NAT-traversed sessions with their overlapping caps (`NatAdmission`, `NatEligibility`), and the
  diversity of outbound sessions (`NatDiversity`);
* **limits and streams**: the windowed rate limiter (`RateLimit`), the composed inbound gate (`InboundGate`), the shared
  cap on exchanged peers (`PeerCap`), the stream reassembler (`Reassembler`), the hint cache (`HintCache`) and the
  binary codecs (`Codecs`, `WireFormat`).

State is a value, each operation a function on it, and the theorems are about those functions and their runs. Where
the program edits objects in place, a class does so here as well, with the program's loops and early returns, and each
method is proved to compute its function. Clocks, random draws, hashes, the outcome of sends and the verdicts of
libraries are parameters: the theorems hold for all of them. Protocols are state machines whose steps are what happens
under one hold of a lock, or one atomic operation, and the theorems range over all interleavings.

`dafny verify dfyconfig.toml` checks everything.

The invariant of the address manager, `AddressInvariant.Inv`, says: `random_pos` lists every row once and every row knows
its place in it; the host index is the inverse of the rows' hosts; every occupied cell of the new table holds a row that
is not tried, at the slot its bucket selects; tried rows and occupied tried cells correspond one to one; `ref_count` is
the number of new-table cells a row holds, at most eight, and zero exactly for tried rows; the two counts are the numbers
of rows in each table; ids and the queue stay within what has been handed out; and once an id has been handed out the
manager is never empty again.

## Findings

* Promoting a peer (make_tried) takes the evicted row out of the map before it clears that row's new cell. When that
  clearing deletes a row and the evicted one comes last in `random_pos`, its back-pointer is not updated.
  `AddressPromotion.PromotionInvariant` shows this to be the only way a promotion breaks the invariant.
  `AddressHazard.HazardIsReachable` leads there from the empty manager: four announcements by one source, four calls of
  mark_good as the program makes them, and one pass over the collision queue four hours later, with buckets and slots
  computed from a digest in the program's byte layout. Nothing under src/ calls `resolve_tried_collisions`, so this is
  a run of the manager's public operations. Clearing the cell of the evicted row would then stop the program
  (`AddressPromotion.HazardPointsPastTheEnd`); once another row has been appended at the stale place, it deletes the
  wrong entry instead (`AddressPromotion.AppendedRowIsLost`).
* Deleting a row leaves its id in the collision queue, and a snapshot taken then stops the program. Five calls on an
  empty manager get there (`AddressDeadQueue.DeadQueueIsReachable`): a peer with an old announced time is queued, and
  over a minute later an announcement takes its only cell. `AddressDeadQueue.AddKeepsQueueLive`, `GoodKeepsQueueLive`
  and `PassLeavesQueueLive` say exactly when an operation does this, and `AddressDeadQueue.RunSavesExactly` after which
  runs a snapshot can be taken.
* A host heard of again, at whatever port, practically never gains a second cell: the refresh that precedes the test
  makes its row look current already. `AddressRepeats.ExactRepeat` gives the exact condition. All announcements under
  src/ carry no penalty; unless they name times within a day of the epoch, no row ever holds more than one new-table
  cell, so the limit of eight and the random draw never decide (`AddressRepeats.OneCellEach`).
* The comment on a session's generation says a reconnect's is always greater than the one it replaces. Over every
  trace that fails exactly for a session that drew its number while an older one of the same peer was still between
  drawing its number and the insert, was inserted before it and has not ended since (`Sessions.OvertakenExactly`); it
  holds while each peer has at most one session between the two (`Sessions.NewestWinsOneAtATime`). The guard compares
  for equality, which is what makes it right.
* Renewing a direct session over a relay is exempt from the cap on relayed outbound sessions and can exceed it
  (`NatAdmission.RelayedOutboundExact`); with one outbound place two dials do (`NatAdmission.RelayedCapIsExceeded`).
* A renewal is exempt from the diversity test as well, on the ground that the peer takes up its subnet already. It need
  not: it may come back from another subnet, or directly after having been reached over a relay, which takes up none.
  Two direct outbound sessions share a subnet or autonomous system exactly after such a renewal
  (`NatDiversity.RunDiverse`), and three dials suffice (`NatDiversity.DiversityCanBeLost`).
* A demoted peer that is added again is eager and lazy at once (`Plumtree.ReaddedIsBoth`). This is possible with the
  public type; nothing under src/ demotes a peer.

## Model

| member | source | states |
|---|---|---|
| AddressManager.Inner.constructor | src/discovery/address_manager.rs:97-116 | a new manager is empty: both matrices EMPTY throughout, no used position, `last_good` 1 |
| AddressManager.Inner.SwapRandom | src/discovery/address_manager.rs:155-169 | exchanges two places of `random_pos` and both back-pointers, in place; equals the table operation `SwapRandom` |
| AddressManager.Inner.SetNewMatrix | src/discovery/address_manager.rs:171-179 | one cell and the used-position set change together: the occupied cells read afterwards are the old ones with that cell set or removed |
| AddressManager.Inner.SetTriedMatrix | src/discovery/address_manager.rs:181-189 | the same for the tried matrix |
| AddressManager.Inner.ClearNew | src/discovery/address_manager.rs:191-206 | takes one reference from the cell's occupant and deletes the row left without any; no counter underflows when the stated condition holds |
| AddressManager.Inner.DeleteNewEntry | src/discovery/address_manager.rs:208-220 | removes a row from `random_pos`, both maps and the count, moving the last row into its place |
| AddressManager.Inner.CreateRow | src/discovery/address_manager.rs:222-233 | appends a row under the next id and points the host index at it |
| AddressManager.Inner.MakeTried | src/discovery/address_manager.rs:237-287 | on any state satisfying the invariant the in-place promotion never stops the program, its scan ends with no reference left, and its result is the table operation `MakeTried` |
| AddressManager.Inner.ScanRefs | src/discovery/address_manager.rs:238-254 | make_tried's scan over all buckets, in place, computes `ClearRefs` |
| AddressManager.Inner.FinishTried | src/discovery/address_manager.rs:260-286 | the part of promotion after the scan, including the eviction, computes `FinishPromotion` |
| AddressManager.Inner.EvictTried | src/discovery/address_manager.rs:262-279 | the evicted row, out of `map_info` while its new cell is cleared, ends in that cell; no counter underflows |
| AddressManager.Inner.SearchNewBucket | src/discovery/address_manager.rs:318-331 | the wrap-around bucket search returns the first bucket holding the row, or the sentinel exactly when there is none |
| AddressManager.Inner.MarkGood | src/discovery/address_manager.rs:289-348 | equals `MarkGood` on every state satisfying the invariant, and keeps the invariant exactly when no hazard is met |
| AddressManager.Inner.RecordGood | src/discovery/address_manager.rs:296-312 | the lookups and guards of mark_good: which row is hit, and what is recorded in it |
| AddressManager.Inner.SettleGood | src/discovery/address_manager.rs:312-347 | queue, promote or leave, as `Settle` says |
| AddressManager.Inner.AddToNewTable | src/discovery/address_manager.rs:350-441 | equals `AddToNewTable`, its answer included, and keeps the invariant, unless a new row would be given the one id whose cell reads as EMPTY |
| AddressManager.Inner.RefreshKnown | src/discovery/address_manager.rs:376-407 | the timestamp refresh and the four reasons to take no further cell |
| AddressManager.Inner.PlaceNew | src/discovery/address_manager.rs:418-439 | the placement decision and its effect equal `PlaceNew` |
| AddressManager.Inner.Attempt | src/discovery/address_manager.rs:443-461 | equals `Attempt` |
| AddressManager.Inner.Connect | src/discovery/address_manager.rs:463-480 | equals `Connect` |
| AddressManager.Inner.ResolveTriedCollisions | src/discovery/address_manager.rs:593-627 | the loop over the queue as it was at the start equals `Resolve` and keeps the invariant when no promotion in it meets the hazard |
| AddressManager.Inner.ResolveCollision | src/discovery/address_manager.rs:595-625 | one turn of that loop equals `ResolveOne` |
| AddressManager.Inner.SelectTriedCollision | src/discovery/address_manager.rs:629-650 | prunes the queue to its live ids and returns the holder of the picked row's tried cell |
| AddressManager.Inner.RebuildUsedPositions | src/discovery/address_manager.rs:653-670 | afterwards the used-position sets are exactly the non-EMPTY cells, whatever they were before |
| AddressManager.Inner.ToAddressManagerState | src/discovery/address_manager.rs:672-722 | the loops over both matrices and the index map produce exactly `ToSnapshot` of the state |
| AddressManager.FromAddressManagerState | src/discovery/address_manager.rs:724-783 | refuses what validation refuses, with its error; otherwise builds an object whose state is `Load` of the snapshot, for all 32-bit ids |
| AddressManager.CellRoundTrip | src/discovery/address_manager.rs:249-254 | the cast between 32-bit unsigned ids and signed cells loses nothing, and makes an id look EMPTY only for 0xFFFF_FFFF |
| AddressManager.EvictionCanClear | src/discovery/address_manager.rs:262-279 | while the evicted row is missing from `map_info`, clearing its new cell still meets no missing pointer, zero count or zero reference |
| AddressInvariant.EmptyInv | src/discovery/address_manager.rs:97-116 | the empty manager satisfies the invariant |
| AddressInvariant.DeleteSound | src/discovery/address_manager.rs:208-220 | deleting a row without references keeps every clause: order a permutation with exact back-pointers, host index inverse, cells, reference counts, counters |
| AddressInvariant.CreateSound | src/discovery/address_manager.rs:222-233 | creating a row keeps every clause, the new row being allowed no reference yet |
| AddressInvariant.DropRefSound | src/discovery/address_manager.rs:196-200 | taking a reference away with its cell keeps every clause |
| AddressInvariant.AddRefSound | src/discovery/address_manager.rs:432-434 | giving a reference with a free cell keeps every clause |
| AddressInvariant.ClearNewSound | src/discovery/address_manager.rs:191-206 | clearing a cell keeps every clause whatever the cell holds |
| AddressPromotion.ScanFindsEveryRef | src/discovery/address_manager.rs:238-254 | make_tried's scan of all buckets always ends with `ref_count` 0, the fact the program asserts, having removed exactly the row's own cells |
| AddressPromotion.PromotionInvariant | src/discovery/address_manager.rs:237-287 | promotion keeps the whole invariant if and only if it does not meet the hazard, and everything but the back-pointers always |
| AddressPromotion.HazardPointsPastTheEnd | src/discovery/address_manager.rs:262-282 | after a hazardous promotion the evicted row's back-pointer is one past the end of `random_pos`: deleting the row, or clearing the one cell it holds, then stops the program |
| AddressPromotion.AppendedRowIsLost | src/discovery/address_manager.rs:208-233 | once another row is appended at that place, clearing the evicted row's cell drops the appended row from `random_pos`, although it stays in the map, and leaves the deleted one listed |
| AddressPromotion.PromotionLeaves | src/discovery/address_manager.rs:237-287 | promotion never touches the collision queue, and `random_pos` only when it deletes a row |
| AddressPromotion.PromotionConserves | src/discovery/address_manager.rs:237-287 | only the displaced new row is lost; the promoted row takes its tried cell and no other tried cell changes; the tried count grows by one or by none; the evicted row holds exactly one new cell |
| AddressPromotion.EvictIs | src/discovery/address_manager.rs:262-282 | eviction with the row taken out of the map equals eviction in place, but for the stale back-pointer |
| AddressHazard.HazardIsReachable | src/discovery/address_manager.rs:237-287 | from the empty manager, with buckets and slots computed from a digest and groups that read the host alone: after four announcements and four mark_good calls, each safe, a pass over the collision queue four hours later breaks the invariant, leaves a back-pointer past the end, and leaves a cell whose clearing stops the program |
| AddressRuns.SearchFinds | src/discovery/address_manager.rs:316-331 | mark_good's bucket search never fails for a row that is not tried, wherever it starts |
| AddressRuns.MarkGoodInv | src/discovery/address_manager.rs:289-348 | mark_good always completes, and keeps the invariant if and only if it meets no hazard; no tried cell is vacated |
| AddressRuns.MarkGoodPromotes | src/discovery/address_manager.rs:289-348 | a matched row ends up tried or in the collision queue, and tried whenever no test is asked for |
| AddressRuns.AddInv | src/discovery/address_manager.rs:350-441 | add_to_new_table keeps the invariant, under any random draw and clock, if and only if it does not hand out the last 32-bit id |
| AddressRepeats.ExactRepeat | src/discovery/address_manager.rs:366-407 | a known row heard of again may take one more cell if and only if it is not tried, below the limit, spared by the draw, and either penalised for another port or without a stored time and announced with one within the update interval; otherwise just its time changes |
| AddressRepeats.PlainRefreshes | src/discovery/address_manager.rs:366-407 | an announcement of a known host without penalty and without a time in the first day of the epoch at most refreshes the row's time |
| AddressRepeats.DrawNeverDecides | src/discovery/address_manager.rs:396-407 | the result of such an announcement is the same for every random draw |
| AddressRepeats.OneCellEach | src/discovery/address_manager.rs:350-441 | over every run from the empty manager with such announcements only, every row that is not tried holds exactly one new-table cell |
| AddressRuns.AttemptInv | src/discovery/address_manager.rs:443-461 | attempts keep the invariant |
| AddressRuns.ConnectInv | src/discovery/address_manager.rs:463-480 | connects keep the invariant |
| AddressRuns.ResolveInv | src/discovery/address_manager.rs:593-627 | a pass over the collision queue completes and keeps the invariant when none of its promotions meets the hazard |
| AddressRuns.SelectPrunes | src/discovery/address_manager.rs:629-650 | picking a victim leaves exactly the live ids queued, so the snapshot can be taken |
| AddressRuns.SafeMeans | src/discovery/address_manager.rs:237-287 | the side condition runs carry is, at rest, nothing but the hazard, and for saving nothing but a live queue |
| AddressRuns.RunInv | src/discovery/address_manager.rs:155-461 | over every run of the operations, restarts from the snapshot included, the invariant holds and no occupied tried cell is ever vacated |
| AddressRuns.RunFromEmpty | src/discovery/address_manager.rs:97-116 | in particular from the empty manager |
| AddressRuns.HashedRuns | src/types/peer.rs:224-268 | the same for runs whose buckets and slots are computed from any digest of key, address and source, as the program computes them |
| AddressEffects.NewcomerJoinsOrVanishes | src/discovery/address_manager.rs:350-441 | an unknown host whose cell does not make way leaves no trace but a used id; otherwise it holds one cell and at most the previous holder goes |
| AddressEffects.KnownGainsOneCell | src/discovery/address_manager.rs:366-440 | a known row heard of again keeps every cell it has and gains at most the one the new source selects |
| AddressEffects.AttemptsCountedOnce | src/discovery/address_manager.rs:443-461 | any number of attempts on a peer since the last success of anyone count as one failure at most, and as one exactly when some are to be counted and none was before |
| AddressEffects.ConnectRefreshes | src/discovery/address_manager.rs:463-480 | after a connection the row's timestamp lags it by at most twenty minutes, and nothing else has changed |
| AddressEffects.VictimIsHolder | src/discovery/address_manager.rs:629-650 | the victim offered for a test is the tried row whose cell a live queued row wants |
| AddressEffects.WhatMakesTerrible | src/types/peer.rs:189-212 | a row tried within a minute never makes way; with few attempts or a recent success only its announced time tells against it; ten attempts without success for a week always do |
| AddressEffects.JudgeExact | src/discovery/address_manager.rs:598-622 | the age tests of collision resolution come down to two on the holder of the cell |
| AddressEffects.ReplacedIsTried | src/discovery/address_manager.rs:608-625 | an id judged to replace the holder ends up tried and out of the queue |
| AddressEffects.PromotionKeepsHistory | src/discovery/address_manager.rs:237-287 | promotion changes no row's address, timestamps or attempt counts |
| AddressEffects.MarkGoodRecords | src/discovery/address_manager.rs:289-348 | mark_good records the success in the matched row and changes no other row's history |
| AddressExact.GoodFields | src/discovery/address_manager.rs:289-312 | after mark_good the matched row, and no other, has the time of the success as its last success and last try and no failed attempts; address, source, announced time and counted attempt are kept; the time of the last success of anyone is set |
| AddressExact.QueuedExactly | src/discovery/address_manager.rs:333-347 | mark_good queues the matched row if and only if it is not tried, a test is asked for, its tried cell is held, fewer than ten ids are queued and it is not among them |
| AddressExact.AttemptFields | src/discovery/address_manager.rs:443-461 | an attempt on a row's own address changes its last try and, if it counts, the count and its time, and nothing else; on another address nothing |
| AddressExact.ConnectMisses | src/discovery/address_manager.rs:463-480 | a connection to an address that is no row's changes nothing |
| AddressExact.RefreshedExactly | src/discovery/address_manager.rs:376-392 | which announced time a known row ends up with |
| AddressExact.KnownTakesExactly | src/discovery/address_manager.rs:393-439 | a known row takes the cell it is offered if and only if it may take one more and the cell is free or held by another row that is terrible; no other cell changes hands |
| AddressExact.AddLeavesOthers | src/discovery/address_manager.rs:350-441 | an announcement changes no other row's address, times or attempts |
| AddressExact.LiveInOrder | src/discovery/address_manager.rs:629-632 | pruning the queue keeps the live ids in their order |
| AddressExact.QueueOnly | src/discovery/address_manager.rs:593-650 | picking a victim, and a turn that keeps or drops its id, change nothing but the queue |
| AddressPrivacy.TakenUpExactly | src/discovery/address_manager.rs:350-374 | an announcement is answered with true, and uses up an id, if and only if its host is unknown and its address is not private or private ones are allowed |
| AddressPrivacy.PrivateLeavesNoTrace | src/discovery/address_manager.rs:362-364 | a private address that is not allowed leaves no trace |
| AddressPrivacy.MatchedExactly | src/discovery/address_manager.rs:297-309 | mark_good acts on a row if and only if that is its very address, and it is not private or private ones are allowed |
| AddressPrivacy.NoPrivateRows | src/discovery/address_manager.rs:350-374 | over every run from the empty manager in which private addresses are never allowed, restarts included, no row has one |
| AddressBuckets.SourceGroupReachesFew | src/types/peer.rs:237-250 | all that the sources of one group announce fits 64 of the 1024 new buckets, for every digest |
| AddressBuckets.PeerGroupReachesFew | src/types/peer.rs:224-234 | the peers of one group fit 8 of the 256 tried buckets |
| AddressBuckets.GroupsDecideNewBucket | src/types/peer.rs:237-250 | a peer's new bucket depends on nothing but its group and its source's |
| AddressBuckets.SlotBytesDiffer | src/types/peer.rs:253-266 | slots in different tables, buckets or for different peers come from digests of different bytes |
| AddressQueue.QueuedHaveHolders | src/discovery/address_manager.rs:333-343 | over every run from the empty manager, restarts included, the tried cell a queued row wants is held by a row |
| AddressQueue.RunContested | src/discovery/address_manager.rs:593-627 | that this holds is kept by every operation and so by every run |
| AddressQueue.GoodKeepsVerdict | src/discovery/address_manager.rs:593-627 | promoting a row in place of its holder neither makes nor unmakes the verdict "leave for now" for any cell |
| AddressQueue.PassLeavesUnderTest | src/discovery/address_manager.rs:593-627 | after a pass a row is queued if and only if it was before and the holder of its cell, as it is then, last succeeded four or more hours ago and was tried within the last minute; and no id queued without a row stays queued |
| AddressDeadQueue.AddLoses | src/discovery/address_manager.rs:409-439 | the row an announcement deletes, if any, is a terrible one whose only cell another row is offered and may take |
| AddressDeadQueue.AddKeepsQueueLive | src/discovery/address_manager.rs:350-441 | from a live queue, an announcement leaves a queued id without a row if and only if the row it deletes is queued |
| AddressDeadQueue.PromotesExactly | src/discovery/address_manager.rs:296-347 | mark_good promotes if and only if the address is matched, not tried, and its tried cell is free, not to be asked about, or the queue is full |
| AddressDeadQueue.GoodKeepsQueueLive | src/discovery/address_manager.rs:289-348 | from a live queue, mark_good leaves a queued id without a row if and only if it promotes and the row that promotion deletes is queued |
| AddressDeadQueue.ResolveOneKeepsQueueLive | src/discovery/address_manager.rs:595-625 | the same for one turn of a pass over the queue |
| AddressDeadQueue.PassLeavesQueueLive | src/discovery/address_manager.rs:593-627 | from any state, a pass leaves a queued id without a row if and only if one of its turns deletes a queued row whose own turn is over |
| AddressDeadQueue.OthersKeepQueueLive | src/discovery/address_manager.rs:443-480 | no other operation leaves a queued id without a row |
| AddressDeadQueue.ApplyQueueLiveExactly | src/discovery/address_manager.rs:289-670 | from any state, live or not: the queue is live after an operation if and only if the operation prunes it or is a pass that strands no id, or it was live and the operation strands none |
| AddressDeadQueue.RunSavesExactly | src/discovery/address_manager.rs:672-722 | over every run, the snapshot can be taken at its end if and only if no operation stranded a queued id since the queue was last made live |
| AddressDeadQueue.DeadQueueIsReachable | src/discovery/address_manager.rs:672-722 | five safe calls on the empty manager lead to a state that satisfies the invariant and whose snapshot cannot be taken |
| AddressSnapshot.ValidateExact | src/discovery/address_manager_store.rs:72-164 | validation accepts exactly the snapshots whose shapes are right and whose indices all name an entry, with the empty one having zero counts |
| AddressSnapshot.SaveDefined | src/discovery/address_manager.rs:672-722 | at rest a snapshot can be taken if and only if every queued id still has a row |
| AddressSnapshot.SnapshotShape | src/discovery/address_manager.rs:672-722 | every snapshot taken passes validation, the rule about empty snapshots included |
| AddressSnapshot.RoundTrip | src/discovery/address_manager.rs:672-784 | saving and loading gives back the very same ids, rows, matrices, order, queue and counters |
| AddressSnapshot.FaultsAreTrue | src/discovery/address_manager_store.rs:72-164 | what the error of a refused snapshot says is wrong with it is wrong with it |
| AddressSnapshot.LoadRepoints | src/discovery/address_manager.rs:772-776 | whatever back-pointers a snapshot holds, loading sets those of the listed rows to their places |
| FanOut.GossipNode.FanOut | src/service/gossip_handle.rs:346-490 | a stopped node refuses, a seen forwarded message goes nowhere, and otherwise the message is recorded, cached and accounted for peer by peer |
| FanOut.GossipNode.Classify | src/service/gossip_handle.rs:387-440 | one pass over the peers finds each one's route: the job lists repeat nobody and the tallies are the numbers of the rest |
| FanOut.GossipNode.Deliver | src/service/gossip_handle.rs:409-490 | eager sends in turn until one fails, then the sinks: the result is accounted for in either case |
| FanOut.Offer | src/service/gossip_handle.rs:463-470 | each sink is offered the message once; the takers and the number of refusals |
| FanOut.EveryPeerRouted | src/service/gossip_handle.rs:409-446 | every peer takes exactly one route |
| FanOut.AccountsForEveryPeer | src/service/gossip_handle.rs:346-490 | deliveries plus unreachable NAT plus unreachable lazy peers are all peers but the excluded one, who is never sent to; the call fails if and only if an eager send does |
| FanOut.DeliveredExactly | src/service/gossip_handle.rs:398-493 | a fan-out that succeeds has sent to exactly the live eager peers and the NAT sessions whose sink took the message, counts every other NAT session and live peer as not reached, and stubs as delivered; one that fails has sent to live eager peers only |
| FanOut.AllEagerReachesAll | src/service/gossip_handle.rs:409-457 | when all peers are live and eager and all sends succeed, exactly the peers other than the excluded one get the message |
| Plumtree.PlumtreeState.AddPeer | src/gossip/plumtree.rs:69-71 | joins the eager set, and does not leave the lazy one |
| Plumtree.PlumtreeState.RemovePeer | src/gossip/plumtree.rs:76-79 | leaves both sets |
| Plumtree.PlumtreeState.DemoteToLazy | src/gossip/plumtree.rs:84-87 | moves to the lazy set |
| Plumtree.PlumtreeState.PromoteToEager | src/gossip/plumtree.rs:92-95 | moves to the eager set |
| Plumtree.MembershipIsLastWord | src/gossip/plumtree.rs:69-95 | over any history a peer is eager iff the last thing said of it is an addition or promotion, and lazy iff the last thing but additions is a demotion |
| Plumtree.DisjointUnlessReadded | src/gossip/plumtree.rs:69-95 | the two sets are disjoint exactly when no peer was added again since its demotion |
| Plumtree.ReaddedIsBoth | src/gossip/plumtree.rs:69-87 | a peer demoted through the public type and added again is in both sets |
| Flood.FloodCost | src/service/gossip_handle.rs:274-372 | under every schedule one announcement costs at most the sum of the node degrees, and a repeat at most the origin's own degree more |
| Flood.FloodCostExactly | src/service/gossip_handle.rs:274-372 | over connections that run both ways the cost is known at every moment: the degrees of the nodes reached, less one for each but the origin, and the origin's degree for each repeat |
| Flood.FloodComplete | src/service/gossip_handle.rs:274-372 | once nothing is in flight exactly the nodes reachable from the origin have seen the message |
| Flood.FloodEnds | src/service/gossip_handle.rs:274-372 | no schedule can deliver more often than a budget that every delivery lowers |
| Flood.EchoIsDropped | src/service/gossip_handle.rs:320-342 | the origin's own message coming back is dropped, whoever returns it |
| Lru.SeenSet.Insert | src/gossip/seen_set.rs:66-73 | inserts and answers as `SeenInsert`, in place |
| Lru.NewTwiceNeedsCapacity | src/gossip/seen_set.rs:61-73 | the same hash is reported new twice only if at least `capacity` other hashes were reported new in between |
| Lru.NewExactly | src/gossip/seen_set.rs:61-73 | over every run of a fresh seen set: a hash is reported new if and only if it is not among the latest `capacity` hashes reported new, and always when it comes for the first time |
| Lru.MessageCache.Insert | src/gossip/message_cache.rs:58-67 | inserts with the time, most recent first, dropping the least recently used |
| Lru.MessageCache.Get | src/gossip/message_cache.rs:73-89 | an expired or missing entry is removed and not answered; a live one is promoted and answered |
| Lru.GetIsTimed | src/gossip/message_cache.rs:58-89 | an answer is the latest value inserted for the hash, no older than the limit; and there is one whenever an unbounded timed map has one, unless `capacity` other hashes came up since |
| Lru.TimedIsLatest | src/gossip/message_cache.rs:58-67 | what that map remembers is what was inserted last |
| Lru.TimedExactly | src/gossip/message_cache.rs:58-89 | that map remembers a hash if and only if no lookup since its last insertion found it expired |
| Sessions.Registry.NextPeerGeneration | src/service/state.rs:1223-1225 | hands out each generation once |
| Sessions.Registry.Insert | src/connection/listener.rs:810-834 | newest wins: the slot is replaced and the displaced one handed back |
| Sessions.Registry.DisconnectAfterKeepaliveFailure | src/connection/keepalive.rs:406-459 | removes and penalises only the session that still holds the slot |
| Sessions.Registry.EnforceTimedBan | src/service/state.rs:1184-1216 | an operator's ban removes whatever is there; a session's own removes only itself |
| Sessions.Registry.Disconnect | src/service/gossip_handle.rs:2973-2995 | removes whatever slot the peer holds, and says whether there was one |
| Sessions.RunKeeps | src/connection/listener.rs:793-843 | over every interleaving the map and the sessions agree: a live slot is held by exactly one session of that peer, and only sessions that are over were penalised, once each |
| Sessions.SlotLostOnlyBy | src/connection/listener.rs:793-843 | a session keeps its slot exactly until its own failure or ban, a later insertion for that peer, or a removal of that peer: no stale task ever evicts it |
| Sessions.NeverReturns | src/connection/listener.rs:793-843 | a session that has lost its slot never gets it back |
| Sessions.BlamedOnce | src/connection/keepalive.rs:406-459 | a keepalive failure is charged at most once to a session, never while it holds its slot, and a stale report changes nothing |
| Sessions.OneSessionPerSlot | src/service/gossip_handle.rs:1087-1192 | with no dial under way and no abort pending, the sessions not over are exactly one for each live slot |
| Sessions.OlderGenerationCanReplaceNewer | src/service/state.rs:173-176 | a slot can be replaced by one of a smaller generation, contrary to the comment on the field |
| Sessions.OvertakenExactly | src/service/state.rs:173-176 | over every trace: admitting a session replaces one with a greater generation if and only if that one drew its number while the first was between its own draw and its insert, was inserted before it, and has not ended since |
| Sessions.NewestWinsOneAtATime | src/service/state.rs:173-176 | over every trace in which no peer draws a generation while one of its sessions is between its draw and its insert, a session only replaces one with a smaller generation |
| SessionHistory.ChargedExactly | src/connection/keepalive.rs:406-459 | over every trace: a session has been charged, once, if and only if a keepalive failure of it was reported while it held its slot |
| SessionHistory.PhaseExactly | src/connection/listener.rs:793-843 | over every trace: a session is negotiating if and only if it was neither admitted nor refused, and over if and only if it was refused, stopped, or failed holding its slot |
| SessionHistory.HoldsExactly | src/connection/listener.rs:810-834 | over every trace: a session holds its slot if and only if it was admitted and no step since has ended it |
| SessionHistory.NatExactly | src/service/gossip_handle.rs:2200-2308 | over every trace: a slot is one of a NAT-traversed session if and only if one was adopted, and since then no session of the peer was admitted and the slot neither removed nor reaped |
| NatAdmission.PeerPool.AdmitNatConnection | src/service/gossip_handle.rs:1507-1644 | equals `AdmitDialed`: every refusal in its order, and the state changed only on admission |
| NatAdmission.PeerPool.AdoptRelayedInbound | src/service/gossip_handle.rs:2200-2308 | equals `AdoptRelayed` |
| NatAdmission.PeerPool.AdoptDirectInbound | src/service/gossip_handle.rs:1997-2135 | equals `AdoptDirect` |
| NatAdmission.PeerPool.DisplaceForDiscoveredPeer | src/service/gossip_handle.rs:1705-1763 | equals `MakeRoom` |
| NatAdmission.PeerPool.PickVictim | src/service/peer_pool.rs:697-705 | the scan finds the idle session unused for longest, ties by admission and identity, or none exactly when none is idle |
| NatAdmission.PeerPool.Disconnect | src/service/gossip_handle.rs:2975-2989 | removes the slot and its usefulness record together |
| NatAdmission.QuarterReserved | src/service/peer_pool.rs:310-450 | accepted peers can never take a whole pool: at least a quarter, and at least one slot, is out of their reach |
| NatAdmission.StepKeeps | src/service/gossip_handle.rs:1539-1644 | no admission, removal or link breaks the caps on accepted direct, relayed, total and same-group sessions |
| NatAdmission.RunKeeps | src/service/gossip_handle.rs:2024-2135 | over every interleaving of the three paths with removals and links those caps hold; without links the pool stays within `max_connections` |
| NatAdmission.RunFromEmpty | src/service/gossip_handle.rs:2024-2135 | in particular over every run from an empty pool |
| NatAdmission.DialableStays | src/service/gossip_handle.rs:2032-2041 | over every run without a removal, dial or link of that peer and without a discovered newcomer, a slot that has a dial address stays as it is |
| NatAdmission.InboundNeverReplacesDialable | src/service/gossip_handle.rs:2032-2041 | neither inbound path replaces a slot that has a dial address, nor touches anyone else's |
| NatAdmission.ReturningIsFree | src/service/gossip_handle.rs:1546-1584 | a peer renewing a slot it already holds in the same budget is never refused for capacity |
| NatAdmission.PeerPool.ConnectTo | src/service/gossip_handle.rs:1027-1165 | equals `AdmitLink` for a link this node dialed |
| NatAdmission.PeerPool.AcceptLink | src/connection/listener.rs:278-311 | equals `AdmitLink` for a link the listener accepted |
| NatAdmission.NewcomerIsDiverse | src/service/state.rs:508-544 | a newly dialed session shares neither subnet nor known autonomous system with any other direct outbound one |
| NatAdmission.RelayedOutboundExact | src/service/gossip_handle.rs:1586-1605 | a step takes the relayed outbound sessions over their cap exactly when a direct session is renewed over a relay with the cap reached |
| NatAdmission.RelayedCapHolds | src/service/gossip_handle.rs:1586-1605 | over every run without such a renewal the cap holds |
| NatAdmission.RelayedCapIsExceeded | src/service/gossip_handle.rs:1586-1605 | with one outbound place, dialing a peer and dialing it again over a relay exceeds the cap |
| NatDiversity.DiversityExact | src/service/state.rs:508-544 | from a pool in which no two direct outbound sessions share a subnet or known autonomous system, a step leads to one in which two do if and only if it renews an outbound session, directly, into another's |
| NatDiversity.RunDiverse | src/service/gossip_handle.rs:1539-1610 | over every run of dials, links, adoptions and removals the pool stays diverse throughout if and only if there is no such renewal |
| NatDiversity.RunDiverseFromEmpty | src/service/gossip_handle.rs:1120-1165 | in particular from the empty pool |
| NatDiversity.DiversityCanBeLost | src/service/gossip_handle.rs:1551-1572 | a peer dialed over a relay and then directly shares the subnet of another direct outbound session |
| NatAdmission.RoomMade | src/service/gossip_handle.rs:1705-1763 | making room costs one session, only at a full pool, and never leaves fewer than the minimum |
| NatAdmission.DisplacementIsBounded | src/service/peer_pool.rs:681-705 | a displacement happens only for a discovered newcomer at a full pool, costs one idle session, and never within an interval of the last |
| NatEligibility.NeverAdmitted | src/service/gossip_handle.rs:2011-2020 | no path admits this node itself or a banned peer, and the refusal says so, in that order |
| NatEligibility.StaysOut | src/service/gossip_handle.rs:1522-1532 | over every run a banned peer, and this node itself, gets no slot |
| NatEligibility.NoSelfConnection | src/service/gossip_handle.rs:1522-1524 | no run from the empty pool creates a slot for this node itself |
| NatEligibility.DirectExactly | src/service/gossip_handle.rs:1997-2135 | within the caps, an accepted direct session is taken if and only if it is of the right tier, of a peer neither this node nor banned nor holding a dialable slot, it fits the pool, and with it the counts are still within the caps |
| NatEligibility.RelayedExactly | src/service/gossip_handle.rs:2200-2308 | the same for an accepted circuit, which replaces nothing but a relayed session |
| NatEligibility.DialedExactly | src/service/gossip_handle.rs:1507-1644 | a dialed session is taken if and only if the peer is neither this node nor banned; it renews one this node dialed, is under the relayed cap, or is in no other's subnet or system; and the peer or the pool has a place, or an idle session can make one for a discovered peer |
| NatEligibility.LinkExactly | src/service/gossip_handle.rs:1027-1165 | a WebSocket link is taken if and only if the peer is neither this node nor banned and, when dialed, renews an outbound session or is in no other's subnet or system |
| NatEligibility.CapsAre | src/service/peer_pool.rs:310-450 | the reserve is exactly a quarter, at least one, at each level; no tier is closed while accepted peers have room; one source group has at most a quarter of the direct tier, rounded up, or two; and the values named for pools of 8 and 50 |
| NatEligibility.VictimIsIdlest | src/service/peer_pool.rs:681-705 | the session that makes way has no work under way, is established and idle, and of those the one unused for longest, then held for longest, then of the smallest identity |
| NatEligibility.AdmissionRecorded | src/service/gossip_handle.rs:1507-1644 | an admitted session counts as established and used from then on, and work under way over it still does |
| NatEligibility.BusyIsSpared | src/service/peer_pool.rs:681-705 | over every run during which work is under way over a session at all times, it keeps its slot unless somebody removes, renews or replaces it |
| NatEligibility.RecentlyUsedIsSpared | src/service/peer_pool.rs:681-705 | a session just used or admitted is not cycled out before it has been idle, and established, for long enough |
| NatEligibility.RunKeepsRecords | src/service/gossip_handle.rs:1705-1763 | over every run there is a usefulness record only for sessions in the pool |
| NatEligibility.RefusalsAreTrue | src/service/gossip_handle.rs:1997-2135 | the reason a refusal gives is true, for each reason and path |
| Reassembler.StreamReassembler.WithCaps | src/service/dig_message.rs:310-318 | a fresh reassembler expects sequence 0 |
| Reassembler.StreamReassembler.Accept | src/service/dig_message.rs:333-376 | equals `AcceptChunk`, and its byte count stays exact |
| Reassembler.StreamReassembler.DrainReady | src/service/dig_message.rs:369-375 | the drain loop releases exactly the contiguous run at `next_seq` |
| Reassembler.RunRefinesPrefix | src/service/dig_message.rs:333-376 | over any calls the output is the longest gap-free run of first-accepted payloads, each once and in order; both caps and the byte count hold after each call |
| Reassembler.NextIsLeastMissing | src/service/dig_message.rs:379-382 | `next_seq` is the least sequence number not accepted yet |
| Reassembler.RefusedExactly | src/service/dig_message.rs:333-361 | over any calls a chunk is refused if and only if its number is above the least missing one and not accepted yet, and either as many chunks as allowed are waiting ahead of their turn, or its bytes and theirs exceed the byte cap; and the error says which |
| Reassembler.OrderIndependent | src/service/dig_message.rs:319-376 | any two error-free orders of arrival of the same chunks end in the same state with the same output |
| Reassembler.ErrorsChangeNothing | src/service/dig_message.rs:325-361 | an error changes nothing, and the chunk that fills the gap is never refused |
| Priority.PriorityOutbound.Enqueue | src/gossip/priority.rs:122-128 | appends to one lane |
| Priority.PriorityOutbound.DrainNext | src/gossip/priority.rs:134-162 | equals `Pop`: which lane is served, and the starvation counter |
| Priority.LaneIsFifo | src/gossip/priority.rs:122-162 | each lane is first-in first-out and loses nothing, over any run |
| Priority.Conserved | src/gossip/priority.rs:122-162 | what was queued and enqueued equals what was returned and is still queued |
| Priority.BulkNotStarved | src/gossip/priority.rs:130-162 | whatever is enqueued meanwhile, the bulk message at position j is returned within 11 * (j + 1) drains |
| Priority.CriticalHardlyWaits | src/gossip/priority.rs:130-162 | a critical message with k ahead waits for at most k / 10 + 1 bulk messages and no normal one, and is returned within k + k / 10 + 2 drains |
| Priority.NormalWaitsForCritical | src/gossip/priority.rs:130-162 | a normal message is overtaken by critical messages and by one bulk message for every ten others, and is returned within c + j + (c + j) / 10 + 2 drains when c critical messages come in all |
| RateLimit.DigRateLimiter.Check | src/connection/dig_rate_limiter.rs:93-119 | equals `CheckFrame`: the verdict, and what is charged |
| RateLimit.DigRateLimiter.SyncPeriod | src/connection/dig_rate_limiter.rs:122-130 | tallies are dropped exactly when the absolute window changes |
| RateLimit.KthFrame | src/connection/dig_rate_limiter.rs:93-119 | an inbound limiter admits the k-th frame of an opcode in a window exactly when k, its size and the total of all k sizes meet the scaled limits |
| RateLimit.OutboundFrame | src/connection/dig_rate_limiter.rs:93-119 | an outbound limiter admits a frame exactly when with the admitted ones of its window before it the scaled limits are met: what it refuses uses up nothing |
| RateLimit.UnlimitedPasses | src/connection/dig_rate_limiter.rs:93-100 | an opcode without limits is always admitted |
| RateLimit.WindowBound | src/connection/dig_rate_limiter.rs:93-139 | at most the scaled frequency is admitted in an absolute window, with a clock that never runs backwards |
| RateLimit.IntervalBound | src/connection/dig_rate_limiter.rs:93-139 | at most twice that in any interval of one window's length |
| RateLimit.OutboundVolumeNeverDecides | src/connection/dig_rate_limiter.rs:103-115 | for an outbound limiter without a volume limit the volume test never decides |
| RateLimit.InboundVolumeCanDecide | src/connection/dig_rate_limiter.rs:103-119 | for an inbound one it can: a refused oversized frame uses up the volume of the rest |
| InboundGate.GateAdmitsExactly | src/connection/inbound_limits.rs:116-132 | for every frame sequence and any Chia limiter, a frame is admitted exactly when Chia's limiter alone would admit it and, in the band, the DIG limiter run on the frames reaching it would too |
| InboundGate.GateKthFrame | src/connection/inbound_limits.rs:116-132 | a frame below opcode 220 is admitted exactly when Chia's limiter admits it; from 220 on exactly when that does and the frames of the opcode that reached the DIG limiter in this window, lengths modulo 2^32, meet the scaled limits |
| InboundGate.GateIntervalBound | src/connection/inbound_limits.rs:116-132 | so the gate admits at most twice the scaled frequency of a band opcode in any interval of one window's length |
| PeerCap.Counter.CapReceivedPeers | src/discovery/node_discovery.rs:157-195 | keeps the longest prefix both caps allow and counts it; the counter stays within its cap |
| PeerCap.SequentialFills | src/discovery/node_discovery.rs:157-195 | one after the other, calls end at min(3000, sum of min(len, 1000)) |
| PeerCap.InterleavedBound | src/discovery/node_discovery.rs:176-193 | with at most k callers between their read and their addition the counter never exceeds 3000 + 1000 * (k - 1) |
| PeerCap.BoundIsReached | src/discovery/node_discovery.rs:176-193 | and for every k some interleaving reaches it from a fresh counter |
| HintCache.DistributorHintCache.Union | src/service/distributor_announce.rs:327-339 | equals admitting the announced keys one by one; `seen` mirrors `order`, which repeats nothing and holds at most 64 |
| HintCache.DistributorHintCache.HintsFor | src/service/distributor_announce.rs:360-369 | answers the retained launchers of the store, strictly ascending |
| HintCache.RetainsLatestNovel | src/service/distributor_announce.rs:327-339 | the cache is a first-in first-out queue over novel keys: exactly the latest 64 of them |
| HintCache.AnswersAreSorted | src/service/distributor_announce.rs:360-369 | an answer depends on nothing but the set of retained keys |
| HintCache.FramesAreKeys | src/service/distributor_announce.rs:327-339 | a run of frames leaves what admitting all their keys one by one leaves, however the keys are cut into frames |
| HintCache.ArrivalOrderDoesNotShow | src/service/distributor_announce.rs:344-369 | any two runs of frames announcing the same at most 64 distinct keys give equal answers |
| HintCache.AnswersWhatWasAnnounced | src/service/distributor_announce.rs:327-369 | up to 64 announced keys, a query for a store is answered with exactly the launchers some frame announced for it |
| HintCache.ByteOrderIsNumeric | src/service/distributor_announce.rs:360-369 | ids as numbers compare as the byte strings the answers are sorted by |
| Codecs.DecodeAnnounce | src/service/distributor_announce.rs:216-235 | on every byte string: decoding gives `a` exactly when `a` has at most 32 ids and the bytes are its encoding |
| Codecs.AnnounceInjective | src/service/distributor_announce.rs:198-206 | different announcements never share an encoding, the 16-bit count notwithstanding |
| Codecs.RootRefExact | src/service/profile_sync.rs:118-139 | decoding gives `r` exactly on the encoding of `r`, on all byte strings |
| Codecs.BodyExact | src/service/profile_sync.rs:175-216 | decoding gives `v` exactly on the encoding of a `v` that fits a frame, on all byte strings |
| Codecs.FramedBodiesArrive | src/service/profile_sync.rs:297-306 | a body is refused by the sender or understood by every receiver |
| Codecs.FrameExact | src/service/dig_message.rs:140-204 | decoding gives a data frame exactly on its encoding, and an open or close on its encoding followed by anything |
| Codecs.BeInverse | src/service/dig_message.rs:201-204 | big-endian integers and byte strings of their width correspond |
| WireFormat.BigEndianDigit | src/service/dig_message.rs:201-204 | the bytes of an integer are its base-256 digits, highest first |
| WireFormat.AnnounceLayout | src/service/distributor_announce.rs:193-206 | store, count in two bytes, 32 bytes for each id |
| WireFormat.RootRefLayout | src/service/profile_sync.rs:118-139 | store and root, 32 bytes each |
| WireFormat.BodyLayout | src/service/profile_sync.rs:175-216 | store, root, length in four bytes, body |
| WireFormat.FrameLayout | src/service/dig_message.rs:135-168 | kind (0 opens, 1 is data, 2 closes), stream in eight bytes, and for data the sequence number in eight and the payload |

## Left out

- AddressManager.Inner.ToAddressManagerState: `sort_by_key` on the ids is the function `SortedIds`; the file format and the atomic write around it are not modelled.
- AddressManager.Inner.AddToNewTable: an announcement that would hand out the id 0xFFFF_FFFF, whose cell reads as EMPTY, is excluded; it breaks the invariant (`AddressRuns.AddInv`), and what the program does after it is not modelled.
- AddressRuns.RunInv: runs carry the side condition on promotions, because what follows a hazardous one is a stopped program or a wrong `random_pos` (`AddressPromotion.HazardPointsPastTheEnd`, `AddressPromotion.AppendedRowIsLost`).
- AddressHazard.HazardIsReachable, AddressDeadQueue.DeadQueueIsReachable: the digest is one made up for the run, in place of SHA-256; that some secret key sends five real addresses to such cells is not shown.
- Lengths and counters of 64 bits are unbounded numbers, except where the program saturates or casts them.
- Debug assertions and overflow checks are taken as panics; under the invariant none is reached.
- select_peer_ and its floating-point selection odds: random walks, and whether they end depends on the draws.
- SHA-256, IP-literal parsing and get_selection_chance: the bucket and slot functions are modelled over an arbitrary digest.
- The `new_table_log` and `peers_file_path` fields of the address manager, and all file input and output.
- FanOut.GossipNode.FanOut: per-connection byte counters are not modelled, and the two service-wide counters do not wrap at 64 bits; a peer map that changes between classification and sending is not modelled either, since the jobs are fixed under the lock.
- Flood.FloodComplete: one message at a time; other messages matter only by evicting seen-set entries, which is excluded.
- Plumtree's lazy queue and timeouts: the announcements are recorded and expired but not yet sent.
- Sessions.RunKeeps: a keepalive that fails between its start and the insertion of its slot is harmless here, but the session is then left without a keepalive; the program relies on the first interval being longer than that gap.
- Sessions: round-trip samples are credited to whichever live slot the peer holds, without a generation check; reputation, ban tables and the sockets themselves are not modelled.
- NatAdmission.RunKeeps: the bound on the pool's size excludes WebSocket links, whose capacity check and insertion are separated by awaits.
- NatAdmission.PeerPool.PickVictim: the pool configuration is taken as already normalised as to `min_peers`; identities are compared as big-endian numbers.
- NatAdmission: the usefulness record of an admission is written in the same step as the slot; the program writes it just after releasing the lock.
- Reassembler.OrderIndependent: a sequence number re-sent with another payload is excluded; the first payload wins, so the order of those two shows.
- RateLimit: frequencies, sizes and tallies are reals, so floating-point rounding is not modelled.
- Lru: the cache library is its specification, a map with a recency order.
- HintCache.DistributorHintCache.HintsFor: the library sort is the function `SortedIds`.
- TLS, WebSocket and tokio, discovery and feeler loops, opcode tables, compact blocks, reconciliation sketches, hole punching, relay and introducer clients: libraries, plumbing or finite tables.
