# A verified model of the layer-4 balancer

The balancer has two halves: a C++ control plane that turns a configuration into kernel tables, and an
XDP program that reads those tables for every packet. This project models the parts of both that are
hard to get right, in Dafny 4.11, and proves what they promise. `dafny verify dfyconfig.toml` checks all
of it.

The style is the same throughout. Code that updates state in place is a class whose methods loop and
assign as the code does; each method is proved equal to a pure function, and the properties are lemmas
about runs of those functions.

## The modules

| module | models |
|---|---|
| `Maglev`, `ConsistentHash` | the preference lists, the turn-taking table fill, and one ring's update / merge / clear / tick life cycle |
| `ChManager` | the ring manager, the kernel maps a ring is mirrored into, and the per-packet ring lookup |
| `RingWrites` | the single writes by which a ring reaches those maps, and what packets between two of them pick |
| `RingHistory` | the manager's rings and the one set of maps they share, over any sequence of reloads and seconds |
| `Schedule`, `Selection` | round robin with its retry loop, weighted round robin, and the periodic schedule both follow |
| `PacketPath` | one TCP packet as one atomic step: session lookup, selection, session creation and closing, per-CPU connection counters; and the UDP selection |
| `PacketRules` | what one packet does to the maps, case by case, in the maps' own fields |
| `Sessions`, `Fairness` | whole runs of packets: connection conservation, session affinity, slice integrity, fairness |
| `Layout` | how a configuration becomes one flat backend array with a slice per service, and the list a ring is built from |
| `DoubleBuffer`, `Loading` | the two-sided configuration as a protocol between a writer's single writes and readers in between, and one load as a run of it |
| `Resets` | the steps after the flip as a protocol between the control plane's single map operations and packets in between |
| `Dataplane` | `ReloadConfig` as a whole, on the state of the modules above |
| `Serving`, `RingFlows`, `PacketHash` | end to end: what a loaded configuration means for the packets that follow, of round-robin services and of ring services |
| `Traffic` | the same selections over runs of TCP and UDP packets mixed |
| `SynGuard` | the SYN-rate guard on its own, over arbitrary call sequences |
| `Checksum`, `Rewrites` | the incremental checksum helpers, the IPv6 rewrites, and what the configuration does to their verdicts |
| `NumberTheory`, `XdpTypes` | Euclid's lemma, division facts, and the shared records |

Parameters of the model: the two seeded hashes of a backend are uninterpreted functions; the ring lookup's
answer for a packet is part of the packet, and results about rings say which answer the kernel's maps give; the
clock is part of each packet and call; address parsing and ARP/NDP answers are part of the configuration; a refusal
of one map write by the kernel is a parameter of the reload.

The methods of `Dataplane` run without packets in between. Each of them is also proved to be a run of single events
(`DoubleBuffer` up to the flip, `Resets` after it), and the results with traffic are about all runs of those events
with packets anywhere between them.

## What the code does that its documentation or names do not say

Where the two disagree the model follows the code.

- A missing MAC address aborts the whole reload; it does not skip the backend (`Layout.FirstFault`).
- Ring sizes must be prime: on every composite size some hash values give a list that repeats slots
  (`Maglev.RingMustBePrime`), and a sole backend with such a list runs off its end (`Maglev.SoleBackendRunsOut`).
- All rings share one set of kernel maps, and a ring that left the configuration keeps its pending merge. When that
  completes, the departed ring's tables are written over the configured ring's, which stay hidden until its own
  merge (`RingHistory.DepartedRingTakesOver`). Which ring is shown after n seconds is exact
  (`RingHistory.ShownAfterSeconds`); with one ring service ever configured it is always that one.
- So with several ring services the flows of all of them open on the reals of the last one
  (`Dataplane.XdpDataplane.LastRingServesThemAll`).
- The ring maps are not double-buffered, and backends are written before the table. In between a hash is answered by
  the old table's index into the new list; when that is neither ring's answer is exact
  (`RingWrites.AnsweredByNeitherExactly`).
- A ring session stores a position in the ring's array, and its later packets read that position of the service
  array. All of a ring's flows stay where they started exactly when its list is the head of the whole array
  (`RingFlows.AllFlowsStayExactly`): the packet hash takes every 32-bit value over the flows of a service.
- `isStable` and `lookup().stable` disagree exactly on the empty ring; both compare positions, so replacing
  the only backend of a ring looks stable for every key.
- Round robin looks at four backends after the cursor, not at all of them.
- A round-robin service without reals selects the first real of the next service that has any
  (`Serving.ServiceWithoutRealsTakesTheNext`).
- A pure SYN that overwrites a session, and an insert into the full session map, leave a connection counted
  that no session will ever release (`PacketRules.PureSynLosesOne`). From a balanced start this is the exact gap between counters and sessions, and
  then a single CPU's counter can go below zero while the sum over CPUs cannot.
- A reload clears the sessions first and zeroes the counters afterwards, one map operation at a time. A counter
  starts balanced exactly when no session counted in it is live when its row is zeroed
  (`Resets.CountedFromTheZeroing`); without a packet in between none is, but a flow that opens in between and
  closes later can make the sum over CPUs negative (`Resets.SumGoesNegative`).
- Until the reload has emptied the weighted states, one of the old configuration can make a service pick outside its
  slice; when exactly, and for how many picks, is `Resets.WrrStaysInSliceExactly` and `Resets.StrayPicksEnd`. When
  the cursors do not fit their map the reload stops before emptying them, and round-robin services left without a
  cursor answer no new flow (`Resets.StuckForGood`, `Resets.NobodyAnswersWithoutCursor`).
- The SYN guard's own limit admits twice the threshold in an interval of a window's length, and no more. But the
  packet program never hands it a pure SYN, so as called it counts none, bans nobody and drops nothing
  (`SynGuard.HandledRunsNeverDrop`).
- `csum_replace16` drops its second carry, which turns a valid checksum invalid exactly when the new port is
  one more than the old port plus the checksum after the address step. A selected record keeps the port exactly if it
  has the service's. Records of a configured service's own slice have it, so round robin and weighted round robin of
  configured services with reals never meet the lost carry once the weighted states are the present configuration's,
  nor does a configured UDP service of any algorithm. A ring can, when it finds an address shared with an earlier service of another port (`Rewrites.RingBreaksAChecksum`), and so can a service
  dropped from the configuration (`Rewrites.DroppedServiceBreaksAChecksum`).
- Service keys are never deleted: a service dropped from the configuration stays where it was loaded, is served from
  its old slice of the newest array when that side is active (`Serving.DroppedServiceUsesItsOldSlice`), keeps the
  number it is counted under, which may be a configured service's now (`Serving.RowCountsByNumber`), and keeps
  using up room, so a configuration that fits by itself can fail to load (`Loading.FitsAloneButNotAfterOthers`).
- Errors after the flip are returned although the new configuration is in force. In particular the service
  statistics reset takes the array index from the first four bytes of the service key, so a reload reports an
  error whenever that number is 256 or more; and the connections of the sessions a reload clears stay in the
  rows it misses.
- A ring looks its reals up by address over the whole configuration: a real that an earlier service disables
  is disabled in a later service's ring as well.
- When no real of a ring is enabled the manager forgets the ring but the kernel's maps keep it.

## Model

| member | source | states |
|---|---|---|
| `NumberTheory.ProductNotMultiple` | controlplane/src/algorithm/consistent_hash.cpp:205-210 | Euclid's lemma, as the walk by `skip` needs it: a prime that divides neither factor does not divide the product |
| `NumberTheory.DefaultRingSizeIsPrime` | controlplane/include/algorithm/consistent_hash.h:23 | the default ring size 65537 is prime |
| `NumberTheory.LargeRingSizeIsPrime` | controlplane/include/algorithm/consistent_hash.h:24 | the large ring size 999983 is prime |
| `Maglev.ChoiceFitsMachineWords` | controlplane/src/algorithm/consistent_hash.cpp:205-209 | for every 32-bit ring size the 64-bit `offset + j * skip` does not wrap and the stored slot fits 32 bits |
| `Maglev.PrimeRingListsEverySlot` | controlplane/src/algorithm/consistent_hash.cpp:202-211 | on a prime ring every offset and skip list each slot exactly once |
| `Maglev.RingMustBePrime` | controlplane/src/algorithm/consistent_hash.cpp:202-211 | all offsets and skips give full lists if and only if the ring size is prime |
| `Maglev.SoleBackendRunsOut` | controlplane/src/algorithm/consistent_hash.cpp:227-245 | a sole backend whose list repeats a slot finds a free choice exactly until it has claimed every slot it lists, when the ring is not yet full |
| `Maglev.FirstFree` | controlplane/src/algorithm/consistent_hash.cpp:229-235 | the chosen position is free and everything before it on the list is taken |
| `Maglev.SlotStillFree` | controlplane/src/algorithm/consistent_hash.cpp:232-235 | while the ring is not full, a full list has a free slot, so the skip loop never reads past the list |
| `Maglev.Claims` | controlplane/src/algorithm/consistent_hash.cpp:227-245 | after t turns t different slots inside the ring are claimed |
| `Maglev.RingIsFull` | controlplane/src/algorithm/consistent_hash.cpp:214-247 | every slot ends up naming one of the backends |
| `Maglev.DraftNeverPassesOver` | controlplane/src/algorithm/consistent_hash.cpp:228-239 | whatever a backend prefers to the slot it took had been claimed in an earlier turn |
| `Maglev.DraftIsUnique` | controlplane/src/algorithm/consistent_hash.cpp:227-245 | the draft is the only sequence of distinct claims in which no backend passes over a free slot it prefers |
| `Maglev.RingIsBalanced` | controlplane/src/algorithm/consistent_hash.cpp:227-245 | backend i ends with exactly m / n slots, plus one if i < m mod n |
| `ConsistentHash.ComputeChoice` | controlplane/src/algorithm/consistent_hash.cpp:209 | the 64-bit sum, remainder and 32-bit cast lose nothing: (offset + j * skip) mod the ring size |
| `ConsistentHash.EveryListIsComplete` | controlplane/src/algorithm/consistent_hash.cpp:193-212 | for all hash values every backend's list is a permutation of the ring |
| `ConsistentHash.TableEntries` | controlplane/src/algorithm/consistent_hash.cpp:34-41 | a nonempty list's table names only its backends; the empty list's table is all -1 |
| `ConsistentHash.WalkIsTheList` | controlplane/src/algorithm/consistent_hash.cpp:202-210 | two hashes have exactly one such walk |
| `ConsistentHash.TableIsDecided` | controlplane/src/algorithm/consistent_hash.cpp:193-247 | from the hashes alone: any sequence of claims in which no backend, walking the ring by its own hashes, passes over a free slot is the table's, turn k's slot naming backend k mod n |
| `ConsistentHash.ClaimFirstFree` | controlplane/src/algorithm/consistent_hash.cpp:229-239 | one turn claims the first free choice; all choices before the backend's next index stay taken |
| `ConsistentHash.TakeTurn` | controlplane/src/algorithm/consistent_hash.cpp:229-239 | the working arrays move from the draft after count turns to the draft after count + 1 |
| `ConsistentHash.PlayRound` | controlplane/src/algorithm/consistent_hash.cpp:228-244 | a pass over the backends advances the draft to the end of the round or to the full ring |
| `ConsistentHash.PopulateLookupTable` | controlplane/src/algorithm/consistent_hash.cpp:214-247 | the fill terminates, stays inside its arrays and leaves the drafted ring |
| `ConsistentHash.ReachableIsCoherent` | controlplane/src/algorithm/consistent_hash.cpp:16-58 | in every reachable state: no merge pending means prev stands for the same list as curr, the timer is below the timeout, merges plus a pending one never exceed updates |
| `ConsistentHash.SettledIsUntouched` | controlplane/src/algorithm/consistent_hash.cpp:24-32 | nonempty updates, ticks and lookups leave the previous table's list alone until a merge or clear |
| `ConsistentHash.SettledIsLastMerge` | controlplane/src/algorithm/consistent_hash.cpp:114-129 | the previous table stands for the list that was current at the last merge since the last clear |
| `ConsistentHash.SettledIsBlank` | controlplane/src/algorithm/consistent_hash.cpp:145-156 | with no merge since the last clear the previous table is blank |
| `ConsistentHash.MergesOnExactlyTheTimeout` | controlplane/src/algorithm/consistent_hash.cpp:131-143 | after a nonempty update, ticks alone merge on exactly the timeout-th one |
| `ConsistentHash.StatisticsCount` | controlplane/src/algorithm/consistent_hash.cpp:49-50 | over any history the update and merge counts are the numbers of nonempty updates and of completed merges, clears or not |
| `ConsistentHash.ConsistentHashInstance.constructor` | controlplane/src/algorithm/consistent_hash.cpp:9-14 | a new ring is blank and valid |
| `ConsistentHash.ConsistentHashInstance.GenerateRow` | controlplane/src/algorithm/consistent_hash.cpp:203-210 | the row starts at the first hash modulo the ring size, and each entry is the one before plus (second hash mod (size - 1)) + 1 |
| `ConsistentHash.ConsistentHashInstance.GeneratePermutations` | controlplane/src/algorithm/consistent_hash.cpp:193-212 | the rows are those walks of the backends, in order |
| `ConsistentHash.ConsistentHashInstance.BuildTable` | controlplane/src/algorithm/consistent_hash.cpp:34-41 | the new table is the one its backend list stands for |
| `ConsistentHash.ConsistentHashInstance.UpdateBackends` | controlplane/src/algorithm/consistent_hash.cpp:16-58 | keeps the invariant, follows the life cycle, and a nonempty update never changes the previous table |
| `ConsistentHash.ConsistentHashInstance.MergeRings` | controlplane/src/algorithm/consistent_hash.cpp:114-129 | a pending merge settles the current list, otherwise nothing happens |
| `ConsistentHash.ConsistentHashInstance.TickMergeTimer` | controlplane/src/algorithm/consistent_hash.cpp:131-143 | returns true exactly when this tick completed a merge |
| `ConsistentHash.ConsistentHashInstance.ClearAll` | controlplane/src/algorithm/consistent_hash.cpp:145-156 | both tables blank, no backend, nothing pending |
| `ConsistentHash.ConsistentHashInstance.TablesAreBlankOrFull` | controlplane/src/algorithm/consistent_hash.cpp:12-55 | in every reachable state each table is all -1 or wholly filled, and equal to the other unless a merge is pending |
| `ConsistentHash.ConsistentHashInstance.FirstSlotTellsBlank` | controlplane/src/algorithm/consistent_hash.cpp:25-32 | the first slot alone tells whether the current table is blank, as the update assumes |
| `ConsistentHash.ConsistentHashInstance.LookupCurr` | controlplane/src/algorithm/consistent_hash.cpp:82-90 | answers exactly on nonempty rings, and then with a backend's index |
| `ConsistentHash.ConsistentHashInstance.LookupFindsBackend` | controlplane/src/algorithm/consistent_hash.cpp:60-100 | the three lookups of a nonempty ring agree with each other and with the tables |
| `ConsistentHash.ConsistentHashInstance.StableExactly` | controlplane/src/algorithm/consistent_hash.cpp:60-112 | both stability tests in terms of the two tables' entries for the key |
| `ConsistentHash.ConsistentHashInstance.StabilityTestsAgree` | controlplane/src/algorithm/consistent_hash.cpp:60-112 | `lookup().stable` equals `isStable()` if and only if there are backends |
| `ConsistentHash.ConsistentHashInstance.SoleBackendSwapLooksStable` | controlplane/src/algorithm/consistent_hash.cpp:70-111 | replacing a sole backend looks stable for every key |
| `ChManager.ChKernelMaps.UpdateChBpfMaps` | controlplane/src/manager/xdpdataplane.cpp:849-914 | succeeds exactly when backends and tables fit the maps, then the maps show the ring, and that is the run of its single writes |
| `ChManager.ChKernelMaps.MirrorTable` | controlplane/src/manager/xdpdataplane.cpp:887-909 | writes min(ring size, table length) entries and leaves the rest, or fails exactly when they do not fit |
| `ChManager.ChKernelMaps.WriteBackends` | controlplane/src/manager/xdpdataplane.cpp:861-885 | size, count and backends as the first single writes of the ring, or failure exactly when the backends do not fit |
| `ChManager.PickIsTheLookup` | xdp/balancer.bpf.c:369-452 | the lookup on the kernel's maps is the one of the single-write model |
| `ChManager.MirrorIsShown` | controlplane/src/manager/xdpdataplane.cpp:876-909 | maps that mirror a ring of enabled backends are where the next ring's writes start from |
| `RingWrites.WrittenIs` | controlplane/src/manager/xdpdataplane.cpp:861-909 | what the maps hold after the first n single writes of a ring |
| `RingWrites.AllWritten` | controlplane/src/manager/xdpdataplane.cpp:861-909 | once the table is written the maps show the new ring |
| `RingWrites.PickBetweenWrites` | controlplane/src/manager/xdpdataplane.cpp:876-897 | after any n writes: a hash whose table entry is not written is answered by the old entry's index into the backends as far as written, any other by the new ring |
| `RingWrites.AnsweredByNeitherExactly` | controlplane/src/manager/xdpdataplane.cpp:876-897 | a packet between two writes is answered by neither ring if and only if its table entry is the old one, the backend there is another one already, and the new table does not name that place |
| `ChManager.KernelAgreesWithControlPlane` | xdp/balancer.bpf.c:369-452 | while the maps mirror a ring, the kernel picks for every hash the backend `lookupCurr` names, or none if it is disabled |
| `ChManager.KernelStabilityTest` | xdp/balancer.bpf.c:402-417 | the kernel's unused stability test equals `isStable()` if and only if something has settled or the ring is empty |
| `ChManager.ConsistentHashManager.Publish` | controlplane/src/algorithm/consistent_hash.cpp:316-325 | after the callback the maps mirror the ring if it fits them |
| `ChManager.ConsistentHashManager.UpdateServiceBackends` | controlplane/src/algorithm/consistent_hash.cpp:295-328 | updates or creates that service's ring, leaves the others alone, and mirrors it |
| `ChManager.ConsistentHashManager.RemoveService` | controlplane/src/algorithm/consistent_hash.cpp:330-334 | forgets the ring, leaves the kernel maps as they are |
| `ChManager.ConsistentHashManager.MaintainOne` | controlplane/src/algorithm/consistent_hash.cpp:352-365 | one ring's tick; a completed merge is mirrored |
| `ChManager.ConsistentHashManager.TickAll` | controlplane/src/algorithm/consistent_hash.cpp:352-365 | every ring ticks once, and the maps mirror the last one in visiting order whose merge completed, or what they did if none did |
| `ChManager.ConsistentHashManager.PeriodicMaintenance` | controlplane/src/algorithm/consistent_hash.cpp:348-366 | the same for all managed services |
| `RingHistory.ReloadShowsTheLastRing` | controlplane/src/manager/xdpdataplane.cpp:548-617 | after a reload the maps show the last nonempty list if it fits them, or what they showed before if all are empty |
| `RingHistory.LastWritten` | controlplane/src/manager/xdpdataplane.cpp:608-615 | the last entry with a backend: none follows it, and there is none exactly when all are empty |
| `RingHistory.ReloadKeepsDepartedRings` | controlplane/src/manager/xdpdataplane.cpp:548-617 | a ring whose service is not in the configuration stays managed as it was |
| `RingHistory.OneRingIsAlwaysShown` | controlplane/src/algorithm/consistent_hash.cpp:295-366 | with one ring service, after any sequence of reloads and seconds, the maps show the ring of the latest list |
| `RingHistory.RingAfterSeconds` | controlplane/src/algorithm/consistent_hash.cpp:131-143 | after n seconds a ring is merged exactly if its pending merge had at most n seconds left |
| `RingHistory.ShownAfterSeconds` | controlplane/src/algorithm/consistent_hash.cpp:348-366 | with any rings, the maps still show a ring n seconds on if and only if every other merge completing by then is followed by the ring's own |
| `RingHistory.ReloadedRingIsShown` | controlplane/src/algorithm/consistent_hash.cpp:316-325 | after a reload, within the timeout, that is: if and only if no other ring's merge completes |
| `RingHistory.DepartedRingTakesOver` | controlplane/src/algorithm/consistent_hash.cpp:352-365 | ring a, then d seconds later ring b alone: from a's merge until b's own the maps show a |
| `Schedule.Holder` | xdp/balancer.bpf.c:502-511 | the entry whose weight-prefix interval contains the position |
| `Schedule.FullCycle` | xdp/balancer.bpf.c:497-517 | any full cycle of turns, from any start, gives each entry exactly its weight |
| `Schedule.FollowingIsFair` | xdp/balancer.bpf.c:497-517 | picks that follow the schedule choose each entry exactly its weight in every window of one cycle |
| `Selection.RrFinds` | xdp/balancer.bpf.c:576-581 | the first active backend cyclically after the cursor is found when it is within the attempts left |
| `Selection.RrFailsExactly` | xdp/balancer.bpf.c:576-581 | the search fails if and only if none of the next four positions is active |
| `Selection.RrTakesNextTurn` | xdp/balancer.bpf.c:459-475 | with no four consecutive inactive backends every search takes the next turn of the schedule of equal weights |
| `Selection.WrrTakesNextTurn` | xdp/balancer.bpf.c:497-517 | a search that can reach an eligible backend takes the next turn of the weighted schedule |
| `Selection.WrrGivesUp` | xdp/balancer.bpf.c:497-519 | with nothing eligible within the attempts the search fails and leaves the state past every entry it looked at |
| `Selection.WrrFailsOnlyWhenNoneEligible` | xdp/balancer.bpf.c:477-520 | up to 32 backends, the search fails if and only if none is active with a positive weight |
| `PacketPath.KernelMaps.RrBalancerHandle` | xdp/balancer.bpf.c:457-475 | advances the cursor and returns the record there; without a cursor nothing happens |
| `PacketPath.KernelMaps.RrSelect` | xdp/balancer.bpf.c:576-581 | the retry loop is the recursive search |
| `PacketPath.KernelMaps.WrrBalancerHandle` | xdp/balancer.bpf.c:477-520 | the attempts loop is the recursive search and returns only active backends |
| `PacketPath.KernelMaps.SelectBackend` | xdp/balancer.bpf.c:574-601 | selection by the service's algorithm |
| `PacketPath.KernelMaps.Process` | xdp/balancer.bpf.c:525-646 | a packet's in-place updates equal the pure step that all whole-run results are about |
| `PacketPath.KernelMaps.ProcessUdp` | xdp/balancer.bpf.c:649-703 | the UDP selection equals the pure one, which gives a ring service nothing |
| `PacketRules.SelectsAfresh` | xdp/balancer.bpf.c:571-642 | a pure SYN, or a packet without a session, selects from the cursors as they stand; its session is written over any other, its connection counted on its CPU; without a pick sessions and counters stay |
| `PacketRules.PureSynLosesOne` | xdp/balancer.bpf.c:546-612 | a pure SYN with a live session raises counter sum minus live sessions by exactly one where that session was, and nowhere else |
| `PacketRules.PureSynTakesTheNext` | xdp/balancer.bpf.c:576-612 | a pure SYN goes to the first active backend after the round-robin cursor, which moves there, whatever session its flow has |
| `PacketRules.ServedBySession` | xdp/balancer.bpf.c:545-642 | any other packet of a live session goes to its position and moves no cursor; it is refreshed, or ended and counted off on the packet's CPU |
| `PacketRules.ExpiryUncounts` | xdp/balancer.bpf.c:550-561 | an expired session is removed, counted off on the CPU of the packet that finds it, and the packet handled as if there were none |
| `PacketRules.PositionOutsideTheArray` | xdp/balancer.bpf.c:563-622 | a live session whose position has no record selects afresh; FIN or RST then count off at the new pick |
| `PacketRules.FailedRoundRobinMovesOn` | xdp/balancer.bpf.c:576-581 | a failed round-robin search has moved the cursor five on |
| `PacketRules.FailedWeightedMovesOn` | xdp/balancer.bpf.c:493-519 | a failed weighted search has moved its state past every entry it looked at |
| `PacketRules.NoAnswerNoBackend` | xdp/balancer.bpf.c:588-604 | an unknown algorithm, or a ring without an answer, changes nothing and gives nothing |
| `Sessions.StepAddsItsLoss` | xdp/balancer.bpf.c:546-643 | one packet changes counter sum minus live sessions, per backend and per service, by exactly what it loses |
| `Sessions.ConnectionsAreConserved` | xdp/balancer.bpf.c:546-643 | over any run on any CPUs: connections summed over CPUs equal live sessions plus those lost to overwriting or a full map, and are never negative |
| `Sessions.SurplusIsLoss` | xdp/balancer.bpf.c:546-643 | the same from any starting state |
| `Sessions.OneCpusCopyCanDrop` | xdp/balancer.bpf.c:192-199 | one CPU's counter drops below its start when only the closing packet ran there |
| `Sessions.OtherFlowsDoNotInterfere` | xdp/balancer.bpf.c:545-622 | packets of other flows leave a flow's session as it is |
| `Sessions.SessionServes` | xdp/balancer.bpf.c:545-569 | a live session decides the backend, is refreshed, and ends with FIN or RST |
| `Sessions.OpeningStartsSession` | xdp/balancer.bpf.c:603-612 | a packet that opens a round-robin session stores the backend it is sent to |
| `Sessions.FlowStaysOnItsBackend` | xdp/balancer.bpf.c:545-622 | affinity: up to and including the first FIN or RST all packets of the flow go to the backend chosen at creation, whatever other flows do |
| `Sessions.RingOpenerStartsSession` | xdp/balancer.bpf.c:588-612 | a ring session's first packet goes to the ring's answer and stores its position |
| `Sessions.RingFlowFollowsTheOtherArray` | xdp/balancer.bpf.c:564-622 | all later packets up to the first FIN or RST go to the service array's record at that position, which is the opener's if and only if both arrays agree there |
| `Sessions.SurvivingSessionReadsTheNewArray` | xdp/balancer.bpf.c:564-566 | between a flip and the reset, or when the reset is not reached, a session's packets go to its position in the new array, the same backend if and only if the record is the same |
| `Sessions.EverySessionIsInItsSlice` | xdp/balancer.bpf.c:457-612 | from a start without sessions and weighted states, every live session carries its service's index and points at an active backend of its service's slice |
| `Sessions.RunStaysInSlices` | xdp/balancer.bpf.c:457-612 | any run keeps that, whatever the start |
| `Sessions.ForwardsIntoSlice` | xdp/balancer.bpf.c:563-601 | whatever a packet is forwarded to lies in its service's slice and is active |
| `Fairness.PickIsOneSelection` | xdp/balancer.bpf.c:571-612 | a packet without a usable session runs the selection once on the cursors as they stand |
| `Fairness.OthersDoNotMoveCursors` | xdp/balancer.bpf.c:545-601 | any other packet leaves a service's cursors alone |
| `Fairness.WeightedServiceFollowsSchedule` | xdp/balancer.bpf.c:477-520 | from any reachable state and over any traffic, a service's picks follow the weighted schedule |
| `Fairness.WeightedServiceIsFair` | xdp/balancer.bpf.c:477-520 | every W consecutive picks choose each active backend exactly its weight |
| `Fairness.RoundRobinServiceFollowsSchedule` | xdp/balancer.bpf.c:457-475 | over any traffic the picks follow the schedule of the active backends |
| `Fairness.RoundRobinServiceIsFair` | xdp/balancer.bpf.c:457-475 | every A consecutive picks choose each of the A active backends exactly once |
| `Layout.SliceHoldsItsReals` | controlplane/src/manager/xdpdataplane.cpp:381-457 | what lies at a service's slice is that service's reals, in order |
| `Layout.KeyIsExact` | controlplane/src/manager/xdpdataplane.cpp:350-379 | a service's key, field by field |
| `Layout.RingKeyIsExact` | controlplane/src/manager/xdpdataplane.cpp:591-606 | the ring manager's key, field by field: the address version as configured |
| `Layout.PlanIsLaidOut` | controlplane/src/manager/xdpdataplane.cpp:347-458 | field by field, what is loaded: each service's key and slice, and in the slice each real's address, version, MAC, port, weight and flag, in order |
| `Layout.SlicesPartitionTheArray` | controlplane/src/manager/xdpdataplane.cpp:338-458 | slices are consecutive from 0 to the total, and every position has exactly one owner |
| `Layout.EveryRecordIsAReals` | controlplane/src/manager/xdpdataplane.cpp:381-445 | every record of the array, a ring's entries and the positions its sessions read included, is field by field that of a real of the service owning the position |
| `Layout.RingHasTheEnabledReals` | controlplane/src/manager/xdpdataplane.cpp:548-589 | a ring's list has one entry per enabled real, and is those reals if and only if each is the first entry with its address |
| `Layout.DistinctAddressesAreFound` | controlplane/src/manager/xdpdataplane.cpp:555-589 | distinct addresses over the configuration are enough for that |
| `Layout.SharedAddressGoesDark` | controlplane/src/manager/xdpdataplane.cpp:560-587 | an address disabled in an earlier service makes a later ring's enabled real inactive |
| `Layout.RingEntryInConfig` | controlplane/src/manager/xdpdataplane.cpp:556-588 | a ring's entry for an enabled real is the first record of the whole array with its address and version |
| `Layout.EnabledRecordsAreReals` | controlplane/src/manager/xdpdataplane.cpp:556-588 | every enabled record is, field by field, that of an enabled real of the service |
| `Layout.EnabledRecordsInOrder` | controlplane/src/manager/xdpdataplane.cpp:556-588 | each enabled real's record stands at the place given by the number of enabled reals before it |
| `Layout.EnabledRecords` | controlplane/src/manager/xdpdataplane.cpp:556-588 | as many records as enabled reals, all active |
| `DoubleBuffer.RunsStayConsistent` | controlplane/src/manager/xdpdataplane.cpp:473-529 | after any interleaving of writes, flips and failures the active side holds the committed plan in full |
| `DoubleBuffer.ReadersSideIsUntouched` | controlplane/src/manager/xdpdataplane.cpp:488-529 | the side a reader looks at does not change until a write follows a flip |
| `DoubleBuffer.ReaderSeesOneConfiguration` | xdp/balancer.bpf.c:535-543 | index, service info and backends read at three different moments belong to the one configuration committed at the first |
| `DoubleBuffer.ReaderGetsItsServicesReals` | xdp/balancer.bpf.c:535-572 | and the records read are that service's own reals, with its algorithm and index |
| `DoubleBuffer.WriteAfterFlipTearsTheRead` | controlplane/src/manager/xdpdataplane.cpp:488-507 | the condition is needed: the first write of the reload after next replaces what the reader sees |
| `DoubleBuffer.UnflippedRunsChangeNothingActive` | controlplane/src/manager/xdpdataplane.cpp:508-522 | a reload that fails before its flip leaves index, committed plan and active side alone |
| `DoubleBuffer.DroppedServicesLinger` | controlplane/src/manager/xdpdataplane.cpp:509-518 | a service no later configuration mentions stays on both sides exactly as it was |
| `DoubleBuffer.WrittenKeys` | controlplane/src/manager/xdpdataplane.cpp:491-522 | the keys on the written side are the old ones plus the plan's |
| `DoubleBuffer.LoadFitsExactly` | controlplane/src/manager/xdpdataplane.cpp:491-522 | the kernel takes a plan if and only if its backends fit the array and its keys fit beside all keys already on that side |
| `Loading.WritesLoadTheInactiveSide` | controlplane/src/manager/xdpdataplane.cpp:488-522 | the writer's single writes are events of the protocol and touch the inactive side only |
| `Loading.LoadSucceedsExactly` | controlplane/src/manager/xdpdataplane.cpp:491-522 | a load gets through if and only if the plan fits and no element is refused |
| `Loading.LoadsAddUp` | controlplane/src/manager/xdpdataplane.cpp:509-522 | a plan loaded two reloads after another must fit beside all of its keys, though none of them is configured |
| `Loading.FitsAloneButNotAfterOthers` | controlplane/src/manager/xdpdataplane.cpp:509-522 | one service that fits blank maps and fails to load after 256 others came and went |
| `Loading.DroppedOverTheNewest` | controlplane/src/manager/xdpdataplane.cpp:488-529 | one plan, then another one twice: on the active side the first plan's services stand as they were over the second plan's backends |
| `Resets.EventAddsItsLoss` | controlplane/src/manager/xdpdataplane.cpp:531-660 | each event of the reset, a packet among them, changes counter sum minus live sessions by exactly its loss; a row's zeroing leaves minus the sessions live then |
| `Resets.CountedFromTheZeroing` | controlplane/src/manager/xdpdataplane.cpp:634-660 | from a row's zeroing on, whatever arrives: connections are live sessions, less those live at the zeroing, plus losses; balanced at first if and only if none was live |
| `Resets.BackendRowIsZeroedOnce` | controlplane/src/manager/xdpdataplane.cpp:637-647 | and a backend's row is zeroed once per reload, so that is what it counts from then on |
| `Resets.LiveSinceCleared` | controlplane/src/manager/xdpdataplane.cpp:619-647 | the sessions live at a zeroing had a packet since the sessions were found cleared |
| `Resets.SumGoesNegative` | controlplane/src/manager/xdpdataplane.cpp:619-647 | a flow opened before its backend's row is zeroed and closed after it leaves the sum over CPUs at -1 |
| `Resets.StatsRowIsTheFirstBytes` | controlplane/src/manager/xdpdataplane.cpp:649-656 | the row zeroed for a service is the number its address's first four bytes spell, inside the map exactly if the last three of them are zero |
| `Resets.WrrStaysInSliceExactly` | xdp/balancer.bpf.c:493-517 | a weighted pick from a state of another configuration lies in the slice if and only if its index is below the present count or the entry it points at cannot be picked |
| `Resets.StrayPicksEnd` | xdp/balancer.bpf.c:501-512 | such picks end after as many as that entry has weight, at the latest |
| `Resets.SettledDespiteTraffic` | controlplane/src/manager/xdpdataplane.cpp:531-647 | whatever the packet path held at the flip and whatever arrives during the resets, once they reach the counters every cursor, weighted state and session fits the new configuration, and it stays so |
| `Resets.StuckForGood` | controlplane/src/manager/xdpdataplane.cpp:531-536 | with no room for the next cursor the resets go no further and no service gains one, whatever arrives |
| `Resets.NobodyAnswersWithoutCursor` | xdp/balancer.bpf.c:462-474 | over any run, a packet of a round-robin service without a cursor gets no backend if and only if no session serves it |
| `Dataplane.XdpDataplane.constructor` | controlplane/include/manager/xdpdataplane.h:81 | freshly loaded maps are consistent with nothing configured and no ring managed |
| `Dataplane.XdpDataplane.PrepareReals` | controlplane/src/manager/xdpdataplane.cpp:382-445 | appends the records up to the first real that does not parse or has no MAC, each with its real's own fields |
| `Dataplane.XdpDataplane.Prepare` | controlplane/src/manager/xdpdataplane.cpp:338-458 | prepares the plan laid out field by field, or reports the first fault in configuration order |
| `Dataplane.XdpDataplane.LoadBackends` | controlplane/src/manager/xdpdataplane.cpp:491-510 | writes backends until the first one not taken |
| `Dataplane.XdpDataplane.LoadServices` | controlplane/src/manager/xdpdataplane.cpp:512-522 | writes services over those already there until the first one not taken |
| `Dataplane.XdpDataplane.LoadAndFlip` | controlplane/src/manager/xdpdataplane.cpp:473-529 | is a run of the protocol, flips if and only if everything fits and nothing is refused, and otherwise leaves the active side alone |
| `Dataplane.XdpDataplane.ResetCursors` | controlplane/src/manager/xdpdataplane.cpp:531-536 | zeroes the configured cursors, or fails exactly when they do not fit beside the old ones; then those before the first without room are zeroed and it has none; either way as a run of single events |
| `Dataplane.XdpDataplane.ResetBackendStats` | controlplane/src/manager/xdpdataplane.cpp:634-647 | zeroes every CPU's counter of the configured backends and no other, one row at a time |
| `Dataplane.XdpDataplane.ResetServiceStats` | controlplane/src/manager/xdpdataplane.cpp:649-660 | succeeds if and only if the first four bytes of every key are a number below 256, and zeroes exactly the rows so numbered before the first that is not, one at a time |
| `Dataplane.XdpDataplane.CollectRingBackends` | controlplane/src/manager/xdpdataplane.cpp:553-589 | the nested search by address is the ring's list |
| `Dataplane.XdpDataplane.RefreshRing` | controlplane/src/manager/xdpdataplane.cpp:608-615 | a nonempty list updates, writes and shows the ring; an empty one forgets it and leaves the kernel's maps |
| `Dataplane.XdpDataplane.RefreshRings` | controlplane/src/manager/xdpdataplane.cpp:547-617 | which rings are managed, with which lists and ages, and which one the maps show, is the history's after one reload |
| `Dataplane.XdpDataplane.ResetAfterFlip` | controlplane/src/manager/xdpdataplane.cpp:531-662 | the steps after the flip when no packet arrives in between: managed rings, sessions, cursors and both counters, which error they end in, and the run of single events they are |
| `Dataplane.XdpDataplane.ReloadConfig` | controlplane/src/manager/xdpdataplane.cpp:332-668 | for each of its five endings, exactly when it happens and what stands then, no packet arriving during the resets: maps, managed rings, sessions, cursors and counters, and the run of events the resets are |
| `Dataplane.XdpDataplane.ReloadStartsAfresh` | controlplane/src/manager/xdpdataplane.cpp:531-647 | once the resets are through without a packet in between, packets start on the new configuration with no sessions and zeroed connection counters |
| `Dataplane.XdpDataplane.ReloadSettlesDespiteTraffic` | controlplane/src/manager/xdpdataplane.cpp:531-647 | with packets anywhere between the resets, what the packet path remembers fits the new configuration when the counters are reached |
| `Dataplane.XdpDataplane.ConnectionsAfterReload` | controlplane/src/manager/xdpdataplane.cpp:634-662 | from such a start, over any run: a backend's connections are its live sessions plus losses; a service's carry on from what its row still held |
| `Dataplane.MissedRowsKeepTheirSum` | controlplane/src/manager/xdpdataplane.cpp:649-660 | a row the reset misses keeps its sum over CPUs, those of the cleared sessions included |
| `Dataplane.XdpDataplane.ShownRingIsPickedFrom` | xdp/balancer.bpf.c:369-452 | while a ring of enabled backends is shown, for every hash the kernel's pick is the control plane's |
| `Dataplane.XdpDataplane.ShownRingPicksByItsTable` | xdp/balancer.bpf.c:369-452 | and that pick is the entry of the ring's table for the hash |
| `Dataplane.XdpDataplane.ForgottenRingIsStillPickedFrom` | controlplane/src/manager/xdpdataplane.cpp:612-615 | a forgotten ring goes on answering every hash with one of its backends |
| `Dataplane.XdpDataplane.RingServesTheEnabledReals` | controlplane/src/manager/xdpdataplane.cpp:547-617 | after a reload with one ring service of 1 to 257 enabled reals found as themselves, and n seconds more undisturbed by other rings' merges, the kernel picks for every hash the enabled real that `lookupCurr` names |
| `Dataplane.XdpDataplane.OneRingServiceIsServed` | controlplane/src/algorithm/consistent_hash.cpp:295-366 | with one ring service ever configured, the same holds after any sequence of reloads and seconds |
| `Dataplane.XdpDataplane.DepartedRingIsPickedFrom` | controlplane/src/algorithm/consistent_hash.cpp:352-365 | and after a handover from another ring it fails: the kernel picks from the departed ring until the configured one merges |
| `Dataplane.XdpDataplane.RingOpenerGoesToTheNamedReal` | xdp/balancer.bpf.c:588-603 | a packet that opens a flow of the ring service goes to the enabled real, with its own MAC and address, that `lookupCurr` names for its hash |
| `Dataplane.XdpDataplane.RingOpenerGoesToTheShownRing` | xdp/balancer.bpf.c:588-603 | a packet that opens a flow of any ring service goes to the shown ring's entry for its hash, even when that is another service's ring |
| `Dataplane.XdpDataplane.LastRingServesThemAll` | controlplane/src/manager/xdpdataplane.cpp:548-617 | after a reload with several ring services the flows of all of them open on the last one's reals |
| `Dataplane.XdpDataplane.ChPeriodicMaintenance` | controlplane/src/manager/xdpdataplane.cpp:916-919 | which rings are managed and which one the maps show is the history's after one second |
| `Serving.ServedIsSliced` | controlplane/src/manager/xdpdataplane.cpp:447-457 | the loaded slice of a service is inside the array and holds its reals |
| `Serving.EveryPacketReachesItsService` | xdp/balancer.bpf.c:525-646 | from any state that fits the configuration, over any run, a forwarded packet goes to an enabled real of the service it addresses |
| `Serving.EverySessionPointsAtItsService` | xdp/balancer.bpf.c:603-612 | and every live session carries its service's index and one of its enabled reals |
| `Serving.RowCountsByNumber` | xdp/balancer.bpf.c:603-643 | a service's row counts the live sessions of every service, configured or dropped, whose entry has its number; of the configured ones only its own |
| `Serving.WeightedPicksFollowTheWeights` | xdp/balancer.bpf.c:477-520 | from a fresh start the t-th pick is the real whose configured-weight interval contains t mod W |
| `Serving.WeightedPicksAreFair` | xdp/balancer.bpf.c:477-520 | from any state that fits, every W consecutive picks choose each enabled real exactly its configured weight |
| `Serving.WeightedServiceAlwaysAnswers` | xdp/balancer.bpf.c:477-646 | with at most 32 reals and some enabled weight no packet of the service is left without a backend |
| `Serving.RoundRobinServiceAlwaysAnswers` | xdp/balancer.bpf.c:457-646 | nor is one of a round-robin service without four disabled reals in a row |
| `Serving.RoundRobinPicksAreFair` | xdp/balancer.bpf.c:457-475 | every A consecutive picks choose each of the A enabled reals exactly once, if no four in a row are disabled |
| `Serving.DroppedServiceUsesItsOldSlice` | controlplane/src/manager/xdpdataplane.cpp:509-518 | a service no later configuration mentions is selected from its old slice of the newest array, so it gets whatever records the new configuration has there |
| `Serving.ServiceWithoutRealsTakesTheNext` | xdp/balancer.bpf.c:462-473 | round robin over no reals selects the record where its slice would start if it is active, else nothing; weighted round robin selects nothing |
| `Serving.NextServicesFirstReal` | controlplane/src/manager/xdpdataplane.cpp:447-457 | that record is the first real of the next service that has any |
| `Serving.AddressedExactly` | xdp/balancer.bpf.c:712-724 | a flow is a service's exactly if destination, port in network byte order, protocol and version are the configured ones |
| `Traffic.UdpLeavesConnections` | xdp/balancer.bpf.c:649-703 | a UDP packet touches no session and no connection counter |
| `Traffic.UdpMovesItsServiceOnly` | xdp/balancer.bpf.c:664-676 | and no other service's cursor |
| `Traffic.WeightedMixFollows` | xdp/balancer.bpf.c:477-520 | over any TCP and UDP packets mixed, a weighted service's picks, UDP ones included, follow its schedule |
| `Traffic.RoundRobinMixFollows` | xdp/balancer.bpf.c:457-475 | and so do a round-robin service's |
| `Traffic.WeightedMixFollowsTheWeights` | xdp/balancer.bpf.c:477-520 | from a fresh start the t-th pick is the real whose configured-weight interval contains t mod W |
| `Traffic.WeightedMixIsFair` | xdp/balancer.bpf.c:477-520 | every W consecutive picks choose each enabled real exactly its configured weight |
| `Traffic.RoundRobinMixIsFair` | xdp/balancer.bpf.c:457-475 | every A consecutive picks choose each of the A enabled reals exactly once |
| `Traffic.EveryArrivalReachesItsService` | xdp/balancer.bpf.c:649-703 | every forwarded TCP or UDP packet goes, field by field, to an enabled real of its service |
| `Traffic.WeightedMixAlwaysAnswers` | xdp/balancer.bpf.c:649-684 | no packet of a weighted service with up to 32 reals and some weight is left without a backend |
| `Traffic.RoundRobinMixAlwaysAnswers` | xdp/balancer.bpf.c:649-684 | nor is one of a round-robin service without four disabled reals in a row |
| `RingFlows.AllHashesStayExactly` | xdp/balancer.bpf.c:564-606 | for every hash a ring flow's later packets find the opener's record, if and only if the ring's list is the head of the configuration's array |
| `PacketHash.EveryHashHasAKey` | xdp/balancer.bpf.c:359-367 | the packet hash takes every 32-bit value: each of its steps is undone |
| `PacketHash.EveryHashIsSomeFlows` | xdp/balancer.bpf.c:590-593 | to any destination and from any source port, every 32-bit hash is some source address's |
| `PacketHash.KeyOfPorts` | xdp/balancer.bpf.c:590-593 | with source and destination alike the hashed key is the source port above the destination port |
| `PacketHash.SeedHashesToZero` | xdp/balancer.bpf.c:359-367 | known answers: the seed hashes to 0, and so do the flows whose ports spell it |
| `PacketHash.NextKeyHashesTo` | xdp/balancer.bpf.c:359-367 | and the key one bit away from it to 0xaa69f4df |
| `RingFlows.AllFlowsStayExactly` | xdp/balancer.bpf.c:564-606 | so of the service's own flows all find the opener's record, under the same condition |
| `RingFlows.RingFlowStaysExactly` | xdp/balancer.bpf.c:564-622 | a ring flow's opener goes to the ring's entry for its hash, all later packets to the whole array's entry at that position |
| `RingFlows.RingFlowMoves` | xdp/balancer.bpf.c:564-606 | a configuration and two packets of one flow that go to different services' reals |
| `RingFlows.EveryBackendIsPicked` | xdp/balancer.bpf.c:369-397 | every backend of a ring of up to 257 is some 32-bit hash's pick |
| `SynGuard.GuardMaps.CountCall` | xdp/balancer.bpf.c:865-911 | counts the call in the window it falls in, and reports the global limit |
| `SynGuard.GuardMaps.DdosCheckV4` | xdp/balancer.bpf.c:848-946 | the in-place checks equal the pure step |
| `SynGuard.CallIsCounted` | xdp/balancer.bpf.c:865-914 | every call that is no ban hit is counted for its source: in the open window while that is no older than ten seconds, else as the first of a new one |
| `SynGuard.SynIsCountedOverall` | xdp/balancer.bpf.c:889-898 | a pure SYN is counted overall in the same way, other calls not at all |
| `SynGuard.CounterCountsItsWindow` | xdp/balancer.bpf.c:865-914 | over any run a source's counter is the number of its calls, pure SYNs and ACKs since the call that opened the window, all within ten seconds of it |
| `SynGuard.StaysWellTimed` | xdp/balancer.bpf.c:879-897 | with a clock that never goes back no window or ban lies in the future |
| `SynGuard.SourceRateIsBounded` | xdp/balancer.bpf.c:879-889 | any interval of one window's length has at most 2 * threshold passing pure SYNs of one source |
| `SynGuard.GlobalRateIsBounded` | xdp/balancer.bpf.c:891-907 | the same for all sources together against the global threshold, evictions or not |
| `SynGuard.TwiceTheThresholdIsReached` | xdp/balancer.bpf.c:879-889 | for every threshold some run reaches exactly that bound |
| `SynGuard.HandledRunsNeverDrop` | xdp/balancer.bpf.c:978-983 | called as the packet program calls it, from loaded maps on, the guard passes every packet and bans nobody, whatever its limits |
| `SynGuard.DropsNeedAPureSyn` | xdp/balancer.bpf.c:888-942 | a drop needs a pure SYN handed to the guard, in this call or before |
| `SynGuard.BanHolds` | xdp/balancer.bpf.c:855-863 | nothing lifts a ban before its duration is over |
| `SynGuard.BanEndsExactly` | xdp/balancer.bpf.c:855-863 | a call drops as a ban hit, changing nothing, if and only if it comes before ban time plus duration; any later one is handled as if there were no ban, and leaves one only by setting it anew |
| `SynGuard.BannedSourceIsSilent` | xdp/balancer.bpf.c:857-861 | until then every call of the source drops and changes no state |
| `SynGuard.PassesExactlyWithinLimits` | xdp/balancer.bpf.c:900-945 | a call that is not banned passes if and only if, with it counted, the overall limit and the source's own SYN and SYN-per-ACK limits hold, stated without the rounding division |
| `SynGuard.BansExactly` | xdp/balancer.bpf.c:895-942 | a drop by the source's own limits, and no other, bans it from that moment if there is room; no other ban changes |
| `SynGuard.DropsAreCounted` | xdp/balancer.bpf.c:900-943 | `dropped_total` grows by exactly the drops that were not blacklist hits |
| `Checksum.Replace32KeepsSum` | xdp/balancer.bpf.c:282-289 | swapping a 32-bit field keeps checksum plus field modulo 65535, for all inputs |
| `Checksum.Replace32IsOnes` | xdp/balancer.bpf.c:282-289 | and comes out as all ones exactly when all three inputs stand for zero, so its value is decided |
| `Checksum.Replace16KeepsSum` | xdp/balancer.bpf.c:276-280 | the 16-bit form does so if and only if the new value is not checksum + old value + 1 |
| `Checksum.CsumReplaceIpv6` | xdp/balancer.bpf.c:291-302 | the four swaps of the loop, as a function of checksum and addresses |
| `Checksum.AddressKeepsSum` | xdp/balancer.bpf.c:291-302 | swapping a whole address keeps checksum plus address words modulo 65535 |
| `Checksum.AcceptsIffMultiple` | xdp/balancer.bpf.c:318-355 | a receiver's one's-complement sum is all ones if and only if the plain sum is a multiple of 65535 (section 3 of RFC 1624) |
| `Checksum.RewriteVerdict` | xdp/balancer.bpf.c:327-355 | a rewritten segment is accepted exactly as the original was, unless the carry is lost, and then an accepted one is refused |
| `Checksum.SamePortKeepsVerdict` | xdp/balancer.bpf.c:327-355 | a rewrite that keeps the port never loses the carry |
| `Checksum.Ipv6Header.RewriteTcp` | xdp/balancer.bpf.c:327-334 | the whole rewritten segment; an accepted one stays accepted if and only if the carry is not lost, a test on the segment, new address and new port |
| `Checksum.Ipv6Header.RewriteUdp` | xdp/balancer.bpf.c:347-355 | the same for UDP, and the checksum is never left zero |
| `Rewrites.LoadsSpellTheAddress` | xdp/balancer.bpf.c:291-302 | the four loads of an address spell it, lowest first |
| `Rewrites.SelectedRecordsVerdict` | xdp/balancer.bpf.c:793-843 | whatever they select for any service of the active side, configured or dropped, from any state: the record keeps the port if and only if it has the service's, and an accepted segment stays accepted if and only if that record does not lose the carry |
| `Rewrites.ArrayKeepsThePortExactly` | controlplane/src/manager/xdpdataplane.cpp:408 | a record of the newest array keeps a service's port if and only if the service that owns the position now has that port |
| `Rewrites.OwnRealsKeepThePort` | controlplane/src/manager/xdpdataplane.cpp:408 | every record of a service's own slice puts the packet's own port back into the header |
| `Rewrites.SelectedRealsKeepTheVerdict` | xdp/balancer.bpf.c:793-843 | so whatever round robin or weighted round robin selects for a configured service with reals, the rewrite keeps the verdict |
| `Rewrites.UdpServicesKeepTheVerdict` | xdp/balancer.bpf.c:649-703 | a forwarded packet of a configured UDP service with reals keeps the verdict, whatever its algorithm |
| `Rewrites.SharedAddressTakesThePort` | controlplane/src/manager/xdpdataplane.cpp:556-588 | a ring's real sharing its address with an earlier service's gets that service's port |
| `Rewrites.RingBreaksAChecksum` | xdp/balancer.bpf.c:276-280 | a configuration and accepted segments to its ring service that leave refused, whatever else they carry |
| `Rewrites.DroppedServiceGetsAnothersReal` | controlplane/src/manager/xdpdataplane.cpp:509-518 | from blank maps, one service loaded and then another one twice: round robin answers the first one's packets with the second one's real |
| `Rewrites.DroppedServiceBreaksAChecksum` | xdp/balancer.bpf.c:276-280 | and accepted segments to it leave refused, whatever else they carry |
| `Rewrites.SuchSegmentsAreAccepted` | xdp/balancer.bpf.c:327-355 | such accepted segments exist |

## Left out

- Packet parsing, bounds checks, MAC rewriting and the per-protocol handlers: straight-line code; packets start as parsed records.
- Packet, byte and SYN totals and the ring statistics: ring packets are counted twice in them, so the documented meaning does not hold. Only `connections` is modelled.
- Wrap-around of the 32-bit connection counters and of the 64-bit SYN counters and ring statistics: modelled as integers.
- Sessions.FlowStaysOnItsBackend: not stated for ring services, for which it is false; `RingFlows` says exactly when their flows stay.
- Sessions.EverySessionIsInItsSlice: IPv4 keys only, since session keys carry no address version.
- Capacity of the round-robin and weighted maps in the packet path: a new weighted state always finds room there.
- The limit claims are about calls of `ddos_check_v4`; `SynGuard.HandledRunsNeverDrop` says what becomes of them at its call site.
- Rewrites.SelectedRealsKeepTheVerdict: about fresh selections, since IPv6 sessions are not modelled. The IPv4 handlers leave addresses, ports and checksums alone.
- Eviction from the SYN tracker is modelled as an event that can happen to any source; which source the kernel evicts is not.
- Distribution quality of XXH3, which is uninterpreted, and of the packet hash, which is modelled as it is.
- Two processors updating one map value at once: every packet and call is one atomic step, the zeroing of a row on all CPUs included. Loads, ring writes and resets interleave with packets one map operation at a time.
- A packet that reads the ring maps at several moments while a ring is written: its lookup is one step.
- Dataplane.XdpDataplane.ConnectionsAfterReload: without packets during the resets; `Resets.CountedFromTheZeroing` is the statement with them.
- Resets.SettledDespiteTraffic: a map is found empty in one step; the kernel's walk for a first key is not modelled.
- The width mismatch in reading and writing the configuration index, and concurrent reloads: the index is 0 or 1 and one reload runs at a time.
- The ban duration's 32-bit product and the update of the guard's configuration during a reload: the duration is given and the guard's configuration is fixed.
- Kernel refusals after the flip other than for lack of room or a bad index.
- What a rejected configuration leaves in the control plane's own lists, which only the metrics read.
- Loading and attaching the program (its maps are taken to be open), ARP/NDP lookups, the gRPC server, the configuration parser and manager, metrics, the command line client.
