# Distributed traffic service: a verified model

A Dafny model of the parts of the traffic service where nodes, requests and transactions meet, with
proofs of what holds in every reachable state. `dafny verify dfyconfig.toml` checks the whole project.

**Road capacity** (`conflict-service/`). A journey request becomes a list of ~1 km grid cells, each cell gets
an interpolated time and with it a half-hour, and a counter table indexed by (cell, half-hour) is checked and
raised; a cancellation rebuilds the list and lowers it. `Grid`, `PathShape` and `PathCover` treat the geometry
over the reals, `Clock` the times in whole nanoseconds. `Allocator` holds the two tables as values,
`ConflictService` the transactions as methods of a class, `AllocatorLaws` and `AllocatorRuns` the relation
between counters and slots over whole runs, `Replicas` the slots pushed between nodes, `PushRaces` pushes of one
journey that overlap on a node.

**Registration** (`user-service/`). `EmailLock` is a machine of atomic steps, one per access to a lock table or a
user table, of any number of requests on any number of nodes; `EmailLockProof` proves that an address is
registered once; `EmailNodes` is the same state changed in place by the code's own sequence of calls.

**Booking between regions** (`Archive/`). `TwoPhase` is the two-phase commit machine with lost and delayed
messages, `TwoPhaseProof` its agreement and double-booking theorems, `TwoPhaseRace` a run that double-books.
`RegionThreads` is one node with its handlers running in parallel, split at every access to the booking table or
to a road counter; `RegionThreadsProof` says what the counters show in every schedule and exactly when they are
right, `RegionRaces` when a road exceeds its capacity or one trip is booked twice, `DoubleCancel`, `Overflow` and `Revival`
are runs that go wrong, and `RegionSerial` proves that a handler nothing interrupts has the effect that `RegionTables`, `RegionLaws`
and `RegionNode` give it as a whole. `VersionMerge` is
the gossip between nodes with the read and the write of a delivery apart, `StaleMerges` runs of it that go wrong.

**Smaller machines.** `Outbox` (concurrent publishers, drainers, crashes), `PartitionQueue`, `Points`, and
`Breakers` (the Python circuit breaker and the Go one that is meant to mirror it).

Machines are relations or functions from a state and an event to the next state; each class method's `ensures`
says which step it makes, so what is proved of the steps and of runs holds of the methods. Keys of the lock
table and rows of the user tables carry the request they came from; this is there for the proofs only and no
step looks at it.

## Assumptions

- Coordinates are exact reals, times are integers that the database stores without loss, and the predefined routes
  do not change.
- One step is: a booking (a serializable transaction) or a cancellation of the conflict service, whose only read is the
  update that deactivates the rows; the look or the insert of a pushed slot (two statements of a READ COMMITTED
  transaction); one access to a lock table or a user table; one statement on a region node's booking table; one look at
  or update of a region node's road counter; one call of the points ledger with its commit.
- E-mail lock: fixed full mesh, peers reachable, no lock expires, addresses in lower case, tables empty at the start.
- Region nodes agree on which region owns a city. The shortest-path search returns a path that visits no city
  twice. New bookings get new ids.
- Outbox rows are totally ordered by creation time, in the order of their commits.

## Where the code does less than it says

Each of these is a lemma with the input or the run that shows it, and a lemma that says for all inputs or runs when the
code does what it says.

- The comment on the path function promises every cell between origin and destination. A diagonal step misses the
  corner cell (`PathCover.CornerIsCut`); nothing is missed exactly as `PathCover.CoveredIff` says.
- `math.Round` rounds half away from zero, so a walk in whole cells across zero from a half-cell boundary leaves out
  row or column 0 (`PathShape.RowZeroIsSkipped`, `PathShape.PathNeverSkips`).
- A cancellation deactivates every active row of a journey but gives back the road of one
  (`AllocatorRuns.JourneyAcceptedTwice`, `AllocatorLaws.CancelConservesIff`).
- A slot pushed by a peer is stored without its route while the counters are raised along the route
  (`AllocatorRuns.RoutedPushLeaks`, `AllocatorRuns.PushConservesIff`).
- Applying a pushed slot is documented as fully idempotent. Two pushes of one journey that overlap both insert it: two
  active rows, counters above their maximum (`PushRaces.PushedTwice`), and a journey cancelled in between is active
  again (`PushRaces.CancelledAndRevived`). It happens exactly as `PushRaces.BothPassIff` and `PushRaces.NeverStaleIff`
  say; without it pushes converge (`PushRaces.RunsConverge`).
- A cancellation that overtakes its push is lost (`Replicas.OvertakingCancelDiverges`); two nodes agree exactly as
  `Replicas.NodesAgreeIff` says.
- The conflict window is documented as 30 minutes; `0.0208` of a day is 1797.12 seconds (`Trips.WindowIsShort`,
  `Trips.MissedByWindowIff`).
- A region node's server is threaded (`Archive/main.py:182`) and only `book_journey` takes the booking lock.
  - Two cancellations of one booking can both release its road, after which a live booking is not counted
    (`DoubleCancel.LiveBookingUncounted`, `RegionThreadsProof.CountersExactIff`, `RegionThreadsProof.RemovalsExactIff`).
  - Two PREPAREs can both find room on a road and take it past its capacity (`Overflow.RoadOverbooked`,
    `RegionRaces.WithinCapacityIff`, `RegionRaces.FullMeansOvertaken`).
  - A COMMIT can revive a booking that a user has cancelled since the COMMIT's handler read it, beside another booking of
    the trip (`Revival.CancelledBookingRevived`, `RegionRaces.ClashIffRace`, `TwoPhaseProof.RunIsCleanIff`).
  - Two PREPAREs of one trip can both be held and both commit (`TwoPhaseRace.RaceDoubleBooks`,
    `TwoPhaseProof.ClaimsIffMet`, `TwoPhaseProof.CommittedTripsApart`).
- An applied replication update raises the local version by one instead of copying the incoming one, so two replicas at
  one version can differ (`StaleMerges.EqualVersionsCanDiffer`, `VersionMerge.RunAsWrittenIff`).
- Deliveries compare versions in one statement and write in another. Overlapping ones can take a replica past the writer
  and then overwrite the writer's row (`StaleMerges.WriterOverwritten`), revive a booking the writer has cancelled
  (`StaleMerges.WriterRevived`), or take a status back for good (`StaleMerges.StatusGoesBack`). Rows behave as under
  uninterrupted merges exactly while no write comes too late (`VersionMerge.RunMergesIff`), and no version passes the
  writer's exactly as `VersionMerge.RunBoundedIff` says; then statuses only move forward while the writer's do
  (`VersionMerge.StatusNeverGoesBack`), which they do while its handlers do not overlap
  (`RegionThreadsProof.WritesAdvance`).
- Queued operations are documented as replayed on reconnection; after a failed merge they wait for the next
  partition (`PartitionQueue.FailedMergeWaitsForNextPartition`).
- HALF_OPEN lets every call through, not a single probe (`Breakers.HalfOpenAdmitsAll`). The two breakers stop mirroring
  each other when more than one successful probe is wanted (`Breakers.MirrorIffOneProbe`), and with overlapping calls
  exactly when a result comes in while they are open (`Breakers.LateFailureSeparates`,
  `Breakers.MirrorOverlappingIff`).

## Model

| member | source | states |
|---|---|---|
| PathShape.RoundGridIdempotent | conflict-service/service.go:485-487 | rounding a grid coordinate again changes nothing, so the check's keys and the counters' keys coincide |
| PathShape.RoundGridIsNearest | conflict-service/service.go:485-487 | the grid line chosen is the nearest one, within half a cell |
| PathShape.StepAtMostOneCell | conflict-service/service.go:215-226 | with that many steps no step is longer than one cell in either axis |
| PathShape.StepCountIsLeast | conflict-service/service.go:215-226 | the walk takes the least number of steps, at least one, with which no step is longer than 0.01 degrees in either axis |
| PathShape.PathIsCompressedWalk | conflict-service/service.go:228-241 | the seen-table removes only cells equal to the one just before; it never reorders and never drops a return |
| PathShape.PathEnds | conflict-service/service.go:214-243 | the list is never empty, starts at the origin's cell, ends at the destination's cell, holds no cell twice |
| PathShape.PathOnward | conflict-service/service.go:214-243 | later cells are never further back than earlier ones, in both axes, in the direction of travel |
| PathShape.PathOfOnePoint | conflict-service/service.go:223-241 | origin equal to destination gives exactly the one cell |
| PathShape.PathNeverSkips | conflict-service/service.go:214-243 | neighbouring cells differ by at most one row and one column if and only if neither axis crosses zero in whole cells from a half-cell boundary |
| PathShape.RowZeroIsSkipped | conflict-service/service.go:214-243 | a concrete path from half a cell south of zero to half a cell north of it that holds rows -1 and 1 and not row 0 |
| PathShape.PathOnGrid | conflict-service/service.go:231-241 | every listed cell is a fixed point of the grid rounding |
| PathShape.WaypointPath | conflict-service/service.go:258-274 | a route's list holds exactly the cells of its legs, each once, all on the grid, and is not empty from two waypoints on |
| PathShape.RouteGrowsByLegs | conflict-service/service.go:258-274 | a route of two points is the straight line between them; each further point adds, in the order of the last leg, the cells of that leg that are not listed yet |
| PathCover.CoveredIff | conflict-service/service.go:200-243 | every cell crossed by the straight line is listed if and only if no step leaves the two cells sampled at its ends |
| PathCover.SameRowCoveredIff | conflict-service/service.go:200-243 | along one row the list is complete if and only if the other axis does not cross zero in whole cells from a half-cell boundary |
| PathCover.CornerIsCut | conflict-service/service.go:200-243 | a concrete diagonal whose crossed corner cell is not listed |
| Grid.PathGridCells | conflict-service/service.go:214-243 | the loop over the samples with its seen-table returns the list that all path lemmas are about |
| Grid.PathGridCellsFromWaypoints | conflict-service/service.go:258-274 | the nested loop with the shared seen-table returns the first occurrences over all legs |
| Clock.SlotContains | conflict-service/service.go:397-399 | the slot start is the one multiple of thirty minutes whose half-hour contains the time |
| Clock.CellTimeIff | conflict-service/service.go:298-305 | in whole numbers: cell i of n is reached at t exactly if (t - departure)(n - 1) is the last multiple of n - 1 at or below i(arrival - departure); mirrored if arrival precedes departure; at departure if there is one cell |
| Clock.CellTimeEnds | conflict-service/service.go:293-305 | the first cell is reached at departure, the last at arrival |
| Clock.CellTimeOrdered | conflict-service/service.go:298-305 | so later cells are never reached earlier, and in reverse if arrival precedes departure |
| AllocatorLaws.KeysOncePerSlot | conflict-service/service.go:373-389 | a slot passes at least one (cell, half-hour) and each only once, always at a half-hour boundary |
| AllocatorLaws.KeysIffPassed | conflict-service/service.go:373-389 | a slot's keys are exactly the (cell, half-hour) pairs such that a cell of its path lies there and is reached within that half-hour, the reaching time given in whole numbers |
| AllocatorLaws.UsesIsSetSize | conflict-service/service.go:317-352 | the count of uses is the size of the set of active slots that pass the key |
| AllocatorLaws.BookedConserves | conflict-service/service.go:356-391 | recording a slot keeps every counter equal to the number of active slots that pass it |
| AllocatorLaws.BookedBounded | conflict-service/service.go:317-391 | what passed the capacity check takes no counter above its maximum |
| AllocatorLaws.ClampNeverFires | conflict-service/service.go:478-479 | while counters are exact, every counter a cancellation lowers exists and is at least one |
| AllocatorLaws.CancelConservesIff | conflict-service/service.go:419-468 | a cancellation keeps the counters exact if and only if the journey has just one active row |
| AllocatorLaws.BookThenCancelRestores | conflict-service/service.go:356-468 | booking a journey without an active row and cancelling it gives every counter its value back |
| AllocatorRuns.PushConservesIff | conflict-service/replication.go:253-307 | a pushed slot keeps the counters exact if and only if the journey is known or passes the same keys with and without its route |
| AllocatorRuns.StepConservesIff | conflict-service/service.go:60-143 | any one step, the insert of an overlapping push included, keeps the counters exact if and only if it meets a condition readable before it starts |
| AllocatorRuns.RunConservesIff | conflict-service/service.go:60-468 | in a run of bookings, cancellations and pushes, overlapping or not, every counter equals the number of active slots passing it in every state if and only if every step met that condition |
| AllocatorRuns.LocalRunIsSafe | conflict-service/service.go:60-192 | in every run without pushes, whatever ids callers use, no counter passes its maximum and active slots of different journeys keep driver and vehicle at least 5 minutes apart |
| AllocatorRuns.RetryIsRejected | conflict-service/service.go:317-352 | an identical retry of an active booking never passes the capacity check |
| AllocatorRuns.ProperRunIsSound | conflict-service/service.go:60-468 | if callers use fresh journey ids or repeat themselves, in every state the counters are exact and bounded, a journey has at most one active row, and any two active slots of one driver or vehicle are 5 minutes apart |
| AllocatorRuns.SecondBookingLeaks | conflict-service/service.go:430-466 | once a journey id was accepted twice, cancelling it leaves some counter wrong whichever row the update returned |
| AllocatorRuns.JourneyAcceptedTwice | conflict-service/service.go:430-466 | a run from empty tables that accepts one journey id twice on roads that do not meet, and whose cancellation leaves the counters wrong |
| AllocatorRuns.RoutedPushLeaks | conflict-service/replication.go:275-305 | a concrete routed slot whose push makes the counters of empty tables wrong |
| ConflictService.FullRowIsFullCounter | conflict-service/service.go:330-338 | the query by time range finds a full row exactly when the one counter of that cell and half-hour is full |
| ConflictService.RoadFullIff | conflict-service/service.go:317-352 | some row found at a cell of the path, at the moment that cell is reached, is full exactly when some counter under the keys of the request is |
| ConflictService.Service.CheckDriverOverlap | conflict-service/service.go:150-170 | returns an active slot of the driver under another journey id whose time overlaps the given one, or none exists |
| ConflictService.Service.CheckVehicleOverlap | conflict-service/service.go:172-192 | the same for the vehicle |
| ConflictService.Service.CheckRoadCapacity | conflict-service/service.go:317-352 | clear exactly when no cell of the path finds a full row at the moment it is reached; otherwise names the first such segment, its cell, its number, the total, and that moment, given in whole numbers |
| ConflictService.Service.RecordBookingSlot | conflict-service/service.go:356-391 | the row with all its fields is appended, and the counters of exactly the pairs it passes are raised by one |
| ConflictService.Service.CheckConflicts | conflict-service/service.go:60-143 | a time overlap exactly when an active slot of the driver or the vehicle under another id is closer than 5 minutes, and it reports such a slot; otherwise a full road exactly when a cell finds a full row at the moment it is reached; otherwise the row is appended and the pairs it passes are raised; a rejection changes nothing; while counters are exact this is the decision over the set of active slots |
| ConflictService.Service.CancelBookingSlot | conflict-service/service.go:419-468 | found exactly when there is an active row; then all rows of the journey are inactive and exactly the counters above zero that one of its active rows passes are lowered by one; not found changes nothing |
| ConflictService.Service.SlotExists | conflict-service/replication.go:260-270 | true exactly when the journey has a row, active or not |
| ConflictService.Service.StoreReplicatedSlot | conflict-service/replication.go:275-306 | the slot is appended without its route and the counters of the pairs it passes along that route are raised by one, whether or not the journey has a row by now |
| ConflictService.Service.ApplyReplicatedSlot | conflict-service/replication.go:253-307 | with nothing in between: a known journey changes nothing, a new one is stored |
| ConflictService.Service.GetActiveSlots | conflict-service/replication.go:313-344 | sends exactly the active slots that ended less than an hour ago or later, without routes |
| ConflictService.Service.SyncFromPeer | conflict-service/replication.go:351-390 | has the effect of the received slots applied one by one: every received journey has a row, and the new rows are the first received slot of each journey that had none |
| Replicas.SameRowsSameCounters | conflict-service/replication.go:253-307 | exact counters depend only on the set of rows, not on the order in which they came |
| Replicas.PushesConverge | conflict-service/replication.go:253-307 | two nodes that applied pushes of the same journeys one after another, in any order and with repeats, have the same rows and the same value in every counter |
| Replicas.NoRouteSameKeys | conflict-service/replication.go:290-298 | a slot without a usable route passes the same keys with and without its route id |
| Replicas.SyncCatchesUp | conflict-service/replication.go:313-390 | a catch-up keeps exact counters exact, and the node then knows every journey active at the peer that ended no more than an hour ago |
| Replicas.StatusForwardIff | conflict-service/replication.go:258-295 | a step moves a journey on a node from absent to active to inactive, unless and only unless it adds a row to an inactive one |
| Replicas.NeverRevivedIff | conflict-service/replication.go:258-295 | an inactive journey stays inactive through any stretch of steps if and only if none of them adds a row of it |
| Replicas.StatusFromHistory | conflict-service/replication.go:253-307 | in every run of bookings, cancellations and pushes, overlapping or not, a journey is absent exactly until a row of it is added, inactive exactly if a cancellation has come after the last row added, and active otherwise |
| Replicas.NodesAgreeIff | conflict-service/replication.go:253-307 | two nodes, the one that took the booking included, agree on the status of every journey if and only if they have rows of the same journeys and for the same journeys a cancellation came after the last row |
| Replicas.OvertakingCancelDiverges | conflict-service/replication.go:253-307 | the shortest runs on which the nodes differ: push and cancellation in either order |
| PushRaces.BothPassIff | conflict-service/replication.go:260-288 | two pushes of one journey both get past their look if and only if one did while the other was between its look and its insert, whatever else happened |
| PushRaces.StaleMeansOvertaken | conflict-service/replication.go:260-288 | an insert that finds its journey known had another push of it, past its own look, insert meanwhile, or the journey booked here meanwhile |
| PushRaces.NeverStaleIff | conflict-service/replication.go:260-288 | on a node that takes no bookings and where every push that finds no row gets to insert: every insert still finds its journey unknown if and only if no push overtakes another of the same journey |
| PushRaces.RunsConverge | conflict-service/replication.go:253-307 | two nodes with the same journeys on which pushes overlapped without such an insert have the same rows and the same value in every counter |
| PushRaces.PushMovesForwardIff | conflict-service/replication.go:253-307 | a step of a push or a cancellation takes a journey back if and only if it is an insert into an inactive journey whose look is older |
| PushRaces.CancelledStaysWithoutStale | conflict-service/replication.go:253-307 | without such inserts and bookings of its id a cancelled journey is never revived |
| PushRaces.PushedTwice | conflict-service/main.go:45-52 | a run of two overlapping pushes of one slot that ends with two active rows and a counter at two |
| PushRaces.CancelledAndRevived | conflict-service/main.go:45-52 | a run in which a journey cancelled between the inserts of two overlapping pushes is active again |
| EmailLockProof.DeletesOwnKey | user-service/app/replication.py:204-247 | every delete, in a rollback or a release, removes a key its own request holds, though no delete looks at the owner |
| EmailLockProof.HolderOwnsEveryKey | user-service/app/replication.py:156-226 | a request that was granted the lock owns the key on every node until it starts to release |
| EmailLockProof.CollectorOwnsHome | user-service/app/replication.py:166-185 | a request still collecting keys owns its own node's key |
| EmailLockProof.CommitIsFirst | user-service/app/service.py:42-75 | when a request commits, no other request of that address has committed or has passed any peer's check |
| EmailLockProof.NextKeepsInv | user-service/app/internal_routes.py:37-124 | every step of every request and every copied row keeps key ownership exact and each address with one origin |
| EmailLockProof.OneRegistrationPerAddress | user-service/app/routes.py:62-92 | in every interleaving at most one request ever registers an address, though the peer's check and set are separate steps |
| EmailLockProof.NodesAgreeOnAccount | user-service/app/internal_routes.py:87-124 | all nodes that know an address know the same account for it |
| EmailLockProof.CopiesSpread | user-service/app/internal_routes.py:87-124 | a row copied to one node after another is known to all of them afterwards, with the account a node had before if it had one and the sender's otherwise; no other row differs |
| EmailNodes.GivingBackRestores | user-service/app/replication.py:204-247 | deleting the keys a request took restores the lock tables to what they were before |
| EmailNodes.Nodes.AskPeer | user-service/app/internal_routes.py:37-65 | the peer says yes exactly when the address is unknown there and its key is free, and sets only that key |
| EmailNodes.Nodes.AcquireDistributedLock | user-service/app/replication.py:156-226 | granted exactly when no node has a key for the address and no other node knows it; then the request's key is on every node and nothing else has changed; a refusal leaves every lock table as it was |
| EmailNodes.Nodes.ReleaseDistributedLock | user-service/app/replication.py:229-247 | after the release all lock tables are as before the acquisition |
| EmailNodes.Nodes.RegisterLocally | user-service/app/service.py:42-75 | commits exactly when address and licence are new in the own database; then the row of the own node is the only change of the user tables |
| EmailNodes.Nodes.ReceiveUser | user-service/app/internal_routes.py:87-124 | an unknown address is stored on the receiving node with the sender's account, a known one is ignored; no other row and no lock changes |
| EmailNodes.Nodes.Register | user-service/app/routes.py:41-114 | an uninterrupted registration succeeds exactly when no node has a key or a user for the address and the licence is new; then the row of its own node is the only change; either way no key is left behind |
| TwoPhaseProof.RunHoldsInv | Archive/services/coordinator.py:86-190 | in every run without user cancellations: YES votes rest on recorded rows, messages match the decision, statuses match the decision |
| TwoPhaseProof.ConfirmedMeansHeldEverywhere | Archive/services/coordinator.py:86-163 | one CONFIRMED booking of a transaction means every required region voted YES and has it HELD or CONFIRMED, whatever messages were lost |
| TwoPhaseProof.NoMixedOutcome | Archive/services/coordinator.py:117-190 | no transaction is CONFIRMED in one region and aborted in another, at any two moments of a run |
| TwoPhaseProof.DecisionStays | Archive/services/coordinator.py:115-163 | a decision, once taken, is never changed |
| TwoPhaseProof.CommittedIffAllYes | Archive/services/coordinator.py:115-163 | in every run a transaction is decided only with the votes of all required regions in, and is committed if and only if all are YES |
| TwoPhaseProof.CommitConfirms | Archive/services/coordinator.py:123-141 | a COMMIT that was sent and not lost is on its way, in its handler's hands, or has confirmed the booking |
| TwoPhaseProof.AbortCancels | Archive/services/coordinator.py:185-190 | an ABORT that finds the booking HELD is in its handler's hands until the booking is CANCELLED |
| TwoPhaseProof.StatusFromHistory | Archive/services/booking_service.py:137-212 | in every run, cancellations included, a booking exists once a step has given it a status and has the status that the last such step gave: HELD by a PREPARE, CONFIRMED by a COMMIT or the own insert, CANCELLED by an ABORT or a user |
| TwoPhaseProof.AbortedIsNeverConfirmed | Archive/services/coordinator.py:168-190 | after an abort no booking of the transaction is ever CONFIRMED, also not one held by a late PREPARE |
| TwoPhaseProof.CleanStepIff | Archive/services/booking_service.py:137-199 | one step keeps a node free of clashing claims if and only if it is neither a conflict check that overtakes another handler's insert nor a confirmation that revives a cancelled booking beside a clashing claim |
| TwoPhaseProof.RunIsCleanIff | Archive/services/booking_service.py:137-199 | a whole run, cancellations included, is free of clashing claims in every state if and only if it has no step of either kind |
| TwoPhaseProof.ClaimsIffMet | Archive/services/booking_service.py:137-199 | two places of one region with clashing trips have claims at the same moment if and only if one's check passed while the other was between its check and its insert, or one was revived while the other claimed, whatever else happened in the run, cancellations included |
| TwoPhaseProof.CommittedClashOvertook | Archive/services/coordinator.py:63-141 | two committed transactions with clashing trips overtook each other in every region they require, before that moment and whatever others did |
| TwoPhaseProof.CommittedTripsApart | Archive/services/coordinator.py:63-141 | one required region in which the two did not overtake each other is enough to keep their trips apart, whoever coordinated them and whatever COMMITs were lost |
| TwoPhaseProof.CommittedApartFromLocal | Archive/services/booking_service.py:69-79 | a committed transaction and a live booking that a required region made itself do not clash unless those two raced there |
| TwoPhaseRace.RaceDoubleBooks | Archive/services/booking_service.py:137-189 | a concrete run in which two transactions of one trip both commit |
| Trips.WindowIsShort | Archive/database/db.py:139-151 | two trips 1798 seconds apart, inside the documented half hour, that do not clash |
| Trips.MissedByWindowIff | Archive/database/db.py:139-151 | of trips the documented half hour keeps apart, the code keeps apart exactly those not in its last 2.88 seconds |
| RegionLaws.LegsArePairs | Archive/models/road_network.py:89-110 | the roads of a path are its consecutive pairs of cities, in order, and no others |
| RegionLaws.SimpleLegs | Archive/models/road_network.py:89-110 | a path that visits no city twice uses no road twice |
| RegionLaws.ReserveCounts | Archive/models/road_network.py:99-103 | reserving a path raises exactly its own roads, each by one |
| RegionLaws.ReleaseCounts | Archive/models/road_network.py:105-110 | releasing a path lowers exactly its own roads that are above zero, each by one |
| RegionThreadsProof.CounterShows | Archive/models/road_network.py:99-110 | in every schedule of the handlers' single accesses a road's counter equals its live bookings, plus handlers that reserved it and have not inserted, minus handlers that released it and have not marked, plus a drift counted access by access |
| RegionThreadsProof.CountersExactIff | Archive/services/booking_service.py:113-212 | the counters are exact at every moment of a schedule if and only if no release finds zero, no removal marks a row cancelled since it was read, and no confirmation revives one |
| RegionThreadsProof.ExactWithoutOverlap | Archive/services/booking_service.py:113-212 | they are exact as long as no removal of a booking overlaps another removal or a confirmation of it, however all other handlers interleave |
| RegionThreadsProof.RemovalsExactIff | Archive/services/booking_service.py:113-212 | where all handlers finish, the counters are exact at every moment if and only if, of rows that use a known road, no removal reads a live one that another removal is working on and no confirmation is written to a cancelled one |
| RegionThreadsProof.ReleasedByOne | Archive/services/booking_service.py:123-132 | without overlap only one handler ever releases the road of a booking, at whatever moments one looks |
| RegionThreadsProof.CancelledTouchedByEarlyReader | Archive/database/db.py:110-118 | a cancelled row is written again only by a handler that read it before it was cancelled |
| RegionThreadsProof.WritesAdvance | Archive/services/booking_service.py:191-212 | without overlap each write to a row is its next version and advances its status, HELD to CONFIRMED to CANCELLED |
| RegionRaces.WithinCapacityIff | Archive/models/road_network.py:89-103 | every road stays within its capacity at every moment of a schedule if and only if no reservation finds its road full |
| RegionRaces.FullMeansOvertaken | Archive/services/booking_service.py:163-168 | a reservation that finds its road full was overtaken: after its handler found room there, another handler reserved the same road |
| RegionRaces.ClashMeansRace | Archive/services/booking_service.py:149-199 | two handlers that hold clashing claims raced with each other, or the booking of one was revived while the other had its claim |
| RegionRaces.ClashIffRace | Archive/services/booking_service.py:149-199 | they hold clashing claims at some moment if and only if they raced, or a confirmation revived the booking of one beside the claim of the other, whatever all others do |
| RegionRaces.LockedBookingsNeverRace | Archive/services/booking_service.py:69-111 | two bookings the node makes itself never race, thanks to the booking lock |
| DoubleCancel.LiveBookingUncounted | Archive/services/booking_service.py:113-132 | a schedule of two bookings and two cancellations of the first, after which the second is live on a road whose counter shows none |
| Overflow.RoadOverbooked | Archive/services/booking_service.py:163-168 | a schedule of two PREPAREs in opposite directions after which a road of capacity 1 has two reservations |
| Revival.CancelledBookingRevived | Archive/services/booking_service.py:191-199 | a schedule of a PREPARE, its COMMIT, a cancellation and a second PREPARE of the trip that ends with two live clashing bookings though no check overtook an insert |
| RegionSerial.HandlerAlone | Archive/services/booking_service.py:29-212 | every handler that nothing interrupts finishes, COMMIT and ABORT through their transaction row included, and has then done to rows and counters exactly what its request does as a whole |
| RegionLaws.ApplyKeepsExact | Archive/services/booking_service.py:69-212 | a request that nothing interrupts keeps every road's count equal to its live bookings and within capacity |
| RegionLaws.ApplyKeepsNoClash | Archive/database/db.py:139-151 | a request that nothing interrupts keeps live bookings of one trip at least the window apart |
| RegionLaws.EveryOrderIsExact | Archive/services/booking_service.py:69-212 | both hold after any sequence of bookings, cancellations, prepares, commits and aborts served one after another |
| RegionLaws.CancelledIsFinal | Archive/services/booking_service.py:113-212 | a request that starts after a booking was cancelled leaves it untouched |
| RegionLaws.ReleaseMeansCancel | Archive/services/booking_service.py:123-132 | of requests served one after another only one that cancels a live booking on a road lowers the road's count |
| RegionNode.Node.CheckConflict | Archive/database/db.py:139-151 | true exactly when a HELD or CONFIRMED booking of the same origin and destination departs less than 1797.12 seconds apart |
| RegionNode.Node.CheckRoadCapacity | Archive/models/road_network.py:89-97 | true exactly when every known road between two consecutive cities of the path has spare capacity |
| RegionNode.Node.ReserveRoad | Archive/models/road_network.py:99-103 | on a path that visits no city twice, each known road between two consecutive cities gains one booking, no other road changes |
| RegionNode.Node.ReleaseRoad | Archive/models/road_network.py:105-110 | on a path that visits no city twice, each known road between two consecutive cities loses one booking if it has any, no other road changes |
| RegionNode.Node.UpdateBookingStatus | Archive/database/db.py:110-118 | the one row gets the status and the next version and keeps trip and route, all others are untouched, and the users of each road change at most by that booking, not at all if it stays live or stays cancelled |
| RegionNode.Node.BookJourney | Archive/services/booking_service.py:29-111 | booked exactly if both cities are the node's, nothing clashes, there is a path and it has room; then a CONFIRMED booking at version 1 is added and each of its roads counts one more; every other reply names its true cause and changes nothing |
| RegionNode.Node.CancelBooking | Archive/services/booking_service.py:113-132 | an uninterrupted cancellation cancels exactly a live booking, at its next version, and each road of its route counts exactly one less; otherwise nothing changes |
| RegionNode.Node.HandlePrepare | Archive/services/coordinator.py:168-226 | an uninterrupted PREPARE votes YES exactly when there is no conflict and room on this region's part; then a HELD booking at version 1 with that part as route and its transaction row exist and each of its roads counts one more; NO changes nothing |
| RegionNode.Node.ConfirmHeldBooking | Archive/services/booking_service.py:191-199 | acts exactly on a HELD booking: CONFIRMED at the next version, all else as before |
| RegionNode.Node.AbortHeldBooking | Archive/services/booking_service.py:201-212 | acts exactly on a HELD booking: CANCELLED at the next version, and each road of its route counts exactly one less |
| RegionNode.Node.HandleCommit | Archive/services/coordinator.py:178-183 | if the transaction has a row and its booking is HELD, that booking is CONFIRMED at the next version and all other bookings, the transaction rows and all roads stay; otherwise nothing changes |
| RegionNode.Node.HandleAbort | Archive/services/coordinator.py:185-190 | if the transaction has a row and its booking is HELD, that booking is CANCELLED at the next version, each road of its route counts exactly one less and all else stays; otherwise nothing changes |
| VersionMerge.Replica.ApplyIncoming | Archive/services/replication.py:109-131 | with no other handler in between and one row per booking in the message: an unknown booking is stored as it came, a known one with a newer version gets its own version plus one and the status that came, every other row stays, and the count is the number of unknown and newer ones; with repeats the bookings are merged in order |
| VersionMerge.UninterruptedIsMerge | Archive/services/replication.py:113-119 | a delivery whose read and write have nothing in between is one merge |
| VersionMerge.ApplyIsDelivery | Archive/services/replication.py:113-130 | what one booking of a message does to its row is what an uninterrupted delivery does to the row of its node, and it is counted exactly if the delivery gets to write |
| VersionMerge.RunMergesIff | Archive/services/replication.py:113-119 | with reads and writes of deliveries interleaving in any way, every step treats the rows as uninterrupted merges would if and only if no write finds its row rewritten since the read so that it is no longer behind the message |
| VersionMerge.RunBoundedIff | Archive/database/db.py:110-118 | no version ever passes the writer's, nor the writer's row its own writes, if and only if no write finds its row at the writer's version already |
| VersionMerge.ReplicasFollowWriter | Archive/services/replication.py:109-131 | while no write comes too late, with one writer and any gossip no version passes the writer's, a row at the writer's version is the writer's row, and the writer's row is what it wrote last |
| VersionMerge.NoOpAfterMissingRounds | Archive/services/replication.py:109-131 | delivered one after another, a fixed snapshot becomes a no-op exactly after as many rounds as versions were missing |
| VersionMerge.CaughtUpIff | Archive/services/replication.py:109-131 | while no write comes too late, a row gets at most as many writes as versions are missing, and it is the writer's row exactly when it has got them, whichever snapshots they came from |
| VersionMerge.RunAsWrittenIff | Archive/services/replication.py:109-131 | in every state of a run, deliveries overlapping or not, all rows have the status the writer gave their version if and only if no write brings another status than the writer gave the row's next version |
| VersionMerge.EqualVersionsEqualStatus | Archive/services/replication.py:109-131 | without such a write rows at equal versions have equal status |
| StaleMerges.EqualVersionsCanDiffer | Archive/services/replication.py:109-131 | a state reached without overlap with two replicas at version 2, one CONFIRMED and one CANCELLED |
| StaleMerges.WriterOverwritten | Archive/services/replication.py:113-119 | a run of two overlapping deliveries that takes a replica past the writer and then overwrites the writer's row |
| StaleMerges.WriterRevived | Archive/services/replication.py:113-119 | a run of three overlapping deliveries after which the writer's cancelled booking is CONFIRMED |
| StaleMerges.StatusGoesBack | Archive/services/replication.py:113-119 | a writer that only advances, and two overlapping deliveries that take a replica from CANCELLED to CONFIRMED at the writer's version, where no later delivery corrects it |
| VersionMerge.StatusNeverGoesBack | Archive/services/replication.py:109-131 | while no write comes too late and the writer's statuses only advance, no snapshot, old or second-hand, ever takes a row's status back |
| Outbox.NextKeepsInv | journey-service/app/outbox_publisher.py:39-70 | every step of every session keeps published rows a prefix, no longer than what reached the broker, which is a prefix too |
| Outbox.OutboxInOrder | shared/recovery.py:174-195 | with any number of publishers and drainers, failures and crashes: published rows are a prefix, all of them reached the broker, and first deliveries follow outbox order without a gap |
| Outbox.SessionIsPass | journey-service/app/outbox_publisher.py:39-70 | a session that nothing interrupts and whose first k rows the broker takes leaves the tables as a pass of the code does: those rows delivered and marked, all other sessions as they were |
| Outbox.Database.PublishPendingEvents | journey-service/app/outbox_publisher.py:39-70 | one pass delivers unpublished rows in order, none left out before the last one delivered, at most 50, stopping before that only at the first refusal or when none is left; it marks exactly what it delivered |
| Outbox.Database.DrainOutboxBacklog | shared/recovery.py:161-198 | the same without a limit, and the count returned is the number of rows delivered |
| PartitionQueue.QueueIsSuffix | shared/partition.py:109-202 | in every run the queue is a suffix of at most 1000 of the accepted operations, successful merges were handed exactly disjoint earlier blocks of them in order, and the failure count alone tells the mode |
| PartitionQueue.FailedMergeRestores | shared/partition.py:185-202 | a merge that fails leaves the queue as it was before it, whatever was offered meanwhile |
| PartitionQueue.FailedMergeWaitsForNextPartition | shared/partition.py:151-166 | while probes succeed, the operations put back are never offered to a merge again |
| PartitionQueue.Dependency.QueueOperation | shared/partition.py:109-117 | while suspected or partitioned the new operation is appended and beyond 1000 the oldest is dropped, otherwise the queue stays; it remains a suffix of the accepted operations |
| PartitionQueue.Dependency.OnProbeFailure | shared/partition.py:168-183 | afterwards the mode is suspected below three failures in a row and partitioned from three on, whatever it was, and nothing queued is lost |
| PartitionQueue.Dependency.OnProbeSuccess | shared/partition.py:151-192 | connected: failures are forgotten and the queue stays; otherwise a merge starts with the whole queue, which is the last accepted operations in order, and the queue is empty |
| PartitionQueue.Dependency.AfterMerge | shared/partition.py:160-202 | connected again with zero failures; the queue keeps what a failed merge was given, a merge that succeeded is recorded with its block |
| Points.ServeKeepsInv | journey-service/app/points.py:32-175 | one call with a positive amount keeps wallets and ledger in balance |
| Points.LedgerAddsUp | journey-service/app/points.py:32-175 | after any sequence of calls: balance is earned minus spent, never negative, and 20 plus the user's entries; version counts them; entries record running totals; no journey is awarded twice for one reason |
| Points.AwardMadeIff | journey-service/app/points.py:103-113 | after any calls an award for a journey is made exactly if no call has left an entry for that journey and reason, skipped exactly if one has, and fails exactly if two or more have |
| Points.AwardedIffFirst | journey-service/app/points.py:72-131 | callers that do not spend on a journey under a reason for awards never lose one: it is made if and only if none was asked for that journey and reason before |
| Points.OnlyRepeatsAreSkipped | journey-service/app/points.py:72-131 | if moreover each journey is one user's, only what that user asked for before is skipped |
| Points.Accounts.GetOrCreateWallet | journey-service/app/points.py:32-58 | an existing wallet is returned unchanged, a new one starts with the welcome bonus and its entry |
| Points.Accounts.EarnPoints | journey-service/app/points.py:72-131 | without a journey or with no entry, of any user, for journey and reason: the wallet, new with 20 if need be, gains the amount and one entry records it with the balance; with one such entry nothing is awarded, with more the call fails, and then at most a new wallet is kept, if the caller commits its session later |
| Points.Accounts.SpendPoints | journey-service/app/points.py:134-175 | without a wallet or with a balance below the amount refused with nothing changed; otherwise the balance falls by the amount and stays non-negative, the spent total and the version rise, one entry records it and no other wallet changes |
| Breakers.BreakersMirror | conflict-service/circuitbreaker.go:49-89 | with one probe both breakers stay in equal states and admit the same calls on every trace of calls that do not overlap |
| Breakers.MirrorIffOneProbe | shared/circuit_breaker.py:134-174 | they mirror on all such traces if and only if one successful probe is enough |
| Breakers.OpensExactlyAtThreshold | shared/circuit_breaker.py:154-174 | however calls overlap, the breaker leaves CLOSED exactly at the failure that makes the streak since the last success reach the threshold |
| Breakers.NothingWithinTimeout | shared/circuit_breaker.py:134-142 | nothing is admitted within the reset timeout of an opening, whatever late results arrive |
| Breakers.HalfOpenAdmitsAll | shared/circuit_breaker.py:93-114 | after the timeout a second call is admitted before the first has reported |
| Breakers.MirrorOverlappingIff | conflict-service/circuitbreaker.go:49-89 | with one probe and calls that overlap in any way, the breakers are equal in every state of a trace if and only if no result comes in while they are open, other than a failure at the moment of the opening |
| Breakers.LateFailureSeparates | conflict-service/circuitbreaker.go:79-89 | a trace of two overlapping calls after which only the Python breaker admits |
| Breakers.PythonBreaker.TryEnter | shared/circuit_breaker.py:93-142 | refuses exactly while OPEN and within the timeout; admitted while OPEN it becomes HALF_OPEN with no successes counted; nothing else changes |
| Breakers.PythonBreaker.OnSuccess | shared/circuit_breaker.py:143-152 | while CLOSED it ends the streak of failures; HALF_OPEN it counts and closes exactly at the wanted number of successes; while OPEN nothing changes |
| Breakers.PythonBreaker.OnFailure | shared/circuit_breaker.py:154-174 | opens from HALF_OPEN at once and from CLOSED at the threshold; while OPEN the timeout is not restarted |
| Breakers.GoBreaker.Allow | conflict-service/circuitbreaker.go:49-63 | refuses exactly while OPEN and within the timeout; the only change is from OPEN to HALF_OPEN |
| Breakers.GoBreaker.RecordSuccess | conflict-service/circuitbreaker.go:67-75 | forgets failures in every state and closes from HALF_OPEN; while OPEN it stays open |
| Breakers.GoBreaker.RecordFailure | conflict-service/circuitbreaker.go:79-89 | opens from HALF_OPEN at once and otherwise at the threshold, and restarts the timeout each time, also while OPEN |

## Left out

- HTTP, Redis, PostgreSQL, RabbitMQ, JWT and WebSocket code, the gateways and the frontend: plumbing; tables are maps or sequences, messages are elements of a network set.
- Floating-point error of coordinates and interpolated times, the precision with which the database stores times, and the wrap-around of Go's durations.
- Lock expiry, unreachable peers and open circuits while locking: there the code prefers availability, and an address can be registered twice.
- Registration of agents takes no lock; licence numbers are unique per node only; vehicles are not modelled.
- EmailNodes.Nodes.Register: describes a registration that nothing interrupts; interleaved registrations are the subject of EmailLockProof.
- Counters of pushed slots that carry a route, and a capacity bound across nodes: pushes are applied without a capacity check, so only the exact condition for conservation is stated.
- Discovery of peers and differing views of which region owns a city in the two-phase commit.
- TwoPhaseProof.RunHoldsInv: runs without user cancellations so far, since a user may cancel a booking that is already confirmed; TwoPhaseProof.RunIsCleanIff and TwoPhaseProof.ClaimsIffMet include cancellations.
- ConflictService.Service.ApplyReplicatedSlot: an uninterrupted call of SlotExists and StoreReplicatedSlot; interleaved ones are the subject of PushRaces.
- Replicas.PushesConverge: pushes applied one after another; overlapping ones are in PushRaces.RunsConverge.
- VersionMerge.Replica.ApplyIncoming: an uninterrupted call; interleaved deliveries are the subject of the machine in VersionMerge.
- VersionMerge.NoOpAfterMissingRounds: deliveries one after another; with overlap VersionMerge.CaughtUpIff holds.
- Transactions that the database aborts (serialization failures, deadlocks, errors): they change nothing.
- Concurrent calls of the points ledger: the wallet row is locked, but two users' calls for one journey are not kept apart, and a journey is taken to be one user's.
- RegionLaws.ApplyKeepsExact: one request that nothing interrupts; interleaved accesses are the subject of RegionThreadsProof.
- RegionLaws.ApplyKeepsNoClash: one request that nothing interrupts; interleaved accesses are the subject of RegionRaces.
- RegionLaws.EveryOrderIsExact: requests served one after another; every interleaving is in RegionThreadsProof.CounterShows.
- RegionLaws.CancelledIsFinal: requests served one after another; with overlap RegionThreadsProof.CancelledTouchedByEarlyReader holds.
- RegionLaws.ReleaseMeansCancel: requests served one after another; with overlap RegionThreadsProof.ReleasedByOne holds.
- RegionNode.Node.CancelBooking: an uninterrupted call, as RegionSerial.HandlerAlone relates it to the threaded node.
- RegionNode.Node.HandlePrepare: an uninterrupted call, as RegionSerial.HandlerAlone relates it to the threaded node.
- Updates of one road counter that overlap inside the interpreter, between reading the number and storing it: such an update is one step.
- In TwoPhase the road capacity of a region is only a reason to answer NO, and a user's cancellation is one step; RegionThreads has the counters and takes cancellations apart. TwoPhase's coordinator asks and tells its own region through the same messages, which may also be lost; the code calls itself directly, so the code's runs are among the modelled ones.
- The timeout column of held transactions, which no code reads, and the transaction's phase column.
- Bookings replicated between region nodes in the road counters: they are stored without reserving roads.
- VersionMerge.ReplicasFollowWriter: one booking and one writer; several writers of one booking have no ordering in the code.
- A dependency without a merge handler loses its queue; a partition's start time and the log messages are not modelled.
- Points.LedgerAddsUp: amounts are positive and the welcome reason is used only by the wallet's creation; the code checks neither.
- Journey status replication, the journey saga and the TCC coordinator, sharding by MD5, health monitors, log buffers, analytics, notifications and the enforcement cache.
- Shortest-path search and the random road graph: a path is an input.
