# Verified model of the cork orchestrator

cork runs challenges for a platform: it builds images and publishes them in a registry
under content-addressed tags, hands builds over between a build plane and orchestrators,
converges schemas into builds and instances, and runs those instances on a fleet of docker
workers it probes, ejects, recovers, preloads and cleans up. This project models the parts
where those operations interfere, one module per component, and proves what they promise.

| module | component |
|---|---|
| `Naming` | image tags, repositories, stale tags and network names, with the round trips and injectivity everything else rests on |
| `Retention` | the pair of generations a build row retains |
| `Registry` | build, rebuild, hand-over, prune, destroy and migration against the registry |
| `Health`, `Connections` | a worker's connection and the fleet map, every atomic step of `setReachable` on its own |
| `Probes`, `Stalls` | the poller's hysteresis; the sliding window of timed-out calls |
| `Placement` | round-robin selection |
| `Orphans` | reconcile passes against concurrent launches, stops and purges |
| `Ports` | the port bitset, scan, claim, reservation and reassignment |
| `Slots` | the slot semaphores of a daemon and the admission estimate |
| `Preload` | the preload pass over a worker's image store |
| `Converge` | marking, opening, sweeping, building and instance counts of a schema |
| `Spans` | pairing inline HTML tags and splicing converted spans into markdown |
| `BasePins` | finding and pinning the FROM references of a Dockerfile |
| `Routing` | destinations, routes and the exclusivity check of the build plane |
| `Arithmetic`, `Text` | the few facts about products and quotients the others share; trimming white space |

How to read it. Protocols are state machines: a run is any sequence of events, an event that
cannot happen is skipped, so a theorem about every sequence is a theorem about every
interleaving. Code that changes things step by step is a class or a method with loops, proved
equal to a function of its inputs or of the old state, and the properties are proved about that
function. What docker, the registry, the database, the clock and the random generator answer is
an input of each operation, failures included.

Where a promise turned out not to hold in general, the model follows the code, a lemma shows an
input on which it fails, and another proves exactly when it holds:

- Stamping legacy rows is the one path that can leave a row naming a tag the registry lacks:
  `Registry.MigrationCanDangle`, `Registry.MigrationDanglesUnlessHeld`.
- An ejection that lands inside a tick can be recovered from on probes made before it:
  `Probes.RecoveryInsideOneTick`, `Probes.RecoveryIsEarned`.
- The configuration check admits 65536 as the top of the port range, the column check refuses to
  store it: `Ports.TopPortCannotBeStored`.
- A launch that has its token and is still counted among the waiting is counted twice, so a daemon
  with a free slot may estimate a wait and refuse a launch, which the comment on `expectedWait`
  rules out: `Slots.RoomCanLookFull`, `Slots.DaemonWithRoomAdmits`, `Slots.RoomWhateverTheHold`.
- A schema count equal to LOCKED cannot be told from the sweep's own mark:
  `Converge.LockedSpecExample`, `Converge.LockedSpecLosesBuiltRows`.
- The comment on `pairInlineTags` says that every unmatched opener forms a span of its own; one
  discarded above a match does not: `Spans.DiscardedOpenerHasNone`, `Spans.OpenerHasItsOwnSpan`.

What orphan removal rests on is proved to be exactly what it needs
(`Orphans.SafeExactlyWhenAccounted`): ids that are never reused are part of it, and
`Orphans.ReusedIdsWouldBeUnsafe` shows a daemon and a database that count apart.

`dafny verify dfyconfig.toml` checks the whole project.

## Model

| member | source | states |
|---|---|---|
| Naming.ValueOfRender | cork/docker.go:541-543 | rendering a number in base 10 or 16 and reading it back is the identity |
| Naming.TagInjective | cork/docker.go:541-543 | a tag determines seed (negative ones included), checksum and host |
| Naming.ImageNameInjective | cork/docker.go:701-711 | an image name determines challenge, seed, checksum and host, with or without a registry address |
| Naming.LastIndex | cork/preload.go:671-676 | the last occurrence: the character is there and nowhere after |
| Naming.RepoOfTagged | cork/preload.go:671-676 | the repository and the tag of repository:tag are read back, a registry port not being mistaken for a tag |
| Naming.StaleTagFacts | cork/preload.go:419-426 | a stale tag keeps its repository and is recognised as stale |
| Naming.BuildNamesAreNotStale | cork/preload.go:413-426 | a build's image lies in its challenge's repository and is never taken for stale |
| Naming.NetworkInstanceIs | cork/worker_reconcile.go:237-252 | a name is attributed to an id if and only if it is that id's network name, up to zeros before the number, and the id fits 64 bits |
| Naming.NetworkRoundTrip | cork/docker.go:264-266 | reading an instance id back from its network name gives that id for every id, and nothing for values no id can have |
| Retention.PairFollowsHistory | cork/database_challenges.go:346-351 | over any rebuilds with failures interleaved the pair is the latest committed checksum and the most recent earlier one that differs, or 0; the two never coincide |
| Retention.PrunedGenerationLeftThePair | cork/database_challenges.go:360-362 | a generation is offered for pruning if and only if it exists and is neither member of the new pair, A to B to A included |
| Registry.ContentSum | cork/docker.go:486-498 | a content checksum is never the reserved 0 |
| Registry.PushOrder | cork/docker.go:793-812 | the ordered names are exactly the tags wanted, builder left out |
| Registry.Lacking | cork/docker.go:793-812 | what is pushed is exactly the wanted tags the registry did not serve |
| Registry.DistinctIdentities | cork/docker.go:541-543 | two content identities never share a tag |
| Registry.DropIsSafe | cork/database_builds.go:304-314 | deleting the tags of content no row refers to harms no row |
| Registry.RegistryNeverDangles | cork/registry.go:136-138 | over every serial run, failures and leaks included, no row names a current or rollback tag missing from the registry |
| Registry.TagsAreWriteOnce | cork/docker.go:933-948 | while a tag stays in the registry no run replaces the image under it |
| Registry.FailedRebuildRestores | cork/docker.go:1226-1261 | a failed rebuild keeps every row and tag, and takes back what it pushed unless something names it |
| Registry.DestroyRetiresExactly | cork/docker.go:1855-1956 | a retiring destroy removes a tag if and only if it belongs to a generation of the row no other row resolves to |
| Registry.ReleasedBuildCanBeHandedOver | cork/api.go:840-856 | a build released without retiring keeps its tags and is accepted elsewhere |
| Registry.OtherOrchestratorKeeps | cmd/cork-build/routing.go:76-93 | rows of another orchestrator survive every operation that retires no identity they resolve to |
| Registry.SharedIdentityDangles | cmd/cork-build/routing.go:76-93 | of two orchestrators serving one identity the first destroy leaves the other dangling |
| Registry.MigrationDanglesUnlessHeld | cork/docker.go:571-695 | stamping a legacy row keeps the invariant if and only if every host's image is held locally or already in the registry |
| Registry.MigrationCanDangle | cork/docker.go:633-695 | a row for which it does not |
| Registry.Store.PublishImages | cork/docker.go:793-812 | pushes a prefix of what is lacking, all of it on success, and reports it |
| Registry.Store.DeleteTags | cork/docker.go:1253-1261 | takes off exactly the named tags the registry does not refuse to delete |
| Registry.Store.ExecuteBuild | cork/docker.go:904-1267 | the tags after a build or a failed build |
| Registry.Store.RebuildOne | cork/database_challenges.go:902-1060 | one rebuild is one step of the protocol and keeps the invariant |
| Registry.Store.PruneReplaced | cork/docker.go:1811-1845 | a batch of prunes is a run of the protocol and keeps the invariant |
| Registry.Store.DestroyImages | cork/docker.go:1855-1956 | a destroy is one step of the protocol and keeps the invariant |
| Registry.Store.MissingOf | cork/handover.go:332-353 | reports nothing if and only if every wanted tag is served, and only missing tags |
| Registry.Store.RequireInRegistry | cork/handover.go:332-353 | a hand-over is complete if and only if every image of every build is served |
| Registry.Store.TakeHandOver | cork/handover.go:88-196 | accepted if and only if everything is served; refused, it changes nothing; accepted, it keeps the invariant |
| Connections.StepKeepsFleet | cork/workers.go:1250-1350 | the order stays a duplicate-free enumeration of the map, done channels are closed exactly once on leaving it |
| Connections.StepKeepsOneShot | cork/workers.go:903-956 | what every step keeps of a connection's life, its compare-and-swap, its retired mark and its channel being separate steps |
| Connections.EveryRunIsGood | cork/workers.go:903-956 | fleet, one-shot and operator-down invariants hold in every reachable state |
| Connections.ConnectionsAreOneShot | cork/workers.go:903-956 | a connection enters ok at most once, its unreachable channel closes at most once and only after it left ok, its done channel exactly when it left the map |
| Connections.LeftOkForGood | cork/workers.go:1016-1059 | once out of ok a connection never returns; recovery takes a new one |
| Connections.OperatorDownSticks | cork/workers.go:1186-1195 | after SetWorkerDown returned, a selection of that worker implies an AddWorker of it in between, in every interleaving |
| Connections.AssertedIsNotSelectable | cork/workers.go:1448-1480 | at no moment is a worker an operator holds down selectable |
| Probes.Poller.ProbeOnce | cork/workers.go:649-806 | one probe changes the counters and acts as the specification says |
| Probes.CountersFollowHistory | cork/workers.go:649-806 | over the whole history the misses are the failed probes it ends in, the good probes those it ends in since the worker was last found newly out of ok |
| Probes.EjectionNeedsConsecutiveMisses | cork/workers.go:972-997 | the probes eject if and only if this probe and the ones before it make maxMisses consecutive failures |
| Probes.PingsDoNotClearTheLatch | cork/workers.go:649-806 | after a failed listing every tick without a successful listing is a miss, however many pings are answered |
| Probes.ListingClearsTheLatch | cork/workers.go:649-806 | the latch clears if and only if ping and listing succeed |
| Probes.RecoveryIsEarned | cork/workers.go:870-875 | recovery follows healthyThreshold good probes in a row and the whole backoff; all after the ejection if and only if the tick found the worker out of ok |
| Probes.RecoveryInsideOneTick | cork/workers.go:649-806 | a run in which they were not |
| Probes.BackoffEscalates | cork/workers.go:877-885 | the backoff grows with the ejections up to its cap |
| Stalls.Conn.NoteTimeout | cork/workers.go:1142-1162 | the new list of stalls, the count reported and the verdict |
| Stalls.StallsStaySeparate | cork/workers.go:1142-1162 | for any clock values recorded stalls stay sorted, a call timeout apart and fewer than the limit |
| Stalls.WarningIsExact | cork/workers.go:169-174 | the startup warning fires if and only if no sequence of clock values ever ejects |
| Placement.Fleet.SelectWorker | cork/workers.go:1448-1480 | a worker if and only if one is placeable, the next in turn from any cursor, else the right kind of exhaustion |
| Placement.PlacementsTrackTurns | cork/workers.go:1448-1480 | how many placements a worker has had after k selections, from its place in the turn |
| Placement.SelectInARow | cork/workers.go:1448-1480 | k calls in a row over an unchanged fleet choose the workers in turn |
| Placement.ChoicesAreFair | cork/workers.go:1448-1480 | and those choices hold each of p placeable workers floor(k/p) or ceil(k/p) times |
| Placement.RoundRobinIsFair | cork/workers.go:1448-1480 | any k selections give each of p placeable workers floor(k/p) or ceil(k/p), from any cursor |
| Orphans.FindOrphans | cork/worker_reconcile.go:221-233 | exactly the listed objects attributed to an instance without a row, in order |
| Orphans.OrphanContainers | cork/worker_reconcile.go:221-266 | an orphan is a listed container whose instance is not live, and every such one is listed |
| Orphans.OrphanNetworks | cork/worker_reconcile.go:221-252 | the same for networks |
| Orphans.EveryRunIsOk | cork/api.go:463-495 | rows precede daemon objects and ids are handed out once: what passes know stays true in every interleaving |
| Orphans.OrphanRemovalIsSafe | cork/worker_reconcile.go:70-130 | from the moment a pass read the rows, nothing it has left to remove belongs to an instance with a row then or ever after, and a container is the very one it listed |
| Orphans.RemovalHitsNoRow | cork/worker_reconcile.go:137-173 | no removal ever hits a recorded instance |
| Orphans.SafeExactlyWhenAccounted | cork/worker_reconcile.go:70-130 | passes are safe in every run if and only if no daemon holds an object named for an id still to come or for a recorded instance of another worker; otherwise some run takes an object of a recorded instance away |
| Orphans.ReusedIdsWouldBeUnsafe | cork/database.go:137-151 | a database that counts anew beside a daemon that holds its first network |
| Ports.Release | cork/database_instances.go:197-202 | exactly the rows of other instances remain |
| Ports.AssignmentsStayExclusive | cork/database_instances.go:84-97 | over every interleaving of claims and releases no two assignments share a worker and a port |
| Ports.SetBitSetsOne | cork/database.go:735-763 | setting a bit of a word sets that bit and no other |
| Ports.MarkOne | cork/database.go:735-763 | marking a port in the word array marks that port and no other |
| Ports.Candidate | cork/database_instances.go:46-64 | the wraparound scan finds a port if and only if one is free, the first at or after the draw |
| Ports.ReservedPortWasFree | cork/database_instances.go:32-79 | a port handed out is in the range and was held by nobody when its row was written |
| Ports.ExhaustedMeansTaken | cork/database_instances.go:62-64 | exhaustion is reported only when each port was assigned at the snapshot or lost to a competing claim |
| Ports.ContentionLosesDistinctPorts | cork/database_instances.go:73-78 | giving up takes one distinct lost port per round |
| Ports.ReservationKeepsExclusive | cork/database_instances.go:32-79 | however a reservation ends, assignments stay exclusive |
| Ports.QuietReservation | cork/database_instances.go:32-79 | undisturbed, a reservation gets the first free port after its draw, and fails only for want of one or on 65536 |
| Ports.TopPortCannotBeStored | cork/docker.go:218-246 | an undisturbed reservation can fail with a free port if and only if the range ends in 65536 |
| Ports.RestartIsAllOrNothing | cork/database_instances.go:115-156 | a restarted instance gets every port, in the range, or holds none |
| Ports.FreeNumberIsKept | cork/database_instances.go:137-147 | a port keeps its number if and only if nobody took it meanwhile |
| Ports.Assignments.UsedPortBitset | cork/database.go:735-763 | the bitset of 64-bit words agrees with the assigned ports of the worker |
| Ports.Assignments.Mark | cork/database_instances.go:74-75 | adds one port to the marked ones, words staying words |
| Ports.Assignments.IsFree | cork/database_instances.go:51-52 | reads whether a port is marked |
| Ports.Assignments.ScanWords | cork/database_instances.go:50-60 | the loop over the words is the scan over the marked ports |
| Ports.Assignments.FindFree | cork/database_instances.go:45-64 | the candidate of a round |
| Ports.Assignments.Claim | cork/database_instances.go:84-97 | the atomic claim, after whatever others did |
| Ports.Assignments.ReservePort | cork/database_instances.go:32-79 | result and table of a whole reservation under interference |
| Ports.Assignments.ReassignPort | cork/database_instances.go:131-155 | one port of a restart: its old number first, then a reservation |
| Ports.Assignments.ReassignPorts | cork/database_instances.go:115-156 | result and table of a whole reassignment |
| Slots.StepConserves | cork/launch.go:287-310 | every step, a refusal after taking a token included, keeps tokens and waiting counter equal to the callers they stand for |
| Slots.SlotsAreConserved | cork/launch.go:265-310 | over every interleaving the tokens are the unreleased acquirers, never above capacity, and the waiting counter the callers in their wait |
| Slots.AllSlotsComeBack | cork/launch.go:287-310 | once every caller was refused or released, all slots are free and nobody waits |
| Slots.FullMeansHeld | cork/workers.go:1592-1613 | the semaphore is full if and only if one caller per slot owes a release |
| Slots.UnboundedLocalIsNeverRefused | cork/launch.go:287-310 | a caller of the local daemon without a timer is never refused |
| Slots.FoldStaysNear | cork/workers.go:1621-1628 | one update stays at most hi and at most 3 ns below lo |
| Slots.EstimateIsBounded | cork/workers.go:1621-1628 | so does every sequence of updates, lost ones included, from the first that takes effect |
| Slots.BoundIsAttained | cork/workers.go:1621-1628 | the 3 ns are attained |
| Slots.ExpectedWaitIsMonotone | cork/workers.go:1641-1653 | a longer queue or a slower daemon never shortens the expected wait |
| Slots.AheadCountsCallers | cork/workers.go:1641-1653 | what admission reads counts each caller once, and twice between its token and its return |
| Slots.DaemonWithRoomAdmits | cork/launch.go:249-259 | in every state of every run, exactly when the estimate is zero and exactly when a launch is admitted |
| Slots.RoomWhateverTheHold | cork/workers.go:1630-1640 | the estimate is zero whatever the hold time, and every launch admitted, if and only if fewer callers than slots are ahead, doubly counted ones counted twice |
| Slots.RoomCanLookFull | cork/workers.go:1641-1653 | a reachable state with a free slot and nobody queued that estimates a wait and refuses launches |
| Preload.PreloadSets | cork/preload.go:568-622 | the sets read from the rows |
| Preload.SetsAreWellFormed | cork/preload.go:568-622 | wanted images are named and in a preloaded repository, and nothing named is stale |
| Preload.ListSuperseded | cork/preload.go:653-668 | exactly the held, unnamed tags of preloaded repositories that do not wait for an image |
| Preload.ReleasedIsNeitherWantedNorRemovable | cork/preload.go:490-500 | the released images are exactly the formerly wanted ones that are neither wanted nor ever removed by a later pass |
| Preload.PullMissing | cork/preload.go:296-328 | store and tried set after the pulls, wherever they stop |
| Preload.PullsOnlyAdd | cork/preload.go:296-328 | pulls take nothing off and add only what was tried |
| Preload.ImageStore.Remove | cork/preload.go:536-547 | an unforced delete refuses the last tag of an image in use; a missing tag counts as removed |
| Preload.ImageStore.MarkStale | cork/preload.go:431-451 | store and outcome of marking a tag stale |
| Preload.ImageStore.RemoveSuperseded | cork/preload.go:382-411 | store after the removals, in any order, wherever they stop |
| Preload.RemoveOneIsLocal | cork/preload.go:382-451 | a removal touches its tag and that tag's stale name only |
| Preload.RemoveAllTakesOnlyListed | cork/preload.go:382-411 | whatever fails or happens meanwhile, only listed tags are taken off |
| Preload.PassIsSafe | cork/preload.go:269-335 | no pass takes off a tag a current build names, nor any tag of a repository with a wanted image neither held nor tried |
| Preload.RemoveAllSettles | cork/preload.go:382-451 | answered removals leave, of the removable tags, only stale ones that are the last tag of an image in use |
| Preload.PassReachesFixpoint | cork/preload.go:269-335 | with the database stable and every call answered a pass ends with every wanted image held and only such stale tags left |
| Preload.NextPassOnlyRetries | cork/preload.go:269-335 | the next pass pulls nothing and takes off exactly the stale tags no longer in use; with the same images in use it changes nothing |
| Converge.AllNamed | cork/api.go:715-726 | the keys a schema names, no more and no fewer |
| Converge.Manager.LockSchema | cork/database_builds.go:411-414 | every row of the schema locked, no other changed |
| Converge.Manager.OpenBuild | cork/database_builds.go:68-149 | inserts the row, or changes its count alone, and reports whether it was built |
| Converge.Manager.Cleanup | cork/api.go:862-891 | removes exactly the locked rows of the schema and their instances; failing, it spares all others |
| Converge.Manager.GenerateBuilds | cork/docker.go:268-384 | on success exactly the incomplete builds of the group end up built with their count |
| Converge.Manager.ConvergeBuildInstances | cork/api.go:792-830 | on success exactly the target number of instances, no other build's touched; nothing changes when they are right already; a negative target panics |
| Converge.Manager.RequireHandedOver | cork/buildplane.go:153-199 | nothing is short if and only if every named build was handed over |
| Converge.Manager.ConvergeSchema | cork/api.go:695-783 | error-free it leaves the converged rows and right instance counts; other schemas never change; refused for missing hand-overs, or finding everything as wanted, it changes nothing; it panics only on a service count below LOCKED |
| Converge.Manager.DeleteSchema | cork/api.go:840-856 | error-free it leaves exactly the rows and instances of the other schemas |
| Converge.SweepLeavesTheNamed | cork/api.go:695-783 | mark, open, sweep and build compose to the converged rows |
| Converge.ConvergedIsExact | cork/api.go:695-783 | without LOCKED these are exactly the named builds, built and with their counts, and the other schemas' rows as they were |
| Converge.LockedSpecLosesBuiltRows | cork/database_builds.go:405-409 | a named build is lost if and only if the schema asks for LOCKED and the build was there already |
| Converge.LockedSpecExample | cork/database_builds.go:405-409 | a database and a schema for which it is |
| Converge.ConvergeIsIdempotent | cork/api.go:695-783 | the converged rows are what converging them again asks for |
| Spans.TopNamed | cork/loader_markdown.go:499-505 | the topmost opener of a name, or none |
| Spans.PairInlineTags | cork/loader_markdown.go:487-520 | the spans of a list of tags |
| Spans.FindOpener | cork/loader_markdown.go:499-505 | the search down the stack |
| Spans.PairsAreLaminar | cork/loader_markdown.go:487-520 | spans of any source-ordered tags are nested or disjoint, unmatched ones included |
| Spans.PairsAreTheElements | cork/loader_markdown.go:483-520 | on properly nested markup the spans are exactly the extents of its elements |
| Spans.OpenerHasItsOwnSpan | cork/loader_markdown.go:483-520 | an opener forms a span of its own if and only if no later closing tag matches it or an opener before it |
| Spans.DiscardedOpenerHasNone | cork/loader_markdown.go:506-512 | an unmatched opener without one |
| Spans.DocumentIsLaminar | cork/loader_markdown.go:435-481 | so are they together with HTML blocks that lie apart from the tags |
| Spans.Sort | cork/loader_markdown.go:352-357 | a sorted permutation, by start, longer first |
| Spans.NextIsMaximal | cork/loader_markdown.go:359-374 | the next span at or past the cursor is maximal and nothing starts in between |
| Spans.Splice | cork/loader_markdown.go:352-379 | for laminar spans the cursor loop converts exactly the maximal ones, once each, and copies every other byte in order |
| Spans.ParseMarkdown | cork/loader_markdown.go:339-380 | the same for a document's blocks and tags, trimmed |
| Spans.PlainTextIsKept | cork/loader_markdown.go:334-338 | text without HTML passes through unchanged but for the trim, and unchanged if trimmed already |
| Text.TrimSpace | cork/loader_markdown.go:379 | white space at both ends is taken off, all of it and nothing else |
| Text.TrimmedIsUnique | cork/loader_markdown.go:379 | there is only one such text |
| BasePins.LexIsCanonical | cork/basepins.go:58-63 | taking a line apart at its white space loses nothing |
| BasePins.LinesAreUnique | cork/basepins.go:58-63 | and there is only one way to do it |
| BasePins.ReplaceChangesOnlyTheReference | cork/basepins.go:388-396 | with another reference a FROM line parses to the same prefix, flags and rest |
| BasePins.ReplaceSpelled | cork/basepins.go:388-396 | both lines are the same text around the reference |
| BasePins.ReplaceKeepsFate | cork/basepins.go:133-166 | nor does it change whether the line is refused as a heredoc or continued |
| BasePins.ScanFromInstructions | cork/basepins.go:133-202 | the references found, in order, and whether any line refuses the file |
| BasePins.PinnedScan | cork/basepins.go:133-202 | the pinned lines have the same stages and continuations, and nothing left to pin |
| BasePins.PinningTouchesOnlyReferences | cork/basepins.go:372-403 | every line is as it was, or one reported, pinned reference in it gave way to its digest and nothing else changed |
| BasePins.PinningIsIdempotent | cork/basepins.go:372-403 | pinning pinned lines changes and applies nothing |
| BasePins.AppliedIsReported | cork/basepins.go:570-586 | every applied reference is one the scan reports |
| BasePins.PinLines | cork/basepins.go:372-403 | rewriting the lines in place gives the pinned lines and the applied references |
| BasePins.SplitGivesLines | cork/basepins.go:377-402 | splitting into lines and joining them gives the file back |
| BasePins.SplitOfJoin | cork/basepins.go:377-402 | joining lines and splitting them gives the lines back |
| BasePins.PinDockerfileLines | cork/basepins.go:372-403 | the pinned file has as many lines, each the pinned line |
| BasePins.PinDockerfileTwice | cork/basepins.go:372-403 | pinning a file twice is pinning it once |
| Routing.LoadDestinations | cmd/cork-build/destinations.go:37-91 | accepted if and only if names and addresses are usable and one to one |
| Routing.For | cmd/cork-build/routing.go:47-65 | exactly the schemas that resolve to the address |
| Routing.IndexOf | cmd/cork-build/routing.go:53-63 | the route of an address, if there is one |
| Routing.RouteByDestination | cmd/cork-build/routing.go:44-74 | refused if and only if some schema does not resolve; else one route per address with exactly its schemas |
| Routing.RouteSchemas | cmd/cork-build/routing.go:35-74 | the same, and with --server every schema to every address |
| Routing.SchemaHasOneRoute | cmd/cork-build/routing.go:44-74 | every schema lands in exactly one route |
| Routing.KeyIsInjective | cmd/cork-build/routing.go:103-106 | the key tells (challenge, seed, flag format) apart |
| Routing.Ledger.Enter | cmd/cork-build/routing.go:106-117 | one more claim: an owner for it, and the contents reported stay exactly those claimed for two destinations |
| Routing.ExclusivityConflicts | cmd/cork-build/routing.go:94-124 | the contents reported are exactly those claimed for two destinations |
| Routing.ContestedIsShared | cmd/cork-build/routing.go:94-124 | a content is claimed for two destinations if and only if two schemas that resolve to different orchestrators name it |
| Routing.ExclusivityIsExact | cmd/cork-build/routing.go:94-124 | nothing is reported if and only if no content is named by two schemas that resolve to different orchestrators |
| Routing.ServersNeverConflict | cmd/cork-build/routing.go:35-43 | routes given by --server are never in conflict |

## Left out

- Docker, HTTP, TLS, SQLite and telemetry themselves: their answers are inputs of the operations, and registry deletes may or may not take effect.
- The local image store when no registry is configured, and the artifact bundles of builds.
- Registry operations running truly at the same time: the invariant is stated over serialized operations, although a hand-over asks the registry before it takes the update lock and a single destroy does not take it.
- The exact value of content checksums: a CRC enters as any number, so collisions of CRC32 are outside the model.
- Integer overflow of durations and counters, and 64-bit wrap-around of instance ids beyond the largest id.
- Port reservation without a configured range, where docker assigns the ports.
- Go's word operations on the port bitset are modelled on the binary representation of a natural number below two to the 64th.
- Load telemetry, worker names, reachability persistence across restarts, and logging.
- Which of several faults an error message names first, and the sorted order of reported names, tags and conflicts.
- Slots.SlotsAreConserved: states one pool; a daemon has two of them, for launches and teardowns, which share nothing.
- Preload.ImageStore.RemoveSuperseded: takes the list in any order, the source sorts it.
- Converge.Manager.ConvergeSchema: rows and instances only; a build executed a second time for a repeated seed counts like the first.
- Converge.Manager.StopInstance: a failed stop leaves the instance recorded.
- Spans.ParseMarkdown: the markdown and HTML parsers supply blocks and tags.
- BasePins.ScanFromInstructions: the two regular expressions are modelled on a line taken apart at white space; lower-casing of a code point is a parameter.
- Routing.KeyIsInjective: challenge ids are taken to be free of NUL, as sanitized ids are.
- The expiry of instances, the crash collector's choice of instances, schema parsing, migrations of the database schema, environment parsing, command lines and HTTP handlers: reading and reporting around the protocols modelled here.
