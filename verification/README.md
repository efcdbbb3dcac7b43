# A Dafny model of gemsub's store, scheduling and publication

gemsub probes proxy candidates, keeps what it learned in a store, and publishes lists of the
candidates that work. This project models the parts that carry its guarantees and proves those
guarantees for all inputs, all runs and all interleavings.

- **Snapshot codec** (`JsonText`, `JsonNumber`, `JsonGrammar`, `SnapshotCodec`, `SnapshotRoundTrip`,
  `SnapshotPanics`, `FastParser`, `SnapshotDecoder`, `SnapshotWriter`). The hand-written printer and parser of snapshots,
  in the form of the source (an object that moves a position, loops that append), refine functions on
  the text that is left; these are checked against the grammar of RFC 8259, sections 2 to 7, in both
  directions, and against each other as a round trip. Decoding has three outcomes: a snapshot, a
  refusal, or a panic where the decoder makes a slice with a count that a file claims.
- **History and score** (`Types`, `Score`, `History`, `Policy`). The circular buffer refines "the last N
  samples"; its scans and its score depend on that view alone. Scores are real numbers.
- **Store** (`StoreState`, `Store`, `Retention`, `ProbeHistory`, `GatesOverRuns`, `GateDynamics`, `Ranking`,
  `RankedOrder`, `RankingTiers`, `SaveLoad`, `ClampedRanking`, `ReloadedLists`).
  The class `Store` has the source's fields and loops over maps in an order it does not choose. Its
  methods refine functions on the whole state, about which the run properties are proved: absence
  counters and eviction, what a record knows of its probes, whom the gates let through and what the lists
  name and in which order, all said by the events of a run alone, and what a save and a load preserve.
- **Rotation** (`Rotation`). The least-recently-tested policy and its fairness bound over whole runs.
- **Concurrent protocols** (`Pool`, `Control`, `CandidateIndex`, `IndexAdapter`, `EventBus`). Step systems
  whose steps are what one goroutine does between two points where another one can come in. A section
  under a lock is one step, unless it operates on a channel or counter that others use without the lock.
- **Publication** (`LinkFiles`, `Publisher`). Link files, and the transaction over HEAD, index and
  worktree, with a failure possible at every step.
- **Rule engine** (`RuleEngine`, `RuleOutcomes`). Validation, phase inference, partition and evaluation, and the
  whole outcome of an evaluation said of the flat rule list.

`Base` holds optional values, the order of byte strings, and sorting.

What comes from elsewhere is a parameter: `CanonicalizeLink`, `deriveCategory`, the time codec, the
largest slice that can be made, signal extraction and text matching, the current time, and every choice of a
scheduler or a map iteration.

Where the code does not meet a property in full, the exact condition is proved and a lemma shows a
failing input:

- A history in a state file whose count is negative, or too large to allocate, ends the program
  (`SnapshotPanics.DecodePanicsExactly`, `SnapshotRoundTrip.NegativeCountPanics`). `Save` never writes
  such a file; an edited or damaged one can hold it.
- A snapshot whose first record is nil and that has another record is printed with a stray comma, which
  the decoder refuses (`SnapshotRoundTrip.SnapshotRoundTrips`, `SnapshotRoundTrip.NilRecordIsRefused`).
  The running program cannot produce it: `Save` has no nil record.
- Negative counters and latencies are dropped by the printer (`SnapshotRoundTrip.StoredKeeps`), so a
  cached negative latency does not survive a restart (`SaveLoad.CachedFieldsSurvive`,
  `SaveLoad.NegativeLatencyIsLost`), and the ranking by passes can change
  (`ReloadedLists.SaveLoadKeepsLists`, `ReloadedLists.RankingChanges`). Probes measure no negative
  latency; only an edited state file can bring one in.
- A rotation that has to test an empty link never records it (`Rotation.RecordingIsCycle`,
  `Rotation.EmptyLinkStarves`). The running program cannot produce this: `parser.Parse` refuses an empty
  link (`internal/parser/parser.go:32`).
- A probe that returns none of the three statuses is completed but not counted
  (`Pool.UncancelledCounts`, `Pool.EventsOkExactly`). The probes of the program set one of the three.
- The safety check before a publication skips legacy files that are missing on disk, so a staged change
  of such a file is lost by a rollback (`Publisher.RollbackRestores`, `Publisher.StagedDeletionIsLost`),
  although the comment at `internal/publisher/publisher.go:316` speaks of restoring the state before the
  transaction. Such a change is made by hand, with `git rm` for instance.

## Model

| member | source | states |
|---|---|---|
| `JsonText.StringRoundTrip` | internal/store/store.go:822-859 | Any byte string, valid UTF-8 or not, printed by `appendJSONString` in front of any text, is scanned back as itself, and the scan stops at that text |
| `JsonText.ParseRendered` | internal/store/store.go:1131-1182 | Every string of RFC 8259 section 7 scans to its meaning: escapes replaced, surrogate pairs joined, an unpaired surrogate read as U+FFFD |
| `JsonText.ScanSound` | internal/store/store.go:1131-1182 | Whatever the scanner takes for a string body is a body of that grammar |
| `JsonText.UnescapeNeverFails` | internal/store/store.go:1069-1129 | `unescapeJSON` never fails on a body that the scanner accepted, unpaired surrogates included |
| `JsonNumber.IntRoundTrip` | internal/store/store.go:1188-1224 | Every int64 in decimal, in front of a delimiter, is read back exactly and the scan stops at the delimiter |
| `JsonNumber.UintRoundTrip` | internal/store/store.go:1226-1256 | The same for every uint64 |
| `JsonGrammar.ValueAccepted` | internal/store/store.go:1279-1416 | Every rendering of an RFC 8259 value, in any white space layout, is accepted and the scan stops right behind it |
| `JsonGrammar.ValueSound` | internal/store/store.go:1279-1416 | Whatever `skipValue` accepts is white space and a value of the grammar, and its parse tree is constructed |
| `JsonGrammar.SkipValueExact` | internal/store/store.go:1279-1416 | Both directions in one: `skipValue` accepts a text up to a position if and only if the grammar allows it |
| `FastParser.AppendJSONString` | internal/store/store.go:822-859 | The loop that copies runs of unescaped bytes appends exactly the escaped string |
| `FastParser.UnescapeJSON` | internal/store/store.go:1069-1129 | The unescaping loop returns what the grammar's meaning of the body says, or fails where it has none |
| `FastParser.FastJSONParser.ParseStringBytes` | internal/store/store.go:1131-1182 | The scanner that moves `pos` agrees with the scanner on the text that is left, on success and on failure, and `pos` strictly grows on success |
| `FastParser.FastJSONParser.ParseInteger` | internal/store/store.go:1188-1224 | The loop accepts exactly a sign, digits without leading zero and a delimiter within int64, and yields their value |
| `FastParser.FastJSONParser.ParseNumber` | internal/store/store.go:1360-1416 | The number scanner accepts exactly the strict number grammar in front of a delimiter |
| `FastParser.FastJSONParser.SkipAny` | internal/store/store.go:1279-1358 | The recursive skipper agrees with the grammar-checked function and terminates because `pos` strictly grows |
| `SnapshotWriter.AppendSample` | internal/store/store.go:954-1003 | The straight-line appends of a sample write its shown members, and only those, separated by commas |
| `SnapshotWriter.AppendRecords` | internal/store/store.go:876-1009 | The loop over records writes the array of the non-nil records; a comma depends on the index alone |
| `SnapshotWriter.WriteSnapshotJSON` | internal/store/store.go:861-1014 | The whole printer writes the text that the round trip below decodes |
| `SnapshotDecoder.DecodeSamples` | internal/store/store.go:1669-1815 | The loop over samples reads, refuses and stops as the codec function does on the text that is left, and panics where room for the count read before cannot be made |
| `SnapshotDecoder.DecodeRecords` | internal/store/store.go:1460-1869 | The same for the loop over records, with everything nested in it; a panic inside is passed on |
| `SnapshotDecoder.FastDecodeSnapshot` | internal/store/store.go:1418-1894 | The whole nest of loops decodes, refuses or panics exactly where the codec function does; trailing bytes and a missing `records` key are refused |
| `SnapshotPanics.DecodePanicsExactly` | internal/store/store.go:1669-1673 | For every text: decoding panics if and only if the loops arrive at a `samples` list while the count read so far is negative or beyond what can be allocated |
| `SnapshotRoundTrip.ObjectRead` | internal/store/store.go:1418-1894 | An object is read back member by member whichever members the printer left out, in front of any text |
| `SnapshotRoundTrip.SnapshotRoundTrips` | internal/store/store.go:861-1014 | Decoding what was printed is refused exactly when the first record is nil and a later one is not; otherwise it panics exactly when some count is negative or cannot be allocated; otherwise it gives back the non-nil records as stored |
| `SnapshotRoundTrip.ObjectStops` | internal/store/store.go:1418-1894 | An object whose members are read up to one that is refused or panics is refused or panics, whichever members the printer left out |
| `SnapshotRoundTrip.NilRecordIsRefused` | internal/store/store.go:876-883 | A nil record in front of another one is printed with a stray comma and refused |
| `SnapshotRoundTrip.NegativeCountPanics` | internal/store/store.go:1673 | A printed history with count -1 ends the program that loads it |
| `SnapshotRoundTrip.StoredKeeps` | internal/store/store.go:861-1014 | A stored record keeps every persisted field if and only if no counter or optional latency is negative; a `Latest.Link` equal to `ActiveLink` comes back empty |
| `History.BoundedHistory.NormalizeAndValidate` | internal/store/history.go:65-111 | From any field values the buffer ends up valid and equal to the specified normal form |
| `History.NormalizedKeepsRecent` | internal/store/history.go:65-111 | Normalizing shows the most recent samples that were readable and fit, in order |
| `History.NormalizedFixpoint` | internal/store/history.go:65-111 | Normalizing twice is normalizing once, and a valid buffer within the limit is untouched |
| `History.BoundedHistory.Push` | internal/store/history.go:187-201 | A push changes the buffer as specified, in place unless it had to be rebuilt |
| `History.PushedView` | internal/store/history.go:187-201 | After a push the chronological view is the last `Capacity` samples of the old view and the new one |
| `History.PushAllView` | internal/store/history.go:187-201 | After any sequence of pushes the view is the last `Capacity` samples ever pushed |
| `History.BoundedHistory.ChronologicalSamples` | internal/store/history.go:265-275 | The copy loop returns a fresh array with the view, oldest first |
| `History.BoundedHistory.FindLastPassedLatency` | internal/store/history.go:205-216 | The backward scan returns the latency of the newest pass of the view, or nothing if there is none |
| `History.BoundedHistory.FindLastNetworkHealthyLatency` | internal/store/history.go:223-262 | The backward scan stops at the newest sample that settles the network and reports its latency or its failure |
| `History.BoundedHistory.ComputePreviouslyPassed` | internal/store/history.go:289-304 | The result is whether the newest conclusive sample of the view is a pass |
| `History.BoundedHistory.CountInconclusive` | internal/store/history.go:307-321 | The result is the length of the trailing inconclusive run of the view |
| `History.BoundedHistory.FindLatestConclusive` | internal/store/history.go:325-336 | The result is the newest passed or failed sample of the view |
| `History.InconclusiveRunAfterPush` | internal/store/history.go:307-321 | The trailing inconclusive run after a push is 0, or the smaller of one more and the capacity |
| `History.BoundedHistory.ComputeScoreFor` | internal/store/history.go:466-506 | The forward loop with explicit powers computes the recursive weighted score of the view |
| `Score.ForwardIsScore` | internal/store/history.go:340-375 | Summing forward with decay to the power of the age equals the recursive sum, numerator and denominator |
| `Score.ScoreBetween` | internal/store/history.go:340-375 | The score lies between the least and the greatest weight of the window, for any decay |
| `Policy.ScoreInRange` | internal/store/history.go:340-375 | The same for the score of a history under a policy |
| `Policy.PassNeverLowersScore` | internal/store/history.go:187-201 | Pushing a pass never lowers the score, whether or not the buffer is full, for every decay in (0, 1] and weights in [0, 1] |
| `Policy.FourPassesReachThreshold` | internal/store/config.go:28-55 | Under the default policy a window that ends in four passes, or holds nothing else, reaches the threshold |
| `Policy.TwoFailuresMissThreshold` | internal/store/config.go:28-55 | Under the default policy a window that ends in two failures of weight at most 0.1 misses it |
| `GateDynamics.FourPassesOpenGates` | internal/store/store.go:191-273 | From any store state, once the last four or more probes of a candidate passed, spread over cycles in any way, it is servable and network-healthy exactly while its record is not pending absent and, if it was missed before, pending present |
| `GateDynamics.FourPassesServe` | internal/store/store.go:191-273 | In any run of a new store that ends in four or more passes of a candidate, it is servable and network-healthy unless it was neither listed nor probed since the last start or finish, and a cycle is under way or it was missed before |
| `GateDynamics.TwoFailuresCloseGates` | internal/store/store.go:207-273 | Once its last two or more probes failed with weight at most 0.1 it is not servable, present or not |
| `StoreState.NetworkStateServable` | internal/store/store.go:326-383 | The second result of the network gate is the servability gate, and what is servable is network-healthy |
| `StoreState.PutKeepsStateOk` | internal/store/store.go:1898-2043 | A put keeps the invariant that every record stands under its own key with a valid history and every cached field equal to its recomputation |
| `StoreState.LoadEstablishesStateOk` | internal/store/store.go:488-560 | Loading any version-2 snapshot, however corrupt its histories, establishes that invariant |
| `Store.Store.constructor` | internal/store/store.go:135-163 | A new store has a valid policy, whatever the configured values, and no records |
| `Store.Store.PutWithTransition` | internal/store/store.go:1898-2043 | The method changes the store exactly as the put function says and keeps the invariant |
| `Store.Store.CompleteResult` | internal/store/store.go:1902-1923 | The branches over empty status and category fields complete a result as specified |
| `Store.Store.MakeSample` | internal/store/store.go:1944-1975 | The sample built field by field, with its claude part, is the specified one |
| `Store.Store.FindAbsence` | internal/store/store.go:191-203 | The two lookups decide absence as the specified gate does |
| `Store.Store.DecideServability` | internal/store/store.go:207-273 | The early returns over absence, target policy, cold start, score and grace give the specified gate decision |
| `Store.Store.DecideNetwork` | internal/store/store.go:326-383 | The tiers of the network gate, with the fallback to the latest result, give the specified decision |
| `Store.Store.FindNetworkLatency` | internal/store/store.go:2265-2289 | The fallbacks of the ranking latency give the specified one |
| `Store.Store.StartCycle` | internal/store/store.go:2056-2089 | Whatever the iteration order, the pending sets become the canonical listed links and the other records |
| `Store.Store.FinishCycle` | internal/store/store.go:2094-2121 | Whatever the iteration order, counting, eviction and reset leave exactly the records the specification names |
| `Store.Store.Load` | internal/store/store.go:474-560 | The loop over the snapshot's records builds the specified store: later records replace earlier ones with the same key |
| `Store.Store.Save` | internal/store/store.go:686-738 | The snapshot holds every record once, compacted and sorted by canonical link |
| `Store.Store.RecordProbe` | internal/store/store.go:1977-2041 | Pushing into the record's buffer, scoring, scanning and projecting step by step yields the specified record |
| `Store.Store.RestoreRecord` | internal/store/store.go:496-557 | Completing links, normalizing the buffer, scoring, scanning and projecting step by step yields the specified record |
| `Retention.RunStateOk` | internal/store/store.go:1898-2121 | Every reachable store satisfies the invariant on cached fields |
| `Retention.RunAgrees` | internal/store/store.go:2056-2121 | In every run the records, their `AbsentCycles` and both pending sets are what a definition over the events alone says |
| `Retention.PendingSetsPartition` | internal/store/store.go:2061-2121 | The pending sets are disjoint, and during a started cycle they cover all records |
| `Retention.AbandonedLeavesNoTrace` | internal/store/store.go:2056-2121 | Leaving an abandoned cycle out of a run changes no counter, now or later, of a candidate it did not create |
| `Retention.EvictedExactly` | internal/store/store.go:2094-2121 | A candidate untouched since a finished cycle counts the started cycles finished since, and is gone exactly once they exceed `MaxAbsentCycles` |
| `ProbeHistory.RunRecords` | internal/store/store.go:1898-2043 | In every run the history of a record holds the samples of the candidate's last `HistoryCapacity` probes since the record was created, and its latest result is that of the last one |
| `ProbeHistory.NewestSampleIsLatest` | internal/store/store.go:1944-1975 | The newest sample says what the last probe returned, field by field, with the number of cycles finished before it as its cycle ID, and agrees with the latest result |
| `ProbeHistory.LastProbeLatency` | internal/store/history.go:223-262 | What the last probe makes of the network latency: its transport evidence decides; without any a pass or a block by the target gives its latency, another failure none, and an inconclusive probe keeps what was there |
| `ProbeHistory.ClaudeScoreOverRuns` | internal/store/history.go:378-396 | The claude score of a record is that of its last probes: of what each said about Claude, or else of a failure on the way to the target, or else of a timeout |
| `GatesOverRuns.AbsentNotServed` | internal/store/store.go:191-203 | In every run, a candidate neither listed nor probed since the last start or finish, while a cycle is under way or after a miss, is neither servable nor network-healthy |
| `GatesOverRuns.ServableExactly` | internal/store/store.go:207-273 | In every run a candidate is servable if and only if it is present, its last probes are enough and score enough, and the newest conclusive one was not blocked by the target; the grace period never applies |
| `GatesOverRuns.NetworkHealthyExactly` | internal/store/store.go:326-383 | In every run a candidate is network-healthy if and only if it is present, was probed often enough, and is servable or its probes show a working transport |
| `GatesOverRuns.EvidenceDecides` | internal/store/store.go:348-355 | A present candidate that is not servable and whose last probe had transport evidence is network-healthy if and only if that probe's transport worked |
| `GatesOverRuns.ConclusiveDecides` | internal/store/store.go:357-382 | If its last probe had no evidence, the newest conclusive probe decides by its own evidence or else by having been blocked by the target; without any it is not network-healthy |
| `GatesOverRuns.CachedOverRuns` | internal/store/store.go:1977-2041 | In every run score, pass flag, pass latency, last known outcome and inconclusive run of a record are those of its candidate's last probes |
| `GatesOverRuns.ListsOverRuns` | internal/store/store.go:2124-2238 | In every run `Passing` and `NetworkPassing` name exactly the last links of the candidates that the events alone say are served and network-healthy |
| `SaveLoad.CachedFieldsSurvive` | internal/store/store.go:488-560 | After Save and Load the cached score and pass flag are unchanged, and the cached latency is if and only if it is not negative |
| `SaveLoad.LoadedFromText` | internal/store/store.go:686-738 | The text of a saved state always decodes, and loads to the same keys with every record reloaded |
| `ReloadedLists.SaveLoadKeepsLists` | internal/store/store.go:2124-2328 | Saving at a cycle boundary and loading into a fresh store restores the invariant and keeps `Passing`, `NetworkPassing` and `NetworkPassingRanked` in any case, and `PassingRanked` if and only if clamping negative latencies at 0 swaps no two servable passed records of equal score |
| `ReloadedLists.ReachableStoreReloads` | internal/store/store.go:2124-2328 | The same for every run of a new store that has just finished a cycle |
| `ReloadedLists.ReloadedRanking` | internal/store/store.go:2150-2216 | The condition on `PassingRanked`: with it both states have the same ranking, without it they share none |
| `ReloadedLists.RankingChanges` | internal/store/store.go:2150-2216 | A run whose `PassingRanked` really changes: passes of latency -1 and -2 swap places |
| `ClampedRanking.SharedRankingKeepsOrder` | internal/store/store.go:2150-2216 | If lines and their clamped copies are ranked to the same links, every two of them keep their order |
| `SaveLoad.NegativeLatencyIsLost` | internal/store/store.go:970-973 | A pass of latency -1 comes back with latency 0: why the condition is there |
| `Store.Store.Passing` | internal/store/store.go:2124-2141 | The list is one that some iteration order and sort of the servable records give |
| `Store.Store.PassingRanked` | internal/store/store.go:2150-2221 | The same for the ranking by pass, score, latency and link |
| `Store.Store.NetworkPassing` | internal/store/store.go:2226-2238 | The same for the network-healthy records |
| `Store.Store.NetworkPassingRanked` | internal/store/store.go:2253-2328 | The same for the two-tier network ranking |
| `RankedOrder.PassingOrder` | internal/store/store.go:2150-2216 | `PassingRanked` lists each servable record once: those that passed first, then by score, then by the latency of the newest pass, then by link |
| `RankedOrder.NetworkOrder` | internal/store/store.go:2253-2328 | `NetworkPassingRanked` lists each network-healthy record once: servable ones first, by score, latency and link; then the other ones by latency and link, whatever their score |
| `RankedOrder.FasterNetworkFirst` | internal/store/store.go:2253-2328 | Of two listed candidates that are not servable, the one whose history last showed the smaller positive network latency comes first |
| `Base.LexLessExactly` | internal/store/store.go:2134 | A link comes before another one if it is a proper prefix of it or has the smaller byte where they first differ |
| `Ranking.ListsDetermined` | internal/store/store.go:2124-2328 | Each of the four lists is determined by the records, whatever the map iteration order and the sorting algorithm, although ties exist |
| `Ranking.RankedArePermutations` | internal/store/store.go:2124-2328 | The ranked lists are permutations of the unranked ones |
| `RankingTiers.PassingIsHealthy` | internal/store/store.go:2226-2238 | `Passing` is contained in `NetworkPassing`, counting repetitions |
| `RankingTiers.NetworkRankingStartsWithPassing` | internal/store/store.go:2253-2328 | If every servable candidate has passed with positive latency, the first entries of `NetworkPassingRanked` are exactly `PassingRanked` |
| `RankingTiers.ServableHasPassed` | internal/store/store.go:251-270 | That condition holds when samples that are no pass weigh less than the threshold and passes take positive time |
| `Rotation.CandidateRotator.RecordTested` | internal/scheduler/rotation.go:33-44 | The method keeps the later of the two times, and ignores empty links and zero times |
| `Rotation.CandidateRotator.PruneStale` | internal/scheduler/rotation.go:48-62 | Exactly the entries of listed canonical links stay |
| `Rotation.CandidateRotator.SelectCandidates` | internal/scheduler/rotation.go:69-121 | The result names different positions, each before every one left out in the order of the policy |
| `Rotation.SelectionOrder` | internal/scheduler/rotation.go:98-110 | A selected candidate was tested no later than any that comes after it or was left out; equal times are broken by canonical link, then by position |
| `Rotation.RecordingIsCycle` | internal/scheduler/scheduler.go:519-538 | Recording the selected candidates in any completion order advances the rotation if and only if no canonical form is tested by empty links alone |
| `Rotation.CycleAdvances` | internal/scheduler/rotation.go:69-121 | A cycle that does not test a candidate moves all it tests from before to behind it |
| `Rotation.EveryLinkTested` | internal/scheduler/rotation.go:69-121 | With n candidates and limit L every canonical link is tested in any ceil(n/L) consecutive cycles |
| `Rotation.RotatorIsFair` | internal/scheduler/scheduler.go:519-538 | The same for runs of prune, select and record as the scheduler does them |
| `Rotation.EmptyLinkStarves` | internal/scheduler/rotation.go:33-44 | With an empty link, another one and limit 1, every cycle of every run of a new rotator selects the empty link only and records nothing |
| `Pool.PoolIsSafe` | internal/tester/pool.go:28-92 | In every interleaving at most `Concurrency` workers hold the semaphore, candidates are dispatched at most once and in order, and none is live at return |
| `Pool.UncancelledCounts` | internal/scheduler/scheduler.go:533-602 | An uncancelled cycle reports counts summing to the number of candidates if and only if every probe returned one of the three statuses |
| `Pool.EventsOk` | internal/tester/pool.go:61-86 | Every `ProbeCompleted` event has Completed <= Passed + Failed + Inconclusive <= Total, although its counters are read one by one while others move |
| `Pool.EventsOkExactly` | internal/tester/pool.go:61-86 | All events of all runs satisfy this if and only if every probe is to return one of the three statuses; with another one the sequential run publishes a wrong event |
| `Pool.AbortedIsSilent` | internal/tester/pool.go:58-61 | In every execution a worker that checks the context after the cancellation is never reported or counted and publishes nothing, then or later |
| `Pool.ReportedWasChecked` | internal/tester/pool.go:58-64 | Whatever is reported comes from a worker that passed its check while the context was not cancelled |
| `Pool.CancelledDispatchStops` | internal/tester/pool.go:45-50 | Once the dispatcher has seen the cancellation no further candidate is started, and the pool returns false |
| `Pool.NeverStuck` | internal/tester/pool.go:43-92 | With a concurrency of at least one, until the pool has returned some goroutine can go on without a cancellation |
| `Pool.OneEventEach` | internal/tester/pool.go:73-86 | A pool that has returned has published one event for each completed probe, and for each candidate if it was not cancelled |
| `Control.ExecutionInv` | internal/scheduler/control.go:99-287 | The invariant of the lock, the runs, the stopper and the channels holds in every interleaving |
| `Control.OneRunLive` | internal/scheduler/control.go:99-137 | At most one `Run` is live in every interleaving of Start, Stop, Pause, Resume, Trigger and cancellation |
| `Control.PauseChannelCurrent` | internal/scheduler/scheduler.go:187-233 | Between lock sections `pauseCh` is empty or holds the current value of `paused` |
| `Control.StopLeavesIdle` | internal/scheduler/control.go:141-179 | The Stop that took effect returns only after every `Run` has exited, with `paused` cleared and both channels empty |
| `Control.StartSpawnsAlone` | internal/scheduler/control.go:99-137 | A Start that is let through spawns only when no `Run` is live |
| `Control.TriggerPendingExactly` | internal/scheduler/control.go:266-287 | A trigger is pending exactly from the moment one was accepted until a run receives it or a reset drains it |
| `Control.SetReachesRun` | internal/scheduler/scheduler.go:187-233 | When Pause or Resume is about to leave, its value is set, and is in `pauseCh` or was received by a run |
| `Control.AwaitedIsCancelled` | internal/scheduler/control.go:141-164 | The run that a Stop waits for has been cancelled |
| `Control.NeverStuck` | internal/scheduler/control.go:99-287 | No interleaving deadlocks: while a call or a Stop is under way, one of the goroutines can go on |
| `Control.StartAlone` | internal/scheduler/control.go:99-137 | A Start that nobody comes into leads to a new run behind a clean state |
| `Control.SetAlone` | internal/scheduler/scheduler.go:187-233 | A Pause or Resume by itself changes the value and hands it over, in place of one nobody received; told the current value it does nothing |
| `Control.TriggerAlone` | internal/scheduler/control.go:266-287 | A Trigger by itself leaves one trigger pending, or nothing while paused |
| `Control.StopAlone` | internal/scheduler/control.go:141-179 | A Stop by itself cancels the looping run, waits for its end, and leaves the service idle and clean |
| `CandidateIndex.IndexUnique` | internal/tui/adapter/adapter.go:431-490 | The sorted index is determined by the records |
| `CandidateIndex.CountTiers` | internal/tui/adapter/adapter.go:431-490 | The counting loop yields the filter slices: exactly the entries of tier 1 and of tier at most 2, as prefixes |
| `CandidateIndex.CacheFresh` | internal/tui/adapter/adapter.go:493-575 | However rebuilds and store mutations interleave, a cache with the store's revision is the sorted index of the current store, and its filters name exactly the tiers |
| `CandidateIndex.IndexSaysOfRecords` | internal/tui/adapter/adapter.go:431-490 | An index has one entry for each record; its first filter shows exactly the servable records and its second one the network-healthy ones; inside a tier the order is by pass, score, known latency and link |
| `CandidateIndex.RebuildRefreshes` | internal/tui/adapter/adapter.go:493-575 | A rebuild that no store mutation comes into leaves the current index, with its filters, in the cache |
| `Store.Store.MakeEntry` | internal/store/store.go:2485-2546 | The entry built field by field, with tier, effective latency and status letters, is the specified one |
| `Store.Store.ComputeIndex` | internal/tui/adapter/adapter.go:431-490 | Collecting in any iteration order, sorting and counting yield the sorted index of the store with its filters |
| `IndexAdapter.OpaqueIDsDiffer` | internal/tui/adapter/adapter.go:698-712 | Different counter values give different IDs |
| `IndexAdapter.Adapter.PublishIndex` | internal/tui/adapter/adapter.go:566-574 | Publishing keeps the invariant and sets entries, filters and revision together |
| `IndexAdapter.Adapter.AssignID` | internal/tui/adapter/adapter.go:698-712 | The ID maps stay inverse to each other, and a new ID was never given out before, not even to a pruned candidate |
| `IndexAdapter.Adapter.CandidateRowsWindow` | internal/tui/adapter/adapter.go:662-719 | The rows are the window of the filtered entries, each with its ID; no ID changes |
| `IndexAdapter.PagesConcat` | internal/tui/adapter/adapter.go:676-691 | Windows that follow each other make up one window, and a long enough one shows the whole list |
| `IndexAdapter.Adapter.PruneOrphans` | internal/tui/adapter/adapter.go:385-426 | Exactly the links that were marked and still have no record lose their IDs |
| `EventBus.DeliveryIsPrefix` | internal/events/bus.go:29-63 | For every subscriber and interleaving, delivered, in-flight and queued events are exactly the enqueued ones, so the receiver sees a prefix without gap, repetition or reordering, closed early or not |
| `EventBus.SubscribersServed` | internal/events/bus.go:82-163 | Every listed subscriber has been given exactly the events published since it subscribed, each once |
| `EventBus.DeliveryInOrder` | internal/events/bus.go:125-144 | In every interleaving, when one publication was over before another began, no subscriber is given their events the other way round |
| `EventBus.SubscriberGetsAll` | internal/events/bus.go:84-144 | Who subscribes to an open bus is given every event published from then on, each once, as long as nobody unsubscribes and the bus is not closed |
| `EventBus.PublishNeverBlocks` | internal/events/bus.go:125-144 | A publication under way can always go on, whatever the queues and channels hold |
| `EventBus.LeaversEnd` | internal/events/bus.go:29-63 | A subscriber off the list is closed, its forwarder can end without a receiver, and unless it gave an event up it has delivered all |
| `EventBus.ClosedGetsNothing` | internal/events/bus.go:55-63 | A closed subscriber stays closed and is given nothing any more |
| `EventBus.CloseIsFinal` | internal/events/bus.go:147-163 | After Close every subscriber is closed, nobody is listed and no publication begins |
| `LinkFiles.PartitionLinks` | internal/publisher/publisher.go:392-429 | The loop yields the sorted list of the distinct trimmed links, and its parts by protocol |
| `LinkFiles.ProtocolLists` | internal/publisher/publisher.go:392-429 | Each protocol list is the sorted list of exactly the links of that protocol, a part of `all` in the same order |
| `LinkFiles.PartitionDependsOnSet` | internal/publisher/publisher.go:392-429 | The lists depend on the set of links only |
| `LinkFiles.RenderedLines` | internal/publisher/publisher.go:510-515 | A rendered file determines its links |
| `Publisher.Publisher.CheckSafety` | internal/publisher/publisher.go:520-539 | The check passes exactly when the targets, and the legacy files on disk, agree in HEAD, index and worktree |
| `Publisher.Publisher.Rollback` | internal/publisher/publisher.go:318-380 | The rollback leaves index and worktree of the owned files as in HEAD where they existed, removes the others, and touches nothing else but temporary siblings |
| `Publisher.RollbackRestores` | internal/publisher/publisher.go:318-380 | Whatever the transaction did, a rollback after a passed check restores the owned files if and only if the index agreed with HEAD on the legacy files missing on disk |
| `Publisher.RollbackIsAtomic` | internal/publisher/publisher.go:318-380 | If HEAD, index and worktree agree on all owned files at the start, everything is restored and no other file is touched |
| `Publisher.StagedDeletionIsLost` | internal/publisher/publisher.go:520-539 | With the deletion of a legacy file staged, the check passes and a rollback unstages it: why the condition is there |
| `Publisher.RenderSubscriptionFiles` | internal/publisher/publisher.go:433-496 | The twelve files and the counts are those of the sorted lists of the three projections |
| `Publisher.SameLinksPublishOnce` | internal/publisher/publisher.go:638-843 | From link lists to the repository: publishing lists with the same sets of links again makes no commit and stages nothing |
| `Publisher.PublishesExactly` | internal/publisher/publisher.go:683-832 | After a passed check: changed files are committed with the new metadata even at equal counts; unchanged files with matching metadata make no commit and keep it; otherwise a commit is made exactly if the metadata differs |
| `Publisher.Publisher.ChooseMeta` | internal/publisher/publisher.go:683-748 | The loops over subscription and legacy files choose between the metadata on disk and the new one as specified |
| `Publisher.Publisher.Transaction` | internal/publisher/publisher.go:750-832 | With a failure at any step only owned files and temporary siblings changed; without one, as when no step fails, the repository is as a publication promises |
| `Publisher.Publisher.Publish` | internal/publisher/publisher.go:638-843 | Refused exactly when unsafe and then nothing changed; rolled back with the exact condition for restoration; otherwise published |
| `Publisher.RepublishIsClean` | internal/publisher/publisher.go:683-748 | Publishing the same files again stages nothing and makes no commit, whatever the new metadata |
| `RuleEngine.EvaluateCondition` | internal/tester/ruleengine/condition.go:33-123 | The recursive evaluation with its early exits agrees with the meaning of the condition tree; empty combinators and nil parts do not hold |
| `RuleEngine.ValidateCondition` | internal/tester/ruleengine/ruleset.go:164-195 | The recursive check that stops at the first refused part accepts exactly the trees without `ContainsAny` on the raw body |
| `RuleEngine.RuleSet.AddRule` | internal/tester/ruleengine/ruleset.go:106-158 | One rule is accepted exactly when valid, and its normalized copy lands in the bucket of its phase only |
| `RuleEngine.RuleSet.InitAndValidate` | internal/tester/ruleengine/ruleset.go:88-162 | Succeeds exactly on valid rule sets, compiles the three buckets in list order, and leaves a refused set uninitialized |
| `RuleEngine.ValidationIsIdempotent` | internal/tester/ruleengine/ruleset.go:88-162 | Validating a validated rule set succeeds and changes nothing |
| `RuleEngine.EvaluateResponse` | internal/tester/ruleengine/pipeline.go:20-168 | The evaluation phase by phase, with its loops over codes and buckets, gives the specified outcome |
| `RuleOutcomes.StatusDecides` | internal/tester/classifiercore/classifiercore.go:78-130 | 429 and 503 are inconclusive and retryable, 500, 502 and 504 inconclusive and not, 403 is a denial; nothing else is retryable and only 429 carries a delay |
| `RuleOutcomes.GatesDecide` | internal/tester/ruleengine/pipeline.go:68-101 | Any other code that is not accepted fails as `target_other`, and a detected interception fails with its category and reason, before any rule |
| `RuleOutcomes.BucketFirst` | internal/tester/ruleengine/pipeline.go:103-146 | The first match of a bucket is the normalized copy of the first rule of that phase in the flat list that matches |
| `RuleOutcomes.FirstRejectionDecides` | internal/tester/ruleengine/pipeline.go:103-128 | With the gates open, the verdict of the first matching interception rule is the answer; without one, that of the first matching rejection rule |
| `RuleOutcomes.VerificationDecides` | internal/tester/ruleengine/pipeline.go:130-168 | With neither, the first matching verification rule passes the response with its reason; without any match the mode decides |
| `RuleEngine.PassesExactly` | internal/tester/ruleengine/pipeline.go:20-168 | A response passes if and only if the gates are open, no interception or rejection rule of the flat list matches, and a verification rule does or the mode is permissive |
| `RuleEngine.RejectingRuleNeverPasses` | internal/tester/ruleengine/pipeline.go:20-168 | Adding an interception or rejection rule anywhere never creates a pass |
| `RuleEngine.VerifyingRuleNeverFails` | internal/tester/ruleengine/pipeline.go:20-168 | Adding a verification rule anywhere never destroys a pass, in either mode |
| `RuleEngine.ReorderingKeepsMeaning` | internal/tester/ruleengine/ruleset.go:88-162 | Any reordering that keeps the order inside each phase is valid exactly when the original is, and evaluates alike on every response |

## Left out

- The map of per-service results, and the Claude gates and lists; of Claude, only the outcome that a put stores in the sample and the score for a service are modelled.
- Record pointers and the sharing of a history between copies: the records of `Store` are values; the in-place buffer is the class `BoundedHistory`.
- Warnings, reasons and status codes are carried, but nothing is claimed about their text.
- The fallback to `encoding/json` when the fast decoder refuses, and agreement between the two, which differ by design.
- Reading version-1 snapshots and their grace flags, gzip, file names, permissions and every file system call of Load and Save.
- Bytes are sequences of any characters; every statement covers in particular those below 256.
- Wrap-around of the cycle identifier and of the revision after 2^64 steps.
- Floating-point rounding of scores: they are real numbers.
- The capacity hint that a negative `Count` could give in `Save` and `ChronologicalSamples`: the store only holds valid buffers. The one in the decoder is modelled.
- Exhaustion of memory below the allocation limit, and an `int` of 32 bits.
- History.BoundedHistory.Push: asks for a valid buffer when its length is right; the source would index out of range or wrap for a negative start.
- ReloadedLists.SaveLoadKeepsLists: asks for numbers that fit in int64 or uint64 and for buffers that can be allocated, both of which hold of every store in memory, and for times whose text reads back as the same time.
- RankingTiers.NetworkRankingStartsWithPassing: version-1 grace records and passes of zero latency are outside its condition; `RankingTiers.ServableHasPassed` says when it holds.
- `IsServable` for a bare result, `Stats`, `All`, `Snapshots` and the other read-only projections: easy members.
- Probing, fetching, link parsing, backoff, tickers and the interval channel; the cycle is a run of the pool and the rotator.
- The throttle and the try-lock of the index rebuild: rebuilds exclude each other; the filter slices are modelled by their lengths, as they are prefixes.
- Publishing on the event bus from the control service while an operation is active: only the count of active operations is kept.
- What the gates and lists say over runs of events is said of a new store; of a loaded one the save and load theorems speak.
- Push to a remote, detection of unpushed commits, and rollback in a repository without a HEAD.
- Publisher.Publisher.CheckSafety: reads the three trees; `git status --porcelain` does not list ignored files, so an owned file that is ignored and differs passes the program's check and is refused by the model's.
- Publisher.Publisher.Rollback: its own Git commands and removals succeed; the removal of empty projection directories is not modelled.
- JSON decoding of rules and rule sets, the nil context and the nil rule set of the evaluation.
