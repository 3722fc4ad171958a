# Verified models of the flow runtime

A Dafny model of the stateful parts of the flow runtime, with proofs:

- **Durable runs.** Steps emit hops under deterministic idempotency keys; hops wait in a work queue with a duplicate
  window and bounded redelivery; finished steps write ledger records; a periodic pass rebuilds each run's frontier,
  re-drives it, gives up after a cap and collects finished runs. `RunKeys` and `Runs` model the keys and one handler
  invocation, `KeyVectors` computes published hashes and one key in full, `EdgeStream` the queue, `StepLedger` the
  records, `RunLedger` one run's pass on plain maps, `LedgerCells`, `KeyedCells` and `Reconciler` the same pass over the
  flat key-value bucket, `ExecKeys` and `ExecBucket` the key layout and the per-run store. `Protocol` puts executions,
  queue, ledger and reconciler together as a transition system with crashes, lost writes, lost acknowledgements,
  overlapping deliveries and expiry; `ProtocolSafety` and `ProtocolBounds` prove what every run of it keeps, `Replay`
  what deterministic keys add, and `LostHop` is a run that loses a hop.
- **Metadata state store.** `MetadataState` is the store, `MetadataView` the overlay and the plain map it refines,
  `MetadataSize` the byte cap, `Base64` the stored text (RFC 4648, section 4).
- **Scenario scaffolding.** `ScenarioPaths` is the path writer and the path reader on JSON values, `ScenarioMock` the
  writer as it runs on maps and slices in memory (`JsonHeap`, `JsonStore`), `SchemaSamples` the sample generator.
- **Solution clone.** `GraphClone` is the renamed copy, `CloneSolution` the two phases against a live cluster.
- **Redaction.** `Redaction` is masking on values, `RedactWalks` the copying, copy-on-write and in-place walks in memory.
- **Smaller cores.** `Dispatch` (the depth limit) and `SchemaOverlay` (definitions laid over a schema).

`dafny verify dfyconfig.toml` checks everything.

## What the proofs say that the documentation does not

- *A pending hop can be lost.* A step's record is written without a condition (`internal/scheduler/runner/runner.go:853`).
  Of two overlapping deliveries of one hop only the later record is left. A hop that only the earlier one listed, because
  the later handler's publish was not acknowledged again, is in no record and in no frontier.
  `ProtocolSafety.FrontierExit` shows that such an overwrite is the only way out of the frontier besides a record,
  `Replay.RepeatedWorkLosesNothing` that handlers that repeat their work and have every publish acknowledged are safe, and
  `LostHop.OverlappingDeliveriesLoseAHop` is a run with one lost acknowledgement that does it.
- *A re-drive inside the duplicate window is counted but not queued.* Passes come every minute, the duplicate window is
  two minutes, and re-drives are counted whether or not the broker drops them. A stuck hop gets one or two deliverable
  copies out of three re-drives and is recorded as failed three minutes after the first one, although a step may take
  longer than that (`internal/scheduler/reconciler.go:34-40`): `ProtocolBounds.StuckHopFailsOnFourthPass`,
  `ProtocolBounds.DefaultIntervalWastesRedrives`.
- *A negative acknowledgement has no effect once the failure is recorded.* The transport naks a transient failure so that
  the broker delivers it again (`internal/transport/jetstream.go:557-579`), but the runner has by then recorded the
  failure, and skips recorded steps (`internal/scheduler/runner/runner.go:504`): `ProtocolSafety.RecordedNakIsFinal`.
- *The reply address reaches one hop only.* `module/ledger.go:22-24` keeps it so that a re-driven hop still reaches its
  origin, but a continued run is rebuilt without it (`internal/scheduler/runner/runner.go:515`) and the front door that
  sets it is not recorded: `ProtocolSafety.NoFrontierHopReplies`.
- *A collection whose deletes partly fail can reopen a finished run*: `RunLedger.PartialCollectionReopens` says exactly when.
- *Set with nil is a delete that comes back* as the empty value: `MetadataView.SetReadsBackIff`, `NilReappears`.
- *The size cap holds exactly when there is room for what is still arriving*, which a lag of deletes or of the same key
  always leaves, and a lag of another key may not: `MetadataSize.AcceptedSetsFitIff`, `MetadataSize.TwoLaggingSetsExceed`.
- *The size guard counts a key twice* in exactly the cases of `MetadataSize.CountsKeyTwice`, and then refuses values that
  fit: `MetadataSize.StoredEmptyTextRefuses`.
- *Samples of deeply nested or undeclared arrays may not conform*: their last element is an empty object, whatever the
  schema says there. `SchemaSamples.SampleConformsIff` says exactly when a sample conforms; an array of itself never
  gets one that does (`SchemaSamples.CyclicArrayNeverConforms`).
- *The schema overlay is not idempotent* for definitions without a path of their own, in exactly the case of
  `SchemaOverlay.TakesNewPath`; `SchemaOverlay.SecondOverlayExample` is one.

## Assumptions

A reconcile pass is atomic with respect to step completion, because `failStep` writes without a condition
(`internal/scheduler/reconciler.go:227`); a record that a handler writes while a pass is under way is outside the model.
Counter reads succeed, as any read error counts as 0 (`internal/scheduler/reconciler.go:191-193`). A bucket key that
`Keys` lists is still there when it is read. An acknowledged publish reached the broker. Failed writes, failed deletes
and publishes that fail or lose their acknowledgement are all possible and are parameters (`HopAnswer`, `Deletions`,
`Attempt`, `Update`). Time is an integer number of seconds and a parameter. Map iteration orders are arbitrary.

## Model

| member | source | states |
|---|---|---|
| RunKeys.RoundBijective | module/run.go:103-105 | each FNV-1a round permutes the 64-bit states for a fixed byte; Unround is its inverse on both sides |
| RunKeys.FnvInjectiveInState | module/run.go:103-105 | equal hashes of one text mean equal starting states |
| RunKeys.WindowNeverCollides | module/run.go:103-105 | equal-length preimages that differ only inside one window of at most four adjacent bytes never collide |
| RunKeys.KeysEqualIffHashesEqual | module/run.go:103-105 | step keys of one run are equal exactly when the hashes of their preimages are |
| RunKeys.OrdinalsNeverCollide | module/run.go:97-106 | emits over one edge in one invocation get different keys whenever their ordinals have equally many digits and agree in all but the last four: 0..9, 10..99, 100..999 and 1000..9999 among them |
| RunKeys.KeyLengthIsFixed | module/run.go:92-106 | every derived key has length run id + 17, whatever the chain depth |
| RunKeys.ChainKeyClean | module/run.go:92-106 | no derived key holds a bar when the run id holds none, so every parent key meets PreimageDecodes |
| RunKeys.PreimageDecodes | module/run.go:104 | parent, edge and ordinal are recoverable from the preimage even when the edge id holds bars |
| RunKeys.HexInjective | module/run.go:105 | the fixed-width hexadecimal form determines the hash |
| KeyVectors.FnvVectors | module/run.go:103-105 | the hash of no text and of one letter are the published test vectors |
| KeyVectors.StepKeyExample | module/run.go:97-106 | one derived key, in full |
| Runs.Run.constructor | module/run.go:65-68 | a run that arrives on a message starts without emits, keys and reply address |
| Runs.Run.Mint | module/run.go:85-90 | a new run's first step key is its id with .root |
| Runs.Run.WithReply | module/run.go:70-77 | attaches the reply address and nothing else |
| Runs.Run.NextStepKey | module/run.go:97-106 | the n-th key drawn for an edge is the hash key of parent, edge and n, where n counts that edge's earlier draws only |
| Runs.Run.RecordEmit | module/run.go:108-113 | appends one hop to the emits |
| Runs.Run.SendToEdge | internal/scheduler/runner/runner.go:1139-1258 | one key for all attempts; the hop enters the emits exactly when an attempt was acknowledged, and has the emission's target, sender, edge and data, that key and the run's reply address; the queue gains only fresh copies of that hop, and one as soon as an attempt that is no duplicate and no reply reaches the broker |
| Runs.AttemptsMade | internal/scheduler/runner/runner.go:1188-1258 | the retry loop stops after an acknowledgement or the first error not marked retryable |
| Runs.SendAdds | internal/scheduler/runner/runner.go:1163-1187 | field by field what the attempts of one publish add to the queue, and when they add something |
| Runs.RetriesStoreOnce | internal/scheduler/runner/runner.go:1173-1186 | all attempts of one publish inside the window leave at most one copy, and exactly one if any reached the broker |
| Runs.StampIsPerEdge | module/run.go:97-106 | the hops over one edge depend on that edge's own emissions only |
| Runs.KeysIgnoreScheduling | module/run.go:31-37 | under any two interleavings that agree on each edge's own order, every edge gets the same hops and keys |
| Runs.SameHops | module/run.go:31-37 | such interleavings emit the same set of hops |
| Runs.RedeliveryStoresNothingNew | internal/transport/jetstream.go:254-258 | publishing a second execution inside the first one's duplicate window stores nothing new |
| EdgeStream.PublishKeepsSpacing | internal/transport/jetstream.go:109-117 | copies of one key are always at least a duplicate window apart |
| EdgeStream.PublishStores | internal/transport/jetstream.go:259-312 | after a publish that reached the broker some copy with the hop's key was stored, unless it is a reply hop |
| EdgeStream.SecondCopyIff | internal/transport/jetstream.go:283-286 | of two publishes of one key the second adds a copy exactly when it comes two minutes or more after the first |
| EdgeStream.CloseCopiesAreOne | internal/transport/jetstream.go:283-286 | publishes of one key closer together than the window leave at most one copy |
| EdgeStream.DeliveriesBounded | internal/transport/jetstream.go:98-102 | deliveries of a key are at most MaxDeliver for each stored copy |
| EdgeStream.RepublishIsAbsorbed | internal/transport/jetstream.go:254-258 | publishes of keys stored less than a window ago change nothing |
| EdgeStream.PublishedKeysAreSeen | internal/transport/jetstream.go:283-286 | after publishing inside one window the duplicate table remembers every key from inside it |
| RunLedger.FrontierIsPending | internal/scheduler/reconciler.go:297-307 | in any visiting order the frontier holds exactly the hops that a record lists and that have no record |
| RunLedger.EmptyFrontierIffClosed | internal/scheduler/reconciler.go:297-307 | the frontier is empty exactly when the recorded set is closed under emits |
| RunLedger.ClosedReachesOnlyRecords | internal/scheduler/reconciler.go:297-307 | then every hop reachable from a recorded step through any chain of emits has a record |
| RunLedger.LatestIsLatest | internal/scheduler/reconciler.go:286-288 | latest is the greatest completion time, or the zero time without records |
| RunLedger.DriveHopsOnlyFails | internal/scheduler/reconciler.go:146-177 | a stale pass removes and rewrites no record, and adds only terminal failures for hops it handled |
| RunLedger.AddedRecordsAreDated | internal/scheduler/reconciler.go:213-223 | every record that a pass adds is a failure with the time of the pass, at the target of a frontier hop with that key |
| RunLedger.OnlyFailsShrinksFrontier | internal/scheduler/reconciler.go:146-179 | a pass never adds a hop to the frontier; it takes out exactly those that got a record |
| RunLedger.DriveHopsSpends | internal/scheduler/reconciler.go:146-177 | with writes succeeding no hop's budget rises and every handled hop's budget falls |
| RunLedger.StalePassProgress | internal/scheduler/reconciler.go:129-181 | a stale pass adds no pending key, lowers each pending key's budget and lowers their sum |
| RunLedger.StalePassesConverge | internal/scheduler/reconciler.go:129-181 | within maxRedrives + 1 stale passes the frontier is empty |
| RunLedger.OnlyClosedRunsAreCollected | internal/scheduler/reconciler.go:129-140 | a pass removes a record or counter only of a run whose frontier is empty and whose last completion is older than the limit |
| RunLedger.OnlyStaleRunsAreDriven | internal/scheduler/reconciler.go:142-144 | a pass changes an unfinished run only when its last completion is older than the staleness limit |
| RunLedger.PassActsIff | internal/scheduler/reconciler.go:129-144 | in seconds, when a pass collects, drives or leaves a run: a day after the last completion, or six minutes after it |
| RunLedger.LeftoverCountersAreCollected | internal/scheduler/reconciler.go:129-139 | counters that outlived the records of their run go with the next pass |
| RunLedger.FailureHoldsCollection | internal/scheduler/reconciler.go:129-140 | after a pass that gives a hop up, no pass within a day of it removes a record or counter of the run |
| RunLedger.PartialCollectionReopens | internal/scheduler/reconciler.go:133-138 | a finished run stays finished through a partial collection exactly when no surviving record lists a hop whose record is gone |
| RunLedger.PartialCollectionExample | internal/scheduler/reconciler.go:136 | one ignored delete error puts a finished hop back into the frontier |
| LedgerCells.PassRefines | internal/scheduler/reconciler.go:113-181 | on stored values, unreadable ones included, a pass does to a run's records and counters what the one-run model says |
| LedgerCells.CollectionIsComplete | internal/scheduler/reconciler.go:133-138 | with deletes succeeding a collection leaves no record and no counter, only step values that never parsed |
| ExecKeys.ParseBuilt | internal/scheduler/reconciler.go:248-253 | the raw step and counter keys of slash-free runs parse back, slashes in step keys included |
| ExecKeys.BuiltParsed | internal/scheduler/reconciler.go:248-253 | every key that parses is the one built from what it parses to, and its run id has no slash |
| ExecKeys.ParsesBackIff | internal/scheduler/reconciler.go:248-253 | a raw key parses back to its run and step exactly when the run id has no slash |
| ExecKeys.SanitizeIdempotent | pkg/state/jetstream.go:166-177 | sanitizing is idempotent and yields only allowed characters |
| ExecKeys.AllowedCharacters | pkg/state/jetstream.go:166-177 | which characters sanitizing keeps, one by one |
| ExecKeys.SanitizeConcat | pkg/state/jetstream.go:166-177 | sanitizing distributes over concatenation |
| ExecKeys.StoreAndReconcilerAgree | pkg/state/jetstream.go:105-109 | the store's key for a record equals the reconciler's raw key exactly when sanitizing alters neither id |
| ExecKeys.StoreKeyRoundTrips | internal/scheduler/reconciler.go:226 | then it parses back to the same run and step |
| ExecKeys.RuntimeKeysAgree | internal/scheduler/reconciler.go:226 | for every run with a UUID and every key reached from its first step the two sides agree, and both keys parse back |
| ExecKeys.NamespacesDisjoint | pkg/state/jetstream.go:105-107 | clean slash-free runs with a common key are the same run |
| ExecBucket.ExecState.constructor | pkg/state/jetstream.go:105-107 | the namespace is the sanitized exec/<run>/ prefix |
| ExecBucket.ExecState.Get | pkg/state/jetstream.go:111-120 | reads the value under the run's full key, if any |
| ExecBucket.ExecState.Set | pkg/state/jetstream.go:122-125 | writes exactly the full key |
| ExecBucket.ExecState.Delete | pkg/state/jetstream.go:127-133 | removes exactly the full key |
| ExecBucket.ExecState.List | pkg/state/jetstream.go:135-152 | the duplicate-free user keys of the run under the prefix, ordered by the first character in which two keys differ |
| ExecBucket.ListedKeysAreFound | pkg/state/jetstream.go:135-152 | every listed key is found again by Get |
| ExecBucket.RunsDoNotShareKeys | pkg/state/jetstream.go:100-109 | nothing written under one run is found or listed under another |
| Text.PrefixMeans | pkg/state/metadata.go:194-196 | what it means that a key has a prefix |
| SortedKeys.SortedList | pkg/state/jetstream.go:150 | sorts a key set into the one list of it in which, of two keys, the one comes first that has ended or has the lesser character where they first differ |
| SortedKeys.LeqIsPrecedes | pkg/state/metadata.go:305 | the recursive comparison is that order |
| SortedKeys.ListUnique | pkg/state/jetstream.go:150 | the sorted list does not depend on the order in which keys were met |
| KeyedCells.ExecLayoutLawful | internal/scheduler/reconciler.go:238-253 | the bucket's key layout parses back, which the scan relies on |
| KeyedCells.CellsUnique | internal/scheduler/reconciler.go:238-291 | a bucket determines each run's values, so a turn in the pass has one possible start |
| KeyedCells.FileKeepsLedgers | internal/scheduler/reconciler.go:254-289 | a scanned key goes into its run's ledger and into no other |
| KeyedCells.SkipKeepsLedgers | internal/scheduler/reconciler.go:250-280 | a key that is skipped changes no ledger |
| KeyedCells.DeleteCells | internal/scheduler/reconciler.go:133-138 | deleting a run's tracked keys, except where a delete fails, collects that run's values |
| Reconciler.Schedule.ReadLedger | internal/scheduler/reconciler.go:238-291 | every run with a tracked key gets its ledger: records, tracked keys and latest completion, whatever the key order |
| Reconciler.Schedule.FrontierOf | internal/scheduler/reconciler.go:297-307 | the frontier loop collects the frontier of some visiting order |
| Reconciler.Schedule.RedriveAttempts | internal/scheduler/reconciler.go:189-200 | an unreadable or missing counter counts as 0 |
| Reconciler.Schedule.FailStep | internal/scheduler/reconciler.go:213-234 | writes the terminal record, if the write succeeds, and nothing else: failed, at the hop's target, at the time of the pass |
| Reconciler.Schedule.RecordRedrive | internal/scheduler/reconciler.go:202-208 | writes the counter, if the write succeeds, and nothing else |
| Reconciler.Schedule.DriveOne | internal/scheduler/reconciler.go:146-177 | one hop: re-published and counted below the cap, failed at it; only this run's keys change |
| Reconciler.Schedule.CollectRun | internal/scheduler/reconciler.go:133-138 | removes exactly the run's tracked keys whose delete succeeds |
| Reconciler.Schedule.DriveFrontier | internal/scheduler/reconciler.go:146-177 | the loop over the frontier does what the one-run pass says and sends exactly its re-drives |
| Reconciler.Schedule.PassOverRun | internal/scheduler/reconciler.go:126-178 | one run's turn: collected, left alone or driven, as its ledger calls for; other runs keep every key |
| Reconciler.Schedule.ReconcileRuns | internal/scheduler/reconciler.go:113-181 | every run with a tracked key has exactly one turn from its values at the start; every other key keeps its value; the messages sent are run by run the ones its turn calls for; every record the bucket gains is the failure of a hop that a record listed, dated by the pass |
| Reconciler.Schedule.StartRunReconciler | internal/scheduler/reconciler.go:73-102 | the tick loop is a sequence of such passes over one bucket |
| Reconciler.TicksConverge | internal/scheduler/reconciler.go:73-181 | within maxRedrives + 1 consecutive passes over the bucket that find a run stale, its frontier is empty, whatever the other runs do |
| Reconciler.FailureStaysADay | internal/scheduler/reconciler.go:113-181 | over any schedule, after a pass that gives a hop of a run up no pass within a day removes anything from that run, whatever the other runs do |
| Reconciler.TurnIsPass | internal/scheduler/reconciler.go:113-181 | what a pass over the bucket does to one run's view is the one-run pass |
| Reconciler.DoneStaysDone | internal/scheduler/reconciler.go:124-179 | acting on one run leaves every other run's values and messages as its own turn left them |
| Protocol.ReconcileIsPass | internal/scheduler/reconciler.go:113-181 | the protocol's pass does to the ledger exactly what the one-run model says |
| Protocol.StepSound | internal/transport/jetstream.go:109-117 | every step keeps copies of a key a window apart, deliveries within the limit, and remembered keys stored |
| ProtocolSafety.RecordedEmitsAreStored | internal/scheduler/runner/runner.go:813-820 | over every run a record exists only after every hop it lists was stored |
| ProtocolSafety.CompletedStepsWereQueued | internal/scheduler/runner/runner.go:498-515 | over every run a completed record under any key but the entry's stands for a hop that was queued |
| ProtocolSafety.AtWorkIff | internal/scheduler/runner/runner.go:498-515 | an execution is at work exactly from the step that starts it to its own end or crash, and a copy is handed out only while live and at most three times |
| ProtocolSafety.BeginsOnce | module/run.go:85-90 | over every run the entry starts once |
| ProtocolSafety.RecordsHaveAuthors | internal/scheduler/runner/runner.go:825-839 | over every run each record was written by a handler's end, with its emits, node, outcome, error and time, or by a pass that gave its hop up |
| ProtocolSafety.DoneRecordsSucceeded | internal/scheduler/runner/runner.go:825-839 | over every run a record that says done was written by a handler that succeeded, at the time of the record |
| ProtocolSafety.EmitCarries | internal/scheduler/runner/runner.go:1163-1204 | what an execution publishes and, once acknowledged, records is the emission with its run's address, and nothing else changes |
| ProtocolSafety.EmitsCarryTheAddress | internal/scheduler/runner/runner.go:515-518 | a front door's first hop carries the address it was given, and a continued step's hops none |
| ProtocolSafety.NoFrontierHopReplies | internal/scheduler/runner/runner.go:515-518 | over every run, with hops stamped from the address of their execution's run, no frontier holds a hop with a reply address |
| ProtocolSafety.FrontierExit | internal/scheduler/reconciler.go:297-307 | whatever step is taken, a pending hop stays pending exactly when it gets no record and no overwrite drops it |
| ProtocolSafety.PendingUntilRecorded | module/ledger.go:10-17 | over every run with faithful overwrites a pending hop stays pending until a record for it appears |
| Replay.AnyOrderIsWork | internal/scheduler/runner/runner.go:1178-1204 | an execution that sends its work in any interleaving that keeps each edge's order, with acknowledgements in any order, records the step's work |
| Replay.RepeatedWorkLosesNothing | module/run.go:31-37 | over every run whose recorded executions did their step's work with every publish acknowledged, recorded in any order, a pending hop stays pending until a record for it appears |
| Replay.UnacknowledgedHopsAreDropped | internal/scheduler/runner/runner.go:1188-1207 | when the repeated work was not acknowledged in full, the overwrite drops exactly the hops that were not acknowledged again and that no other record lists |
| LostHop.OverlappingDeliveriesLoseAHop | internal/scheduler/runner/runner.go:843-860 | a run in which two overlapping handlers do the same work, one acknowledgement is lost, and a hop ends without a record in a closed ledger |
| ProtocolSafety.StepNeverRunsRecorded | internal/scheduler/runner/runner.go:504-513 | no step runs the handler of a recorded key while the ledger is readable and not collected |
| ProtocolSafety.RecordedNeverRunsAgain | module/ledger.go:10-12 | over any stretch of a run in which the ledger is readable and not collected, a recorded step's handler never runs again |
| ProtocolSafety.LiveIff | internal/transport/jetstream.go:571-630 | over any stretch of a run a copy is still handed out at the end exactly when it was at the start and no expiry, acknowledged skip, or settled non-transient end of one of its own handlers came in between |
| ProtocolSafety.RedeliveryRunsAgainIff | internal/transport/jetstream.go:557-579 | in every sound state, and so in every state of a run, after a negative acknowledgement a redelivery runs the handler exactly when the failure left no readable record |
| ProtocolSafety.RecordedNakIsFinal | internal/transport/jetstream.go:557-579 | over any stretch of a run, after a recorded transient failure the handler of the copy's step never runs again while the ledger is readable and not collected, though the copy stays queued until something ends it |
| ProtocolBounds.RunBalanced | internal/scheduler/reconciler.go:189-208 | over every run acknowledged re-drives equal counter + lost writes + collected counts, and the counter stays within the cap |
| ProtocolBounds.RedrivesBounded | internal/scheduler/reconciler.go:146-177 | a hop is re-driven at most maxRedrives + lost counter writes times, plus what collections forgot |
| ProtocolBounds.InvocationsBounded | internal/transport/jetstream.go:320-328 | with the step's own publishes inside one window a hop's handler runs at most MaxDeliver * (1 + maxRedrives + lost writes + collected counts + unacknowledged re-drives) times |
| ProtocolBounds.RedriveStoresIff | internal/scheduler/reconciler.go:157-173 | a re-drive that reaches the broker adds a copy exactly when the hop's last one is a window old, and is counted either way |
| ProtocolBounds.StuckHopFailsOnFourthPass | internal/scheduler/reconciler.go:142-177 | over every run and any frontiers that hold the hop once beside any others: of four stale passes without progress on it, at any times, the first three add one copy each unless inside the duplicate window of the last one, and the fourth, and none before it, records the failure |
| ProtocolBounds.StuckHopRun | internal/scheduler/reconciler.go:142-177 | for every run stuck on one hop and all times of the passes there are such passes |
| ProtocolBounds.DefaultIntervalWastesRedrives | internal/scheduler/reconciler.go:34-51 | with the default interval that is two copies, or one if the third pass comes early, and failure after 180 seconds |
| Base64.DecodeOfEncode | pkg/state/metadata.go:145 | decoding inverts encoding for every byte string |
| Base64.EncodeInjective | pkg/state/metadata.go:145 | different values have different texts |
| Base64.FoobarVector | pkg/state/metadata.go:145 | a published test vector of the encoding |
| Base64.PaddedVector | pkg/state/metadata.go:145 | a published test vector with padding |
| MetadataSize.SizePut | pkg/state/metadata.go:193-205 | replacing one key changes the measured size by that key's weight only |
| MetadataSize.ForeignKeysDoNotCount | pkg/state/metadata.go:193-198 | a key without the _state/ prefix never changes the size |
| MetadataSize.FirstValueAcceptedIff | pkg/state/metadata.go:179-239 | over empty metadata a value is accepted exactly when prefix, key and text come to at most 921600 bytes |
| MetadataSize.ShadowDoesNotMatter | pkg/state/metadata.go:208-225 | a live non-empty pending write on the key does not change the guard's total |
| MetadataSize.LaggingSizeIsEnough | pkg/state/metadata.go:179-239 | deletes and patches of the same key on their way never make the final size exceed what the guard measured |
| MetadataSize.AcceptedSetsFitIff | pkg/state/metadata.go:179-239 | for any cache and any patches on their way, every value the guard accepts for a key ends within the cap exactly when the longest accepted text fits beside what is arriving |
| MetadataSize.AcceptedSetStays | pkg/state/metadata.go:144-169 | with that room an accepted Set keeps every later state of the metadata within the cap |
| MetadataSize.QueuedSetLeavesRoomIff | pkg/state/metadata.go:184-192 | when exactly one queued Set of another key leaves room over an empty cache |
| MetadataSize.AcceptedSetFits | pkg/state/metadata.go:144-169 | an accepted Set keeps every later state of the metadata within the cap when only deletes and its own key's patches are on their way |
| MetadataSize.DeleteFits | pkg/state/metadata.go:244-264 | a Delete always fits |
| MetadataSize.StoredEmptyTextRefuses | pkg/state/metadata.go:227-237 | for every key that can be set at all, once its empty value is stored some value that would end within the cap is refused |
| MetadataSize.TwoLaggingSetsExceed | pkg/state/metadata.go:184-192 | for any two keys that can be set at all there are values accepted over an empty lagging cache that exceed the cap together |
| MetadataView.StoreRefinesMap | pkg/state/metadata.go:108-137 | over any history of writes, arrivals and expiries every Get answers as the map of the last local writes does |
| MetadataView.EventKeepsGood | pkg/state/metadata.go:144-169 | every write, arrival and expiry keeps cache, patches and overlay in agreement with that map |
| MetadataView.ReadBack | pkg/state/metadata.go:108-137 | the value last set is read back byte for byte |
| MetadataView.SetReadsBackIff | pkg/state/metadata.go:144-169 | a read right after Set is the plain map's reading exactly when the value is not nil |
| MetadataView.NilReappears | pkg/state/metadata.go:153 | with any patches on their way, a key set to nil reads as absent at once and as the empty value once they arrived and the tombstone expired |
| MetadataView.WritesShadowForFiveSeconds | pkg/state/metadata.go:108-137 | a write is what Get reads for five seconds whatever the cache holds, and then the cache is |
| MetadataView.ListedIsPresent | pkg/state/metadata.go:268-307 | the keys List gathers are exactly those under the prefix that Get reports present |
| MetadataView.ListedIsWanted | pkg/state/metadata.go:268-307 | in every state of a history the keys List gathers are exactly the plain map's keys under the prefix |
| MetadataView.CapHolds | pkg/state/metadata.go:179-239 | over any interleaving of writes, arrivals and time, nil values and late patches included, the cap holds at every moment when each Set was accepted with room |
| MetadataView.CapHoldsWhenKeptUp | pkg/state/metadata.go:184-192 | over any such interleaving the guard alone keeps the cap when, at each Set, at most deletes and patches of the same key are on their way |
| MetadataState.Store.Get | pkg/state/metadata.go:108-137 | a live pending entry wins, a tombstone is absent, else the cache's text is decoded |
| MetadataState.Store.MeasureState | pkg/state/metadata.go:193-205 | the loop sums keys and values of the state entries only, in any order, and finds the key's text |
| MetadataState.Store.GuardSize | pkg/state/metadata.go:179-239 | accepts exactly when the size with the key replaced fits, counting the key once more in the two named cases; accepts unread metadata |
| MetadataState.GuardArithmetic | pkg/state/metadata.go:207-232 | the guard's case analysis comes to the replaced size, exactly, outside those two cases |
| MetadataState.Store.Set | pkg/state/metadata.go:144-169 | a refused Set changes nothing; an accepted one adds the pending entry and one patch |
| MetadataState.Store.Delete | pkg/state/metadata.go:244-264 | adds a tombstone and one deleting patch |
| MetadataState.Store.List | pkg/state/metadata.go:268-307 | the duplicate-free list, in the order of SortedKeys, of exactly the keys under the prefix that Get reports present |
| ScenarioPaths.ReadAfterWrite | pkg/tools/build_flow_scenarios.go:668-720 | reading a plain leaf after writing it gives the old non-nil value or else the written one |
| ScenarioPaths.IndexedLeafIgnoresValue | pkg/tools/build_flow_scenarios.go:707-711 | a path that ends in an index never writes the value: it keeps the array or leaves one empty object |
| ScenarioPaths.DivergentReadsUnchanged | pkg/tools/build_flow_scenarios.go:668-720 | a write changes nothing that a divergent path reads |
| ScenarioPaths.DivergentWritesCommute | pkg/tools/build_flow_scenarios.go:668-720 | writes to divergent paths commute, whatever the values |
| ScenarioPaths.WritesKeepReads | pkg/tools/build_flow_scenarios.go:691-705 | a write takes no value away from a path that does not conflict with it |
| ScenarioPaths.ConflictDestroys | pkg/tools/build_flow_scenarios.go:691-705 | a conflicting write always leaves the path unreadable |
| ScenarioPaths.SecondWriteSpoilsIff | pkg/tools/build_flow_scenarios.go:691-705 | a second write spoils a first one exactly when the paths conflict |
| ScenarioPaths.EveryPathReadable | pkg/tools/build_flow_scenarios.go:208-223 | after conflict-free writes in any order every path reads non-nil |
| ScenarioPaths.EveryOrderReadableIff | pkg/tools/build_flow_scenarios.go:208-223 | every order of a set of writes leaves every path readable exactly when no two of the paths conflict |
| ScenarioPaths.WalkExample | pkg/tools/schema_required.go:307-334 | the reader's loop returns what the path leads to, nil where it leads nowhere |
| JsonHeap.Frame | pkg/tools/build_flow_scenarios.go:668-720 | where two memories agree on a value's cells they agree on the value and its cells |
| JsonHeap.Regraft | pkg/tools/build_flow_scenarios.go:682-696 | putting a separate tree into one slot gives the tree with that slot replaced |
| ScenarioMock.WriteAtSets | pkg/tools/build_flow_scenarios.go:668-720 | the walk in memory does to the tree what the writer does to its value, touches no other cell, and takes in only the written value's cells and new ones |
| ScenarioMock.SetPath | pkg/tools/build_flow_scenarios.go:668-720 | the cursor loop is that walk |
| SchemaSamples.ObjectPlaceholder | pkg/tools/build_flow_scenarios.go:470-494 | the loop over the properties shows exactly the scalar, enum and const properties that have a sample |
| SchemaSamples.ScalarSample | pkg/tools/build_flow_scenarios.go:430-455 | within five levels a fixed schema shows its first choice or const, a text its marker, a number 0, a boolean false |
| SchemaSamples.ObjectShowsItsScalars | pkg/tools/build_flow_scenarios.go:470-494 | an object shows a property exactly when its schema is scalar or fixes a value, above the last level, and shows that value or a text of its name |
| SchemaSamples.ArrayShowsOneElement | pkg/tools/build_flow_scenarios.go:456-465 | an array shows one element, the sample one level down or an empty object |
| SchemaSamples.ReferenceSample | pkg/tools/build_flow_scenarios.go:425-428 | a reference counts as the definition behind it, a dangling one as none |
| SchemaSamples.SampleConformsIff | pkg/tools/build_flow_scenarios.go:425-494 | there is a sample exactly for a declared schema within the depth limit, and it conforms recursively exactly when the schema fits: the level at which the generator stops accepts an empty object, and what the schema fixes is coherent |
| SchemaSamples.SampleConforms | pkg/tools/build_flow_scenarios.go:425-494 | in particular when the array nesting ends within the cut-off in declared, coherent schemas |
| SchemaSamples.TowerConformsIff | pkg/tools/build_flow_scenarios.go:427-430 | a tower of arrays around a scalar gets a conforming sample exactly when the scalar lies within the depth limit |
| SchemaSamples.CyclicArrayNeverConforms | pkg/tools/scenario_scaffold_live.go:264-282 | for an array that is its own element type the generator stops, and its sample does not conform |
| GraphClone.RemapTextIsRemap | pkg/tools/clone_solution.go:380-389 | rewriting a stored reference text is renaming the reference it stands for |
| GraphClone.ParseOfText | pkg/tools/clone_solution.go:380-389 | a reference whose node name has no colon is read back from its text |
| GraphClone.WiredIsRootedIff | pkg/tools/clone_solution.go:240-256 | a wired node refers only to present names exactly when each of its references is to a renamed node or a present one |
| GraphClone.EdgesFindTheirConfigs | internal/scheduler/runner/runner.go:452-462 | under an injective renaming the config lookup finds the renamed config, and none where there was none |
| GraphClone.FindsFirst | internal/scheduler/runner/runner.go:452-462 | the lookup returns the first config of that source and port, and none only when there is none |
| GraphClone.CopyIsCopied | pkg/tools/clone_solution.go:248-266 | part by part: each config keeps port and data, with its source renamed and its flow new where it had one; each edge keeps its port, with renamed target, new flow and an id of the new names |
| GraphClone.BareNodeBootsOnItsSettings | pkg/tools/clone_solution.go:184-204 | a created node has no edges, keeps exactly the configs that reference nothing, and finds for every port the one the source finds |
| CloneSolution.CreateNodes | pkg/tools/clone_solution.go:174-225 | phase 1: copied nodes exist bare under their names, no state dangles, other nodes are untouched, unlisted flows are errors |
| CloneSolution.WireNode | pkg/tools/clone_solution.go:235-269 | the retry loop: conflicts cost attempts only, and the result is the wired node up to the operator's status |
| CloneSolution.SettlesIff | pkg/tools/clone_solution.go:240-269 | an update goes through exactly when one of the first five attempts is stored after conflicts alone |
| CloneSolution.WireNodes | pkg/tools/clone_solution.go:230-273 | phase 2: every created node becomes its copy, no state dangles |
| CloneSolution.Clone | pkg/tools/clone_solution.go:174-273 | no state the cluster goes through has a dangling created node; a successful clone has every node's copy, part by part with its data and ids, under an injective renaming |
| CloneSolution.CopiedEdgeFindsItsConfig | pkg/tools/clone_solution.go:238-256 | in the finished clone each edge finds the copy of its own config, data included |
| Redaction.MaskedTwice | pkg/redact/redact.go:42-68 | masking is idempotent |
| Redaction.NothingLeft | pkg/redact/redact.go:46-68 | after masking no maskable text is left but the mask itself |
| Redaction.OtherTextsStay | pkg/redact/redact.go:60-64 | texts that are not maskable stay where they are |
| Redaction.UnmaskableIsKept | pkg/redact/authored.go:103-120 | a value without maskable text is left as it is |
| Redaction.MaskedRewrites | pkg/redact/redact.go:28-68 | place by place: a text under a secret name becomes the mask exactly when it is not empty and holds no two opening braces in a row; every other text, scalar and container stays |
| Redaction.RedactedRewrites | pkg/tools/scenario_capture.go:66-70 | the same for both walks in turn |
| Redaction.UnshapedIsKept | pkg/redact/shape.go:54-80 | masking by shape changes a value exactly when some text has a credential shape |
| RedactWalks.Value | pkg/redact/redact.go:46-68 | the copying walk returns the masked value made of new cells only, and changes no existing cell |
| RedactWalks.ByName | pkg/redact/authored.go:110-119 | the copy-on-write walk returns the masked value, which is the value with exactly its secret texts replaced, reports a change exactly when something was maskable, then changes no existing cell, and else returns the original itself |
| RedactWalks.ByNameSlice | pkg/redact/authored.go:149-171 | the loop over a slice, copied at the first change |
| RedactWalks.ByNameMap | pkg/redact/authored.go:128-147 | the loop over a map, copied at the first change |
| RedactWalks.SecretsByShape | pkg/redact/shape.go:54-80 | the in-place walk masks the tree it is given, reports exactly whether something was masked, and touches no cell outside it |
| RedactWalks.RedactSecrets | pkg/tools/scenario_capture.go:66-70 | the result is, place by place, the value with its secret texts replaced and its credential shapes cut out, and every cell the caller had is unchanged |
| Dispatch.DepthSurvivesTransport | internal/transport/jetstream.go:493-496 | the depth read from the header is the depth sent, 0 without a header |
| Dispatch.InvocationsBounded | internal/scheduler/scheduler.go:183-186 | with at most b sends per invocation a message of depth d causes at most 1 + b + ... + b^(256 - d) invocations, however cyclic the flow |
| Dispatch.BoundIsTight | internal/scheduler/scheduler.go:306-328 | the bound is met when every handler runs and sends b messages |
| Dispatch.FreshMessageBounded | internal/scheduler/scheduler.go:183-186 | one depth-0 message causes at most the sum of b^i for i from 0 to 256 |
| Dispatch.FreshMessageReaches | internal/scheduler/scheduler.go:183-186 | and that sum is reached, so the limit lets 257 levels run |
| Dispatch.Schedule.Handle | internal/scheduler/scheduler.go:183-344 | dispatch terminates, invokes components only at depth 256 or less, and exactly as often as counted |
| SchemaOverlay.BuildPathTable | pkg/schema/schema.go:31-43 | whatever the map order the table holds one definition per collected path, a rich one exactly when some collected one is |
| SchemaOverlay.OverlayKeepsShape | pkg/schema/schema.go:57-89 | a definition with properties keeps having them; the result has some exactly when the own or the chosen definition has |
| SchemaOverlay.OverlayKeepsIdentity | pkg/schema/schema.go:91-117 | own path, configurable, shared and readonly flags are kept, and required is gone from every overlaid definition |
| SchemaOverlay.OverlayMeets | pkg/schema/schema.go:53-118 | whom a definition meets, by name, by rich path or by path, and attribute by attribute what it becomes, or that it stays |
| SchemaOverlay.RichnessIgnoresOrder | pkg/schema/schema.go:34-43 | which definitions end up with properties does not depend on the map order |
| SchemaOverlay.OverlayIdempotentIff | pkg/schema/schema.go:45-118 | with one path table a second overlay changes nothing exactly outside the one named case |
| SchemaOverlay.SecondOverlayExample | pkg/schema/schema.go:45-118 | a bare and a rich configured definition of one path give a definition without a path its properties only at the second overlay |
| SchemaOverlay.OverlayOne | pkg/schema/schema.go:45-118 | the loop body computes the overlay of one definition |
| SchemaOverlay.Schema.UpdateWithDefinitions | pkg/schema/schema.go:12-120 | every definition is overlaid in place with one path table, none is added and none lost |

## Left out

- Broker, gRPC, Kubernetes and tracing calls, connections, leader election and consumer rebuild loops: the queue, the
  bucket, the cache and the cluster are maps and sequences with the configured behaviour.
- Component handlers: what a handler emits and how it ends are parameters of a step.
- Emits that a handler makes after it returned: an execution emits only while it runs.
- Bytes of JSON and YAML: a stored step value is a record, a number or neither.
- Time in the ledger record other than its completion time.
- Regular expressions and expression evaluation: path segments, secret names and credential shapes are parameters.
- Reflection-based redaction and secret resolution, collecting secret names from a schema.
- Per-attempt timeouts and backoff delays of edge retries: attempts carry their times.
- Classic hops' own redelivery by the broker: `Dispatch` counts one run of each message.
- Remote tool calls, start-up waits and destroyed instances in dispatch: a message that reaches no component ends there.
- Schema types given as lists. Conformance follows one `$ref` step, as the generator does; a longer chain is not followed.
- Finding a path's schema (`typedPlaceholder`, `deriveValueSchema`) and choosing which paths to scaffold.
- Dashboard pages, scenarios, shared-flow annotations and module lists of a cloned solution.
- Easy members such as RBAC lookup, edge list filters, prompt splitting and usage totals.
- ScenarioMock.SetPath: maps and slices are cells of an explicit memory with addresses, not Dafny objects, so that
  aliasing is visible; a slice's spare capacity is not modelled.
- EdgeStream.PublishStores: work-queue deletion is a flag on the copy, so the log keeps every copy ever stored.
- RunLedger.AddedRecordsAreDated: the failure's text is not empty; the number of attempts that the source puts into it is
  not modelled.
- RunKeys.OrdinalsNeverCollide: ordinals with different numbers of digits, or that differ in more than the last four,
  are not shown apart: the argument covers differences within four adjacent bytes, and some longer ones do collide, as
  there are more texts than 64-bit hashes.
- CloneSolution.Clone: the flows are created before the model starts, and the operator writes a node only between two
  update attempts on it.
