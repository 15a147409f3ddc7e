# A model of the inverter dashboard's protocols and transformations

This project models the parts of the inverter dashboard whose correctness spans several functions, states
what they promise, and proves it: the durable Web Push outbox, notification delivery in the service worker,
the release version ledger, the walk, merge and detachment of OCI archives, version edits in JSON text, the
native telemetry reducer, sticky banner dismissal, the release-note scanner, the frontend import and the
pricing of measured intervals. `dafny verify dfyconfig.toml` checks all of it.

## How it is built

Where the program changes state in place, a class or a loop does the same, and its contract ties the new
state to a function of the old one; the theorems are about those functions.

- **Push outbox.** `PushTables` has one function for each transaction, `PushStore` the class over the three
  tables. `PushProtocol` is the service as a state machine: the code between two awaits is one step, two
  workers and everything else interleave, the clock never goes back and every send ends within its lease.
  `PushService` is the object: each of its methods is one of those steps, its second constructor a restart.
  `PushObserver` ties it to the event processor, whose pass is a run of Prime and Queue steps. `PushSafety`
  holds the theorems, `PushInterruption` the exception to three sends and `PushOverlap` the one to exclusion.
  `PushOutcomes` says what each step leaves, in terms of rows and times alone. `EventPayload`,
  `EventProcessor` and `SampleEvents` are what feeds it, `PayloadReading` what the payload reads as.
- **Service worker.** `ServiceWorker` has the IndexedDB transactions, `DeliveryProtocol` their interleavings,
  `DeliveryOutcomes` what each of them leaves.
- **Release ledger.** `ReleaseLedger` has the transactions with compare-and-swap, `LedgerProtocol` the
  interleavings of runs, `ReleaseIdentity` tags and number projections; `ReleaseReservation` and
  `LedgerOutcomes` say exactly what is reserved, begun and written, `ReleaseNames` what plans and tags read.
- **OCI archives.** `OciArchive` is the walk as a function and `OciWalker` the object that accumulates it.
  Digests are opaque and collision-free. `OciReplay` says what a walk depends on; `OciDetach` and `OciMerge`
  use it. `OciGraph`, `OciImages` and `OciAttestations` say exactly which descriptors, images and attestations
  are accepted, `OciRunnable` which runnable leaves, `OciPair` which detached pairs. Terms are those of the
  OCI Image Format Specification, sections Image Index and Image Manifest.
- **JSON edits.** `JsonStrings` and `JsonSyntax` are the grammar of RFC 8259, sections 2 to 7, with every
  character accounted for, `JsonGrammar` spells out their tokens and `JsonRoundTrip` shows that the parser reads
  exactly what it writes; `JsonPaths` places scalars in the text; `JsonDocument` is the parser with its index
  and table of spans; `JsonVersionEdit` is the edit, and `JsonOwnedFields` what it promises.
- **Telemetry and banners.** `InstanceOrder` is the stable sort by sort key that lists devices,
  `CerboReducer` the reducer and `CerboAgreement` what messages and snapshots have in common; `ListingOrder`
  and `CerboOutcomes` say what is listed, stored and shown, in terms of names and leaves; `PlatformSlots` is the
  banners' table and `SlotLeaves` what one leaf says of it.
- **Smaller cores.** `CodeSpans`, `HeadingSections`, `ReleaseNotes`, `CommentTokens` and `NoteLines`;
  `ImportTransaction`; `IntervalPricing` and `IntervalTotals`. `Basics`, `Recency` and `Decimal` are shared.

Every theorem about runs is about all of them: `Reachable` means by some finite sequence of enabled steps.
No lemma relies on automatic induction; the attribute `{:induction false}` stands where Dafny would add it.
A `hide` statement names definitions that a proof does not need, which keeps its cost low.

## What turned out not to hold as it stands

- A row is sent at most three times unless it is the row of a test and a restart cut its send off: the row
  survives with its attempt count unchanged (`PushInterruption.TestSentTenTimes`). Its expiry bounds that:
  nine sends cut off and three that end make twelve, and no row is sent more often
  (`PushSafety.LeaseExclusion`, `PushInterruption.TwelveSends`).
- After 4096 other ids with an equal or later time an event id can be recorded anew and its row stored anew.
  Exclusion and the three sends hold for each storing, but a row stored while a cancelled send of its earlier
  storing is still under way can be sent beside it (`PushOverlap.TwoSendsOfOneRow`).
- A release run that ends between creating the ledger branch and its first write leaves a branch that no run
  can use again once no other run that found nothing before is under way
  (`LedgerProtocol.LostBeforeFirstWrite`, `LedgerProtocol.LossIsReachable`).
- Two runs can reserve the same stable tag (`LedgerProtocol.StableTagShared`), and do exactly when their base
  versions are equal (`LedgerProtocol.StableTagsMeet`).
- Two inputs that each pass can be refused when they are detached together: the documents of both share one
  32 MB budget and a bound of 4096, their layers one 32 GiB budget, and the index of both images must fit in
  2 MB. Each input also needs room to read its manifest once more (`OciPair.DetachExactly`).
- A merged archive can fail its own walk although both inputs pass: with more than 1023 leaves, with an
  attestation manifest that both inputs list, or over the JSON budgets (`OciMerge.MergedWalk`). The order of
  its leaves is independent of the inputs' order except between different descriptors of one attestation
  manifest (`OciMerge.OrderIndependent`); the program always takes the platforms in one order.
- A disable request is refused at the largest safe generation (`DeliveryProtocol.DisableRefusedOnlyAtTheEnd`).
- Devices are listed by a sort key that reads digits as a number, so those of "01" and "1" tie and stay in
  the order they came. Messages and a snapshot of the same leaves then agree exactly when their ties are in
  the same order; the grid meters "01" and "1" show that they need not (`CerboAgreement.TiedMetersDisagree`,
  `CerboAgreement.SomeMetersDisagree`).
- The sort key raises on an instance such as a superscript digit, after its leaf was stored. Until that
  instance is removed or the connection is lost, every accepted message raises and the dashboard keeps its
  last values (`CerboReducer.Reducer.HandleDevice`, `CerboAgreement.RaisesUntilRemoved`).
- A disconnected pump can gain command authority over MQTT but not from a snapshot
  (`CerboAgreement.DisconnectedPumpGainsAuthority`, `CerboAgreement.AuthorityStaysConnected`).
- `sync_platform_map` is documented to clear a dismissal when Active clears; the code does so only for single
  leaves, and the model follows the code.
- When an import is interrupted just after it renamed the payload and there was no tree before, the rollback
  leaves the new tree in place; with a tree before, it stops and leaves that tree aside.

## Model

| member | source | states |
|---|---|---|
| PushSafety.LeaseExclusion | src/inverter_dashboard/push_service.py:235-299 | In every reachable state, and for each storing of a row: unless it was stored while a send of an earlier storing was under way, it has at most one send under way, and it was sent at most three times and once more for each time its send was cut off by a failure or a restart, which never happens to the row of a source; in all at most twelve times |
| PushSafety.MixedMeansAgain | src/inverter_dashboard/push_service.py:216-299 | A row is stored while a send of its earlier storing is under way only if its event id was forgotten and recorded again |
| PushOverlap.TwoSendsOfOneRow | src/inverter_dashboard/push_service.py:235-299 | That exception is real: after a registration cancelled its send and 4096 other ids were recorded, the same event is queued again and a state with two sends of one row under way is reached |
| PushInterruption.TestSentTenTimes | src/inverter_dashboard/push_service.py:191-214 | That exception is real: for each n up to ten, a state is reachable in which the row of one test, its id recorded once, was sent n times and each send cut off by a restart |
| PushInterruption.TwelveSends | src/inverter_dashboard/push_service.py:191-299 | Both bounds on sends are met at once: a state is reachable in which one row was cut off nine times and sent twelve |
| PushSafety.AgainMeansCrowded | src/inverter_dashboard/push_store.py:224-231 | An event id is recorded a second time only after 4096 other ids were recorded with a time equal to or later than its own, for each of its recordings but one that is still retained |
| PushSafety.NotQueuedAgain | src/inverter_dashboard/push_store.py:238-262 | An id once queued, or silenced by priming, is queued again in any later state and epoch only after 4096 other ids were recorded with a time equal to or later than that of each recording of the id so far |
| PushSafety.StoredRowsAreCurrent | src/inverter_dashboard/push_service.py:158-162 | Every reachable store keeps the 64, 4096 and 1024 bounds, attempts in 0 to 2 and the reference from rows to subscriptions, and every row belongs to the current epoch or to a test |
| PushSafety.StaleCompletion | src/inverter_dashboard/push_service.py:246-299 | The end of a send changes no table when its epoch was retired, its row is gone, its subscription was registered again or deleted, or its row expired |
| PushSafety.StepKeepsInv | src/inverter_dashboard/push_service.py:116-299 | The invariant behind these is kept by every atomic step: registration, deletion, epoch changes, queueing, priming, tests, polls, completions, failure and restart |
| PushSafety.ReachableInv | src/inverter_dashboard/push_service.py:116-299 | The invariant holds in every state that some interleaving of these steps reaches from an empty store |
| PushSafety.CompleteStep | src/inverter_dashboard/push_service.py:261-292 | A completion, with its three clock readings, whatever the provider answered, keeps the invariant |
| PushSafety.PollStep | src/inverter_dashboard/push_service.py:235-260 | Claiming a row and starting its send, or dropping it because nobody wants it any more, keeps the invariant |
| PushSafety.RetireKeeps | src/inverter_dashboard/push_service.py:132-162 | A new epoch, with the old one's sends cancelled and its rows dropped, keeps the invariant |
| PushSafety.RestartStep | src/inverter_dashboard/push_service.py:74-114 | A restart, which cuts all sends off and begins a new epoch, keeps the invariant, send counts included |
| PushTables.RegisterKeepsValid | src/inverter_dashboard/push_store.py:172-187 | A registration keeps the bounds and references: its old rows go with it |
| PushTables.DeleteKeepsValid | src/inverter_dashboard/push_store.py:207-209 | A deletion cascades to the rows of the subscription and keeps every bound |
| PushTables.FillAdds | src/inverter_dashboard/push_store.py:246-262 | Filling the outbox adds one fresh row for each target that had none and changes no row that was there |
| PushTables.FinishKeepsValid | src/inverter_dashboard/push_store.py:297-309 | Finishing or retrying a row whose attempts are those of the snapshot keeps every bound, attempts at most 2 included |
| Recency.KeepNewestSize | src/inverter_dashboard/push_store.py:224-231 | Pruning leaves at most the given number of ids, and all of them when they already fit |
| Recency.DropOldest | src/inverter_dashboard/push_store.py:224-231 | Removing an oldest id while there are too many leaves the outcome of pruning as it is |
| PushStore.PushStore.Register | src/inverter_dashboard/push_store.py:172-187 | The three tables become what the registration function gives, conflict and limit errors leaving them unchanged |
| PushStore.PushStore.Enqueue | src/inverter_dashboard/push_store.py:238-262 | One transaction: too large, duplicate or queued, with a broken reference undoing all of it |
| PushStore.PushStore.InsertRows | src/inverter_dashboard/push_store.py:253-261 | The loop over targets inserts rows up to the outbox limit and ignores rows that exist |
| PushStore.PushStore.NextDelivery | src/inverter_dashboard/push_store.py:268-282 | Expired rows go, a due row with the smallest due time is returned as it was, and when claimed its lease moves by 30 s |
| PushStore.PushStore.OwnsDelivery | src/inverter_dashboard/push_store.py:284-295 | A caller owns a row while epoch and attempts are those of its snapshot and the row has not expired |
| PushStore.PushStore.Finish | src/inverter_dashboard/push_store.py:297-309 | Removes the row, or records one more attempt while the snapshot has fewer than two |
| PushStore.PushStore.Remember | src/inverter_dashboard/push_store.py:219-231 | Reports whether the id was new and keeps the newest 4096 |
| PushStore.PushStore.RetireEpochs | src/inverter_dashboard/push_store.py:264-266 | Only rows of the given epoch and of tests remain |
| PushStore.PushStore.Delete | src/inverter_dashboard/push_store.py:207-209 | Removes the subscription and its rows |
| PushStore.PushStore.AllowTest | src/inverter_dashboard/push_store.py:211-217 | At most one test a minute for each subscription |
| PushService.PushService.Poll | src/inverter_dashboard/push_service.py:235-260 | The service object takes exactly a Poll step of the protocol |
| PushService.PushService.Complete | src/inverter_dashboard/push_service.py:261-292 | The service object takes exactly a Complete step of the protocol, and settles the row as `PushOutcomes.CompletionOutcome` says |
| PushOutcomes.CompletionOutcome | src/inverter_dashboard/push_service.py:261-292 | A row that is still the one sent ends with a success, a final answer, an invalid payload or a cancelled send; 404 and 410 remove the subscription with all its rows; 429, 5xx and a broken send leave it due 5 or 10 s later with one more attempt, the third of which ends it; nothing else changes, and a row that is no longer that one stays as it is |
| PushOutcomes.RegisterOutcome | src/inverter_dashboard/push_service.py:168-183 | Refused exactly for other keys or a 65th subscription; otherwise the subscription is replaced, keeps the time of its last test, loses its rows, and only its sends are cancelled |
| PushOutcomes.UnregisterOutcome | src/inverter_dashboard/push_service.py:180-189 | The subscription and its rows go, and only its sends are cancelled |
| PushOutcomes.ConnectOutcome | src/inverter_dashboard/push_service.py:132-145 | From any reachable state the rows of tests stay as they are, all other rows go, and the sends of sources are cancelled |
| PushOutcomes.DisconnectOutcome | src/inverter_dashboard/push_service.py:147-156 | The same under a new epoch without a source |
| PushOutcomes.RestartOutcome | src/inverter_dashboard/push_service.py:74-114 | The same, with every send ended and the service available again |
| PushOutcomes.QueueOutcome | src/inverter_dashboard/push_service.py:216-224 | A payload over 3072 bytes or a recorded id adds no row; otherwise exactly the first chosen targets that fit under 1024 live rows have one, expiring 300 s after the event or after now |
| PushOutcomes.SendTestOutcome | src/inverter_dashboard/push_service.py:191-214 | A test is queued exactly when it is admitted, a minute has passed since the last one and there is room, and its time is noted whatever becomes of its payload |
| PushOutcomes.PollOutcome | src/inverter_dashboard/push_service.py:235-260 | Expired rows go; a row that is due first is leased for 30 s and sent as it was, or removed when nobody wants it or its source is gone |
| PushOutcomes.IdleOutcome | src/inverter_dashboard/push_service.py:235-244 | Without a row that is due, expired rows go and nothing is sent |
| PushOutcomes.PrimeOutcome | src/inverter_dashboard/push_store.py:219-231 | A silenced id is recorded, at the cost of one oldest id when there are 4096 already |
| PushService.PushService.Register | src/inverter_dashboard/push_service.py:168-183 | Registers the subscription and cancels its old sends: exactly a Register step |
| PushService.PushService.Delete | src/inverter_dashboard/push_service.py:180-189 | Cancels the sends of the subscription, then deletes it: exactly an Unregister step |
| PushService.PushService.Connect | src/inverter_dashboard/push_service.py:132-145 | Retires the old epoch under the new one: exactly a Connect step |
| PushService.PushService.Disconnect | src/inverter_dashboard/push_service.py:147-156 | Forgets the source and retires its epoch: exactly a Disconnect step |
| PushService.PushService.Queue | src/inverter_dashboard/push_service.py:216-224 | Queues for the subscriptions whose preferences select the kind, and only while a source is connected |
| PushService.PushService.RequestTest | src/inverter_dashboard/push_service.py:191-214 | A requested test is refused for an unknown subscription, at full capacity, within a minute of the last one for it, or after ten in a minute; otherwise it is exactly a SendTest step |
| PushService.PushService.Fail | src/inverter_dashboard/push_service.py:226-233 | Stops all sends and makes the service unavailable: exactly a Fail step |
| PushService.PushService.Reopen | src/inverter_dashboard/push_service.py:74-114 | A new service object over the store left behind, with a fresh epoch and all source rows dropped: exactly a Restart step |
| PushObserver.SilencingIsRun | src/inverter_dashboard/push_events.py:151-184 | What a pass silences is recorded by a run of Prime steps that changes nothing else, whatever the notifications |
| PushObserver.PushObserver.NativePass | src/inverter_dashboard/push_observer.py:146-150 | A pass over the notifications takes the service through a run: a Prime step for each event it silences, then, while a source is connected, a Queue step for each event it reports, in order |
| PushObserver.PushObserver.QueueAll | src/inverter_dashboard/push_observer.py:149-150 | Reported events are queued in order, each exactly a Queue step, or none without a source |
| EventPayload.Build | src/inverter_dashboard/push_events.py:45-64 | The payload encodes to at most 3072 bytes, so no outbox refuses it as too large, has at most 120 title characters and keeps the longest body prefix, of at most 1000 characters, that fits |
| PayloadReading.PayloadReads | src/inverter_dashboard/push_events.py:51-64 | The payload's text parses, by the grammar of RFC 8259, as one object with its nine fields in their order and exactly their values, whatever characters title and body hold |
| PayloadReading.SizeIsBytes | src/inverter_dashboard/push_events.py:62-62 | The size that is limited is the number of bytes of the text in UTF-8 |
| PayloadReading.BytesRead | src/inverter_dashboard/push_events.py:62-62 | Those bytes read back as their characters |
| EventPayload.Shorten | src/inverter_dashboard/push_events.py:60-64 | The shortening loop ends with the longest prefix of the body that fits |
| EventPayload.EmptyBodyFits | src/inverter_dashboard/push_events.py:45-64 | With an empty body the fixed fields and 120 escaped title characters always fit, so shortening can always succeed |
| EventPayload.LongerNeverFits | src/inverter_dashboard/push_events.py:60-64 | If a prefix is too long then so is everything it starts |
| EventPayload.BodyAdds | src/inverter_dashboard/push_events.py:54-64 | The body adds exactly the bytes of its own escaped text to the encoding |
| EventPayload.EscapedBound | src/inverter_dashboard/push_events.py:54-64 | A JSON-escaped text takes at most six bytes for each character |
| EventProcessor.EventProcessor.Native | src/inverter_dashboard/push_events.py:137-184 | Of at most 100 notifications it reports exactly those judged reportable, in order, and records the ones it silences |
| EventProcessor.EventProcessor.Reset | src/inverter_dashboard/push_events.py:129-135 | A new epoch starts unprimed and retires the rows of all others |
| EventProcessor.PrimingIsSilent | src/inverter_dashboard/push_events.py:137-184 | A priming pass reports nothing and silences every notification that has a source time |
| EventProcessor.PassesKeep | src/inverter_dashboard/push_events.py:137-160 | Passes that still show an undated occurrence keep it in the baseline |
| EventProcessor.ReportsAreRecent | src/inverter_dashboard/push_events.py:151-184 | A reported event is a dated warning or alarm, not older than 300 s, not from before the epoch by more than 30 s and not more than 30 s ahead |
| EventProcessor.JudgesExactly | src/inverter_dashboard/push_events.py:151-184 | A notification is reported exactly when it is a dated warning or alarm at most 300 s old, at most 30 s ahead and at most 30 s from before the epoch, outside priming and not awaited from it; one is skipped exactly when it has no time or no level |
| EventProcessor.PassReports | src/inverter_dashboard/push_events.py:137-184 | Over a whole pass: a notification is reported exactly when it is such a warning and is not the first dated one of an occurrence that priming saw undated |
| EventProcessor.PassForgets | src/inverter_dashboard/push_events.py:139-150 | After a pass an undated occurrence is still known exactly when it was, and the pass shows it and dates it nowhere |
| EventProcessor.HydrationIsSilent | src/inverter_dashboard/push_events.py:151-184 | An occurrence last seen without a time while priming is silenced, not reported, when a later pass first gives it a time, among any other notifications and after any passes in between that still show it undated |
| EventProcessor.EventProcessor.NativeEvent | src/inverter_dashboard/push_events.py:151-184 | One notification is skipped, silenced and recorded, or reported, as judged; only a recent, dated warning or alarm outside priming is reported, an undated one is never recorded, and a dated one leaves the baseline |
| EventProcessor.EventProcessor.TakeSample | src/inverter_dashboard/push_events.py:186-204 | One sample moves the baseline of its own device only, and is reported exactly when it crosses |
| SampleEvents.ReportIsFreshChange | src/inverter_dashboard/push_events.py:186-222 | In any run of samples of a device one is reported exactly when it and the one before are known, at most 30 s apart, and the battery falls to 20 percent or less, a charger changes its state or a valve changes, without priming |
| SampleEvents.LowBatteryRearms | src/inverter_dashboard/push_events.py:186-222 | Between two low-battery events there was a sample above 20 percent |
| SampleEvents.StatesAlternate | src/inverter_dashboard/push_events.py:186-222 | Between two reports of the same charger or valve state there was a sample of the other |
| DeliveryProtocol.ShownOnce | src/inverter_dashboard/static/notifications-sw.js:88-146 | For any interleaving of pushes and tabs an event key is shown at most once until pruning removes its claim record |
| DeliveryProtocol.ShownWhileEnabled | src/inverter_dashboard/static/notifications-sw.js:123-146 | Whatever is shown had delivery enabled at every setting between its two settings reads |
| DeliveryProtocol.OldEnableRefused | src/inverter_dashboard/static/notifications-sw.js:44-56 | After an applied disable or begin, every enable that carries an older generation is refused in all later states |
| DeliveryProtocol.DisableRefusedOnlyAtTheEnd | src/inverter_dashboard/static/notifications-sw.js:50-53 | A disable leaves delivery enabled exactly when it was enabled under the largest safe generation |
| DeliveryProtocol.GenerationsGrow | src/inverter_dashboard/static/notifications-sw.js:44-56 | Along the log of settings generations never fall, and equal ones that are enabled mean no break in between |
| DeliveryProtocol.StepKeepsInv | src/inverter_dashboard/static/notifications-sw.js:22-146 | Every transaction of every tab and push keeps the invariant on claims, shown notifications and the settings log |
| DeliveryOutcomes.ChangesExactly | src/inverter_dashboard/static/notifications-sw.js:44-56 | Enabling and beginning are applied exactly under the current generation, disabling and beginning exactly while there is a next one; enabling keeps it, the others disable under the next |
| DeliveryOutcomes.ReadsExactly | src/inverter_dashboard/static/notifications-sw.js:22-42 | Only a record that says so enables delivery, and only a safe generation counts |
| DeliveryOutcomes.ClaimsExactly | src/inverter_dashboard/static/notifications-sw.js:73-108 | After a claim exactly the records remain that have not expired and are among the 4096 that last longest, the new one for 30 days |
| DeliveryOutcomes.RecordLasts | src/inverter_dashboard/static/notifications-sw.js:73-121 | Over any run a claim record keeps its expiry until its own delivery gives it back, it expires or 4096 others outlast it |
| DeliveryOutcomes.PrunedExactly | src/inverter_dashboard/static/notifications-sw.js:73-108 | A record counts as pruned exactly when a claim took it away |
| DeliveryOutcomes.DeliveryOutcome | src/inverter_dashboard/static/notifications-sw.js:123-146 | Where a delivery stands after each of its transactions: claimed while enabled, checked when the claim is new, shown when still enabled under the same generation |
| DeliveryOutcomes.EnabledIsShown | src/inverter_dashboard/static/notifications-sw.js:123-146 | An event pushed while delivery is enabled and not claimed before is shown when nothing comes between |
| ServiceWorker.Database.ReadSettings | src/inverter_dashboard/static/notifications-sw.js:22-42 | Missing or malformed settings read as disabled with generation 0 |
| ServiceWorker.Database.ChangeSettings | src/inverter_dashboard/static/notifications-sw.js:44-56 | Applies exactly the accepted changes and reports the settings that result |
| ServiceWorker.Database.ClaimEvent | src/inverter_dashboard/static/notifications-sw.js:88-108 | A claim succeeds exactly when no record exists, and prunes in the same transaction |
| ServiceWorker.Database.PruneEvents | src/inverter_dashboard/static/notifications-sw.js:73-86 | The walk over the expiry index removes the excess and all that expired, oldest first |
| ServiceWorker.Database.ReleaseClaim | src/inverter_dashboard/static/notifications-sw.js:110-121 | Removes the record of the key and nothing else |
| ServiceWorker.NothingToPrune | src/inverter_dashboard/static/notifications-sw.js:73-86 | Nothing is pruned while there is no excess and the oldest record has not expired |
| LedgerProtocol.LedgerInOrder | scripts/release_state.py:152-215 | In every interleaving with stale reads and refused writes: distinct build numbers, each at most the counter and above the policy floor of its reservation, and a publication floor within the counter |
| LedgerProtocol.LedgerNeverLoses | scripts/release_state.py:152-215 | Counter and floor never fall and no reservation is altered or dropped |
| LedgerProtocol.RetryGetsOriginal | scripts/release_state.py:182-192 | Once a reservation is in the ledger, the same run gets its original plan back from every later state, and other inputs are refused |
| LedgerProtocol.NewIsBound | scripts/release_state.py:193-215 | A new reservation is bound to its own inputs, so that an identical retry meets the condition above |
| ReleaseReservation.ReservesExactly | scripts/release_state.py:168-215 | A new run reserves exactly the plan of its inputs with the least build number above counter and policy floor and the least sequence that is unused and above every reserved one of its version and channel, unless that is no valid plan or its tag exists; an old run gets its plan exactly when all its inputs are the same |
| ReleaseReservation.ReservedTagIsFree | scripts/release_state.py:200-206 | With the number found unused, the tag of a new beta or RC is none of those that exist and none that the ledger has reserved |
| LedgerOutcomes.BeginsExactly | scripts/release_state.py:218-299 | A publication may begin exactly from its own reservation, above the floor and above everything published; a promotion exactly from the only reservation of a published RC, at or above the floor with nothing newer published |
| LedgerOutcomes.ReadExactly | scripts/release_state.py:98-149 | A run that finds neither file nor branch starts from nothing; a branch without its file is an error, and so is a ledger whose plans are invalid or above its counter |
| LedgerOutcomes.WriteOutcome | scripts/release_state.py:152-165 | A write lands exactly when the branch holds what the run had read, and then leaves the new ledger, the number it consumes and the floor it was made under |
| LedgerOutcomes.BeginningOutcome | scripts/release_state.py:302-330 | A run that may begin writes its number as the new floor; only one that is no promotion consumes it |
| LedgerOutcomes.ReservingOutcome | scripts/release_state.py:168-215 | A run with a new reservation writes the ledger that has it |
| LedgerProtocol.ConsumedIncreases | scripts/release_state.py:305-330 | Publications that are no promotions consume strictly increasing build numbers |
| LedgerProtocol.PromotionIsNewest | scripts/release_state.py:273-330 | A byte promotion lands only if no publication with a larger number has begun |
| LedgerProtocol.TagsNeverShared | scripts/release_state.py:193-214 | Beta, RC and nightly tags of two runs in the ledger differ |
| LedgerProtocol.StableTagShared | scripts/release_state.py:193-214 | Stable tags are the exception: two runs can reserve the same one |
| LedgerProtocol.StableTagsMeet | scripts/release_state.py:193-214 | Two stable plans in a reachable ledger share a tag exactly when their base versions are equal |
| LedgerProtocol.LaterIsLargerForApple | scripts/version_plan.py:483-487 | A reservation made later projects to a lexicographically larger Apple triple with components at most 9999, 99 and 99 |
| LedgerProtocol.LostBeforeFirstWrite | scripts/release_state.py:104-107 | A branch can come to hold a ledger exactly when it does already, does not exist yet, or some run that found nothing before can still write its first version; otherwise no run, in any interleaving, reads or writes one again |
| LedgerProtocol.LossIsReachable | scripts/release_state.py:210-214 | A run that creates the branch and ends before its first write leaves an unusable branch |
| LedgerProtocol.StepKeepsInv | scripts/release_state.py:98-330 | Every read, write and abandoned run keeps the invariant of ledger and open plans |
| ReleaseLedger.LedgerBranch.Write | scripts/release_state.py:152-161 | A write succeeds exactly when the file is still the one that was read, or still absent, on an existing branch |
| ReleaseLedger.LedgerBranch.Record | scripts/release_state.py:210-214 | The branch is created when it is missing, then the ledger is written unless another run wrote first |
| ReleaseLedger.NextSequence | scripts/release_control.py:1558-1570 | The least number from which on no tag of the base and channel has one |
| ReleaseLedger.UnusedFromNext | scripts/release_control.py:1558-1570 | No number from there on names an existing tag |
| ReleaseIdentity.TagInjective | scripts/version_plan.py:291-319 | A tag determines its base version, channel and sequence |
| ReleaseIdentity.StampRun | scripts/release_state.py:203-204 | A nightly stamp determines its run, whatever time and attempt it carries |
| ReleaseIdentity.AppleGrows | scripts/version_plan.py:483-487 | Larger build numbers have larger Apple triples |
| ReleaseIdentity.NightlyNumberOrders | scripts/version_plan.py:291-319 | The nightly number orders runs and then attempts, so it never names two of them |
| ReleaseNames.PlanExactly | scripts/version_plan.py:291-319 | A plan is valid exactly when its tag is `v` and a version of three numbers, with nothing after it for stable, the number of a beta or RC, or a nightly's moment, run and attempt, and its digests and build number fit |
| ReleaseNames.TimestampExactly | scripts/version_plan.py:307-313 | The fourteen digits of a nightly are accepted exactly when they write a second of the calendar of the years 1 to 9999 |
| ReleaseNames.YearsAre | scripts/version_plan.py:307-313 | Leap years are the years of 366 days by the Gregorian count of days |
| ReleaseNames.ProjectionsExactly | scripts/version_plan.py:472-487 | The Apple triple counts builds from 1.0.0 in hundreds, and the nightly number is written as its run followed by six digits of its attempt |
| Decimal.RenderOfValue | scripts/version_plan.py:291-319 | A numeral without leading zeros is the text of its value |
| Decimal.RenderInjective | scripts/version_plan.py:291-319 | Different numbers have different texts |
| OciDetach.DetachLosesNothing | scripts/release_provenance.py:191-216 | For both platforms the walk of the runnable blobs overlaid with the saved metadata ends exactly as the walk of the original: leaves, images, attestations and budgets, and all saved metadata was read |
| OciDetach.ReplaysFrom | scripts/release_provenance.py:191-219 | One platform is replayed from any runnable and metadata archives that hold its blobs |
| OciDetach.ArchiveFootprint | scripts/release_provenance.py:305-327 | Beyond its metadata a native walk touches only the config and layers of its images and the subjects of its attestations |
| OciPair.DetachExactly | scripts/release_provenance.py:305-397 | Detaching two inputs succeeds, the pair it wrote passing the pair check, exactly when each input is accepted with provenance and has room to read its manifest again, and together they list at most 4096 documents within one 32 MB budget, an index of both images within 2 MB and layers within one 32 GiB budget |
| OciPair.RunnableWalk | scripts/release_provenance.py:144-178 | The two-platform walk of a runnable archive accepts both images exactly when their index and the decoded layers of both are within the limits, and it reads every member |
| OciPair.ImageVisited | scripts/release_provenance.py:161-170 | An image of a platform not seen before is accepted exactly when its layers fit the budget left by those before |
| OciPair.ReplaysWritten | scripts/release_provenance.py:191-219 | Both originals replay over the written pair, are about its two images, have provenance and use every saved document |
| OciPair.DecodeBlobs | scripts/release_provenance.py:118-131 | The sidecar's documents decode exactly when each is within its own limit and their total is within 32 MB, in whatever order they come |
| OciPair.Decode | scripts/release_provenance.py:233-256 | With both originals' index and layout counted against the same budget |
| OciImages.ImageExactly | scripts/merge_oci_archives.py:316-422 | An image is accepted exactly when its config, platform, layers and their decoded digests fit and neither budget is exceeded, and what the walk then records of it |
| OciImages.LayersExactly | scripts/merge_oci_archives.py:366-422 | Layers are accepted exactly when each decodes to its listed digest and all fit the budget left, repeated layers counted each time |
| OciImages.ArchiveImages | scripts/merge_oci_archives.py:254-422 | Of every image an accepted native walk found there is a leaf that fits, and its layers are what the budget was used for |
| OciAttestations.StatementsExactly | scripts/merge_oci_archives.py:497-523 | The statements of an attestation are accepted exactly when each is a readable in-toto statement that names the subject and their bytes are within the budget; the predicate types are exactly theirs |
| OciAttestations.AttestationExactly | scripts/merge_oci_archives.py:424-528 | An attestation is accepted exactly when its platform, reference, config and subject are those of one of the two forms, each of its 1 to 4096 layers is a statement about the subject, and the budget suffices |
| OciAttestations.ArchiveRecords | scripts/merge_oci_archives.py:254-528 | An accepted walk records each leaf as the image or the attestation that it is, and nothing else; all statements of a recorded attestation name its subject, and its predicate types are exactly theirs |
| OciGraph.EnterExactly | scripts/merge_oci_archives.py:273-314 | A descriptor is entered exactly when it is of an index or manifest that is there, has its size and media type and says so itself, at most eight levels down, as one of 1,024, and within the budget |
| OciGraph.IndexExactly | scripts/merge_oci_archives.py:254-271 | An index is walked exactly when it is of schema 2, has 1 to 1,024 manifests, and neither a subject nor an artifact type |
| OciGraph.ArchiveReaches | scripts/merge_oci_archives.py:254-314 | In an accepted archive every path down its indexes has at most nine descriptors and all of them fit; the manifests at the ends of the paths are exactly the leaves |
| OciRunnable.LeafExactly | scripts/release_provenance.py:161-173 | The two-platform walk accepts a leaf exactly when it is the first image of its platform and its digest, marked as nothing else, fits, and is within the budgets |
| OciRunnable.ArchiveRunnable | scripts/release_provenance.py:144-178 | An accepted runnable archive has images alone, at most one of each platform, and their layers use up the budget |
| OciRunnable.ReadyExactly | scripts/release_provenance.py:305-327 | An input is ready to be detached exactly when it is one image whose attestations are all about it, one of them of SLSA provenance, and there is room to read its manifest again |
| OciReplay.WalkReplays | scripts/merge_oci_archives.py:254-528 | A walk depends only on the metadata it read, the layers it decoded and the sizes it checked: an archive that agrees on those gives the same walk |
| OciReplay.WalkOneReplays | scripts/merge_oci_archives.py:273-314 | The same for one descriptor at any depth |
| OciReplay.AttestationReplays | scripts/merge_oci_archives.py:424-528 | The same for the two forms of attestation |
| OciReplay.ImageReplays | scripts/merge_oci_archives.py:316-422 | The same for a runnable image and its layers |
| OciMerge.MergedWalk | scripts/merge_oci_archives.py:568-625 | Walking the merged archive succeeds exactly when it lists at most 1023 leaves, no leaf manifest is shared, and the generated index and all manifests fit the JSON budgets; it then reaches exactly the leaves of both inputs in the listed order |
| OciMerge.InputsReplay | scripts/merge_oci_archives.py:568-625 | Merging keeps what each input passed: under its own root, the full platform walk of an input, layers and attestations included, ends on the merged blobs as it did before |
| OciMerge.BlobsKept | scripts/merge_oci_archives.py:597-625 | Every input blob is in the merged archive unchanged |
| OciMerge.ImagesFirst | scripts/merge_oci_archives.py:573-581 | In the merged index no attestation comes before an image, within one kind no ARM leaf before an AMD one, and within one platform the digests grow |
| OciMerge.OrderIndependent | scripts/merge_oci_archives.py:573-581 | The merged index lists the same leaves in the same order whichever input comes first exactly when leaves that tie by kind, architecture and digest are the same descriptor |
| OciMerge.ImagesNeverShared | scripts/merge_oci_archives.py:316-376 | Two inputs never share a runnable image, because its config names its architecture |
| OciMerge.AddBlobs | scripts/merge_oci_archives.py:602-609 | Filling the blob table fails exactly when a name has two sizes, and otherwise holds all entries |
| OciMerge.CollectBlobs | scripts/merge_oci_archives.py:602-609 | The blobs of both archives, refused only for such a conflict |
| OciMerge.ArchiveLeaves | scripts/merge_oci_archives.py:254-314 | Every leaf of an accepted walk is a readable manifest, and no digest occurs twice |
| OciWalker.Archive.Run | scripts/merge_oci_archives.py:126-314 | The walker object accepts exactly the archives the walk function accepts and ends in the same state; of a native archive it has recorded each leaf as the image or the attestation that it is |
| OciWalker.Archive.WalkIndex | scripts/merge_oci_archives.py:254-271 | The loop over the children of an index is the walk of all of them in order, and stops at the first failure |
| OciWalker.Archive.WalkOne | scripts/merge_oci_archives.py:273-314 | One descriptor: counted, read, then walked as an index or added as a leaf |
| OciWalker.Archive.ReadJson | scripts/merge_oci_archives.py:209-221 | Reading JSON counts its bytes against the budget and records its name |
| OciWalker.Archive.ReadBlob | scripts/merge_oci_archives.py:223-248 | A blob is read only with the descriptor's type and size |
| JsonDocument.SpansHoldScalars | scripts/version_plan.py:540-613 | For every accepted text the recorded spans lie in it, are pairwise disjoint and hold exactly the scalar at their path, and every scalar is recorded |
| JsonDocument.Load | scripts/version_plan.py:605-613 | The parser accepts exactly the texts of the grammar - escapes, fractions, exponents and the three non-numbers included - and gives their data and the span of every scalar |
| JsonDocument.JsonDocument.Parse | scripts/version_plan.py:593-602 | A value is parsed, and its scalars recorded, exactly as the grammar reads the text from there |
| JsonDocument.JsonDocument.ReadMembers | scripts/version_plan.py:553-576 | The loop over members refuses repeated names and malformed separators and records what lies below each name |
| JsonDocument.JsonDocument.ReadItems | scripts/version_plan.py:578-591 | The loop over elements records what lies below each index |
| JsonDocument.SpansArePlaces | scripts/version_plan.py:593-602 | The table holds a path exactly when the document has a scalar there, with its place in the text |
| JsonRoundTrip.ParsesExactly | scripts/version_plan.py:540-613 | A text parses to a document exactly when it is the text of that document |
| JsonRoundTrip.LexScalarComplete | scripts/version_plan.py:599-602 | A scalar token is read back whole in front of whatever may follow a value |
| JsonRoundTrip.LexScalarSound | scripts/version_plan.py:599-602 | What is read as a scalar is the text of a token, fraction and exponent taken as far as they go |
| JsonStrings.EscapeReads | scripts/version_plan.py:661-661 | What a string is written as may stand between quotes and reads as that string |
| JsonStrings.LexStringComplete | scripts/version_plan.py:553-562 | Text with escapes is read up to its own closing quote |
| JsonGrammar.RawExactly | scripts/version_plan.py:553-562 | Text may stand between quotes exactly when it is made of pieces: a character that is no quote, backslash or control character, a backslash with one of eight letters, or one with `u` and four hexadecimal digits |
| JsonGrammar.DecodedExactly | scripts/version_plan.py:553-562 | A string reads as what its pieces stand for, two escaped halves of a character together |
| JsonGrammar.TailExactly | scripts/version_plan.py:599-602 | A number is a float exactly when a fraction, an exponent or both follow its digits |
| JsonGrammar.SpaceExactly | scripts/version_plan.py:548-551 | White space is spaces, tabs, line feeds and carriage returns |
| JsonGrammar.WordsExactly | scripts/version_plan.py:599-602 | The words are true, false, null, NaN, Infinity and -Infinity |
| JsonGrammar.EscapeExactly | scripts/version_plan.py:661-661 | Written, a character is itself unless it is a quote, a backslash or a control character, and those have their one escape |
| JsonRoundTrip.NodeComplete | scripts/version_plan.py:540-602 | The text of a tree parses back to that tree, whatever follows it |
| JsonRoundTrip.NodeSound | scripts/version_plan.py:540-602 | What was parsed, written out and followed by the rest, is the text |
| JsonPaths.PathsApart | scripts/version_plan.py:593-665 | Scalars at different paths do not overlap, and replacing the later one does not move the earlier one |
| JsonPaths.PutText | scripts/version_plan.py:663-665 | The text after a replacement differs in exactly that scalar |
| JsonPaths.PutIsPutData | scripts/version_plan.py:663-665 | Replacing a scalar in the text replaces it in the data |
| JsonVersionEdit.JsonEdit | scripts/version_plan.py:630-665 | The edit succeeds exactly on a document of the declared package - a lock by its name and, when it lists packages, by its root package - whose owned fields take the value. Every owned field then reads as the value, a lock's root package included, every other path reads as before, and the two texts differ in scalar tokens only; a document that needs no change is returned as it is, and so are the values read before |
| JsonVersionEdit.SpliceAll | scripts/version_plan.py:663-665 | Splicing from the last span to the first gives the text of the edited document |
| JsonVersionEdit.OrderedSameData | scripts/version_plan.py:663-665 | The order of the splices does not matter to the data |
| JsonPaths.GetAfterPut | scripts/version_plan.py:630-665 | A replacement sets the scalar at its own path and no other |
| JsonVersionEdit.FieldsExactly | scripts/version_plan.py:635-648 | Which fields an edit goes to, in terms of the names in the document |
| JsonOwnedFields.PutKeepsSkeleton | scripts/version_plan.py:663-665 | Replacing a scalar changes nothing but scalars |
| JsonOwnedFields.PutKeepsLayout | scripts/version_plan.py:663-665 | It leaves names and white space as they are written |
| CerboAgreement.MessagesAgreeWithSnapshot | src/inverter_dashboard/cerbo.py:463-560 | Whatever MQTT messages arrive at an empty reducer, every dashboard value and every availability flag is the one that a snapshot of the remaining leaves gives, absent keys read as their defaults, when devices with equal sort keys are in the same order in both |
| CerboAgreement.AgreeExactlyWithTies | src/inverter_dashboard/cerbo.py:654-691 | That condition is exact: the same leaves show the same values under all overlay functions if and only if connected devices with equal sort keys came in the same order |
| CerboAgreement.TiedMetersDisagree | src/inverter_dashboard/cerbo.py:693-718 | The grid meters "01" and "1", in one order as messages and in the other as a snapshot, show different grid power |
| CerboAgreement.SomeMetersDisagree | src/inverter_dashboard/cerbo.py:693-718 | A configuration that ranks devices so and shows the first grid meter exists, so they do disagree |
| CerboAgreement.UsualNamesAgree | src/inverter_dashboard/cerbo.py:198-199 | Devices named without leading zeros, or with an ASCII character that is no digit, never tie, so the order of arrival never shows |
| CerboAgreement.ArrivalSnapshot | src/inverter_dashboard/cerbo.py:463-476 | The leaves that any messages leave, listed in the order of arrival, make a snapshot that gives the same devices in the same order |
| CerboAgreement.GroupHolds | src/inverter_dashboard/cerbo.py:463-476 | A snapshot gives a kind exactly its acceptable leaves |
| CerboAgreement.ListsAlike | src/inverter_dashboard/cerbo.py:654-660 | Two reducers with the same leaves list every kind alike exactly when ties came in the same order |
| CerboAgreement.ReadingByLists | src/inverter_dashboard/cerbo.py:654-685 | What a reducer reads for a key depends on the sorted lists of connected devices alone, not on claims or empty entries |
| CerboAgreement.RaiseAlike | src/inverter_dashboard/cerbo.py:654-660 | Whether listing raises depends on the leaves alone, not on the order in which they came |
| CerboAgreement.RaisesUntilRemoved | src/inverter_dashboard/cerbo.py:526-560 | An instance whose sort key raises stays, and listing raises, over any messages that do not remove it |
| InstanceOrder.SortStable | src/inverter_dashboard/cerbo.py:198-199 | Sorting goes by the sort key, and by the given order where keys are equal |
| ListingOrder.ListedExactly | src/inverter_dashboard/cerbo.py:654-660 | A kind's list has each connected device once, with its leaves, and no other |
| ListingOrder.ListedInOrder | src/inverter_dashboard/cerbo.py:198-199 | Of two connected devices the one with the smaller number comes first, a number before every name with another ASCII character, and of two such names the one that is smaller at their first difference |
| CerboOutcomes.StoredExactly | src/inverter_dashboard/cerbo.py:487-503 | A leaf is stored exactly when its path is a name, the connection or one of its kind's own, and its value is a number, null, text in a field for names, or anything for the connection |
| CerboOutcomes.MessageOutcome | src/inverter_dashboard/cerbo.py:526-560 | An accepted message stores its own leaf or takes away its own device, and every other leaf stays |
| CerboOutcomes.MessageOrder | src/inverter_dashboard/cerbo.py:526-560 | Devices keep their order of arrival, and a new one comes last |
| CerboOutcomes.ModesExactly | src/inverter_dashboard/cerbo.py:505-584 | A pump has Mode authority after a message exactly when the message is a live report of a valid Mode, or it had authority and the message neither reports its Mode nor removes nor disconnects it |
| CerboOutcomes.SnapshotModesExactly | src/inverter_dashboard/cerbo.py:477-481 | A snapshot gives authority exactly to the connected pumps that it holds a valid Mode of |
| CerboOutcomes.PresenceExactly | src/inverter_dashboard/cerbo.py:821-853 | A vehicle or charger is shown as present exactly when the configured one, or any where none is configured, is connected; the inventory is every connected tank, pump, vehicle and charger, by kind and in listed order |
| CerboOutcomes.WrittenExactly | src/inverter_dashboard/cerbo.py:810-838 | Those three keys are written exactly when their kind has an entry, for the inventory a device, or they were written before |
| InstanceOrder.ListedAlike | src/inverter_dashboard/cerbo.py:654-660 | Two orders of the same instances list the connected ones alike exactly when ties are in the same order |
| InstanceOrder.UsualNeverTie | src/inverter_dashboard/cerbo.py:198-199 | Different names without leading zeros, or with an ASCII character that is no digit, have different sort keys |
| CerboReducer.Reducer.ApplyOverlays | src/inverter_dashboard/cerbo.py:662-691 | It raises exactly when a stored instance has no sort key, changing nothing; otherwise every claimed key shows what the sorted lists give or its default, the availability flags follow, and claims have not shrunk |
| CerboReducer.Reducer.HandleDevice | src/inverter_dashboard/cerbo.py:505-524 | One message is refused, applied or raises exactly as the path and value rules and the sort keys say; when it is not refused the leaves change accordingly and a null claims what it invalidates, and only an applied one changes what is shown |
| CerboReducer.Reducer.ReplaceSnapshot | src/inverter_dashboard/cerbo.py:463-485 | The devices become those of the snapshot in its order, nothing is left of the old ones, null leaves claim their keys, and it raises exactly when an instance has no sort key, before the mode authority is renewed if that is a pump |
| CerboReducer.Reducer.BuildGroup | src/inverter_dashboard/cerbo.py:467-476 | The loop over the entries of a kind builds its group in their order, and null leaves claim their keys |
| CerboReducer.Reducer.RemoveDevice | src/inverter_dashboard/cerbo.py:526-537 | An empty notification removes its device, which comes last when it returns, and the authority of its mode |
| CerboReducer.Reducer.StoreLeaf | src/inverter_dashboard/cerbo.py:539-560 | An accepted leaf is stored, a new instance last, and a null one claims the keys it invalidates |
| CerboReducer.Reducer.ObserveMode | src/inverter_dashboard/cerbo.py:576-584 | Only a live, valid Mode report gives authority; any other Mode report, or a connection flag that is not 1, ends it |
| CerboReducer.Reducer.Clear | src/inverter_dashboard/cerbo.py:443-448 | A lost connection drops all leaves and authority and keeps every claim |
| CerboReducer.JoinSplits | src/inverter_dashboard/cerbo.py:450-461 | A snapshot key splits at its first slash into the instance and path it was made of |
| CerboAgreement.AuthorityIsStored | src/inverter_dashboard/cerbo.py:576-584 | Over any messages, a pump with authority has a valid Mode among its current leaves |
| CerboAgreement.AuthorityStaysConnected | src/inverter_dashboard/cerbo.py:505-584 | A message keeps authority with connected pumps exactly when it is not a live Mode report of a disconnected pump |
| CerboAgreement.DisconnectedPumpGainsAuthority | src/inverter_dashboard/cerbo.py:576-584 | Two messages give authority over a disconnected pump, while a snapshot of the same leaves gives none |
| CerboAgreement.SnapshotAuthorityIsConnected | src/inverter_dashboard/cerbo.py:477-481 | A snapshot gives authority only to connected pumps |
| PlatformSlots.DismissalLasts | src/inverter_dashboard/notifications.py:283-314 | Over snapshots that all contain a slot, a dismissal lasts exactly until a valid DateTime other than the last valid one appears, and invalid or missing ones never make it forget that one |
| PlatformSlots.DismissedUntilFreed | src/inverter_dashboard/notifications.py:211-314 | Over any mix of leaves, snapshots and lost connections, a dismissed banner stays dismissed exactly while no event frees it: another valid time, Active falling in a single leaf, or a snapshot without the slot |
| PlatformSlots.SnapshotEffect | src/inverter_dashboard/notifications.py:283-314 | What one snapshot makes of a slot: kept when mentioned, its last valid time remembered, its dismissal undone by another valid time only |
| PlatformSlots.SlotTable.ApplyField | src/inverter_dashboard/notifications.py:220-269 | One leaf changes its slot as its field says and no other, and the result tells whether it did |
| PlatformSlots.SlotTable.Sync | src/inverter_dashboard/notifications.py:283-314 | The table is rebuilt from the leaves in order, then reconciled with what it remembered |
| PlatformSlots.SlotTable.Clear | src/inverter_dashboard/notifications.py:380-386 | A lost connection keeps only dismissals and their last valid times |
| PlatformSlots.SlotTable.Dismiss | src/inverter_dashboard/notifications.py:506-524 | Dismissing marks an existing slot and nothing else |
| SlotLeaves.KeyExactly | src/inverter_dashboard/notifications.py:112-134 | A key names a field of a place exactly when it is the device, `Notifications`, the slot's number up to 20 in any digits, and the field's name, with slashes between |
| SlotLeaves.TakesExactly | src/inverter_dashboard/notifications.py:137-170 | A field takes a value exactly when the value is null, text for texts, an alarm state for the type, a flag for flags, or for a time anything that is no object |
| SlotLeaves.TimeExactly | src/inverter_dashboard/notifications.py:68-88 | A value is a time exactly when it is, or its text reads as, a whole second from 1 to the end of the year 9999 |
| SlotLeaves.LeafOutcome | src/inverter_dashboard/notifications.py:211-269 | A leaf sets at most one field of one place, in a blank slot if there was none, and nothing else but the dismissal, which a new time or ended activity takes back; any other leaf changes nothing |
| SlotLeaves.ClearExactly | src/inverter_dashboard/notifications.py:380-386 | After a lost connection a place has a slot exactly when it was dismissed: a blank one that remembers its last time |
| CodeSpans.CodeSpanEnds | scripts/release_control.py:1671-1681 | The one reverse pass finds for every backtick run exactly what a naive forward search finds |
| CodeSpans.CodeEndIsNearest | scripts/release_control.py:1671-1681 | That is the nearest later run of equal length, and there is one exactly when such a run exists (CommonMark 0.31.2, section 6.1) |
| CodeSpans.FindRuns | scripts/release_control.py:1673-1673 | The runs of a line, maximal, in order and complete |
| ReleaseNotes.CommentLine | scripts/release_control.py:1684-1706 | The scanner masks a line as its recursive definition says: escapes and code spans are skipped, comments blanked |
| CommentTokens.MaskIsTokens | scripts/release_control.py:1684-1706 | The visible line is the line with exactly its comments blanked: it splits into escapes, code spans, comments and single characters, a comment begins at an opening mark outside escapes and code spans or is carried in, and ends with the first closing mark or the line |
| CommentTokens.OneTiling | scripts/release_control.py:1684-1706 | A line splits that way in one way only |
| ReleaseNotes.VisibleMasks | scripts/release_control.py:1720-1742 | Masking moves nothing: the visible text has every offset and line break of the text, and differs only in blanked characters |
| ReleaseNotes.NothingToMask | scripts/release_control.py:1684-1706 | A line without an opening mark, outside a comment, stays as it is |
| ReleaseNotes.ReleaseLines | scripts/release_control.py:1720-1742 | One row for each line, with fences and comments carried from line to line |
| ReleaseNotes.ReleaseHeadings | scripts/release_control.py:1754-1771 | The headings of the text with their levels, titles and offsets |
| NoteLines.FencesExactly | scripts/release_control.py:1658-1668 | A line is a fence exactly when at most three spaces precede three or more of one mark |
| NoteLines.RowsExactly | scripts/release_control.py:1709-1742 | Each line is literal in a fence until one of the same mark and at least its length closes it, and elsewhere opens a fence, is indented code, or is visible text with its comments blanked |
| NoteLines.LinesExactly | scripts/release_control.py:1720-1742 | The lines are the text, each ending with its one line feed, which only the last may lack |
| NoteLines.HeadingsExactly | scripts/release_control.py:1745-1771 | A row is a heading exactly when at most three spaces and one to six hashes precede its end or a blank, and its title is what follows without the blanks around it and a closing run of hashes |
| NoteLines.FoundExactly | scripts/release_control.py:1754-1771 | The headings found are exactly the rows that are headings, each from where it begins to where the next row does |
| ReleaseNotes.ReleaseSections | scripts/release_control.py:1774-1782 | The sections of one level |
| ReleaseNotes.ReleaseSectionsApart | scripts/release_control.py:1774-1782 | Sections of one level are ordered, disjoint slices, exactly one for each heading of the level, from its end to the next heading that is not deeper, and masking keeps each in place |
| HeadingSections.SectionsApart | scripts/release_control.py:1774-1782 | The same for any headings that lie in order |
| HeadingSections.HeadingsInOrder | scripts/release_control.py:1754-1771 | The offsets of headings never overlap or go back |
| ImportTransaction.Frontend.ImportRelease | scripts/import_vue_release.py:224-240 | With a failure allowed at every step, the old tree is at all times whole in the destination or aside until the new one is in place; exactly which failures let it commit and which roll back; a rollback restores tree and manifest exactly unless the first import was interrupted just after its rename; and the work directory is cleared unless the old tree lies in it |
| ImportTransaction.Frontend.PromotePayload | scripts/import_vue_release.py:204-221 | The same for the promotion itself |
| ImportTransaction.Frontend.RestorePrevious | scripts/import_vue_release.py:190-201 | A rollback that ends restores what was there, one that stops leaves the old tree whole in one of the two places, and exactly which failures stop it |
| IntervalPricing.ReportAddsUp | src/inverter_dashboard/static/assets/IntervalEnergy-ORkSxITq.js:1 | Priced minutes are at most recorded and recorded at most expected minutes, priced plus clipped unpriced length is recorded, and a report is complete exactly when nothing is missing and no interval unpriced |
| IntervalPricing.CompleteMeansCovered | src/inverter_dashboard/static/assets/IntervalEnergy-ORkSxITq.js:1 | A report is complete exactly when every minute of the period lies in a priced interval |
| IntervalPricing.CostIsByMinute | src/inverter_dashboard/static/assets/IntervalEnergy-ORkSxITq.js:1 | The cost is what the priced intervals cost minute by minute with their energy spread evenly |
| IntervalPricing.Normalise | src/inverter_dashboard/static/assets/IntervalEnergy-ORkSxITq.js:1 | A file is accepted exactly when it has 1 to 20,000 good rows, none overlapping and none more than 366 days apart, and then holds the same intervals in order |
| IntervalTotals.AcceptableExactly | src/inverter_dashboard/static/assets/IntervalEnergy-ORkSxITq.js:1 | That is: every row has a start, an end 1 to 60 minutes later and energy that is not negative, no minute belongs to two rows, and a leap year holds them all |
| IntervalTotals.TotalsExactly | src/inverter_dashboard/static/assets/IntervalEnergy-ORkSxITq.js:1 | Recorded and priced minutes are counted once each: those of the period that lie in an interval, and in one within the period whose minutes have one price; unpriced are the other intervals that reach into it |
| IntervalTotals.ReportExactly | src/inverter_dashboard/static/assets/IntervalEnergy-ORkSxITq.js:1 | Missing are exactly the minutes of the period that no interval records, there is a cost exactly when some minute is priced, and complete means that all are |
| IntervalPricing.FirstMinute | src/inverter_dashboard/static/assets/IntervalEnergy-ORkSxITq.js:1 | The day search returns a minute at which a local day begins: always in a zone that skips no day, even if its clock falls back across midnight; where the date never goes back it is the first minute of the day, found exactly when the day occurs in the window |
| IntervalPricing.PricePeriod | src/inverter_dashboard/static/assets/IntervalEnergy-ORkSxITq.js:1 | A report runs from a minute at which its first day begins to one at which the day after its last begins, with the totals of the intervals between; in a zone that skips no day there is one exactly for periods of 1 to 366 days, and where the date never goes back exactly when moreover the three days exist |
| IntervalPricing.SumIntervals | src/inverter_dashboard/static/assets/IntervalEnergy-ORkSxITq.js:1 | The loop over intervals and their minutes computes those totals |

## Left out

- LeaseExclusion: says nothing about a row stored while a send of its earlier storing is still under way, until it is stored again.
- Load: the interpreter's limits on the nesting of a document and on the digits of an integer are not part of the model.
- Build: the payload's key, kind and source are as short as the program makes them, and its two times have at most 310 digits.
- MergedWalk: the structural walk of the merged archive reads indexes and leaf manifests only, because a platform walk refuses the other platform's image; layers, attestations and their budgets are carried over for each input separately, by InputsReplay.
- The choice of the samples that reach the event processor, the texts of their events, and payloads without a source time.
- SQLite files, locks, reopening checks, VAPID keys, the sending transport and its errors by kind: a send ends with a status, cancelled, invalid or broken.
- Storage errors other than the step that makes the service unavailable.
- The freshness and shape checks on a push message before its delivery starts, the notification's text, and clicks.
- GitHub requests, policy validators, plan digests, published-release listings beyond the order they impose, and the ledger's size limit of 4,000,000 bytes.
- Tar, zip, compression and digest computation; the inventory's order of members and its bound of 100,000; the sidecar's limit of 48 MB, which the budget and bound on its documents imply; its names, digests of plan and image, and authenticated inventories; writing files and checking that inputs did not change while read.
- Decoding a JSON document from bytes: in the model it is a text.
- TOML, property-list, Xcode and Python adapters, and the fixpoint check over several files.
- The arithmetic of the telemetry overlays: they are an arbitrary function of the sorted lists of connected devices, and the table of keys that a null leaf claims is arbitrary too. The footer's refresh interval, the age of observations, and the legacy controller's fields, which may fill an owned key that nothing has claimed, are left out; absent availability flags are read as all unset.
- The visible banner list, raw alarms, and reading text as numbers or flags beyond a given decimal reading; whether a slot that a lost connection had blanked counts as changed.
- Rendering release notes and validating their sections.
- Symbolic links, git checks and archive verification before an import, and flushing to disk.
- CSV and JSON parsing of interval files, time zones beyond the local date of each minute, tariffs beyond a price for each minute, and floating-point rounding.
