# Glacier tool-action outbox and tenant object store: verified model

This Dafny project models the two stateful protocols of the repository's `bench` oracles and proves
what they promise over all inputs and all runs.

**The ActionOutbox stack.** `Outbox`, `OutboxWire` and `OutboxRecovery` are the hash-chained journal
of one 320-byte header and 752-byte records: validation, replay, the wire form, and recovery of a
stream whose tail may be torn. `OutboxLedger`, `OutboxLifecycle`, `OutboxCompensation`,
`OutboxLaws`, `OutboxPrinted` and `OutboxBinding` hold the laws of replayed and recovered journals.
`OutboxStorage` is the crash storage beneath it, with a length, a sync watermark, faults, partial
writes and exclusive generations; `OutboxStorageSteps`, `OutboxStorageRuns` and
`OutboxStorageProgress` prove what every run of it keeps, and `OutboxStorageClasses` is the same
machine as mutable objects. `Adapter` and `Authority` are the requests, the evidence and the
generation-fenced service; `AuthorityFence` and `AuthorityFacts` prove fence soundness,
`AuthorityFailures` and `AuthorityExamples` say which failing calls leave a trace, and
`AuthorityClass` is the mutable service. `OutboxService`, `OutboxJournalSteps` and `OutboxSystem`
compose all three layers: the main result is `OutboxSystem.EndToEndAgreement`. `OutboxVisible` says
when the visible journal may be trusted, and `OutboxUnsynced` and `OutboxWitness` give the run in
which it may not.

**The tenant object store and its sweep.** `ObjectStore` states each operation on slots, with
budgets over recounted sums; `ObjectStoreRules` and `ObjectStoreRuns` prove what operations keep,
`ObjectStoreLeases` and `ObjectStoreReput` what a lease receipt is worth over whole runs, and
`ObjectStorePayloads` what is read back; `ObjectStoreClass` is the mutable store with its nine
running counters. `ContinuationBundle` and `ObjectStoreImport` are bundle import and its rollback,
`ObjectStoreReclaim` exact reclamation, `ObjectCollection` and `ObjectCollectionLoop` the collection
plan, `ObjectSweep` the sweep journal and commit, `SweepRecord`, `SweepRecovery`, `SweepWriter` and
`SweepWriterClass` the write-ahead record stream with its own crash model, `SweepCrash` and
`SweepResidue` its exact crash safety, `SweepPublish` publication and recovery of a commit, and
`PayloadSnapshot` the payload codec.

**Smaller pieces.** `Checksums` and `PngImage` (section 5.5 of PNG Third Edition, section 8.2 of RFC
1950), and `DeviceSelection`.

## How it is modelled

- SHA-256 is a parameter, a total function from byte strings to 32-byte digests about which nothing
  is assumed. A statement that needs collision freedom names the preimages that must not collide
  (`NoCollision`), and one that needs a digest to differ from the zero digest says which.
- Python's exceptions are `Failure` results. Operations that raise after they changed state return
  the changed state beside the error, as the code leaves it.
- Where the code works on mutable objects there is a class. Its methods are tied to functions on
  values by `View() == F(old(View()), ...)`, and the laws are proved about those functions.
- Runs keep every handle, request and reply ever made usable, however stale.

## Results where the code does not do what one might expect

- A record that is visible on reopening need not be durable (footer written, footer sync faulted,
  lease released without a crash): `OutboxWitness.VisibleNotDurable` runs into it from a fresh start.
  What one reads is durable exactly when it ends below the watermark
  (`OutboxVisible.VisibleIsDurable`). A status query made from what is merely visible then leaves an
  outbox that disagrees after a crash (`OutboxWitness.VisibleQueryDisagrees`);
  `OutboxVisible.VisibleQueryExactly` says exactly when such a query is harmless.
- A failing call of the service can leave the registry changed, and
  `AuthorityFailures.FailingCallChangesExactly` says exactly when. A dispatch refused for lack of room
  has already spent its scripted plan (bench/action_outbox_adapter_conformance.py:1249-1253). At the
  end of the revisions (1138-1142) a dispatch and a query leave their new entry behind,
  `finish_inflight` clears the attempt, and `begin_inflight` leaves half an attempt that no later call
  can settle. And where evidence cannot be made because a digest is zero, the entry was written
  before. The model leaves entries as the code does, and fence soundness is proved without bounding
  the revision.
- `import_bundle` takes its closing snapshot outside the rollback
  (bench/continuation_object_store.py:1286-1298); `ObjectStoreImport.ImportAtomicExactly` says
  exactly when a failing import leaves its puts behind, and `ObjectStoreImport.ImportAtomic` that on an
  intact store with the verify grant it never does.
- Lease generations start over when an object is put again (bench/continuation_object_store.py:532),
  so lease fencing holds within one occupancy of a slot (`ObjectStoreLeases.StaleForEver`) and not
  across two: `ObjectStoreReput.ReceiptReturns` is a run in which a refused receipt is accepted again,
  and `ObjectStoreLeases.StaleAcceptedExactly` says exactly when that happens.
- A repair of the sweep stream whose sync faults leaves the sync watermark above the stream
  (bench/continuation_object_sweep_writer.py:330-354). If the storage is opened again without a crash,
  the next append can mix two records and lose the stream: `SweepResidue.ResidueCorrupts` is the run,
  `SweepCrash.NeverCorruptsExactly` the exact condition on the bytes between length and watermark.
- The sweep record encoder refuses a zero sweep commit digest, which the decoder lets pass
  (`SweepRecord.EncodeDecode`).

## Model

| member | source | states |
|---|---|---|
| `OutboxSystem.EndToEndAgreement` | README.md:72-94 | In every run of storage, journal and service from a fresh start, with faults, crashes, stale handles, delayed or duplicated requests and lost replies, the journal that is readable now, or after a crash at any persistence point, agrees with the service action by action, unless two sent requests collide |
| `OutboxSystem.AppliedAtMostOnce` | bench/action_outbox_adapter_conformance.py:1187-1298 | Over the whole life of the composed system each stable request is applied at most once, and exactly once if its entry is terminal |
| `OutboxSystem.StartFresh` | bench/action_outbox_store_conformance.py:480-511 | A storage opened on a header with or without a torn tail, beside an unused service, is a fresh start |
| `OutboxSystem.StoreHolds` | bench/action_outbox_store_conformance.py:850-948 | Every storage action, faulted or not, keeps the invariant between durable journal, visible journal and service |
| `OutboxSystem.SendDispatchHolds` | bench/action_outbox_adapter_conformance.py:397-427 | Sending the request of any durable intent keeps the invariant |
| `OutboxSystem.SendStatusHolds` | bench/action_outbox_adapter_conformance.py:655-684 | Sending a status query about any action that is uncertain in the durable journal keeps the invariant |
| `OutboxService.InvAgrees` | bench/action_outbox_adapter_conformance.py:1187-1517 | The invariant implies, at every journal a crash may leave: ready means fence equal to the generation and nothing in flight or terminal, uncertain means the fence is at the generation or one below, succeeded and failed mean the matching terminal outcome, result and generation at the service |
| `OutboxService.AppendKeeps` | bench/action_outbox_adapter_conformance.py:873-926 | Journalling a record that replays and is justified by validated evidence keeps the invariant |
| `OutboxService.CutKeeps` | bench/action_outbox_store_conformance.py:552-569 | Losing any tail that is not durable, and making more durable, keep the invariant |
| `OutboxService.DeliverKeeps` | bench/action_outbox_adapter_conformance.py:1187-1517 | Delivering any request that was sent, late or repeatedly, keeps the invariant and every earlier reply stays true |
| `OutboxService.DispatchVerdictKnown` | bench/action_outbox_adapter_conformance.py:873-895 | A terminal record made from dispatch evidence quotes the outcome that the service holds |
| `OutboxService.StatusVerdictKnown` | bench/action_outbox_adapter_conformance.py:898-926 | A not-applied record made from status evidence stands behind a fence at its generation, and a terminal one quotes the held outcome |
| `OutboxVisible.VisibleIsDurable` | bench/action_outbox_store_conformance.py:552-569 | Everything one reads is durable if and only if its whole records end at or below the sync watermark |
| `OutboxVisible.VisibleQueryExactly` | bench/action_outbox_adapter_conformance.py:1411-1517 | Once the service has answered a status query made from the visible journal, every journal that a crash may leave agrees with it if and only if the durable journal has reached the queried generation or the service did not fence that generation off |
| `OutboxVisible.DurableQueryAgrees` | bench/action_outbox_adapter_conformance.py:1411-1517 | A query made from a visible journal that lies below the watermark always keeps agreement |
| `OutboxWitness.VisibleNotDurable` | bench/action_outbox_store_conformance.py:615-655 | From a fresh start, after an append whose footer sync faults, a release without a crash and another acquire, one record more is visible and the durable records are those before |
| `OutboxWitness.VisibleQueryDisagrees` | bench/action_outbox_adapter_conformance.py:1472-1517 | There a status query for the visible intent is made and answered not-applied, and a crash then leaves an outbox that disagrees with the service |
| `OutboxWitness.UnsyncedFromStart` | bench/action_outbox_store_conformance.py:480-511 | For every hash without a zero digest there is a new storage, a header, an enqueue and an intent from which that run goes |
| `OutboxJournalSteps.ActionJournal` | bench/action_outbox_store_conformance.py:480-948 | Each storage action appends exactly the record that its bytes decode to, keeps the records, or drops some that were not durable |
| `OutboxStorageRuns.DurableForever` | bench/action_outbox_store_conformance.py:552-655 | Over every run the whole records below length and sync watermark never become fewer and their bytes never change |
| `OutboxStorageRuns.AppendedForever` | bench/action_outbox_store_conformance.py:850-897 | The record of an append that returned is durable at its place after every further run |
| `OutboxStorageRuns.PostChecksNeverFire` | bench/action_outbox_store_conformance.py:871-885 | In no reachable state does a writer find that the committed append differs or run out of capacity midway, or a repairer find that the committed prefix changed |
| `OutboxStorageRuns.StepGood` | bench/action_outbox_store_conformance.py:516-948 | Every action on any handle ever made keeps the stream recoverable, leases fenced, and capabilities bound to their lease |
| `OutboxStorageRuns.StartGood` | bench/action_outbox_store_conformance.py:480-511 | A new storage on recoverable content meets the run invariant |
| `OutboxStorageProgress.RecoveryProgresses` | bench/action_outbox_store_conformance.py:907-948 | After any run and a crash at any point in the bounds the stream is accepted, acquire succeeds, and at most one fault-free repair gives the same records, chain, states and ledger without the torn tail, given digests that are not zero |
| `OutboxStorageProgress.ReopenSucceeds` | bench/action_outbox_store_conformance.py:516-534 | Reopening an unleased storage yields the clean journal and loses nothing durable |
| `OutboxStorageSteps.AppendReturns` | bench/action_outbox_store_conformance.py:850-897 | An append that returns put exactly the encoded record behind the old stream, synced, and moved lease and capability to the new snapshot; one that fails after preflight poisons the writer; without a fault it returns |
| `OutboxStorageSteps.AppendCallsFailOnlyByFault` | bench/action_outbox_store_conformance.py:749-785 | With authority, phase and room the four append calls fail only by an injected fault |
| `OutboxStorageSteps.AppendCallsLand` | bench/action_outbox_store_conformance.py:615-642 | Whatever fault occurs, a prefix of body and footer lands behind an unmoved stream, and no footer byte before the body is synced |
| `OutboxStorageSteps.AppendRecordKeeps` | bench/action_outbox_store_conformance.py:850-897 | An append by any handle in any state keeps every durable record |
| `OutboxStorageSteps.ApplyRepairKeeps` | bench/action_outbox_store_conformance.py:907-948 | A repair by any handle in any state keeps every durable record |
| `OutboxStorageSteps.RepairReturns` | bench/action_outbox_store_conformance.py:907-948 | A repair that returns dropped exactly the torn tail and synced; its last check cannot fail |
| `OutboxStorageSteps.CrashKeeps` | bench/action_outbox_store_conformance.py:552-569 | Every crash point in the bounds leaves an accepted stream whose records lie between the durable and the visible ones |
| `OutboxStorageClasses.DeterministicStorage.Append` | bench/action_outbox_store_conformance.py:615-635 | The write of the mutable storage, partial or not, equals the step of the run model |
| `OutboxStorageClasses.DeterministicStorage.Sync` | bench/action_outbox_store_conformance.py:637-642 | The sync of the mutable storage equals the step of the run model |
| `OutboxStorageClasses.DeterministicStorage.Truncate` | bench/action_outbox_store_conformance.py:644-655 | The truncation of the mutable storage equals the step of the run model |
| `OutboxStorageClasses.DeterministicStorage.CrashPersistAt` | bench/action_outbox_store_conformance.py:558-569 | The crash of the mutable storage equals the step of the run model and is refused outside the bounds |
| `OutboxStorageClasses.DeterministicStorage.SetFaultAt` | bench/action_outbox_store_conformance.py:536-550 | Scripting a fault of the mutable storage equals the step of the run model |
| `OutboxStorageClasses.DeterministicStorage.Acquire` | bench/action_outbox_store_conformance.py:516-534 | A new lease with the next generation, which stays taken when the snapshot fails |
| `OutboxStorageClasses.OpenStorage` | bench/action_outbox_store_conformance.py:480-511 | Only content that recovers is accepted |
| `OutboxStorageClasses.TakeSnapshot` | bench/action_outbox_store_conformance.py:249-280 | The content snapshot through the recovery loop equals its specification |
| `OutboxStorageClasses.Lease.MintAppend` | bench/action_outbox_store_conformance.py:677-688 | Append authority is granted exactly to the current clean lease on unchanged content |
| `OutboxStorageClasses.Lease.PrepareRepairNow` | bench/action_outbox_store_conformance.py:690-703 | Repair authority and the whole new state of lease and storage |
| `OutboxStorageClasses.Lease.Release` | bench/action_outbox_store_conformance.py:715-722 | Release closes the lease and clears every authority, or changes nothing |
| `OutboxStorageClasses.Lease.AdvanceSnapshot` | bench/action_outbox_store_conformance.py:705-713 | Moving the lease on, including the state left when the binding fails |
| `OutboxStorageClasses.AppendCapability.AppendAll` | bench/action_outbox_store_conformance.py:749-785 | Body, sync, footer, sync, stopping at the first failure |
| `OutboxStorageClasses.Writer.AppendRecordNow` | bench/action_outbox_store_conformance.py:850-897 | The writer leaves storage, lease, capability and itself exactly as the run model says |
| `OutboxStorageClasses.Repairer.Apply` | bench/action_outbox_store_conformance.py:907-948 | The repairer leaves storage, lease and itself exactly as the run model says |
| `OutboxRecovery.Recover` | bench/action_outbox_conformance.py:1216-1260 | The recovery loop accepts, rejects and reports exactly as the recursive specification |
| `OutboxPrinted.RecoversExactlyPrinted` | bench/action_outbox_conformance.py:1216-1260 | A stream recovers to a header and records if and only if it is the print of that journal (a valid header under the expected root, records that chain and replay) followed by less than one record of anything |
| `OutboxLaws.PrefixRecovers` | bench/action_outbox_conformance.py:1216-1260 | Every cut at or past the header recovers to exactly the records that are whole in it, their replayed states and the status of the remainder |
| `OutboxLaws.TornTailDropped` | bench/action_outbox_conformance.py:1216-1260 | Recovering only the committed bytes is clean and gives the same roots |
| `OutboxLaws.SameCommittedBytes` | bench/action_outbox_conformance.py:1216-1260 | The tail influences nothing but status and tail length |
| `OutboxBinding.JournalBinding` | bench/action_outbox_conformance.py:689-709 | Two clean journals under one pinned header root with the same final chain root are byte-identical, length included, unless preimages collide |
| `OutboxBinding.RecordPreimageInjective` | bench/action_outbox_conformance.py:689-709 | A record root covers every field |
| `OutboxBinding.HeaderPreimageInjective` | bench/action_outbox_conformance.py:397-404 | A header root covers every field |
| `OutboxWire.DecodeEncodeHeader` | bench/action_outbox_conformance.py:460-516 | Decoding inverts encoding of headers |
| `OutboxWire.EncodeDecodeHeader` | bench/action_outbox_conformance.py:460-516 | An accepted header re-encodes to the accepted bytes |
| `OutboxWire.DecodeEncodeRecord` | bench/action_outbox_conformance.py:867-947 | Decoding inverts encoding of records |
| `OutboxWire.EncodeDecodeRecord` | bench/action_outbox_conformance.py:867-947 | An accepted record re-encodes to the accepted bytes |
| `OutboxLedger.LedgerConservation` | bench/action_outbox_conformance.py:1008-1029 | After every replay the ledger is conserved and finalizing it cannot fail |
| `OutboxLedger.ReplayConserves` | bench/action_outbox_conformance.py:1039-1175 | Committed records equal the event counters; intents equal uncertain, returned and settled actions and the sum of attempt generations; returned verdicts less safe retries equal ready actions that were attempted |
| `OutboxLedger.FinalizeCloses` | bench/action_outbox_conformance.py:1008-1029 | A conserved ledger closes with exact phase counts |
| `OutboxLedger.EventsBounded` | bench/action_outbox_conformance.py:1039-1175 | No counter exceeds the committed records, so none overflows |
| `OutboxLifecycle.LifecycleOfEveryAction` | bench/action_outbox_conformance.py:1059-1175 | Each action lives through an enqueue, rounds of dispatch, ambiguities and not-applied verdicts, and at most one terminal event, after which nothing follows |
| `OutboxLifecycle.TransitionAcceptedExactly` | bench/action_outbox_conformance.py:1096-1175 | A well-placed transition record is accepted if and only if it may follow the last event of its action |
| `OutboxLifecycle.ReplayTracked` | bench/action_outbox_conformance.py:1039-1175 | Each replayed state says what the last event of its action says |
| `OutboxLifecycle.MadeRecordReplays` | bench/action_outbox_conformance.py:805-864 | Whatever transition record can be made for an action of a replayed journal is accepted as its next record |
| `OutboxLifecycle.MadeEnqueueReplays` | bench/action_outbox_conformance.py:780-802 | An enqueue record that can be made is accepted next exactly when its identity is new, there is room, and the parent of a compensation has succeeded |
| `OutboxCompensation.CompensationsSound` | bench/action_outbox_conformance.py:1059-1095 | No two actions share root, idempotency key, remote request or compensated parent, and every compensation follows a primary that has succeeded and stays so |
| `Outbox.ApplyRecordInversion` | bench/action_outbox_conformance.py:1039-1175 | What an accepted record establishes and the exact states and ledger it leads to |
| `Adapter.MakeDispatchRequest` | bench/action_outbox_adapter_conformance.py:397-427 | The request names the intent, identity and generation it was made for |
| `Adapter.MakeStatusRequest` | bench/action_outbox_adapter_conformance.py:655-684 | The query names the uncertain action, its generation and last event |
| `Adapter.DispatchRootNames` | bench/action_outbox_adapter_conformance.py:379-394 | Among sent requests without collisions a root names one dispatch request |
| `Adapter.StatusRootNames` | bench/action_outbox_adapter_conformance.py:617-630 | Among sent requests without collisions a root names one status request |
| `AuthorityFence.CallSound` | bench/action_outbox_adapter_conformance.py:1187-1517 | Every call, including those that fail after changing an entry, keeps terminal and in-flight outcomes exclusive and at the generation after the fence, lets fences only rise and never changes a terminal entry |
| `AuthorityFence.AppliedAtMostOnce` | bench/action_outbox_adapter_conformance.py:1187-1298 | Over every run of arbitrary calls a stable request is applied at most once |
| `AuthorityFence.FencedForEver` | bench/action_outbox_adapter_conformance.py:1472-1517 | After a not-applied verdict at a generation nothing at or below it is ever applied, and a late dispatch changes nothing and is called stale |
| `AuthorityFence.TerminalReplayIsExact` | bench/action_outbox_adapter_conformance.py:1172-1298 | Re-sending a request that was answered terminally returns identical evidence after any calls and changes nothing |
| `AuthorityFence.SettledReplayIsExact` | bench/action_outbox_adapter_conformance.py:1341-1408 | The same for an attempt settled while in flight |
| `AuthorityFacts.DispatchAnswers` | bench/action_outbox_adapter_conformance.py:1187-1298 | A terminal dispatch answer quotes the outcome in the entry |
| `AuthorityFacts.StatusAnswers` | bench/action_outbox_adapter_conformance.py:1411-1517 | A not-applied answer stands behind a fence and a terminal answer quotes the outcome in the entry |
| `AuthorityFacts.StatusTouches` | bench/action_outbox_adapter_conformance.py:1411-1517 | A query changes no other entry and records no generation but its own |
| `AuthorityFacts.DispatchTouches` | bench/action_outbox_adapter_conformance.py:1187-1298 | A dispatch changes no other entry and records no generation but its own |
| `AuthorityFailures.FailingCallChangesExactly` | bench/action_outbox_adapter_conformance.py:1172-1517 | A call fails and leaves the registry changed if and only if it is a dispatch that spends its plan in a full registry, a dispatch, beginning, finishing or query that writes first and then overflows the revision, or one whose evidence cannot be made after the entry was written |
| `AuthorityFailures.HalfAttemptForEver` | bench/action_outbox_adapter_conformance.py:1301-1408 | Half an attempt, as an overflow leaves it, is never changed or settled by any later calls |
| `AuthorityExamples.FullSpendsPlan` | bench/action_outbox_adapter_conformance.py:1249-1253 | A dispatch planned to fail that finds the registry full spends its plan: the next one will succeed |
| `AuthorityExamples.SpentRevisionsLeaveTraces` | bench/action_outbox_adapter_conformance.py:1138-1517 | Once the revisions are spent a dispatch and a query leave an entry behind, finishing loses the attempt, and beginning leaves half an attempt |
| `AuthorityExamples.HalfAttemptNeverFinishes` | bench/action_outbox_adapter_conformance.py:1301-1408 | The half attempt left there is refused by every later finish, whatever was called in between |
| `AuthorityExamples.UnansweredCalls` | bench/action_outbox_adapter_conformance.py:1254-1517 | A service whose events have zero digests applies, settles and fences off, and answers each with a failure |
| `AuthorityExamples.SamplesServe` | bench/action_outbox_adapter_conformance.py:397-427 | For every hash without a zero digest there are requests from which these runs go |
| `AuthorityClass.FakeAuthority.DispatchNow` | bench/action_outbox_adapter_conformance.py:1187-1298 | The mutable service leaves tables and answer exactly as the value model |
| `AuthorityClass.FakeAuthority.BeginInflightNow` | bench/action_outbox_adapter_conformance.py:1301-1338 | Entering flight, including the entry left behind by a revision overflow |
| `AuthorityClass.FakeAuthority.FinishInflightNow` | bench/action_outbox_adapter_conformance.py:1341-1408 | Settling an attempt, including the cleared entry left behind by a revision overflow |
| `AuthorityClass.FakeAuthority.StatusNow` | bench/action_outbox_adapter_conformance.py:1411-1517 | Queries and the fencing of generations |
| `AuthorityClass.FakeAuthority.PlanDispatchFor` | bench/action_outbox_adapter_conformance.py:1011-1029 | Scripted dispositions; a stale rejection cannot be scripted |
| `AuthorityClass.FakeAuthority.OverrideStatusFor` | bench/action_outbox_adapter_conformance.py:1032-1053 | Scripted answers; only pending and unknown can be |
| `AuthorityClass.FakeAuthority.ScanForConflict` | bench/action_outbox_adapter_conformance.py:1068-1083 | The scan finds a taken action root or idempotency key if and only if there is one |
| `ObjectStoreRuns.ReachableGood` | bench/continuation_object_store.py:418-445 | Every store reached from the constructor by any operations, imports and retired commits among them, keeps every rule and budget and stores only payloads that hash to their blobs, given receipt digests that are not zero |
| `ObjectStoreRuns.RunsGood` | bench/continuation_object_store.py:463-1299 | Every store reached by operations, imports and retired commits from a good one keeps every rule and budget and stores only payloads that hash to their blobs |
| `ObjectStoreRuns.ApplyGood` | bench/continuation_object_store.py:463-1299 | Each single operation keeps every rule and budget |
| `ObjectStoreRuns.ChangesIffAccepted` | bench/continuation_object_store.py:463-1299 | An operation changes the store if and only if it succeeds, and an import if and only if it puts something and every put succeeds |
| `ObjectStoreRuns.PutThenRelease` | bench/continuation_object_store.py:567-595 | Releasing what was just put gives the slots back |
| `ObjectStoreLeases.StaleForEver` | bench/continuation_object_store.py:686-703 | Within one occupancy a receipt that is no longer accepted is never accepted again, over any run of operations, imports and retired commits |
| `ObjectStoreLeases.LatestReceiptOnly` | bench/continuation_object_store.py:712-804 | Issuing a lease supersedes every receipt accepted before |
| `ObjectStoreLeases.AcceptsExactlyTheLatest` | bench/continuation_object_store.py:686-703 | After a lease is issued a receipt is accepted if and only if it is that one, collisions aside |
| `ObjectStoreLeases.ReceiptReturnsAfterReput` | bench/continuation_object_store.py:532-534 | After any two puts that insert the same object the same acquisition issues the same receipt, and the slot accepts it |
| `ObjectStoreLeases.AcceptedExactly` | bench/continuation_object_store.py:686-703 | A receipt refused now is accepted after a run if and only if it is the last one the run issued for its object and that lease is still active, collisions aside |
| `ObjectStoreLeases.StaleAcceptedExactly` | bench/continuation_object_store.py:686-703 | A stale receipt is accepted after a run if and only if its object left the store in between, was put again, and the last lease issued since is that very receipt and still active, collisions aside |
| `ObjectStoreReput.ReceiptReturns` | bench/continuation_object_store.py:532-534 | Along put, acquire, end, release, put, acquire the first receipt is accepted after the first acquire, refused after each of the next three operations, and accepted again after the last |
| `ObjectStorePayloads.GetReturnsBlob` | bench/continuation_object_store.py:549-565 | A payload that is returned has exactly the length and digest that were asked for |
| `ObjectStorePayloads.GetFailsExactly` | bench/continuation_object_store.py:549-565 | On a store that operations led to, reading succeeds if and only if it is granted on an open store and the object is stored and live; the payload is never corrupt |
| `ObjectStorePayloads.NeverCorrupt` | bench/continuation_object_store.py:549-565 | Over every run from a new store reading never meets a corrupt payload |
| `ObjectStorePayloads.GetAfterPut` | bench/continuation_object_store.py:463-565 | What was put is what is read after every run that leaves the object live in its slot |
| `ObjectStorePayloads.GetAfterRepairs` | bench/continuation_object_store.py:463-902 | With quarantines and repairs in between, a live object is read with success and reads as it was put, unless the two payloads have colliding blobs |
| `ObjectStoreRules.SlotReplaced` | bench/continuation_object_store.py:1068-1146 | A good store stays good when one slot changes within the rules and budgets |
| `ObjectStoreClass.Store.PutBlob` | bench/continuation_object_store.py:463-547 | Put on the running counters equals put on recounted slots, and the nine counters keep agreeing with the slots |
| `ObjectStoreClass.Store.GetBlob` | bench/continuation_object_store.py:549-565 | The mutable read answers as the value model whose meaning ObjectStorePayloads proves |
| `ObjectStoreClass.Store.ReleaseBlob` | bench/continuation_object_store.py:567-595 | Release keeps the counters in agreement; its accounting check cannot fail |
| `ObjectStoreClass.Store.RetireBlob` | bench/continuation_object_store.py:597-616 | Retirement of a final, unleased reference |
| `ObjectStoreClass.Store.QuarantineBlob` | bench/continuation_object_store.py:618-635 | Quarantine clears the lease first and keeps the counters in agreement |
| `ObjectStoreClass.Store.AcquireLeaseOn` | bench/continuation_object_store.py:712-759 | Lease acquisition with all its refusals and counters |
| `ObjectStoreClass.Store.RenewLeaseOn` | bench/continuation_object_store.py:761-804 | Lease renewal with all its refusals |
| `ObjectStoreClass.Store.EndLeaseOn` | bench/continuation_object_store.py:806-835 | Release and expiry of leases |
| `ObjectStoreClass.Store.RepairBlob` | bench/continuation_object_store.py:837-902 | Repair of a quarantined payload with all its refusals, its receipt and counters |
| `ObjectStoreClass.Store.VerifyState` | bench/continuation_object_store.py:1068-1146 | The recount passes if and only if every slot rule, all nine counters and every budget hold |
| `ObjectStoreClass.Store.Verify` | bench/continuation_object_store.py:1059-1066 | On a valid store verification fails exactly for a payload that no longer hashes |
| `ObjectStoreClass.GoodPasses` | bench/continuation_object_store.py:1068-1146 | On a good store verification can fail for no reason but a corrupt payload |
| `ObjectStoreClass.PassesGood` | bench/continuation_object_store.py:1068-1146 | A store that passes strict verification within its budgets is good |
| `ObjectStoreClass.Store.PreviewRetired` | bench/continuation_object_store.py:917-1022 | The preview computed with counters and a shadow store equals the specification; its underflow check cannot fail |
| `ObjectStoreClass.Store.CommitRetiredPreview` | bench/continuation_object_store.py:1024-1053 | The commit empties exactly the targets, adopts the previewed counters, and its closing assertion cannot fail |
| `ObjectStoreClass.Store.Rollback` | bench/continuation_object_store.py:1225-1243 | Rolling back puts in reverse gives back exactly the content and counters they started from |
| `ObjectStoreClass.Store.ImportBundle` | bench/continuation_object_store.py:1245-1299 | An import whose put fails at any position leaves slots and counters as they were; one that succeeds reports exact totals |
| `ObjectStoreImport.ImportFills` | bench/continuation_object_store.py:1264-1298 | Into an empty store an import adds exactly the distinct blobs and their bytes, and each item sits in the slot of its ordinal |
| `ObjectStoreImport.ImportAtomicExactly` | bench/continuation_object_store.py:1286-1298 | A failing import leaves the store changed if and only if every put succeeded and the closing verification is not granted or meets a corrupt payload |
| `ObjectStoreImport.ImportAtomic` | bench/continuation_object_store.py:1264-1298 | On a store with intact payloads whose grant allows verification a failing import changes nothing |
| `ObjectStoreImport.PutUndone` | bench/continuation_object_store.py:1225-1243 | Undoing one put restores the content before it |
| `ObjectStoreReclaim.AccountingAfter` | bench/continuation_object_store.py:976-996 | Subtracting what the targets free gives the counters of the store without them and never underflows |
| `ObjectStoreReclaim.PreviewVerifies` | bench/continuation_object_store.py:222-290 | Every previewed receipt passes the stand-alone verifier, given digests that are usable |
| `ObjectStoreReclaim.CommitTwice` | bench/continuation_object_store.py:1024-1053 | A second commit of the same preview is refused and changes nothing |
| `ContinuationBundle.Number` | bench/continuation_bundle.py:111-152 | Encoding succeeds if and only if equal digests come with equal payloads and the total fits 64 bits, and gives each blob the canonical ordinal and the canonical totals |
| `ContinuationBundle.CheckTable` | bench/continuation_bundle.py:261-311 | Decoding accepts the nine rows if and only if their kinds are in order, no version, length or digest is zero, the total fits 64 bits, and ordinals and totals are the canonical ones |
| `ContinuationBundle.OrdinalNames` | bench/continuation_bundle.py:262-311 | An ordinal names exactly the blob of its entry |
| `ContinuationBundle.NumberedIsAccepted` | bench/continuation_bundle.py:111-311 | Of all tables over the blobs of an encoding the decoder accepts exactly the one the encoder numbered, under exactly its totals |
| `ObjectCollection.PlanPartitions` | bench/continuation_object_collection.py:207-334 | The four classes account for every occupied slot, their references for every root and counted reference, collectible for exactly the retired entries, receipts for exactly the active leases |
| `ObjectCollection.DecisionsExact` | bench/continuation_object_collection.py:269-316 | The decisions name every occupied slot once with its own class |
| `ObjectCollectionLoop.PlanCollection` | bench/continuation_object_collection.py:207-334 | Planning with per-slot tallies and one scan answers exactly as the specification |
| `ObjectCollectionLoop.TallyRoots` | bench/continuation_object_collection.py:241-251 | The per-slot tally equals the multiplicity of each root and fails exactly for an unknown or retired root |
| `ObjectCollectionLoop.MarkLeases` | bench/continuation_object_collection.py:252-267 | Each receipt marks its slot and fails exactly when unknown, stale or doubled |
| `ObjectSweep.PrepareVerifies` | bench/continuation_object_sweep.py:304-363 | A prepared journal passes the journal verifier |
| `ObjectSweep.AbortVerifies` | bench/continuation_object_sweep.py:366-388 | Aborting leads from a verified prepared journal to a verified aborted one, once |
| `ObjectSweep.PreparedCanCommit` | bench/continuation_object_sweep.py:391-484 | What was prepared on a good store can be previewed on it: no consistency check fails by itself |
| `ObjectSweep.SweepPreviewVerifies` | bench/continuation_object_sweep.py:541-582 | Every preview passes both receipt verifiers, given digests that are usable |
| `ObjectSweep.SweepReclaimsExactly` | bench/continuation_object_sweep.py:487-517 | Committing a preview succeeds, empties precisely the retired slots and keeps every other slot identical |
| `ObjectSweep.RecoveryConverges` | bench/continuation_object_sweep_file.py:689-719 | From the before-store or the after-store recovery reaches the same after-store, and once more changes nothing |
| `ObjectSweep.SweepTargetsCanonical` | bench/continuation_object_collection.py:61-62 | The sorted collectible targets are canonical and all retired |
| `SweepPublish.WriteAhead` | bench/continuation_object_sweep_file.py:668-719 | Publish, commit and crash anywhere, also between the append and the commit: with the record in the surviving stream recovery converges on the reclaimed store, without it the store was never changed |
| `SweepPublish.PublishNow` | bench/continuation_object_sweep_file.py:668-686 | The mutable publication changes writer, storage and store exactly as the value model, record first |
| `SweepPublish.RecoverNow` | bench/continuation_object_sweep_file.py:689-719 | The mutable recovery changes the store exactly as the value model |
| `SweepPublish.CommitPreviewNow` | bench/continuation_object_sweep.py:487-517 | The mutable commit changes the store exactly as the value model |
| `SweepRecord.DecodeEncode` | bench/continuation_object_sweep_record.py:114-284 | Decoding inverts every encoding that the encoder yields |
| `SweepRecord.EncodeDecode` | bench/continuation_object_sweep_record.py:114-284 | An accepted sweep record re-encodes to the accepted bytes if and only if its sweep commit digest is not zero; otherwise the encoder refuses it |
| `SweepRecord.FooterDetermined` | bench/continuation_object_sweep_record.py:377-386 | An accepted record ends in exactly the footer its body determines |
| `SweepRecovery.ClassifyRecovery` | bench/continuation_object_sweep_record.py:428-567 | The classification loop equals its specification on every stream and anchor |
| `SweepRecovery.ClassifyAppend` | bench/continuation_object_sweep_record.py:428-567 | What follows a clean stream is classified as if it stood alone after its last record |
| `SweepRecovery.PrefixStatus` | bench/continuation_object_sweep_record.py:504-567 | Every proper prefix of an accepted record is a torn tail of the shape its length says, never corrupt |
| `SweepWriter.CrashSafeAppend` | bench/continuation_object_sweep_writer.py:466-501 | From a settled stream, with any fault and persistence point, the surviving stream is never corrupt, holds the old records or one more, and one more only when all 784 bytes survive |
| `SweepCrash.CrashKeepsDurable` | bench/continuation_object_sweep_writer.py:209-276 | On every clean stream whose watermark is not above its length an append with any fault and crash leaves the old stream and the record up to the crash point, never corrupt and with every record that was whole below the watermark |
| `SweepCrash.NeverCorruptsExactly` | bench/continuation_object_sweep_writer.py:209-276 | An append never corrupts the stream, whatever faults and wherever it crashes, if and only if the bytes between the length and the watermark are too few to complete a body or continue as the record itself and an acceptable stream behind it, collisions aside |
| `SweepResidue.ResidueCorrupts` | bench/continuation_object_sweep_writer.py:330-354 | After a faulted repair sync, a release and a reopening another record is accepted, and when its write is cut short a crash at the old watermark leaves a corrupt stream |
| `SweepResidue.WatermarkAboveLoses` | bench/continuation_object_sweep_writer.py:330-354 | Two encoded records under different challenges and a concrete hash for which that run happens |
| `SweepResidue.SampleEncodes` | bench/continuation_object_sweep_record.py:114-209 | A record that the encoder accepts, for every hash without a zero digest and every challenge |
| `SweepWriter.AppendStaysSettled` | bench/continuation_object_sweep_writer.py:466-501 | An append that returns leaves a settled stream with the writer at its end |
| `SweepWriter.RepairRestores` | bench/continuation_object_sweep_writer.py:330-354 | One repair gives back exactly the original stream; a faulted one leaves a stream that can be repaired again |
| `SweepWriter.AppendFailsOnlyByFault` | bench/continuation_object_sweep_writer.py:466-501 | Without a fault an accepted record is always appended: no phase, authority or capacity check fails midway |
| `SweepWriter.OpenedAtEnd` | bench/continuation_object_sweep_writer.py:436-464 | A writer opened on a settled stream stands at its end |
| `SweepWriterClass.Appender.AppendNow` | bench/continuation_object_sweep_writer.py:466-501 | The mutable writer leaves storage and itself exactly as the value model |
| `SweepWriterClass.TailRepairer.ApplyNow` | bench/continuation_object_sweep_writer.py:534-551 | The mutable repairer leaves storage and itself exactly as the value model |
| `PayloadSnapshot.DecodeEncode` | bench/continuation_object_payload_store.py:86-194 | Decoding inverts encoding of every canonical item list |
| `PayloadSnapshot.EncodeDecode` | bench/continuation_object_payload_store.py:119-194 | Every accepted byte string re-encodes to itself |
| `PayloadSnapshot.ReclaimExact` | bench/continuation_object_payload_store.py:208-288 | A reclaim keeps exactly the other items, shortens the encoding by 40 bytes a target and the freed payload, and passes its verifier when no digest is zero |
| `PayloadSnapshot.EncodeItems` | bench/continuation_object_payload_store.py:86-116 | The growing body equals the encoding |
| `PayloadSnapshot.ParseItems` | bench/continuation_object_payload_store.py:142-173 | The advancing cursor parses exactly the items of the specification |
| `PayloadSnapshot.HitsCount` | bench/continuation_object_payload_store.py:219-233 | Every target names exactly one item |
| `Checksums.OneByteChangesCrc` | bench/generated_media_external_format.py:84-96 | Equally long messages that differ in exactly one byte have different CRC-32 values |
| `Checksums.ComputeCrc32` | bench/generated_media_external_format.py:84-96 | The bitwise loop computes the register fold |
| `Checksums.ComputeAdler32` | bench/generated_media_external_format.py:99-108 | The two-sum loop computes the closed weighted-sum form modulo 65521 for every length |
| `PngImage.ParsePrint` | bench/generated_media_external_format.py:161-203 | Parsing inverts printing of every terminated chunk list |
| `PngImage.PrintParse` | bench/generated_media_external_format.py:161-203 | Accepted bytes are exactly the print of the chunks they parse to |
| `PngImage.ParsePngNow` | bench/generated_media_external_format.py:161-203 | The offset loop accepts and yields exactly the specified chunks |
| `PngImage.StoredExact` | bench/generated_media_external_format.py:124-158 | The stored-block decoder accepts exactly what the encoder prints |
| `PngImage.ImageExact` | bench/generated_media_external_format.py:235-293 | The image decoder accepts exactly the outputs of the image encoder and gives the pixels back |
| `DeviceSelection.SelectionIgnoresOrder` | bench/device_capability_contract.py:631-694 | For every permutation of an inventory selection succeeds or fails alike and returns the same receipt, and the same receipts are valid |
| `DeviceSelection.MadeReceiptShaped` | bench/device_capability_contract.py:753-830 | The shape check rejects a receipt that selection made if and only if its inventory root or its own root is zero |
| `DeviceSelection.ValidIsReplay` | bench/device_capability_contract.py:721-732 | A receipt is valid if and only if selection over the same requirement and inventory returns it |
| `DeviceSelection.ChoiceIsLeast` | bench/device_capability_contract.py:631-694 | The choice is compatible and least by rank and capability root; a pin is exact; a CPU stands in only under explicit fallback with no compatible accelerator |
| `DeviceSelection.ChoiceFails` | bench/device_capability_contract.py:631-694 | Selection over an inventory without duplicates fails if and only if nothing may serve |
| `DeviceSelection.InventoryRootPermuted` | bench/device_capability_contract.py:589-596 | The inventory root does not depend on order |
| `DeviceSelection.InventoryPermuted` | bench/device_capability_contract.py:563-586 | Validity of an inventory does not depend on order |

## Left out

- Real files and processes (`LockedSweepFile`, `LockedPayloadStore`, locks, descriptors, signals) and the Zig runtime: only the logical steps that the oracles describe are modelled.
- The driver of the outbox, including its reserve of free record slots (README.md:76-79), is not part of this model; `OutboxSystem` lets it take any step whose record is justified.
- Command lines, JSON rendering, retained fixture roots, closed anchors and demo builders: finite cases of the statements above.
- SHA-256 internals, credential material and constant-time comparison; a credential is a flag that may refuse a call.
- ObjectStoreClass.Store.ImportBundle: takes items whose blobs are already bound to the bundle; capsule contents, header and envelope of the bundle wire form are not modelled, only its table of objects (`ContinuationBundle`).
- ObjectStoreClass.Store.RepairBlob: does not model the check that a repair candidate is not the stored object itself (bench/continuation_object_store.py:884-885), because values have no identity here.
- Traces and diagnostic counters of the storages, and the distinct messages of exceptions that share one `Failure` value; in `DeviceSelection` all inventory defects are one error, because which of several defects the code reports depends on their order.
- Audio and video formats, and the source offsets that image decoding reports.
- A malformed fault is not representable, so the refusal of one is not modelled.
- SweepWriter.CrashSafeAppend: is the statement for fully synced streams, which publication uses; every other watermark is covered by `SweepCrash.CrashKeepsDurable` and `SweepCrash.NeverCorruptsExactly`.
- Sweep storage handles: leases and capability minting of the sweep storage are values in `SweepWriter`; only writer, repairer and storage are objects.
