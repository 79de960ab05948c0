/**
 * The storage and its handles as mutable objects. Every method changes the fields exactly as
 * the value functions of OutboxStorage say, which is what the run theorems are about.
 */
module OutboxStorageClasses {
  import opened Bytes
  import opened Outbox
  import opened OutboxWire
  import opened OutboxRecovery
  import opened OutboxStorage

  /** The content snapshot, computed by the recovery loop. */
  method TakeSnapshot(e: Env, stream: Bytes, maximum: nat)
    returns (r: Result<Snapshot, StoreError>)
    ensures r == ContentSnapshot(e, stream, maximum)
  {
    hide Recovered, SnapshotSha;
    if e.header == ZERO_DIGEST || !(HEADER_BYTES <= |stream| <= maximum <= U64_MAX) {
      return Failure(InvalidContent);
    }
    var recovered := Recover(e.sha, stream, e.header);
    if recovered.Failure? {
      return Failure(InvalidContent);
    }
    var s := Described(e, stream, maximum, recovered.value);
    if s.committedBytes > U64_MAX || s.discardedTailBytes > U64_MAX {
      return Failure(InvalidContent);
    }
    var sealed := s.(snapshotSha := SnapshotSha(e, s));
    if !DigestsNonZero(sealed) {
      return Failure(InvalidContent);
    }
    return Success(sealed);
  }

  /** Fixed-capacity bytes with one generation and one sync watermark. */
  class DeterministicStorage {
    const env: Env
    const backing: array<Byte>
    var length: nat
    var syncedLength: nat
    var nextGeneration: nat
    var activeGeneration: nat
    var expectedPhase: IoPhase
    var fault: Option<Fault>
    var callIndex: nat
    var appendGeneration: nat
    var appendSnapshotSha: Digest
    var repairGeneration: nat
    var repairSnapshotSha: Digest
    var repairTargetBytes: nat

    ghost predicate Valid()
      reads this
    {
      length <= backing.Length && syncedLength <= backing.Length
    }

    ghost function View(): (d: Disk)
      reads this, backing
      ensures Valid() ==> d.Bounded() && d.Stream() == backing[..length]
      ensures |d.backing| == backing.Length
    {
      assert Valid() ==> backing[..][..length] == backing[..length];
      Disk(backing[..], length, syncedLength, nextGeneration, activeGeneration, expectedPhase,
           fault, callIndex,
           Authority(appendGeneration, appendSnapshotSha, repairGeneration, repairSnapshotSha,
                     repairTargetBytes))
    }

    constructor (e: Env, initial: Bytes, maximum: nat)
      requires e.epoch != 0 && |initial| <= maximum
      ensures Valid() && fresh(backing) && env == e && backing.Length == maximum
      ensures View() == NewDisk(initial, maximum)
    {
      hide Recovered, SnapshotSha;
      env := e;
      var filled := new Byte[maximum](i => 0);
      backing := filled;
      length, syncedLength := |initial|, |initial|;
      nextGeneration, activeGeneration := 1, 0;
      expectedPhase, fault, callIndex := BodyWrite, None, 0;
      appendGeneration, appendSnapshotSha := 0, ZERO_DIGEST;
      repairGeneration, repairSnapshotSha, repairTargetBytes := 0, ZERO_DIGEST, 0;
      new;
      Store(0, initial);
      assert backing[..] == initial + Zeros(maximum - |initial|);
    }

    /** The slice assignment under every write. */
    method Store(at: nat, payload: Bytes)
      requires at + |payload| <= backing.Length
      modifies backing
      ensures backing[..] == Overwrite(old(backing[..]), at, payload)
    {
      forall i | 0 <= i < |payload| {
        backing[at + i] := payload[i];
      }
    }

    method ActualSnapshot() returns (r: Result<Snapshot, StoreError>)
      requires Valid()
      ensures r == Snapshotted(env, View())
    {
      r := TakeSnapshot(env, backing[..length], backing.Length);
    }

    method ValidateSnapshot(expected: Digest) returns (same: bool)
      requires Valid()
      ensures same == SnapshotStill(env, View(), expected)
    {
      var actual := ActualSnapshot();
      same := actual.Success? && actual.value.snapshotSha == expected;
    }

    method ClearAuthority()
      modifies this`appendGeneration, this`appendSnapshotSha, this`repairGeneration,
        this`repairSnapshotSha, this`repairTargetBytes
      ensures View() == old(View()).(authority := NoAuthority(0))
    {
      appendGeneration, appendSnapshotSha := 0, ZERO_DIGEST;
      repairGeneration, repairSnapshotSha, repairTargetBytes := 0, ZERO_DIGEST, 0;
    }

    /** Entering repair: the append authority is dropped and one truncation target granted. */
    method GrantRepair(generation: nat, snapshotSha: Digest, target: nat)
      modifies this`expectedPhase, this`appendGeneration, this`appendSnapshotSha,
        this`repairGeneration, this`repairSnapshotSha, this`repairTargetBytes
      ensures View() == old(View()).(phase := RepairTruncate,
                                     authority := Authority(0, ZERO_DIGEST, generation,
                                                            snapshotSha, target))
    {
      appendGeneration, appendSnapshotSha := 0, ZERO_DIGEST;
      repairGeneration, repairSnapshotSha := generation, snapshotSha;
      repairTargetBytes, expectedPhase := target, RepairTruncate;
    }

    method SetFaultAt(f: Option<Fault>)
      requires Valid()
      modifies this`fault, this`callIndex
      ensures Valid() && View() == SetFault(old(View()), f)
    {
      fault, callIndex := f, 0;
    }

    method CrashPersistAt(persisted: nat) returns (accepted: bool)
      requires Valid()
      modifies this
      ensures Valid() && View() == CrashPersist(old(View()), persisted)
      ensures accepted <==> CrashLower(old(View())) <= persisted <= CrashUpper(old(View()))
    {
      var lower, upper := syncedLength, length;
      if length <= syncedLength {
        lower, upper := length, syncedLength;
      }
      if !(lower <= persisted <= upper) {
        return false;
      }
      length, syncedLength := persisted, persisted;
      activeGeneration, expectedPhase := 0, BodyWrite;
      fault, callIndex := None, 0;
      ClearAuthority();
      return true;
    }

    method Begin(generation: nat, phase: IoPhase, write: bool) returns (entry: CallEntry)
      requires Valid()
      modifies this`callIndex
      ensures Valid() && View() == BeginDisk(old(View()), generation, phase)
      ensures entry == BeginEntry(old(View()), generation, phase, write)
    {
      if generation == 0 || generation != activeGeneration {
        return Refused(StaleAuthority);
      }
      if expectedPhase != phase {
        return Refused(InvalidPhase);
      }
      var index := callIndex;
      callIndex := callIndex + 1;
      if fault.None? || fault.value.callIndex != index {
        return Running(None);
      }
      if !write && fault.value.writePrefix.Some? {
        return Refused(InvalidFault);
      }
      if fault.value.before {
        return Refused(if fault.value.writePrefix.Some? then InvalidFault else Injected);
      }
      return Running(fault);
    }

    method Append(generation: nat, phase: IoPhase, next: IoPhase, payload: Bytes)
      returns (error: Option<StoreError>)
      requires Valid()
      modifies this`callIndex, this`length, this`expectedPhase, backing
      ensures Valid()
      ensures Effect(View(), error) == AppendIo(old(View()), generation, phase, next, payload)
    {
      var entry := Begin(generation, phase, true);
      if entry.Refused? {
        return Some(entry.error);
      }
      var n := |payload|;
      if entry.fault.Some? && entry.fault.value.writePrefix.Some? {
        if entry.fault.value.writePrefix.value > |payload| {
          return Some(InvalidFault);
        }
        n := entry.fault.value.writePrefix.value;
      }
      if length + n > backing.Length {
        return Some(StorageFull);
      }
      Store(length, payload[..n]);
      length := length + n;
      if n == |payload| {
        expectedPhase := next;
      }
      return if entry.fault.Some? then Some(Injected) else None;
    }

    method Sync(generation: nat, phase: IoPhase, next: IoPhase)
      returns (error: Option<StoreError>)
      requires Valid()
      modifies this`callIndex, this`syncedLength, this`expectedPhase
      ensures Valid()
      ensures Effect(View(), error) == SyncIo(old(View()), generation, phase, next)
    {
      var entry := Begin(generation, phase, false);
      if entry.Refused? {
        return Some(entry.error);
      }
      syncedLength, expectedPhase := length, next;
      return if entry.fault.Some? then Some(Injected) else None;
    }

    method Truncate(generation: nat, target: nat) returns (error: Option<StoreError>)
      requires Valid()
      modifies this`callIndex, this`length, this`expectedPhase
      ensures Valid()
      ensures Effect(View(), error) == TruncateIo(old(View()), generation, target)
    {
      var entry := Begin(generation, RepairTruncate, false);
      if entry.Refused? {
        return Some(entry.error);
      }
      if repairGeneration != generation || repairTargetBytes != target
         || !(HEADER_BYTES <= target < length) {
        return Some(RepairTargetChanged);
      }
      length, expectedPhase := target, RepairSync;
      return if entry.fault.Some? then Some(Injected) else None;
    }

    /** A new exclusive lease; its generation stays taken even when the snapshot fails. */
    method Acquire() returns (r: Result<Lease, StoreError>)
      requires Valid()
      modifies this
      ensures Valid() && View() == AcquireDisk(old(View()))
      ensures var v := AcquireLease(env, old(View()));
              && (r.Failure? ==> v == Failure(r.error))
              && (r.Success? ==> fresh(r.value) && r.value.storage == this
                                 && v == Success(r.value.View()))
    {
      hide Recovered, ContentSnapshot, LeaseSha;
      if activeGeneration != 0 {
        return Failure(LeaseBusy);
      }
      if nextGeneration > U64_MAX {
        return Failure(GenerationExhausted);
      }
      var generation := nextGeneration;
      nextGeneration, activeGeneration := nextGeneration + 1, generation;
      expectedPhase, fault, callIndex := BodyWrite, None, 0;
      ClearAuthority();
      var snapshot := ActualSnapshot();
      if snapshot.Failure? {
        return Failure(snapshot.error);
      }
      var binding := LeaseSha(env, snapshot.value, generation);
      if binding.Failure? {
        return Failure(binding.error);
      }
      var lease := new Lease(this, generation, snapshot.value, binding.value);
      return Success(lease);
    }
  }

  /** Opening a journal storage: only content that recovers, torn or not, is accepted. */
  method OpenStorage(e: Env, initial: Bytes, maximum: nat)
    returns (r: Result<DeterministicStorage, StoreError>)
    ensures r.Success? <==> e.epoch != 0 && ContentSnapshot(e, initial, maximum).Success?
    ensures r.Success? ==>
              && fresh(r.value) && r.value.Valid() && r.value.env == e
              && r.value.View() == NewDisk(initial, maximum)
  {
    hide Recovered, SnapshotSha;
    if e.epoch == 0 {
      return Failure(InvalidContent);
    }
    var snapshot := TakeSnapshot(e, initial, maximum);
    if snapshot.Failure? {
      return Failure(snapshot.error);
    }
    var storage := new DeterministicStorage(e, initial, maximum);
    return Success(storage);
  }

  class Lease {
    const storage: DeterministicStorage
    var generation: nat
    var snapshot: Snapshot
    var leaseSha: Digest
    var state: LeaseState

    ghost function View(): OutboxStorage.Lease
      reads this
    {
      OutboxStorage.Lease(generation, snapshot, leaseSha, state)
    }

    constructor (storage: DeterministicStorage, generation: nat, snapshot: Snapshot,
      leaseSha: Digest)
      ensures this.storage == storage
      ensures View() == OutboxStorage.Lease(generation, snapshot, leaseSha, LeaseReady)
    {
      this.storage, this.generation := storage, generation;
      this.snapshot, this.leaseSha, this.state := snapshot, leaseSha, LeaseReady;
    }

    method MintAppend() returns (r: Option<AppendCapability>)
      requires storage.Valid()
      modifies storage`appendGeneration, storage`appendSnapshotSha
      ensures storage.Valid()
      ensures storage.View() == MintDisk(storage.env, old(storage.View()), View())
      ensures r.Some? <==> MayMint(storage.env, old(storage.View()), View())
      ensures r.Some? ==>
                && fresh(r.value) && r.value.lease == this
                && r.value.View()
                   == OutboxStorage.AppendCapability(generation, snapshot.snapshotSha)
    {
      hide Recovered, ContentSnapshot;
      if generation == 0 || generation != storage.activeGeneration || state != LeaseReady
         || snapshot.status != Clean || storage.expectedPhase != BodyWrite {
        return None;
      }
      var still := storage.ValidateSnapshot(snapshot.snapshotSha);
      if !still {
        return None;
      }
      storage.appendGeneration, storage.appendSnapshotSha := generation, snapshot.snapshotSha;
      var capability := new AppendCapability(this);
      return Some(capability);
    }

    method PrepareRepairNow() returns (r: Result<RepairCapability, StoreError>)
      requires storage.Valid()
      modifies this`state, storage
      ensures storage.Valid()
      ensures storage.View() == PrepareRepairDisk(storage.env, old(storage.View()), old(View()))
      ensures var v := PrepareRepair(storage.env, old(storage.View()), old(View()));
              && (r.Failure? ==> v == Failure(r.error) && View() == old(View()))
              && (r.Success? ==>
                    && fresh(r.value) && r.value.lease == this
                    && v == Success(r.value.plan) && r.value.generation == generation
                    && View() == old(View()).(state := RepairReady))
    {
      hide SnapshotStill, Snapshotted, MakeRepairPlan;
      if generation == 0 || generation != storage.activeGeneration {
        return Failure(StaleAuthority);
      }
      if state != LeaseReady || storage.expectedPhase != BodyWrite {
        return Failure(CannotRepair);
      }
      var still := storage.ValidateSnapshot(snapshot.snapshotSha);
      if !still {
        return Failure(SnapshotChanged);
      }
      var plan := MakeRepairPlan(storage.env,
                                 OutboxStorage.Lease(generation, snapshot, leaseSha, state));
      if plan.Failure? {
        return Failure(plan.error);
      }
      state := RepairReady;
      storage.GrantRepair(generation, snapshot.snapshotSha, plan.value.committedBytes);
      var capability := new RepairCapability(this, plan.value);
      return Success(capability);
    }

    /** Moving the lease on to newly committed content. */
    method AdvanceSnapshot(actual: Snapshot) returns (error: Option<StoreError>)
      requires storage.Valid()
      modifies this`snapshot, this`leaseSha, storage`appendSnapshotSha
      ensures storage.Valid()
      ensures var d, l := old(storage.View()), old(View());
              var binding := LeaseSha(storage.env, actual, l.generation);
              if !Active(d, l.generation) then
                error == Some(StaleAuthority) && storage.View() == d && View() == l
              else if binding.Failure? then
                error == Some(binding.error) && storage.View() == d
                && View() == l.(snapshot := actual)
              else
                && error == None
                && View() == l.(snapshot := actual, leaseSha := binding.value)
                && storage.View()
                   == d.(authority := d.authority.(appendSnapshot := actual.snapshotSha))
    {
      hide LeaseSha;
      if generation == 0 || generation != storage.activeGeneration {
        return Some(StaleAuthority);
      }
      snapshot := actual;
      var binding := LeaseSha(storage.env, actual, generation);
      if binding.Failure? {
        return Some(binding.error);
      }
      leaseSha := binding.value;
      storage.appendSnapshotSha := actual.snapshotSha;
      return None;
    }

    method Release() returns (accepted: bool)
      requires storage.Valid()
      modifies this`generation, this`state, storage
      ensures storage.Valid()
      ensures storage.View() == ReleaseDisk(old(storage.View()), old(View()))
      ensures View() == ReleaseLease(old(storage.View()), old(View()))
      ensures accepted <==> Active(old(storage.View()), old(generation))
    {
      if generation == 0 || generation != storage.activeGeneration {
        return false;
      }
      storage.activeGeneration, storage.expectedPhase, storage.fault := 0, BodyWrite, None;
      storage.ClearAuthority();
      state, generation := LeaseClosed, 0;
      return true;
    }
  }

  /** Body and footer authority for one clean lease snapshot. */
  class AppendCapability {
    const lease: Lease
    const generation: nat
    var snapshotSha: Digest

    ghost function View(): OutboxStorage.AppendCapability
      reads this
    {
      OutboxStorage.AppendCapability(generation, snapshotSha)
    }

    constructor (lease: Lease)
      ensures this.lease == lease
      ensures View()
              == OutboxStorage.AppendCapability(lease.generation, lease.snapshot.snapshotSha)
    {
      this.lease, this.generation := lease, lease.generation;
      snapshotSha := lease.snapshot.snapshotSha;
    }

    predicate Authorized()
      reads this, lease, lease.storage
    {
      var storage := lease.storage;
      && generation != 0 && generation == storage.activeGeneration
      && storage.appendGeneration == generation && storage.appendSnapshotSha == snapshotSha
    }

    method Validate() returns (valid: bool)
      requires lease.storage.Valid()
      ensures valid == MayAppend(lease.storage.env, lease.storage.View(), lease.View(), View())
    {
      hide Recovered, ContentSnapshot;
      if !Authorized() || lease.state != LeaseReady {
        return false;
      }
      valid := lease.storage.ValidateSnapshot(snapshotSha);
    }

    method Step(write: bool, phase: IoPhase, next: IoPhase, payload: Bytes)
      returns (error: Option<StoreError>)
      requires lease.storage.Valid()
      modifies lease.storage`callIndex, lease.storage`length, lease.storage`syncedLength,
        lease.storage`expectedPhase, lease.storage.backing
      ensures lease.storage.Valid()
      ensures var d := old(lease.storage.View());
              Effect(lease.storage.View(), error)
              == if !HasAuthority(d, View()) then Effect(d, Some(StaleAuthority))
                 else if write then AppendIo(d, generation, phase, next, payload)
                 else SyncIo(d, generation, phase, next)
    {
      if !Authorized() {
        return Some(StaleAuthority);
      }
      if write {
        error := lease.storage.Append(generation, phase, next, payload);
      } else {
        error := lease.storage.Sync(generation, phase, next);
      }
    }

    method AppendBody(payload: Bytes) returns (error: Option<StoreError>)
      requires lease.storage.Valid() && |payload| == RECORD_BODY_BYTES
      modifies lease.storage`callIndex, lease.storage`length, lease.storage`syncedLength,
        lease.storage`expectedPhase, lease.storage.backing
      ensures lease.storage.Valid()
      ensures var d := old(lease.storage.View());
              Effect(lease.storage.View(), error)
              == if !MayAppend(lease.storage.env, d, lease.View(), View()) then
                   Effect(d, Some(StaleAuthority))
                 else AppendIo(d, generation, BodyWrite, BodySync, payload)
    {
      hide SnapshotStill, AppendIo, SyncIo;
      var valid := Validate();
      if !valid {
        return Some(StaleAuthority);
      }
      error := Step(true, BodyWrite, BodySync, payload);
    }

    /** The four ordered calls: body, sync, footer, sync. */
    method AppendAll(body: Bytes, footer: Bytes) returns (error: Option<StoreError>)
      requires lease.storage.Valid() && |body| == RECORD_BODY_BYTES
      requires MayAppend(lease.storage.env, lease.storage.View(), lease.View(), View())
      modifies lease.storage`callIndex, lease.storage`length, lease.storage`syncedLength,
        lease.storage`expectedPhase, lease.storage.backing
      ensures lease.storage.Valid()
      ensures Effect(lease.storage.View(), error)
              == AppendCalls(old(lease.storage.View()), View(), body, footer)
    {
      hide SnapshotStill, AppendIo, SyncIo;
      error := AppendBody(body);
      if error.Some? {
        return;
      }
      error := Step(false, BodySync, FooterWrite, []);
      if error.Some? {
        return;
      }
      error := Step(true, FooterWrite, FooterSync, footer);
      if error.Some? {
        return;
      }
      error := Step(false, FooterSync, BodyWrite, []);
    }
  }

  class RepairCapability {
    const lease: Lease
    const generation: nat
    const plan: Plan

    ghost function View(): OutboxStorage.RepairCapability
    {
      OutboxStorage.RepairCapability(generation, plan)
    }

    constructor (lease: Lease, plan: Plan)
      ensures this.lease == lease && this.plan == plan && this.generation == lease.generation
    {
      this.lease, this.generation, this.plan := lease, lease.generation, plan;
    }

    predicate Authorized()
      reads this, lease, lease.storage
    {
      var storage := lease.storage;
      && generation != 0 && generation == storage.activeGeneration
      && (lease.state == RepairReady || lease.state == RepairActive)
      && storage.repairGeneration == generation
      && storage.repairSnapshotSha == lease.snapshot.snapshotSha
      && plan.leaseSha == lease.leaseSha
    }
  }

  /** Preflighted append writer that poisons itself on uncertain input-output. */
  class Writer {
    const capability: AppendCapability
    const header: Header
    var state: HandleState

    ghost function View(): OutboxStorage.Writer
      reads this
    {
      OutboxStorage.Writer(header, state)
    }

    constructor (capability: AppendCapability, header: Header)
      ensures this.capability == capability
      ensures View() == OutboxStorage.Writer(header, HandleReady)
    {
      this.capability, this.header, state := capability, header, HandleReady;
    }

    method PreflightNow(encoded: Bytes) returns (r: Result<Snapshot, StoreError>)
      requires capability.lease.storage.Valid()
      ensures r == Preflight(capability.lease.storage.env, capability.lease.storage.View(),
                             capability.lease.View(), capability.View(), View(), encoded)
    {
      hide Recovered, ContentSnapshot, DecodeRecord, MayAppend;
      var lease, storage := capability.lease, capability.lease.storage;
      if state != HandleReady {
        return Failure(NotReady);
      }
      var valid := capability.Validate();
      if !valid {
        return Failure(StaleAuthority);
      }
      if lease.snapshot.committedRecords == U64_MAX {
        return Failure(InvalidRecordBytes);
      }
      var sequence := lease.snapshot.committedRecords + 1;
      var decoded :=
        DecodeRecord(storage.env.sha, header, sequence, lease.snapshot.finalChain, encoded);
      if decoded.Failure? {
        return Failure(InvalidRecordBytes);
      }
      r := TakeSnapshot(storage.env, storage.backing[..storage.length] + encoded,
                        storage.backing.Length);
      if r.Failure? {
        return;
      }
      if r.value.status != Clean || r.value.committedRecords != sequence {
        return Failure(PreflightChanged);
      }
    }

    method AppendRecordNow(encoded: Bytes) returns (error: Option<StoreError>)
      requires capability.lease.storage.Valid()
      modifies this`state, capability`snapshotSha, capability.lease`snapshot,
        capability.lease`leaseSha, capability.lease.storage, capability.lease.storage.backing
      ensures capability.lease.storage.Valid()
      ensures Appended(capability.lease.storage.View(), capability.lease.View(),
                       capability.View(), View(), error)
              == AppendRecord(capability.lease.storage.env,
                              old(capability.lease.storage.View()), old(capability.lease.View()),
                              old(capability.View()), old(View()), encoded)
    {
      hide Recovered, ContentSnapshot, Preflight, AppendCalls, LeaseSha, MayAppend;
      var lease, storage := capability.lease, capability.lease.storage;
      var prospective := PreflightNow(encoded);
      if prospective.Failure? {
        return Some(prospective.error);
      }
      PreflightLength(storage.env, storage.View(), lease.View(), capability.View(), View(),
                      encoded);
      PreflightAuthority(storage.env, storage.View(), lease.View(), capability.View(), View(),
                         encoded);
      state := Poisoned;
      error := capability.AppendAll(encoded[..RECORD_BODY_BYTES], encoded[RECORD_BODY_BYTES..]);
      if error.Some? {
        return;
      }
      var actual := storage.ActualSnapshot();
      if actual.Failure? {
        return Some(actual.error);
      }
      if actual.value != prospective.value {
        return Some(CommittedDiffers);
      }
      error := lease.AdvanceSnapshot(actual.value);
      if error.Some? {
        return;
      }
      capability.snapshotSha := lease.snapshot.snapshotSha;
      state := HandleReady;
    }
  }

  lemma PreflightAuthority(e: Env, d: Disk, l: OutboxStorage.Lease,
    c: OutboxStorage.AppendCapability, w: OutboxStorage.Writer, encoded: Bytes)
    requires d.Bounded() && Preflight(e, d, l, c, w, encoded).Success?
    ensures MayAppend(e, d, l, c)
  {
    hide DecodeRecord, ContentSnapshot;
  }

  /** Explicit repair of an incomplete tail, to be followed by a fresh reopen. */
  class Repairer {
    const capability: RepairCapability
    var state: HandleState

    constructor (capability: RepairCapability)
      ensures this.capability == capability && state == HandleReady
    {
      this.capability, state := capability, HandleReady;
    }

    method Apply() returns (error: Option<StoreError>)
      requires capability.lease.storage.Valid()
      modifies this`state, capability.lease`state, capability.lease.storage
      ensures capability.lease.storage.Valid()
      ensures Repaired(capability.lease.storage.View(), capability.lease.View(), state, error)
              == ApplyRepair(capability.lease.storage.env,
                             old(capability.lease.storage.View()), old(capability.lease.View()),
                             capability.View(), old(state))
    {
      hide Recovered, ContentSnapshot, TruncateIo, SyncIo;
      var lease, storage := capability.lease, capability.lease.storage;
      if state != HandleReady {
        return Some(NotReady);
      }
      if !capability.Authorized() {
        return Some(StaleAuthority);
      }
      state := Poisoned;
      var still := storage.ValidateSnapshot(lease.snapshot.snapshotSha);
      if !still {
        return Some(SnapshotChanged);
      }
      error := storage.Truncate(capability.generation, capability.plan.committedBytes);
      if error.Some? {
        return;
      }
      lease.state := RepairActive;
      if !capability.Authorized() {
        return Some(StaleAuthority);
      }
      error := storage.Sync(capability.generation, RepairSync, BodyWrite);
      if error.Some? {
        return;
      }
      lease.state := RepairComplete;
      var repaired := storage.ActualSnapshot();
      if repaired.Failure? {
        return Some(repaired.error);
      }
      if !MatchesPlan(repaired.value, capability.plan) {
        return Some(RepairChanged);
      }
      state := Complete;
    }
  }
}
