/**
 * The crash-storage machine under the journal: one growing stream, a sync watermark, exclusive
 * generations, and append and repair authorities (bench/action_outbox_store_conformance.py).
 * Operations that raise after changing state return the changed state beside the error.
 */
module OutboxStorage {
  import opened Bytes
  import opened Outbox
  import opened OutboxWire
  import opened OutboxRecovery

  const STORE_ABI: u64 := 0x4754_4F53_0000_0001

  const CONTENT_SNAPSHOT_DOMAIN := Ascii("glacier-action-outbox-store-content-snapshot-v1\0")
  const LEASE_BINDING_DOMAIN := Ascii("glacier-action-outbox-store-lease-binding-v1\0")
  const REPAIR_PLAN_DOMAIN := Ascii("glacier-action-outbox-store-repair-plan-v1\0")

  datatype StoreError =
    | Injected | StaleAuthority | InvalidPhase | InvalidFault | StorageFull | InvalidContent
    | SnapshotChanged | LeaseBusy | GenerationExhausted | CannotMint | CannotRepair | NotReady
    | InvalidRecordBytes | PreflightChanged | CommittedDiffers | RepairChanged | RepairTargetChanged
    | InvalidPersistence | InvalidBinding

  /** What is fixed for one storage: the hash, the pinned header root and the storage epoch. */
  datatype Env = Env(sha: Sha, header: Digest, epoch: u64)

  // ---------------------------------------------------------------------------------------
  // Snapshots, lease bindings and repair plans
  // ---------------------------------------------------------------------------------------

  datatype Snapshot = Snapshot(
    observedBytes: u64, maximumBytes: u64, streamSha: Digest, status: Status,
    committedBytes: nat, discardedTailBytes: nat, committedRecords: u64, finalChain: Digest,
    stateSha: Digest, ledgerSha: Digest, snapshotSha: Digest)

  function StatusCode(s: Status): u64 {
    match s
    case Clean => 1
    case ShortBodyTail => 2
    case BodyWithoutFooter => 3
    case PartialFooterTail => 4
  }

  function SnapshotSha(e: Env, s: Snapshot): Digest
    requires s.committedBytes <= U64_MAX && s.discardedTailBytes <= U64_MAX
  {
    e.sha(CONTENT_SNAPSHOT_DOMAIN + LE64(STORE_ABI) + e.header + LE64(s.observedBytes)
          + LE64(s.maximumBytes) + s.streamSha + LE8(StatusCode(s.status))
          + LE64(s.committedBytes) + LE64(s.discardedTailBytes) + LE64(s.committedRecords)
          + s.finalChain + s.stateSha + s.ledgerSha)
  }

  predicate DigestsNonZero(s: Snapshot) {
    && s.streamSha != ZERO_DIGEST && s.finalChain != ZERO_DIGEST && s.stateSha != ZERO_DIGEST
    && s.ledgerSha != ZERO_DIGEST && s.snapshotSha != ZERO_DIGEST
  }

  /** The unsealed and unchecked snapshot of recovered content. */
  function Described(e: Env, stream: Bytes, maximum: u64, r: Recovery): Snapshot
    requires |stream| <= maximum
  {
    Snapshot(|stream|, maximum, e.sha(stream), r.status, r.committedBytes, r.discardedTailBytes,
             r.ledger.committedRecords, r.finalChain, r.stateSha, LedgerSha(e.sha, r.ledger),
             ZERO_DIGEST)
  }

  function ContentSnapshot(e: Env, stream: Bytes, maximum: nat): (r: Result<Snapshot, StoreError>)
  {
    if e.header == ZERO_DIGEST || !(HEADER_BYTES <= |stream| <= maximum <= U64_MAX) then
      Failure(InvalidContent)
    else
      var recovered := Recovered(e.sha, stream, e.header);
      if recovered.Failure? then Failure(InvalidContent)
      else
        var s := Described(e, stream, maximum, recovered.value);
        if s.committedBytes > U64_MAX || s.discardedTailBytes > U64_MAX then
          Failure(InvalidContent)
        else
          var sealed := s.(snapshotSha := SnapshotSha(e, s));
          if !DigestsNonZero(sealed) then Failure(InvalidContent) else Success(sealed)
  }

  datatype LeaseState = LeaseReady | RepairReady | RepairActive | RepairComplete | LeaseClosed

  /** One exclusive generation bound to observed content. */
  datatype Lease = Lease(generation: nat, snapshot: Snapshot, leaseSha: Digest, state: LeaseState)

  function LeaseSha(e: Env, s: Snapshot, generation: nat): Result<Digest, StoreError> {
    if e.epoch == 0 || generation == 0 || generation > U64_MAX then Failure(InvalidBinding)
    else
      var d := e.sha(LEASE_BINDING_DOMAIN + LE64(STORE_ABI) + LE64(e.epoch) + LE64(generation)
                     + s.snapshotSha);
      if d == ZERO_DIGEST then Failure(InvalidBinding) else Success(d)
  }

  datatype Plan = Plan(
    leaseSha: Digest, status: Status, observedBytes: u64, committedBytes: nat,
    discardedTailBytes: nat, finalChain: Digest, stateSha: Digest, ledgerSha: Digest)

  function PlanSha(e: Env, p: Plan): Digest
    requires p.committedBytes <= U64_MAX && p.discardedTailBytes <= U64_MAX
  {
    e.sha(REPAIR_PLAN_DOMAIN + LE64(STORE_ABI) + p.leaseSha + LE8(StatusCode(p.status))
          + LE64(p.observedBytes) + LE64(p.committedBytes) + LE64(p.discardedTailBytes)
          + p.finalChain + p.stateSha + p.ledgerSha)
  }

  function MakeRepairPlan(e: Env, l: Lease): Result<Plan, StoreError> {
    var s := l.snapshot;
    if s.status == Clean || s.discardedTailBytes == 0
       || s.committedBytes > U64_MAX || s.discardedTailBytes > U64_MAX then Failure(CannotRepair)
    else
      var p := Plan(l.leaseSha, s.status, s.observedBytes, s.committedBytes,
                    s.discardedTailBytes, s.finalChain, s.stateSha, s.ledgerSha);
      if PlanSha(e, p) == ZERO_DIGEST then Failure(CannotRepair) else Success(p)
  }

  // ---------------------------------------------------------------------------------------
  // The disk and its input-output calls
  // ---------------------------------------------------------------------------------------

  datatype IoPhase = BodyWrite | BodySync | FooterWrite | FooterSync | RepairTruncate | RepairSync

  datatype Fault = Fault(callIndex: nat, before: bool, writePrefix: Option<nat>)

  /** Who may append or repair, and under which snapshot. */
  datatype Authority = Authority(
    appendGeneration: nat, appendSnapshot: Digest,
    repairGeneration: nat, repairSnapshot: Digest, repairTarget: nat)

  datatype Disk = Disk(
    backing: Bytes, length: nat, synced: nat, nextGeneration: nat, activeGeneration: nat,
    phase: IoPhase, fault: Option<Fault>, callIndex: nat, authority: Authority)
  {
    predicate Bounded() {
      length <= |backing| && synced <= |backing|
    }

    function Stream(): Bytes
      requires Bounded()
    {
      backing[..length]
    }
  }

  function NoAuthority(zero: nat): Authority {
    Authority(zero, ZERO_DIGEST, zero, ZERO_DIGEST, zero)
  }

  /** A new disk: the initial bytes, all of them synced, and zeros behind them. */
  function NewDisk(initial: Bytes, maximum: nat): (d: Disk)
    requires |initial| <= maximum
    ensures d.Bounded() && d.Stream() == initial && |d.backing| == maximum
  {
    var d := Disk(initial + Zeros(maximum - |initial|), |initial|, |initial|, 1, 0, BodyWrite,
                  None, 0, NoAuthority(0));
    assert d.Stream() == initial;
    d
  }

  datatype Effect = Effect(disk: Disk, error: Option<StoreError>)

  /** The outcome of entering one call: refused with an error, or running with or without fault. */
  datatype CallEntry = Refused(error: StoreError) | Running(fault: Option<Fault>)

  function BeginEntry(d: Disk, generation: nat, phase: IoPhase, write: bool): CallEntry {
    if generation == 0 || generation != d.activeGeneration then Refused(StaleAuthority)
    else if d.phase != phase then Refused(InvalidPhase)
    else if d.fault.None? || d.fault.value.callIndex != d.callIndex then Running(None)
    else if !write && d.fault.value.writePrefix.Some? then Refused(InvalidFault)
    else if d.fault.value.before then
      Refused(if d.fault.value.writePrefix.Some? then InvalidFault else Injected)
    else Running(d.fault)
  }

  /** Entering a call counts it once its generation and phase are accepted. */
  function BeginDisk(d: Disk, generation: nat, phase: IoPhase): Disk {
    if generation == 0 || generation != d.activeGeneration || d.phase != phase then d
    else d.(callIndex := d.callIndex + 1)
  }

  function Overwrite(b: Bytes, at: nat, payload: Bytes): (r: Bytes)
    requires at + |payload| <= |b|
    ensures |r| == |b|
  {
    b[..at] + payload + b[at + |payload|..]
  }

  function AppendIo(d: Disk, generation: nat, phase: IoPhase, next: IoPhase, payload: Bytes)
    : (r: Effect)
    requires d.Bounded()
    ensures r.disk.Bounded()
  {
    var entry := BeginEntry(d, generation, phase, true);
    var begun := BeginDisk(d, generation, phase);
    if entry.Refused? then Effect(begun, Some(entry.error))
    else
      var partial := entry.fault.Some? && entry.fault.value.writePrefix.Some?;
      if partial && entry.fault.value.writePrefix.value > |payload| then
        Effect(begun, Some(InvalidFault))
      else
        var n := if partial then entry.fault.value.writePrefix.value else |payload|;
        if d.length + n > |d.backing| then Effect(begun, Some(StorageFull))
        else
          var written := begun.(backing := Overwrite(d.backing, d.length, payload[..n]),
                                length := d.length + n,
                                phase := if n == |payload| then next else phase);
          Effect(written, if entry.fault.Some? then Some(Injected) else None)
  }

  function SyncIo(d: Disk, generation: nat, phase: IoPhase, next: IoPhase): Effect {
    var entry := BeginEntry(d, generation, phase, false);
    var begun := BeginDisk(d, generation, phase);
    if entry.Refused? then Effect(begun, Some(entry.error))
    else
      Effect(begun.(synced := d.length, phase := next),
             if entry.fault.Some? then Some(Injected) else None)
  }

  function TruncateIo(d: Disk, generation: nat, target: nat): Effect {
    var entry := BeginEntry(d, generation, RepairTruncate, false);
    var begun := BeginDisk(d, generation, RepairTruncate);
    if entry.Refused? then Effect(begun, Some(entry.error))
    else if d.authority.repairGeneration != generation || d.authority.repairTarget != target
            || !(HEADER_BYTES <= target < d.length) then
      Effect(begun, Some(RepairTargetChanged))
    else
      Effect(begun.(length := target, phase := RepairSync),
             if entry.fault.Some? then Some(Injected) else None)
  }

  // ---------------------------------------------------------------------------------------
  // Leases, faults and crashes
  // ---------------------------------------------------------------------------------------

  function Snapshotted(e: Env, d: Disk): Result<Snapshot, StoreError>
    requires d.Bounded()
  {
    ContentSnapshot(e, d.Stream(), |d.backing|)
  }

  predicate SnapshotStill(e: Env, d: Disk, snapshotSha: Digest)
    requires d.Bounded()
  {
    Snapshotted(e, d).Success? && Snapshotted(e, d).value.snapshotSha == snapshotSha
  }

  predicate Active(d: Disk, generation: nat) {
    generation != 0 && generation == d.activeGeneration
  }

  /** Taking the lease makes its generation active even if the snapshot then fails. */
  function AcquireDisk(d: Disk): Disk {
    if d.activeGeneration != 0 || d.nextGeneration > U64_MAX then d
    else
      d.(nextGeneration := d.nextGeneration + 1, activeGeneration := d.nextGeneration,
         phase := BodyWrite, fault := None, callIndex := 0, authority := NoAuthority(0))
  }

  function AcquireLease(e: Env, d: Disk): Result<Lease, StoreError>
    requires d.Bounded()
  {
    if d.activeGeneration != 0 then Failure(LeaseBusy)
    else if d.nextGeneration > U64_MAX then Failure(GenerationExhausted)
    else
      var snapshot := Snapshotted(e, d);
      if snapshot.Failure? then Failure(snapshot.error)
      else
        var binding := LeaseSha(e, snapshot.value, d.nextGeneration);
        if binding.Failure? then Failure(binding.error)
        else Success(Lease(d.nextGeneration, snapshot.value, binding.value, LeaseReady))
  }

  function ReleaseDisk(d: Disk, l: Lease): Disk {
    if !Active(d, l.generation) then d
    else d.(activeGeneration := 0, phase := BodyWrite, fault := None, authority := NoAuthority(0))
  }

  function ReleaseLease(d: Disk, l: Lease): Lease {
    if !Active(d, l.generation) then l else l.(generation := 0, state := LeaseClosed)
  }

  function SetFault(d: Disk, fault: Option<Fault>): Disk {
    d.(fault := fault, callIndex := 0)
  }

  function CrashLower(d: Disk): nat {
    if d.length <= d.synced then d.length else d.synced
  }

  function CrashUpper(d: Disk): nat {
    if d.length <= d.synced then d.synced else d.length
  }

  function CrashPersist(d: Disk, persisted: nat): Disk {
    if !(CrashLower(d) <= persisted <= CrashUpper(d)) then d
    else
      d.(length := persisted, synced := persisted, activeGeneration := 0, phase := BodyWrite,
         fault := None, callIndex := 0, authority := NoAuthority(0))
  }

  // ---------------------------------------------------------------------------------------
  // Appending through a writer
  // ---------------------------------------------------------------------------------------

  datatype AppendCapability = AppendCapability(generation: nat, snapshotSha: Digest)

  predicate MayMint(e: Env, d: Disk, l: Lease)
    requires d.Bounded()
  {
    && Active(d, l.generation) && l.state == LeaseReady && l.snapshot.status == Clean
    && d.phase == BodyWrite && SnapshotStill(e, d, l.snapshot.snapshotSha)
  }

  function MintDisk(e: Env, d: Disk, l: Lease): Disk
    requires d.Bounded()
  {
    if !MayMint(e, d, l) then d
    else
      d.(authority := d.authority.(appendGeneration := l.generation,
                                   appendSnapshot := l.snapshot.snapshotSha))
  }

  predicate HasAuthority(d: Disk, c: AppendCapability) {
    && Active(d, c.generation) && d.authority.appendGeneration == c.generation
    && d.authority.appendSnapshot == c.snapshotSha
  }

  predicate MayAppend(e: Env, d: Disk, l: Lease, c: AppendCapability)
    requires d.Bounded()
  {
    HasAuthority(d, c) && l.state == LeaseReady && SnapshotStill(e, d, c.snapshotSha)
  }

  datatype HandleState = HandleReady | Poisoned | Complete

  datatype Writer = Writer(header: Header, state: HandleState)

  /** The expected snapshot after the append, if every preflight check passes. */
  function Preflight(e: Env, d: Disk, l: Lease, c: AppendCapability, w: Writer, encoded: Bytes)
    : Result<Snapshot, StoreError>
    requires d.Bounded()
  {
    if w.state != HandleReady then Failure(NotReady)
    else if !MayAppend(e, d, l, c) then Failure(StaleAuthority)
    else if l.snapshot.committedRecords == U64_MAX then Failure(InvalidRecordBytes)
    else
      var sequence := l.snapshot.committedRecords + 1;
      if DecodeRecord(e.sha, w.header, sequence, l.snapshot.finalChain, encoded).Failure? then
        Failure(InvalidRecordBytes)
      else
        var prospective := ContentSnapshot(e, d.Stream() + encoded, |d.backing|);
        if prospective.Failure? then prospective
        else if prospective.value.status != Clean
                || prospective.value.committedRecords != sequence then Failure(PreflightChanged)
        else prospective
  }

  /** The four ordered calls of one append, stopping at the first that raises. */
  function AppendCalls(d: Disk, c: AppendCapability, body: Bytes, footer: Bytes): (r: Effect)
    requires d.Bounded()
    ensures r.disk.Bounded()
  {
    var a := AppendIo(d, c.generation, BodyWrite, BodySync, body);
    if a.error.Some? then a
    else if !HasAuthority(a.disk, c) then Effect(a.disk, Some(StaleAuthority))
    else
      var b := SyncIo(a.disk, c.generation, BodySync, FooterWrite);
      if b.error.Some? then b
      else if !HasAuthority(b.disk, c) then Effect(b.disk, Some(StaleAuthority))
      else
        var f := AppendIo(b.disk, c.generation, FooterWrite, FooterSync, footer);
        if f.error.Some? then f
        else if !HasAuthority(f.disk, c) then Effect(f.disk, Some(StaleAuthority))
        else SyncIo(f.disk, c.generation, FooterSync, BodyWrite)
  }

  datatype Appended = Appended(
    disk: Disk, lease: Lease, capability: AppendCapability, writer: Writer,
    error: Option<StoreError>)

  function AppendRecord(e: Env, d: Disk, l: Lease, c: AppendCapability, w: Writer,
    encoded: Bytes): (r: Appended)
    requires d.Bounded()
    ensures r.disk.Bounded()
  {
    var prospective := Preflight(e, d, l, c, w, encoded);
    if prospective.Failure? then Appended(d, l, c, w, Some(prospective.error))
    else
      PreflightLength(e, d, l, c, w, encoded);
      var poisoned := w.(state := Poisoned);
      var io := AppendCalls(d, c, encoded[..RECORD_BODY_BYTES], encoded[RECORD_BODY_BYTES..]);
      if io.error.Some? then Appended(io.disk, l, c, poisoned, io.error)
      else
        var actual := Snapshotted(e, io.disk);
        if actual.Failure? then Appended(io.disk, l, c, poisoned, Some(actual.error))
        else if actual.value != prospective.value then
          Appended(io.disk, l, c, poisoned, Some(CommittedDiffers))
        else if !Active(io.disk, l.generation) then
          Appended(io.disk, l, c, poisoned, Some(StaleAuthority))
        else
          var advanced := l.(snapshot := actual.value);
          var binding := LeaseSha(e, actual.value, l.generation);
          if binding.Failure? then
            Appended(io.disk, advanced, c, poisoned, Some(binding.error))
          else
            var root := actual.value.snapshotSha;
            Appended(
              io.disk.(authority := io.disk.authority.(appendSnapshot := root)),
              advanced.(leaseSha := binding.value), c.(snapshotSha := root),
              w.(state := HandleReady), None)
  }

  lemma PreflightLength(e: Env, d: Disk, l: Lease, c: AppendCapability, w: Writer,
    encoded: Bytes)
    requires d.Bounded() && Preflight(e, d, l, c, w, encoded).Success?
    ensures |encoded| == RECORD_BYTES
  {
    hide ContentSnapshot, ParseFrame, ValidHeader, ValidRecord, RecordOf, FromLE64;
  }

  // ---------------------------------------------------------------------------------------
  // Repairing through a repairer
  // ---------------------------------------------------------------------------------------

  datatype RepairCapability = RepairCapability(generation: nat, plan: Plan)

  function PrepareRepair(e: Env, d: Disk, l: Lease): Result<Plan, StoreError>
    requires d.Bounded()
  {
    if !Active(d, l.generation) then Failure(StaleAuthority)
    else if l.state != LeaseReady || d.phase != BodyWrite then Failure(CannotRepair)
    else if !SnapshotStill(e, d, l.snapshot.snapshotSha) then Failure(SnapshotChanged)
    else MakeRepairPlan(e, l)
  }

  function PrepareRepairDisk(e: Env, d: Disk, l: Lease): Disk
    requires d.Bounded()
  {
    var plan := PrepareRepair(e, d, l);
    if plan.Failure? then d
    else
      d.(phase := RepairTruncate,
         authority := Authority(0, ZERO_DIGEST, l.generation, l.snapshot.snapshotSha,
                                plan.value.committedBytes))
  }

  predicate MayRepair(d: Disk, l: Lease, c: RepairCapability) {
    && Active(d, c.generation)
    && (l.state == RepairReady || l.state == RepairActive)
    && d.authority.repairGeneration == c.generation
    && d.authority.repairSnapshot == l.snapshot.snapshotSha
    && c.plan.leaseSha == l.leaseSha
  }

  datatype Repaired = Repaired(
    disk: Disk, lease: Lease, repairer: HandleState, error: Option<StoreError>)

  predicate MatchesPlan(s: Snapshot, p: Plan) {
    && s.status == Clean && s.observedBytes == p.committedBytes && s.finalChain == p.finalChain
    && s.stateSha == p.stateSha && s.ledgerSha == p.ledgerSha
  }

  function ApplyRepair(e: Env, d: Disk, l: Lease, c: RepairCapability, repairer: HandleState)
    : Repaired
    requires d.Bounded()
  {
    if repairer != HandleReady then Repaired(d, l, repairer, Some(NotReady))
    else if !MayRepair(d, l, c) then Repaired(d, l, repairer, Some(StaleAuthority))
    else if !SnapshotStill(e, d, l.snapshot.snapshotSha) then
      Repaired(d, l, Poisoned, Some(SnapshotChanged))
    else
      var t := TruncateIo(d, c.generation, c.plan.committedBytes);
      if t.error.Some? then Repaired(t.disk, l, Poisoned, t.error)
      else
        var active := l.(state := RepairActive);
        if !MayRepair(t.disk, active, c) then
          Repaired(t.disk, active, Poisoned, Some(StaleAuthority))
        else
          var s := SyncIo(t.disk, c.generation, RepairSync, BodyWrite);
          if s.error.Some? then Repaired(s.disk, active, Poisoned, s.error)
          else
            var done := l.(state := RepairComplete);
            var repaired := Snapshotted(e, s.disk);
            if repaired.Failure? then Repaired(s.disk, done, Poisoned, Some(repaired.error))
            else if !MatchesPlan(repaired.value, c.plan) then
              Repaired(s.disk, done, Poisoned, Some(RepairChanged))
            else Repaired(s.disk, done, Complete, None)
  }
}
