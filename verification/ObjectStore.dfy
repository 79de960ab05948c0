/**
 * The tenant object store on values: slots, grants and what each operation does to the slots
 * (class Store in bench/continuation_object_store.py). Budgets are stated over sums recomputed
 * from the slots; the nine running counters live in ObjectStoreClass.
 */
module ObjectStore {
  import opened Bytes
  import opened Outbox

  const INDEX_ENTRY_BYTES := 128

  const OPERATION_PUT := 1
  const OPERATION_GET := 2
  const OPERATION_RELEASE := 4
  const OPERATION_QUARANTINE := 8
  const OPERATION_VERIFY := 16

  const LEASE_ACQUIRE := 1
  const LEASE_RENEW := 2
  const LEASE_RELEASE := 4
  const LEASE_EXPIRE := 8

  const BLOB_DOMAIN := Ascii("glacier-continuation-bundle-blob-v1\0")
  const GRANT_DOMAIN := Ascii("glacier-continuation-store-grant-v1\0")
  const SNAPSHOT_DOMAIN := Ascii("glacier-continuation-store-snapshot-v1\0")
  const LIFECYCLE_SNAPSHOT_DOMAIN := Ascii("glacier-continuation-store-snapshot-v2\0")
  const LIFECYCLE_GRANT_DOMAIN := Ascii("glacier-continuation-store-lifecycle-grant-v1\0")
  const REPAIR_GRANT_DOMAIN := Ascii("glacier-continuation-store-repair-grant-v1\0")
  const REPAIR_RECEIPT_DOMAIN := Ascii("glacier-continuation-store-repair-receipt-v1\0")
  const LEASE_RECEIPT_DOMAIN := Ascii("glacier-continuation-store-lease-receipt-v1\0")

  datatype StoreError =
    | Closed | Denied | InvalidGrant | InvalidDigest | InvalidProvenance | BlobMismatch
    | ObjectTooLarge | DigestCollision | Quarantined | Retired | ReferenceBudget
    | EntryCapacity | IndexBudget | PayloadBudget | AllocatorFailure | NativeCapacity
    | NotFound | CorruptPayload | LeaseIsActive | FinalReferenceRequired | ScopeMismatch
    | LeaseNotActive | StaleLease | InvalidLeaseWindow | LeaseSpanExceeded | LeaseBudget
    | LeaseExpired | LeaseNotExpired | GenerationExhausted | InvalidAccounting
    | RepairTargetMismatch | RepairSourceMismatch | NotQuarantined | RepairReasonMismatch
    | RepairTooLarge | InvalidPermit | RetiredTargetMismatch | FreedBudget | SnapshotMismatch
    | PreviewMismatch

  datatype BlobRef = BlobRef(byteLength: nat, sha: Digest)

  datatype SlotState = SlotLive | SlotQuarantined | SlotRetired

  datatype LeaseMark = LeaseMark(generation: nat, active: bool, receipt: Digest)

  datatype Slot = Slot(
    state: SlotState, blob: BlobRef, payload: Bytes, references: nat, provenance: Digest,
    reason: Digest, lease: LeaseMark, repairs: nat)

  type Slots = seq<Option<Slot>>

  datatype Grant = Grant(
    epoch: u64, tenant: Digest, bundle: Digest, operations: u64, maxEntries: u64,
    maxObjectBytes: u64, maxPayloadBytes: u64, maxIndexBytes: u64, maxReferences: u64,
    challenge: Digest)

  /** What is fixed for one store; `failAfter` is its scripted allocator failure. */
  datatype Config = Config(sha: Sha, grant: Grant, capacity: nat, failAfter: Option<nat>)

  datatype Content = Content(slots: Slots, insertions: int, closed: bool)

  datatype Outcome<+T> = Outcome(content: Content, reply: Result<T, StoreError>)

  predicate HasBit(mask: nat, bit: nat)
    requires bit > 0
  {
    mask / bit % 2 == 1
  }

  predicate ValidGrant(g: Grant) {
    && g.tenant != ZERO_DIGEST && g.bundle != ZERO_DIGEST && g.challenge != ZERO_DIGEST
    && g.epoch != 0 && 0 < g.operations < 32
    && g.maxEntries != 0 && g.maxObjectBytes != 0 && g.maxPayloadBytes != 0
    && g.maxIndexBytes != 0 && g.maxReferences != 0
    && g.maxObjectBytes <= g.maxPayloadBytes
  }

  /** What the constructor of a store demands. */
  predicate ValidConfig(cfg: Config) {
    ValidGrant(cfg.grant) && cfg.grant.maxEntries <= cfg.capacity
  }

  // ---------------------------------------------------------------------------------------
  // Counting slots
  // ---------------------------------------------------------------------------------------

  /** The nine things a store counts. */
  datatype Counter =
    | Entries | LiveEntries | QuarantinedEntries | RetiredEntries | PayloadBytes | IndexBytes
    | References | ActiveLeases | Repairs

  /** What one slot adds to one count. */
  function Weight(c: Counter, s: Option<Slot>): nat {
    if s.None? then 0
    else
      match c
      case Entries => 1
      case LiveEntries => if s.value.state == SlotLive then 1 else 0
      case QuarantinedEntries => if s.value.state == SlotQuarantined then 1 else 0
      case RetiredEntries => if s.value.state == SlotRetired then 1 else 0
      case PayloadBytes => s.value.blob.byteLength
      case IndexBytes => INDEX_ENTRY_BYTES
      case References => s.value.references
      case ActiveLeases => if s.value.lease.active then 1 else 0
      case Repairs => s.value.repairs
  }

  function Sum(slots: Slots, c: Counter): nat {
    if slots == [] then 0
    else Sum(slots[..|slots| - 1], c) + Weight(c, slots[|slots| - 1])
  }

  /** Replacing one slot moves a count by the difference of its weights. */
  lemma {:induction false} SumUpdate(slots: Slots, i: nat, s: Option<Slot>, c: Counter)
    requires i < |slots|
    ensures Sum(slots[i := s], c) == Sum(slots, c) - Weight(c, slots[i]) + Weight(c, s)
  {
    hide Weight;
    var n := |slots| - 1;
    var after := slots[i := s];
    if i == n {
      assert after[..n] == slots[..n];
    } else {
      assert after[..n] == slots[..n][i := s];
      SumUpdate(slots[..n], i, s, c);
    }
  }

  lemma {:induction false} WeightBounded(slots: Slots, i: nat, c: Counter)
    requires i < |slots|
    ensures Weight(c, slots[i]) <= Sum(slots, c)
  {
    hide Weight;
    var n := |slots| - 1;
    if i < n {
      WeightBounded(slots[..n], i, c);
    }
  }

  // ---------------------------------------------------------------------------------------
  // The rules of a good store
  // ---------------------------------------------------------------------------------------

  predicate SlotGood(g: Grant, s: Slot) {
    && 0 < s.blob.byteLength <= g.maxObjectBytes && s.provenance == g.bundle
    && (s.state == SlotRetired <==> s.references == 0)
    && (s.state == SlotQuarantined <==> s.reason != ZERO_DIGEST)
    && (s.lease.active ==> s.state == SlotLive && s.lease.generation != 0)
    && (s.lease.active <==> s.lease.receipt != ZERO_DIGEST)
  }

  predicate Unique(slots: Slots) {
    forall i, j | 0 <= i < j < |slots| && slots[i].Some? && slots[j].Some? ::
      slots[i].value.blob.sha != slots[j].value.blob.sha
  }

  predicate WithinBudgets(g: Grant, slots: Slots) {
    && Sum(slots, Entries) <= g.maxEntries
    && Sum(slots, PayloadBytes) <= g.maxPayloadBytes
    && Sum(slots, IndexBytes) <= g.maxIndexBytes
    && Sum(slots, References) <= g.maxReferences
    && Sum(slots, Repairs) <= U64_MAX
  }

  /** Every rule that verification checks, apart from the payload bytes themselves. */
  predicate StoreGood(cfg: Config, slots: Slots) {
    && |slots| == cfg.capacity
    && (forall i | 0 <= i < |slots| && slots[i].Some? :: SlotGood(cfg.grant, slots[i].value))
    && Unique(slots) && WithinBudgets(cfg.grant, slots)
  }

  predicate Hashable(payload: Bytes) {
    0 < |payload| <= U64_MAX
  }

  function BlobOf(cfg: Config, payload: Bytes): BlobRef
    requires Hashable(payload)
  {
    BlobRef(|payload|,
            cfg.sha(BLOB_DOMAIN + cfg.grant.tenant + LE64(|payload|) + payload))
  }

  predicate Intact(cfg: Config, s: Slot) {
    Hashable(s.payload) && BlobOf(cfg, s.payload) == s.blob
  }

  // ---------------------------------------------------------------------------------------
  // Looking up
  // ---------------------------------------------------------------------------------------

  predicate Holds(s: Option<Slot>, expected: BlobRef) {
    s.Some? && s.value.blob == expected
  }

  predicate HoldsDigest(s: Option<Slot>, sha: Digest) {
    s.Some? && s.value.blob.sha == sha
  }

  /** The first slot from `from` on that holds `expected`. */
  function FindFrom(slots: Slots, expected: BlobRef, from: nat): (r: Option<nat>)
    requires from <= |slots|
    ensures r.Some? ==> from <= r.value < |slots| && Holds(slots[r.value], expected)
    ensures r.Some? ==> forall i | from <= i < r.value :: !Holds(slots[i], expected)
    ensures r.None? ==> forall i | from <= i < |slots| :: !Holds(slots[i], expected)
    decreases |slots| - from
  {
    if from == |slots| then None
    else if Holds(slots[from], expected) then Some(from)
    else FindFrom(slots, expected, from + 1)
  }

  function Find(slots: Slots, expected: BlobRef): Option<nat> {
    FindFrom(slots, expected, 0)
  }

  function FindDigestFrom(slots: Slots, sha: Digest, from: nat): (r: Option<nat>)
    requires from <= |slots|
    ensures r.Some? ==> from <= r.value < |slots| && HoldsDigest(slots[r.value], sha)
    ensures r.None? ==> forall i | from <= i < |slots| :: !HoldsDigest(slots[i], sha)
    decreases |slots| - from
  {
    if from == |slots| then None
    else if HoldsDigest(slots[from], sha) then Some(from)
    else FindDigestFrom(slots, sha, from + 1)
  }

  function FirstEmptyFrom(slots: Slots, from: nat): (r: Option<nat>)
    requires from <= |slots|
    ensures r.Some? ==> from <= r.value < |slots| && slots[r.value].None?
    ensures r.Some? ==> forall i | from <= i < r.value :: slots[i].Some?
    ensures r.None? ==> forall i | from <= i < |slots| :: slots[i].Some?
    decreases |slots| - from
  {
    if from == |slots| then None
    else if slots[from].None? then Some(from)
    else FirstEmptyFrom(slots, from + 1)
  }

  // ---------------------------------------------------------------------------------------
  // Operations on references
  // ---------------------------------------------------------------------------------------

  function Refused(cfg: Config, st: Content, operation: nat): Option<StoreError>
    requires operation > 0
  {
    if st.closed then Some(Closed)
    else if !HasBit(cfg.grant.operations, operation) then Some(Denied)
    else None
  }

  datatype Placed = Placed(index: nat, inserted: bool, references: nat)

  function NewSlot(expected: BlobRef, payload: Bytes, provenance: Digest): Slot {
    Slot(SlotLive, expected, payload, 1, provenance, ZERO_DIGEST,
         LeaseMark(0, false, ZERO_DIGEST), 0)
  }

  function SetSlot(st: Content, i: nat, s: Option<Slot>): Content
    requires i < |st.slots|
  {
    st.(slots := st.slots[i := s])
  }

  /** One more reference to a blob that is already stored. */
  function Reuse(cfg: Config, st: Content, i: nat, expected: BlobRef, payload: Bytes)
    : Outcome<Placed>
    requires i < |st.slots| && st.slots[i].Some?
  {
    var s := st.slots[i].value;
    if s.blob.byteLength != expected.byteLength || s.payload != payload then
      Outcome(st, Failure(DigestCollision))
    else if s.state == SlotQuarantined then Outcome(st, Failure(Quarantined))
    else if s.state == SlotRetired then Outcome(st, Failure(Retired))
    else if Sum(st.slots, References) + 1 > cfg.grant.maxReferences then
      Outcome(st, Failure(ReferenceBudget))
    else
      Outcome(SetSlot(st, i, Some(s.(references := s.references + 1))),
              Success(Placed(i, false, s.references + 1)))
  }

  /** The first reference to a new blob, in the first empty slot. */
  function Insert(cfg: Config, st: Content, expected: BlobRef, payload: Bytes,
    provenance: Digest): Outcome<Placed>
  {
    var g := cfg.grant;
    if Sum(st.slots, Entries) >= g.maxEntries then Outcome(st, Failure(EntryCapacity))
    else if Sum(st.slots, IndexBytes) + INDEX_ENTRY_BYTES > g.maxIndexBytes then
      Outcome(st, Failure(IndexBudget))
    else if Sum(st.slots, PayloadBytes) + expected.byteLength > g.maxPayloadBytes then
      Outcome(st, Failure(PayloadBudget))
    else if Sum(st.slots, References) + 1 > g.maxReferences then
      Outcome(st, Failure(ReferenceBudget))
    else if cfg.failAfter.Some? && st.insertions >= cfg.failAfter.value then
      Outcome(st, Failure(AllocatorFailure))
    else
      var free := FirstEmptyFrom(st.slots, 0);
      if free.None? then Outcome(st, Failure(NativeCapacity))
      else
        Outcome(SetSlot(st, free.value, Some(NewSlot(expected, payload, provenance)))
                  .(insertions := st.insertions + 1),
                Success(Placed(free.value, true, 1)))
  }

  function Put(cfg: Config, st: Content, expected: BlobRef, payload: Bytes, provenance: Digest)
    : Outcome<Placed>
  {
    var refused := Refused(cfg, st, OPERATION_PUT);
    if refused.Some? then Outcome(st, Failure(refused.value))
    else if provenance == ZERO_DIGEST || provenance != cfg.grant.bundle then
      Outcome(st, Failure(InvalidProvenance))
    else if !Hashable(payload) || BlobOf(cfg, payload) != expected then
      Outcome(st, Failure(BlobMismatch))
    else if expected.byteLength > cfg.grant.maxObjectBytes then
      Outcome(st, Failure(ObjectTooLarge))
    else
      var found := FindDigestFrom(st.slots, expected.sha, 0);
      if found.Some? then Reuse(cfg, st, found.value, expected, payload)
      else Insert(cfg, st, expected, payload, provenance)
  }

  /** The slot an operation addresses, or why it may not be used. */
  function Addressed(st: Content, expected: BlobRef): (r: Result<nat, StoreError>)
    ensures r.Success? ==> r.value < |st.slots| && Holds(st.slots[r.value], expected)
    ensures r.Success? ==> Find(st.slots, expected) == Some(r.value)
  {
    var found := Find(st.slots, expected);
    if found.None? then Failure(NotFound) else Success(found.value)
  }

  /** An operation that only live objects accept. */
  function AddressedLive(st: Content, expected: BlobRef): (r: Result<nat, StoreError>)
    ensures r.Success? ==>
              && r.value < |st.slots| && Holds(st.slots[r.value], expected)
              && st.slots[r.value].value.state == SlotLive
    ensures r.Success? ==> Find(st.slots, expected) == Some(r.value)
  {
    var found := Addressed(st, expected);
    if found.Failure? then found
    else if st.slots[found.value].value.state == SlotQuarantined then Failure(Quarantined)
    else if st.slots[found.value].value.state == SlotRetired then Failure(Retired)
    else
      assert st.slots[found.value].value.state.SlotLive?;
      found
  }

  function Get(cfg: Config, st: Content, expected: BlobRef): Result<Bytes, StoreError> {
    var refused := Refused(cfg, st, OPERATION_GET);
    var found := AddressedLive(st, expected);
    if refused.Some? then Failure(refused.value)
    else if found.Failure? then Failure(found.error)
    else if !Intact(cfg, st.slots[found.value].value) then Failure(CorruptPayload)
    else Success(st.slots[found.value].value.payload)
  }

  function Release(cfg: Config, st: Content, expected: BlobRef): Outcome<()> {
    var refused := Refused(cfg, st, OPERATION_RELEASE);
    var found := Addressed(st, expected);
    if refused.Some? then Outcome(st, Failure(refused.value))
    else if found.Failure? then Outcome(st, Failure(found.error))
    else
      var s := st.slots[found.value].value;
      if s.state == SlotRetired then Outcome(st, Failure(Retired))
      else if s.references > 1 then
        Outcome(SetSlot(st, found.value, Some(s.(references := s.references - 1))), Success(()))
      else if s.lease.active then Outcome(st, Failure(LeaseIsActive))
      else Outcome(SetSlot(st, found.value, None), Success(()))
  }

  function Retire(cfg: Config, st: Content, expected: BlobRef): Outcome<()> {
    var refused := Refused(cfg, st, OPERATION_RELEASE);
    var found := AddressedLive(st, expected);
    if refused.Some? then Outcome(st, Failure(refused.value))
    else if found.Failure? then Outcome(st, Failure(found.error))
    else
      var s := st.slots[found.value].value;
      if s.lease.active then Outcome(st, Failure(LeaseIsActive))
      else if s.references != 1 then Outcome(st, Failure(FinalReferenceRequired))
      else
        Outcome(SetSlot(st, found.value, Some(s.(references := 0, state := SlotRetired))),
                Success(()))
  }

  function ClearLease(s: Slot): Slot {
    s.(lease := s.lease.(active := false, receipt := ZERO_DIGEST))
  }

  function Quarantine(cfg: Config, st: Content, expected: BlobRef, reason: Digest): Outcome<()> {
    var refused := Refused(cfg, st, OPERATION_QUARANTINE);
    var found := AddressedLive(st, expected);
    if refused.Some? then Outcome(st, Failure(refused.value))
    else if reason == ZERO_DIGEST then Outcome(st, Failure(InvalidDigest))
    else if found.Failure? then Outcome(st, Failure(found.error))
    else
      var s := st.slots[found.value].value;
      var free := if s.lease.active then ClearLease(s) else s;
      Outcome(SetSlot(st, found.value, Some(free.(state := SlotQuarantined, reason := reason))),
              Success(()))
  }

  // ---------------------------------------------------------------------------------------
  // Leases
  // ---------------------------------------------------------------------------------------

  datatype LifecycleGrant = LifecycleGrant(
    epoch: u64, tenant: Digest, bundle: Digest, storeGrant: Digest, operations: u64,
    maxActiveLeases: u64, maxSpanTicks: u64, challenge: Digest)

  datatype LeaseReceipt = LeaseReceipt(
    target: BlobRef, generation: nat, owner: Digest, expires: u64, lifecycleGrant: Digest,
    leaseSha: Digest)

  /** Eight little-endian bytes; every count of a good store is below 2 to the 64. */
  function Word(n: nat): (r: Bytes)
    ensures |r| == 8
  {
    LittleEndian(n, 8)
  }

  function GrantRoot(cfg: Config): Digest {
    var g := cfg.grant;
    cfg.sha(GRANT_DOMAIN + LE64(g.epoch) + g.tenant + g.bundle
            + PackWords([g.operations, g.maxEntries, g.maxObjectBytes, g.maxPayloadBytes,
                         g.maxIndexBytes, g.maxReferences])
            + g.challenge)
  }

  predicate ValidLifecycleGrant(l: LifecycleGrant) {
    && l.tenant != ZERO_DIGEST && l.bundle != ZERO_DIGEST && l.storeGrant != ZERO_DIGEST
    && l.challenge != ZERO_DIGEST && l.epoch != 0 && 0 < l.operations < 16
    && l.maxActiveLeases != 0 && l.maxSpanTicks != 0
  }

  function LifecycleGrantRoot(cfg: Config, l: LifecycleGrant): Digest {
    cfg.sha(LIFECYCLE_GRANT_DOMAIN + LE64(l.epoch) + l.tenant + l.bundle + l.storeGrant
            + LE64(l.operations) + LE64(l.maxActiveLeases) + LE64(l.maxSpanTicks) + l.challenge)
  }

  function LifecycleRefused(cfg: Config, st: Content, l: LifecycleGrant, operation: nat)
    : Option<StoreError>
    requires operation > 0
  {
    if st.closed then Some(Closed)
    else if !ValidLifecycleGrant(l) then Some(InvalidGrant)
    else if !HasBit(l.operations, operation) then Some(Denied)
    else if l.epoch != cfg.grant.epoch || l.tenant != cfg.grant.tenant
            || l.bundle != cfg.grant.bundle || l.storeGrant != GrantRoot(cfg)
            || l.maxActiveLeases > cfg.grant.maxEntries then Some(ScopeMismatch)
    else None
  }

  function LeaseRoot(cfg: Config, r: LeaseReceipt): Digest {
    cfg.sha(LEASE_RECEIPT_DOMAIN + Word(r.target.byteLength) + r.target.sha + Word(r.generation)
            + r.owner + LE64(r.expires) + r.lifecycleGrant)
  }

  function MakeLeaseReceipt(cfg: Config, target: BlobRef, generation: nat, owner: Digest,
    expires: u64, lifecycleGrant: Digest): LeaseReceipt
  {
    var r := LeaseReceipt(target, generation, owner, expires, lifecycleGrant, ZERO_DIGEST);
    r.(leaseSha := LeaseRoot(cfg, r))
  }

  predicate CurrentLease(cfg: Config, s: Slot, expected: BlobRef, r: LeaseReceipt) {
    && s.lease.active
    && r.target == expected && r.generation != 0 && r.owner != ZERO_DIGEST && r.expires != 0
    && r.lifecycleGrant != ZERO_DIGEST && r.leaseSha == LeaseRoot(cfg, r)
    && r.generation == s.lease.generation && r.leaseSha == s.lease.receipt
  }

  function WindowError(observed: u64, expires: u64, span: u64): Option<StoreError> {
    if expires <= observed then Some(InvalidLeaseWindow)
    else if expires - observed > span then Some(LeaseSpanExceeded)
    else None
  }

  /** The slot under a new lease generation with `receipt` as its only valid receipt. */
  function Leased(s: Slot, r: LeaseReceipt): Slot {
    s.(lease := LeaseMark(r.generation, true, r.leaseSha))
  }

  function AcquireLease(cfg: Config, st: Content, expected: BlobRef, l: LifecycleGrant,
    owner: Digest, observed: u64, expires: u64): Outcome<LeaseReceipt>
  {
    var refused := LifecycleRefused(cfg, st, l, LEASE_ACQUIRE);
    var window := WindowError(observed, expires, l.maxSpanTicks);
    var found := AddressedLive(st, expected);
    if refused.Some? then Outcome(st, Failure(refused.value))
    else if owner == ZERO_DIGEST then Outcome(st, Failure(InvalidDigest))
    else if window.Some? then Outcome(st, Failure(window.value))
    else if found.Failure? then Outcome(st, Failure(found.error))
    else
      var s := st.slots[found.value].value;
      if s.lease.active then Outcome(st, Failure(LeaseIsActive))
      else if Sum(st.slots, ActiveLeases) >= l.maxActiveLeases then
        Outcome(st, Failure(LeaseBudget))
      else if !Intact(cfg, s) then Outcome(st, Failure(CorruptPayload))
      else if s.lease.generation == U64_MAX then Outcome(st, Failure(GenerationExhausted))
      else
        var r := MakeLeaseReceipt(cfg, expected, s.lease.generation + 1, owner, expires,
                                  LifecycleGrantRoot(cfg, l));
        Outcome(SetSlot(st, found.value, Some(Leased(s, r))), Success(r))
  }

  function RenewLease(cfg: Config, st: Content, expected: BlobRef, current: LeaseReceipt,
    l: LifecycleGrant, observed: u64, expires: u64): Outcome<LeaseReceipt>
  {
    var refused := LifecycleRefused(cfg, st, l, LEASE_RENEW);
    var window := WindowError(observed, expires, l.maxSpanTicks);
    var found := Addressed(st, expected);
    if refused.Some? then Outcome(st, Failure(refused.value))
    else if found.Failure? then Outcome(st, Failure(found.error))
    else
      var s := st.slots[found.value].value;
      if !s.lease.active then Outcome(st, Failure(LeaseNotActive))
      else if !CurrentLease(cfg, s, expected, current) then Outcome(st, Failure(StaleLease))
      else if observed >= current.expires then Outcome(st, Failure(LeaseExpired))
      else if expires <= current.expires then Outcome(st, Failure(InvalidLeaseWindow))
      else if window.Some? then Outcome(st, Failure(window.value))
      else if !Intact(cfg, s) then Outcome(st, Failure(CorruptPayload))
      else if s.lease.generation == U64_MAX then Outcome(st, Failure(GenerationExhausted))
      else
        var r := MakeLeaseReceipt(cfg, expected, s.lease.generation + 1, current.owner, expires,
                                  LifecycleGrantRoot(cfg, l));
        Outcome(SetSlot(st, found.value, Some(Leased(s, r))), Success(r))
  }

  /** Giving a lease back, or expiring it once its time has come. */
  function EndLease(cfg: Config, st: Content, expected: BlobRef, current: LeaseReceipt,
    l: LifecycleGrant, expiring: Option<u64>): Outcome<()>
  {
    var refused :=
      LifecycleRefused(cfg, st, l, if expiring.Some? then LEASE_EXPIRE else LEASE_RELEASE);
    var found := Addressed(st, expected);
    if refused.Some? then Outcome(st, Failure(refused.value))
    else if found.Failure? then Outcome(st, Failure(found.error))
    else
      var s := st.slots[found.value].value;
      if !s.lease.active then Outcome(st, Failure(LeaseNotActive))
      else if !CurrentLease(cfg, s, expected, current) then Outcome(st, Failure(StaleLease))
      else if expiring.Some? && expiring.value < current.expires then
        Outcome(st, Failure(LeaseNotExpired))
      else Outcome(SetSlot(st, found.value, Some(ClearLease(s))), Success(()))
  }

  // ---------------------------------------------------------------------------------------
  // Repair grants
  // ---------------------------------------------------------------------------------------

  datatype RepairGrant = RepairGrant(
    epoch: u64, tenant: Digest, bundle: Digest, storeGrant: Digest, target: BlobRef,
    trustedSource: Digest, expectedReason: Digest, maxRepairBytes: u64, challenge: Digest)

  predicate ValidRepairGrant(r: RepairGrant) {
    && r.tenant != ZERO_DIGEST && r.bundle != ZERO_DIGEST && r.storeGrant != ZERO_DIGEST
    && r.trustedSource != ZERO_DIGEST && r.expectedReason != ZERO_DIGEST
    && r.challenge != ZERO_DIGEST && r.target.sha != ZERO_DIGEST && r.epoch != 0
    && 0 < r.target.byteLength <= r.maxRepairBytes
  }

  function RepairRefused(cfg: Config, st: Content, r: RepairGrant, expected: BlobRef,
    source: Digest): Option<StoreError>
  {
    if st.closed then Some(Closed)
    else if !ValidRepairGrant(r) then Some(InvalidGrant)
    else if r.epoch != cfg.grant.epoch || r.tenant != cfg.grant.tenant
            || r.bundle != cfg.grant.bundle || r.storeGrant != GrantRoot(cfg) then
      Some(ScopeMismatch)
    else if r.target != expected then Some(RepairTargetMismatch)
    else if r.trustedSource != source then Some(RepairSourceMismatch)
    else None
  }

  // ---------------------------------------------------------------------------------------
  // Snapshot roots
  // ---------------------------------------------------------------------------------------

  function StateCode(s: SlotState): nat {
    match s
    case SlotLive => 1
    case SlotQuarantined => 2
    case SlotRetired => 3
  }

  function SlotV1(i: nat, s: Slot): Bytes {
    Word(i) + Word(StateCode(s.state)) + Word(s.blob.byteLength) + s.blob.sha
    + Word(s.references) + s.provenance + s.reason
  }

  function SlotV2(i: nat, s: Slot): Bytes {
    Word(i) + Word(if s.lease.active then 1 else 0) + Word(s.lease.generation)
    + s.lease.receipt + Word(s.repairs)
  }

  function SlotsV1(slots: Slots, from: nat): Bytes
    requires from <= |slots|
    decreases |slots| - from
  {
    if from == |slots| then []
    else (if slots[from].Some? then SlotV1(from, slots[from].value) else [])
         + SlotsV1(slots, from + 1)
  }

  function SlotsV2(slots: Slots, from: nat): Bytes
    requires from <= |slots|
    decreases |slots| - from
  {
    if from == |slots| then []
    else (if slots[from].Some? then SlotV2(from, slots[from].value) else [])
         + SlotsV2(slots, from + 1)
  }

  function SnapshotV1(cfg: Config, slots: Slots): Digest {
    cfg.sha(SNAPSHOT_DOMAIN + GrantRoot(cfg) + Word(Sum(slots, Entries))
            + Word(Sum(slots, LiveEntries)) + Word(Sum(slots, QuarantinedEntries))
            + Word(Sum(slots, PayloadBytes)) + Word(Sum(slots, IndexBytes))
            + Word(Sum(slots, References)) + SlotsV1(slots, 0))
  }

  function SnapshotPreimage(cfg: Config, slots: Slots): Bytes {
    LIFECYCLE_SNAPSHOT_DOMAIN + SnapshotV1(cfg, slots) + Word(Sum(slots, ActiveLeases))
    + Word(Sum(slots, Repairs)) + SlotsV2(slots, 0)
  }

  /** The lifecycle snapshot root. */
  function Snapshot(cfg: Config, slots: Slots): Digest {
    cfg.sha(SnapshotPreimage(cfg, slots))
  }

  // ---------------------------------------------------------------------------------------
  // Repairing
  // ---------------------------------------------------------------------------------------

  datatype RepairReceipt = RepairReceipt(
    target: BlobRef, generation: nat, source: Digest, reason: Digest, grantSha: Digest,
    snapshot: Digest, repairSha: Digest)

  function RepairGrantRoot(cfg: Config, r: RepairGrant): Digest {
    cfg.sha(REPAIR_GRANT_DOMAIN + LE64(r.epoch) + r.tenant + r.bundle + r.storeGrant
            + Word(r.target.byteLength) + r.target.sha + r.trustedSource + r.expectedReason
            + LE64(r.maxRepairBytes) + r.challenge)
  }

  /** The receipt of a repair, over the store that it leaves behind. */
  function MakeRepairReceipt(cfg: Config, after: Slots, s: Slot, source: Digest, r: RepairGrant)
    : RepairReceipt
  {
    var c := RepairReceipt(s.blob, s.repairs + 1, source, s.reason, RepairGrantRoot(cfg, r),
                           Snapshot(cfg, after), ZERO_DIGEST);
    c.(repairSha := RepairReceiptRoot(cfg, c))
  }

  function RepairReceiptRoot(cfg: Config, c: RepairReceipt): Digest {
    cfg.sha(REPAIR_RECEIPT_DOMAIN + Word(c.target.byteLength) + c.target.sha
            + Word(c.generation) + c.source + c.reason + c.grantSha + c.snapshot)
  }

  function Repaired(s: Slot, candidate: Bytes): Slot {
    s.(payload := candidate, state := SlotLive, reason := ZERO_DIGEST, repairs := s.repairs + 1)
  }

  /** Replaces the payload of a quarantined object by bytes that hash to its blob again. */
  function Repair(cfg: Config, st: Content, expected: BlobRef, candidate: Bytes, source: Digest,
    r: RepairGrant): Outcome<RepairReceipt>
  {
    var refused := RepairRefused(cfg, st, r, expected, source);
    var found := Addressed(st, expected);
    if refused.Some? then Outcome(st, Failure(refused.value))
    else if found.Failure? then Outcome(st, Failure(found.error))
    else
      var s := st.slots[found.value].value;
      if s.state != SlotQuarantined then Outcome(st, Failure(NotQuarantined))
      else if s.lease.active then Outcome(st, Failure(LeaseIsActive))
      else if s.reason != r.expectedReason then Outcome(st, Failure(RepairReasonMismatch))
      else if !Hashable(candidate) || BlobOf(cfg, candidate) != expected then
        Outcome(st, Failure(RepairTargetMismatch))
      else if s.repairs == U64_MAX || Sum(st.slots, Repairs) == U64_MAX then
        Outcome(st, Failure(GenerationExhausted))
      else
        var after := SetSlot(st, found.value, Some(Repaired(s, candidate)));
        Outcome(after, Success(MakeRepairReceipt(cfg, after.slots, s, source, r)))
  }
}
