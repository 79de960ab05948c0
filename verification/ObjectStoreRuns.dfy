/**
 * Runs of store operations, imports and retired commits among them: the rules and payloads
 * that every run keeps, and how each operation may change each slot.
 */
module ObjectStoreRuns {
  import opened Bytes
  import opened ObjectStore
  import opened ObjectStoreRules
  import opened ObjectStoreReclaim
  import opened ContinuationBundle
  import opened ObjectStoreImport

  datatype StoreOp =
    | PutOp(expected: BlobRef, payload: Bytes, provenance: Digest)
    | ReleaseOp(expected: BlobRef)
    | RetireOp(expected: BlobRef)
    | QuarantineOp(expected: BlobRef, reason: Digest)
    | AcquireOp(expected: BlobRef, grant: LifecycleGrant, owner: Digest, observed: u64,
                expires: u64)
    | RenewOp(expected: BlobRef, current: LeaseReceipt, grant: LifecycleGrant, observed: u64,
              expires: u64)
    | EndOp(expected: BlobRef, current: LeaseReceipt, grant: LifecycleGrant,
            expiring: Option<u64>)
    | RepairOp(expected: BlobRef, candidate: Bytes, source: Digest, repair: RepairGrant)
    | ImportOp(items: seq<Item>)
    | CommitOp(permit: Permit, targets: seq<BlobRef>, preview: CommitReceipt)

  function Apply(cfg: Config, st: Content, op: StoreOp): Content {
    match op
    case PutOp(expected, payload, provenance) =>
      Put(cfg, st, expected, payload, provenance).content
    case ReleaseOp(expected) => Release(cfg, st, expected).content
    case RetireOp(expected) => Retire(cfg, st, expected).content
    case QuarantineOp(expected, reason) => Quarantine(cfg, st, expected, reason).content
    case AcquireOp(_, _, _, _, _) => LeaseReply(cfg, st, op).content
    case RenewOp(_, _, _, _, _) => LeaseReply(cfg, st, op).content
    case EndOp(expected, current, l, expiring) =>
      EndLease(cfg, st, expected, current, l, expiring).content
    case RepairOp(expected, candidate, source, r) =>
      Repair(cfg, st, expected, candidate, source, r).content
    case ImportOp(items) => Import(cfg, st, items).content
    case CommitOp(permit, targets, preview) =>
      CommitRetired(cfg, st, permit, targets, preview).content
  }

  predicate Leases(op: StoreOp) {
    op.AcquireOp? || op.RenewOp?
  }

  predicate OneObject(op: StoreOp) {
    !op.ImportOp? && !op.CommitOp?
  }

  function LeaseReply(cfg: Config, st: Content, op: StoreOp): Outcome<LeaseReceipt>
    requires Leases(op)
  {
    if op.AcquireOp? then
      AcquireLease(cfg, st, op.expected, op.grant, op.owner, op.observed, op.expires)
    else RenewLease(cfg, st, op.expected, op.current, op.grant, op.observed, op.expires)
  }

  /** The receipt issued by this operation, if any, has a digest that is not zero. */
  predicate OpIssuable(cfg: Config, st: Content, op: StoreOp) {
    Leases(op) ==> Issuable(LeaseReply(cfg, st, op))
  }

  lemma ApplyGood(cfg: Config, st: Content, op: StoreOp)
    requires StoreGood(cfg, st.slots) && OpIssuable(cfg, st, op)
    ensures StoreGood(cfg, Apply(cfg, st, op).slots)
  {
    hide StoreGood, Put, Release, Retire, Quarantine, AcquireLease, RenewLease, EndLease,
      Repair, Issuable, PutAll, AllIntact, Preview, AllRetired, CanonicalTargets, Removed,
      HasBit;
    match op
    case PutOp(expected, payload, provenance) =>
      PutGood(cfg, st, expected, payload, provenance);
    case ReleaseOp(expected) => ReleaseGood(cfg, st, expected);
    case RetireOp(expected) => RetireGood(cfg, st, expected);
    case QuarantineOp(expected, reason) => QuarantineGood(cfg, st, expected, reason);
    case AcquireOp(expected, l, owner, observed, expires) =>
      AcquireGood(cfg, st, expected, l, owner, observed, expires);
    case RenewOp(expected, current, l, observed, expires) =>
      RenewGood(cfg, st, expected, current, l, observed, expires);
    case EndOp(expected, current, l, expiring) =>
      EndGood(cfg, st, expected, current, l, expiring);
    case RepairOp(expected, candidate, source, r) =>
      RepairGood(cfg, st, expected, candidate, source, r);
    case ImportOp(items) =>
      if PutAll(cfg, st, items).Success? {
        PutAllGood(cfg, st, items);
      }
    case CommitOp(permit, targets, preview) =>
      if CommitRetired(cfg, st, permit, targets, preview).reply.Success? {
        Committed(cfg, st, permit, targets, preview);
        RemovedGood(cfg, st.slots, targets);
      }
  }

  /** What an accepted commit has checked and does. */
  lemma Committed(cfg: Config, st: Content, p: Permit, targets: seq<BlobRef>, r: CommitReceipt)
    requires CommitRetired(cfg, st, p, targets, r).reply.Success?
    ensures targets != [] && AllRetired(st.slots, targets) && Distinct(targets)
    ensures CommitRetired(cfg, st, p, targets, r).content.slots == Removed(st.slots, targets)
  {
    hide PermitRefused, Audit, Freed, PreviewReceipt, RetiredTarget, AllRetired;
  }

  // ---------------------------------------------------------------------------------------
  // How one slot may change
  // ---------------------------------------------------------------------------------------

  /** A slot change is of one of these kinds. */
  predicate SlotStep(cfg: Config, before: Option<Slot>, after: Option<Slot>) {
    || after == before
    || after.None?
    || (before.None? && FreshSlot(cfg, after.value))
    || (before.Some? && SlotMoves(cfg, before.value, after.value))
  }

  predicate FreshSlot(cfg: Config, s: Slot) {
    s.state == SlotLive && s.lease == LeaseMark(0, false, ZERO_DIGEST) && Intact(cfg, s)
  }

  /**
   * Within one occupancy the blob stays, only a repair of a quarantined object brings another
   * payload, and a lease is only issued at a new generation.
   */
  predicate SlotMoves(cfg: Config, s: Slot, after: Slot) {
    && after.blob == s.blob && after.provenance == s.provenance
    && (after.payload == s.payload || (s.state == SlotQuarantined && Intact(cfg, after)))
    && s.lease.generation <= after.lease.generation <= U64_MAX
    && (after.lease.active ==>
          after.lease == s.lease || s.lease.generation < after.lease.generation)
  }

  /** Every slot changes in one of these ways, and no operation both adds and removes. */
  predicate AllStep(cfg: Config, before: Slots, after: Slots) {
    && |after| == |before|
    && (forall i | 0 <= i < |before| :: SlotStep(cfg, before[i], after[i]))
    && (Adds(before, after) || Removes(before, after))
  }

  predicate Adds(before: Slots, after: Slots)
    requires |after| == |before|
  {
    forall i | 0 <= i < |before| :: before[i].Some? ==> after[i].Some?
  }

  predicate Removes(before: Slots, after: Slots)
    requires |after| == |before|
  {
    forall i | 0 <= i < |before| :: after[i].Some? ==> before[i].Some?
  }

  /** A lease that is active afterwards on `t` was there before with the same mark. */
  predicate LeaseKept(t: BlobRef, before: Option<Slot>, after: Option<Slot>) {
    after.Some? && after.value.blob == t && after.value.lease.active ==>
      before.Some? && before.value.blob == t && before.value.lease == after.value.lease
  }

  predicate LeasesKept(t: BlobRef, before: Slots, after: Slots) {
    |after| == |before| && forall i | 0 <= i < |before| :: LeaseKept(t, before[i], after[i])
  }

  predicate GenerationsBounded(slots: Slots) {
    forall i | 0 <= i < |slots| && slots[i].Some? :: slots[i].value.lease.generation <= U64_MAX
  }

  /** The receipt this operation issues for `t`. */
  function Issued(cfg: Config, st: Content, op: StoreOp, t: BlobRef): Option<LeaseReceipt> {
    if Leases(op) && op.expected == t && LeaseReply(cfg, st, op).reply.Success? then
      Some(LeaseReply(cfg, st, op).reply.value)
    else None
  }

  /** The slot that a successful operation on a stored object changes. */
  lemma Touched(cfg: Config, st: Content, op: StoreOp) returns (i: nat)
    requires OneObject(op) && !op.PutOp? && Apply(cfg, st, op).slots != st.slots
    requires GenerationsBounded(st.slots)
    ensures i < |st.slots| && |Apply(cfg, st, op).slots| == |st.slots|
    ensures Apply(cfg, st, op).slots == st.slots[i := Apply(cfg, st, op).slots[i]]
    ensures SlotStep(cfg, st.slots[i], Apply(cfg, st, op).slots[i])
    ensures Apply(cfg, st, op).slots[i].Some? && Leases(op) ==>
              Apply(cfg, st, op).slots[i].value.blob == op.expected
              && LeaseReply(cfg, st, op).reply.Success?
    ensures !Leases(op) ==> forall t :: LeaseKept(t, st.slots[i], Apply(cfg, st, op).slots[i])
  {
    hide Sum, LeaseRoot, LifecycleGrantRoot, LifecycleRefused, RepairRefused, BlobOf, FindFrom,
      MakeRepairReceipt, WindowError, Refused, Put;
    i := Find(st.slots, op.expected).value;
  }

  /** The slot that a successful put changes. */
  lemma TouchedByPut(cfg: Config, st: Content, op: StoreOp) returns (i: nat)
    requires op.PutOp? && Apply(cfg, st, op).slots != st.slots
    ensures i < |st.slots| && |Apply(cfg, st, op).slots| == |st.slots|
    ensures Apply(cfg, st, op).slots == st.slots[i := Apply(cfg, st, op).slots[i]]
    ensures GenerationsBounded(st.slots) ==>
              SlotStep(cfg, st.slots[i], Apply(cfg, st, op).slots[i])
    ensures forall t :: LeaseKept(t, st.slots[i], Apply(cfg, st, op).slots[i])
  {
    hide Sum, BlobOf, FindDigestFrom, FirstEmptyFrom;
    i := Put(cfg, st, op.expected, op.payload, op.provenance).reply.value.index;
  }

  lemma StepAt(cfg: Config, before: Slots, i: nat, s: Option<Slot>)
    requires i < |before| && SlotStep(cfg, before[i], s)
    ensures AllStep(cfg, before, before[i := s])
  {
    hide FreshSlot, SlotMoves;
    if before[i].Some? {
      assert Removes(before, before[i := s]);
    } else {
      assert Adds(before, before[i := s]);
    }
  }

  lemma SameStep(cfg: Config, slots: Slots)
    ensures AllStep(cfg, slots, slots)
  {
    hide FreshSlot, SlotMoves;
  }

  lemma BoundedStep(cfg: Config, before: Slots, after: Slots)
    requires AllStep(cfg, before, after) && GenerationsBounded(before)
    ensures GenerationsBounded(after)
  {
    hide Intact;
  }

  /** What putting some items does to one slot: nothing, a new object, or more references. */
  predicate PutStep(cfg: Config, before: Option<Slot>, after: Option<Slot>) {
    if before.None? then after.Some? ==> FreshSlot(cfg, after.value)
    else
      after.Some? && after.value == before.value.(references := after.value.references)
  }

  lemma PutItemSteps(cfg: Config, st: Content, item: Item)
    requires PutItem(cfg, st, item).reply.Success?
    ensures var after := PutItem(cfg, st, item).content.slots;
            |after| == |st.slots|
            && forall i | 0 <= i < |after| :: PutStep(cfg, st.slots[i], after[i])
  {
    hide Sum, BlobOf, FindDigestFrom, FirstEmptyFrom;
  }

  lemma {:induction false} PutAllSteps(cfg: Config, st: Content, items: seq<Item>)
    requires PutAll(cfg, st, items).Success?
    ensures var after := PutAll(cfg, st, items).value.content.slots;
            |after| == |st.slots|
            && forall i | 0 <= i < |after| :: PutStep(cfg, st.slots[i], after[i])
  {
    hide PutItem, BlobOf, Hashable;
    if items != [] {
      var n := |items| - 1;
      PutAllSteps(cfg, st, items[..n]);
      var middle := PutAll(cfg, st, items[..n]).value.content;
      PutItemSteps(cfg, middle, items[n]);
      var after := PutAll(cfg, st, items).value.content.slots;
      forall i | 0 <= i < |after| ensures PutStep(cfg, st.slots[i], after[i]) {
        assert PutStep(cfg, st.slots[i], middle.slots[i]);
        assert PutStep(cfg, middle.slots[i], after[i]);
      }
    }
  }

  lemma ImportSteps(cfg: Config, st: Content, items: seq<Item>)
    requires GenerationsBounded(st.slots)
    ensures AllStep(cfg, st.slots, Import(cfg, st, items).content.slots)
    ensures forall t :: LeasesKept(t, st.slots, Import(cfg, st, items).content.slots)
  {
    hide PutAll, AllIntact, HasBit, Intact;
    if PutAll(cfg, st, items).Success? {
      PutAllSteps(cfg, st, items);
      var after := PutAll(cfg, st, items).value.content.slots;
      assert forall i | 0 <= i < |after| :: PutStep(cfg, st.slots[i], after[i]);
      assert Adds(st.slots, after);
    }
  }

  lemma CommitSteps(cfg: Config, st: Content, p: Permit, targets: seq<BlobRef>,
    r: CommitReceipt)
    ensures AllStep(cfg, st.slots, CommitRetired(cfg, st, p, targets, r).content.slots)
    ensures forall t :: LeasesKept(t, st.slots, CommitRetired(cfg, st, p, targets, r).content.slots)
  {
    hide Preview, FreshSlot, SlotMoves;
    if CommitRetired(cfg, st, p, targets, r).reply.Success? {
      Committed(cfg, st, p, targets, r);
      assert Removes(st.slots, Removed(st.slots, targets));
    }
  }

  /** How any operation changes the slots, and that only the one it issues for is leased anew. */
  lemma ApplySteps(cfg: Config, st: Content, op: StoreOp)
    requires GenerationsBounded(st.slots)
    ensures AllStep(cfg, st.slots, Apply(cfg, st, op).slots)
    ensures GenerationsBounded(Apply(cfg, st, op).slots)
    ensures forall t :: Issued(cfg, st, op, t).None? ==>
                          LeasesKept(t, st.slots, Apply(cfg, st, op).slots)
  {
    hide AllStep, GenerationsBounded, SlotStep, Put, Release, Retire, Quarantine, LeaseReply,
      EndLease, Repair, Import, CommitRetired;
    var after := Apply(cfg, st, op);
    if after.slots == st.slots {
      SameStep(cfg, st.slots);
    } else {
      if op.ImportOp? {
        ImportSteps(cfg, st, op.items);
      } else if op.CommitOp? {
        CommitSteps(cfg, st, op.permit, op.targets, op.preview);
      } else if op.PutOp? {
        var i := TouchedByPut(cfg, st, op);
        StepAt(cfg, st.slots, i, after.slots[i]);
      } else {
        var i := Touched(cfg, st, op);
        StepAt(cfg, st.slots, i, after.slots[i]);
      }
    }
    BoundedStep(cfg, st.slots, after.slots);
  }

  // ---------------------------------------------------------------------------------------
  // Runs
  // ---------------------------------------------------------------------------------------

  function AfterOps(cfg: Config, st: Content, ops: seq<StoreOp>): Content {
    if ops == [] then st
    else Apply(cfg, AfterOps(cfg, st, ops[..|ops| - 1]), ops[|ops| - 1])
  }

  /** No receipt issued along the run has the zero digest. */
  predicate AllIssuable(cfg: Config, st: Content, ops: seq<StoreOp>) {
    forall k | 0 <= k < |ops| :: OpIssuable(cfg, AfterOps(cfg, st, ops[..k]), ops[k])
  }

  lemma IssuablePrefix(cfg: Config, st: Content, ops: seq<StoreOp>)
    requires ops != [] && AllIssuable(cfg, st, ops)
    ensures AllIssuable(cfg, st, ops[..|ops| - 1])
    ensures OpIssuable(cfg, AfterOps(cfg, st, ops[..|ops| - 1]), ops[|ops| - 1])
  {
    hide AfterOps, OpIssuable;
    var n := |ops| - 1;
    var most := ops[..n];
    assert forall k | 0 <= k < n :: most[..k] == ops[..k] && most[k] == ops[k];
  }

  function EmptyContent(cfg: Config): Content {
    Content(seq(cfg.capacity, _ => None), 0, false)
  }

  lemma {:induction false} EmptySums(slots: Slots, c: Counter)
    requires forall i | 0 <= i < |slots| :: slots[i].None?
    ensures Sum(slots, c) == 0
  {
    if slots != [] {
      EmptySums(slots[..|slots| - 1], c);
    }
  }

  lemma EmptyGood(cfg: Config)
    ensures StoreGood(cfg, EmptyContent(cfg).slots) && AllIntact(cfg, EmptyContent(cfg).slots)
    ensures GenerationsBounded(EmptyContent(cfg).slots)
  {
    forall c ensures Sum(EmptyContent(cfg).slots, c) == 0 {
      EmptySums(EmptyContent(cfg).slots, c);
    }
  }

  lemma IntactStep(cfg: Config, before: Slots, after: Slots)
    requires AllIntact(cfg, before) && AllStep(cfg, before, after)
    ensures AllIntact(cfg, after)
  {
    hide BlobOf;
  }

  /** What holds of every store that operations have led to. */
  predicate Sound(cfg: Config, st: Content) {
    StoreGood(cfg, st.slots) && AllIntact(cfg, st.slots) && GenerationsBounded(st.slots)
  }

  /**
   * Every store reached from the empty one keeps every rule and stores only payloads that
   * hash to their blobs, whatever the operations were and whichever of them failed.
   */
  lemma {:induction false} RunsGood(cfg: Config, st: Content, ops: seq<StoreOp>)
    requires Sound(cfg, st) && AllIssuable(cfg, st, ops)
    ensures Sound(cfg, AfterOps(cfg, st, ops))
  {
    hide Apply, StoreGood, AllIntact, AllStep, OpIssuable, GenerationsBounded, LeasesKept;
    if ops != [] {
      var n := |ops| - 1;
      IssuablePrefix(cfg, st, ops);
      RunsGood(cfg, st, ops[..n]);
      var before := AfterOps(cfg, st, ops[..n]);
      ApplyGood(cfg, before, ops[n]);
      ApplySteps(cfg, before, ops[n]);
      IntactStep(cfg, before.slots, AfterOps(cfg, st, ops).slots);
    }
  }

  /** Whatever is done to a new store, it stays good. */
  lemma ReachableGood(cfg: Config, ops: seq<StoreOp>)
    requires AllIssuable(cfg, EmptyContent(cfg), ops)
    ensures var after := AfterOps(cfg, EmptyContent(cfg), ops);
            StoreGood(cfg, after.slots) && AllIntact(cfg, after.slots)
  {
    hide StoreGood, AllIntact, AfterOps, AllIssuable, GenerationsBounded;
    EmptyGood(cfg);
    RunsGood(cfg, EmptyContent(cfg), ops);
  }

  // ---------------------------------------------------------------------------------------
  // Which operations change the store
  // ---------------------------------------------------------------------------------------

  /** The guard under which an operation changes the store. */
  predicate Changes(cfg: Config, st: Content, op: StoreOp) {
    match op
    case PutOp(expected, payload, provenance) =>
      Put(cfg, st, expected, payload, provenance).reply.Success?
    case ReleaseOp(expected) => Release(cfg, st, expected).reply.Success?
    case RetireOp(expected) => Retire(cfg, st, expected).reply.Success?
    case QuarantineOp(expected, reason) => Quarantine(cfg, st, expected, reason).reply.Success?
    case AcquireOp(_, _, _, _, _) => LeaseReply(cfg, st, op).reply.Success?
    case RenewOp(_, _, _, _, _) => LeaseReply(cfg, st, op).reply.Success?
    case EndOp(expected, current, l, expiring) =>
      EndLease(cfg, st, expected, current, l, expiring).reply.Success?
    case RepairOp(expected, candidate, source, r) =>
      Repair(cfg, st, expected, candidate, source, r).reply.Success?
    case ImportOp(items) =>
      items != [] && Refused(cfg, st, OPERATION_PUT).None? && PutAll(cfg, st, items).Success?
    case CommitOp(permit, targets, preview) =>
      CommitRetired(cfg, st, permit, targets, preview).reply.Success?
  }

  /**
   * An operation changes the store exactly when it succeeds; an import does so exactly when
   * it puts something and every put succeeds, whether or not the closing verification passes.
   */
  lemma ChangesIffAccepted(cfg: Config, st: Content, op: StoreOp)
    ensures Changes(cfg, st, op) <==> Apply(cfg, st, op) != st
  {
    hide Put, Release, Retire, Quarantine, LeaseReply, EndLease, Repair, Import, PutAll,
      CommitRetired;
    if op.ImportOp? {
      ImportChanges(cfg, st, op.items);
    } else if op.CommitOp? {
      CommitChanges(cfg, st, op.permit, op.targets, op.preview);
    } else if op.PutOp? {
      PutChanges(cfg, st, op);
    } else {
      OneChanges(cfg, st, op);
    }
  }

  lemma PutChanges(cfg: Config, st: Content, op: StoreOp)
    requires op.PutOp?
    ensures Changes(cfg, st, op) <==> Apply(cfg, st, op) != st
  {
    hide Sum, BlobOf, FindDigestFrom, FirstEmptyFrom;
    if Changes(cfg, st, op) {
      var i := Put(cfg, st, op.expected, op.payload, op.provenance).reply.value.index;
      assert Apply(cfg, st, op).slots[i] != st.slots[i];
    }
  }

  lemma OneChanges(cfg: Config, st: Content, op: StoreOp)
    requires OneObject(op) && !op.PutOp?
    ensures Changes(cfg, st, op) <==> Apply(cfg, st, op) != st
  {
    hide Sum, LeaseRoot, LifecycleGrantRoot, LifecycleRefused, RepairRefused, BlobOf, FindFrom,
      MakeRepairReceipt, WindowError, Refused, Put;
    if Changes(cfg, st, op) {
      var i := Find(st.slots, op.expected).value;
      assert Apply(cfg, st, op).slots[i] != st.slots[i];
    }
  }

  lemma ImportChanges(cfg: Config, st: Content, items: seq<Item>)
    ensures Import(cfg, st, items).content != st
            <==> items != [] && Refused(cfg, st, OPERATION_PUT).None?
                 && PutAll(cfg, st, items).Success?
  {
    hide PutItem, Sum, AllIntact, HasBit;
    if PutAll(cfg, st, items).Success? {
      PutAllAddsReferences(cfg, st, items);
    }
  }

  lemma CommitChanges(cfg: Config, st: Content, p: Permit, targets: seq<BlobRef>,
    r: CommitReceipt)
    ensures CommitRetired(cfg, st, p, targets, r).content != st
            <==> CommitRetired(cfg, st, p, targets, r).reply.Success?
  {
    hide Preview, RetiredTarget;
    if CommitRetired(cfg, st, p, targets, r).reply.Success? {
      Committed(cfg, st, p, targets, r);
      RetiredHeld(st.slots, targets[0]);
      var i := Find(st.slots, targets[0]).value;
      assert Removed(st.slots, targets)[i].None?;
    }
  }

  lemma RetiredHeld(slots: Slots, t: BlobRef)
    requires RetiredTarget(slots, t)
    ensures Find(slots, t).Some? && Holds(slots[Find(slots, t).value], t)
  {
  }

  /** Releasing what was just put gives the slots back, whether it was inserted or reused. */
  lemma PutThenRelease(cfg: Config, st: Content, expected: BlobRef, payload: Bytes,
    provenance: Digest)
    requires StoreGood(cfg, st.slots) && HasBit(cfg.grant.operations, OPERATION_RELEASE)
    requires Put(cfg, st, expected, payload, provenance).reply.Success?
    ensures var put := Put(cfg, st, expected, payload, provenance).content;
            Release(cfg, put, expected).reply.Success?
            && Release(cfg, put, expected).content.slots == st.slots
  {
    hide Sum, BlobOf, WithinBudgets, FindFrom, FindDigestFrom, FirstEmptyFrom;
    var put := Put(cfg, st, expected, payload, provenance);
    var i := put.reply.value.index;
    PutGood(cfg, st, expected, payload, provenance);
    var s := put.content.slots[i].value;
    assert s.state.SlotLive?;
    assert Holds(put.content.slots[i], expected);
    HeldOnce(put.content.slots, expected, i);
    if !put.reply.value.inserted {
      assert SlotGood(cfg.grant, st.slots[i].value);
    }
    assert st.slots[i := put.content.slots[i]][i := st.slots[i]] == st.slots;
  }

  lemma HeldOnce(slots: Slots, expected: BlobRef, i: nat)
    requires Unique(slots) && i < |slots| && Holds(slots[i], expected)
    ensures Find(slots, expected) == Some(i)
  {
    var found := Find(slots, expected);
    assert found.Some? && Holds(slots[found.value], expected);
  }

  // ---------------------------------------------------------------------------------------
  // Occupancies
  // ---------------------------------------------------------------------------------------

  /** Slot `i` is occupied after every prefix of the run. */
  predicate Occupied(cfg: Config, st: Content, ops: seq<StoreOp>, i: nat) {
    forall k | 0 <= k <= |ops| ::
      var slots := AfterOps(cfg, st, ops[..k]).slots;
      i < |slots| && slots[i].Some?
  }

  lemma OccupiedPrefix(cfg: Config, st: Content, ops: seq<StoreOp>, i: nat)
    requires ops != [] && Occupied(cfg, st, ops, i)
    ensures Occupied(cfg, st, ops[..|ops| - 1], i)
    ensures i < |AfterOps(cfg, st, ops).slots| && AfterOps(cfg, st, ops).slots[i].Some?
  {
    hide AfterOps;
    var most := ops[..|ops| - 1];
    forall k | 0 <= k <= |most|
      ensures i < |AfterOps(cfg, st, most[..k]).slots|
              && AfterOps(cfg, st, most[..k]).slots[i].Some?
    {
      assert most[..k] == ops[..k];
    }
    assert ops[..|ops|] == ops;
  }

  lemma OccupiedStart(cfg: Config, st: Content, ops: seq<StoreOp>, i: nat)
    requires Occupied(cfg, st, ops, i)
    ensures i < |st.slots| && st.slots[i].Some?
  {
    assert ops[..0] == [];
    assert AfterOps(cfg, st, ops[..0]) == st;
  }
}
