/**
 * The store as a mutable object with its nine running counters. Every method keeps each counter
 * equal to the sum over the slots, and changes the slots exactly as ObjectStore says.
 */
module ObjectStoreClass {
  import opened Bytes
  import opened ObjectStore
  import opened ObjectStoreRules
  import opened ObjectStoreReclaim
  import opened ContinuationBundle
  import opened ObjectStoreImport

  /** Replacing one slot moves all nine counts at once. */
  lemma CountsMove(slots: Slots, i: nat, s: Option<Slot>)
    requires i < |slots|
    ensures forall c {:trigger Sum(slots[i := s], c)} ::
              Sum(slots[i := s], c) == Sum(slots, c) - Weight(c, slots[i]) + Weight(c, s)
    ensures forall c {:trigger Sum(slots, c)} :: Weight(c, slots[i]) <= Sum(slots, c)
  {
    forall c ensures Sum(slots[i := s], c) == Sum(slots, c) - Weight(c, slots[i]) + Weight(c, s)
    {
      SumUpdate(slots, i, s, c);
    }
    forall c ensures Weight(c, slots[i]) <= Sum(slots, c) {
      WeightBounded(slots, i, c);
    }
  }

  // ---------------------------------------------------------------------------------------
  // What verification checks
  // ---------------------------------------------------------------------------------------

  /** The state rules of one slot, as verification tests them. */
  predicate StateRules(s: Slot) {
    && (s.state == SlotLive ==> s.references != 0 && s.reason == ZERO_DIGEST)
    && (s.state == SlotQuarantined ==> s.references != 0 && s.reason != ZERO_DIGEST)
    && (s.state == SlotRetired ==> s.references == 0 && s.reason == ZERO_DIGEST)
    && (if s.lease.active then
          s.state == SlotLive && s.lease.generation != 0 && s.lease.receipt != ZERO_DIGEST
        else s.lease.receipt == ZERO_DIGEST)
  }

  predicate SlotPasses(cfg: Config, slots: Slots, i: nat, allowCorrupt: bool)
    requires i < |slots|
  {
    slots[i].Some? ==>
      var s := slots[i].value;
      && s.blob.byteLength <= cfg.grant.maxObjectBytes && s.provenance == cfg.grant.bundle
      && (forall k | 0 <= k < i :: !HoldsDigest(slots[k], s.blob.sha))
      && StateRules(s)
      && (Intact(cfg, s) || (allowCorrupt && s.state == SlotQuarantined))
  }

  predicate AllPass(cfg: Config, slots: Slots, n: nat, allowCorrupt: bool)
    requires n <= |slots|
  {
    forall i | 0 <= i < n :: SlotPasses(cfg, slots, i, allowCorrupt)
  }

  /** Which payloads must still hash to their blobs. */
  predicate PayloadsPass(cfg: Config, slots: Slots, allowCorrupt: bool) {
    forall i | 0 <= i < |slots| && slots[i].Some? ::
      Intact(cfg, slots[i].value) || (allowCorrupt && slots[i].value.state == SlotQuarantined)
  }

  /** On a good store verification can fail for no other reason than a corrupt payload. */
  lemma GoodPasses(cfg: Config, slots: Slots, allowCorrupt: bool)
    requires StoreGood(cfg, slots)
    ensures AllPass(cfg, slots, |slots|, allowCorrupt) <==> PayloadsPass(cfg, slots, allowCorrupt)
  {
    hide Sum, WithinBudgets, Intact;
    forall i | 0 <= i < |slots| && slots[i].Some?
      ensures SlotPasses(cfg, slots, i, allowCorrupt)
              <==> Intact(cfg, slots[i].value)
                   || (allowCorrupt && slots[i].value.state == SlotQuarantined)
    {
      assert SlotGood(cfg.grant, slots[i].value);
    }
  }

  /** Conversely a store that passes strict verification within its budgets is a good one. */
  lemma PassesGood(cfg: Config, slots: Slots)
    requires AllPass(cfg, slots, |slots|, false) && |slots| == cfg.capacity
    requires WithinBudgets(cfg.grant, slots)
    ensures StoreGood(cfg, slots)
  {
    hide Sum, WithinBudgets, BlobOf;
    forall i | 0 <= i < |slots| && slots[i].Some? ensures SlotGood(cfg.grant, slots[i].value) {
      assert SlotPasses(cfg, slots, i, false);
      BlobLength(cfg, slots[i].value);
    }
    forall i, j | 0 <= i < j < |slots| && slots[i].Some? && slots[j].Some?
      ensures slots[i].value.blob.sha != slots[j].value.blob.sha
    {
      assert SlotPasses(cfg, slots, j, false);
      assert !HoldsDigest(slots[i], slots[j].value.blob.sha);
    }
  }

  lemma BlobLength(cfg: Config, s: Slot)
    requires Intact(cfg, s)
    ensures s.blob.byteLength > 0
  {
  }

  // ---------------------------------------------------------------------------------------
  // The store
  // ---------------------------------------------------------------------------------------

  class Store {
    const cfg: Config
    const grantSha: Digest
    var slots: Slots
    var entryCount: int
    var liveEntries: int
    var quarantinedEntries: int
    var retiredEntries: int
    var payloadBytes: int
    var logicalIndexBytes: int
    var referenceCount: int
    var activeLeases: int
    var repairCount: int
    var closed: bool
    var allocatorInsertions: int

    function Count(c: Counter): int
      reads this
    {
      match c
      case Entries => entryCount
      case LiveEntries => liveEntries
      case QuarantinedEntries => quarantinedEntries
      case RetiredEntries => retiredEntries
      case PayloadBytes => payloadBytes
      case IndexBytes => logicalIndexBytes
      case References => referenceCount
      case ActiveLeases => activeLeases
      case Repairs => repairCount
    }

    /** Every running counter agrees with the slots. */
    ghost predicate Counted()
      reads this
    {
      && grantSha == GrantRoot(cfg)
      && forall c :: Count(c) == Sum(slots, c)
    }

    ghost predicate Valid()
      reads this
    {
      Counted() && ValidConfig(cfg) && StoreGood(cfg, slots)
    }

    function View(): Content
      reads this
    {
      Content(slots, allocatorInsertions, closed)
    }

    constructor (cfg: Config)
      requires ValidConfig(cfg)
      ensures Valid() && this.cfg == cfg && View().slots == seq(cfg.capacity, _ => None)
      ensures !closed && allocatorInsertions == 0
    {
      this.cfg, grantSha := cfg, GrantRoot(cfg);
      slots := seq(cfg.capacity, _ => None);
      entryCount, liveEntries, quarantinedEntries, retiredEntries := 0, 0, 0, 0;
      payloadBytes, logicalIndexBytes, referenceCount := 0, 0, 0;
      activeLeases, repairCount, closed, allocatorInsertions := 0, 0, false, 0;
      new;
      forall c ensures Sum(slots, c) == 0 {
        NothingCounted(slots, c);
      }
    }

    /** The scan for an equal blob. */
    method Locate(expected: BlobRef) returns (r: Option<nat>)
      ensures r == Find(slots, expected)
    {
      var i := 0;
      while i < |slots|
        invariant 0 <= i <= |slots|
        invariant Find(slots, expected) == FindFrom(slots, expected, i)
      {
        if Holds(slots[i], expected) {
          return Some(i);
        }
        i := i + 1;
      }
      return None;
    }

    method LocateDigest(sha: Digest) returns (r: Option<nat>)
      ensures r == FindDigestFrom(slots, sha, 0)
    {
      var i := 0;
      while i < |slots|
        invariant 0 <= i <= |slots|
        invariant FindDigestFrom(slots, sha, 0) == FindDigestFrom(slots, sha, i)
      {
        if HoldsDigest(slots[i], sha) {
          return Some(i);
        }
        i := i + 1;
      }
      return None;
    }

    method LocateEmpty() returns (r: Option<nat>)
      ensures r == FirstEmptyFrom(slots, 0)
    {
      var i := 0;
      while i < |slots|
        invariant 0 <= i <= |slots|
        invariant FirstEmptyFrom(slots, 0) == FirstEmptyFrom(slots, i)
      {
        if slots[i].None? {
          return Some(i);
        }
        i := i + 1;
      }
      return None;
    }

    method InsertBlob(expected: BlobRef, payload: Bytes, provenance: Digest)
      returns (reply: Result<Placed, StoreError>)
      requires Counted()
      modifies this
      ensures Counted()
      ensures Outcome(View(), reply) == Insert(cfg, old(View()), expected, payload, provenance)
    {
      var g := cfg.grant;
      assert forall c :: Count(c) == Sum(slots, c);
      assert entryCount == Count(Entries) && logicalIndexBytes == Count(IndexBytes);
      assert payloadBytes == Count(PayloadBytes) && referenceCount == Count(References);
      if entryCount >= g.maxEntries {
        return Failure(EntryCapacity);
      }
      if logicalIndexBytes + INDEX_ENTRY_BYTES > g.maxIndexBytes {
        return Failure(IndexBudget);
      }
      if payloadBytes + expected.byteLength > g.maxPayloadBytes {
        return Failure(PayloadBudget);
      }
      if referenceCount + 1 > g.maxReferences {
        return Failure(ReferenceBudget);
      }
      if cfg.failAfter.Some? && allocatorInsertions >= cfg.failAfter.value {
        return Failure(AllocatorFailure);
      }
      var free := LocateEmpty();
      if free.None? {
        return Failure(NativeCapacity);
      }
      Fill(free.value, NewSlot(expected, payload, provenance));
      allocatorInsertions := allocatorInsertions + 1;
      return Success(Placed(free.value, true, 1));
    }

    /** Occupying an empty slot with a first reference. */
    method Fill(i: nat, s: Slot)
      requires Counted() && i < |slots| && slots[i].None?
      requires s.state == SlotLive && s.references == 1 && !s.lease.active && s.repairs == 0
      modifies this`slots, this`entryCount, this`liveEntries, this`payloadBytes,
        this`logicalIndexBytes, this`referenceCount
      ensures Counted() && slots == old(slots)[i := Some(s)]
    {
      hide Sum;
      CountsMove(slots, i, Some(s));
      slots := slots[i := Some(s)];
      entryCount, liveEntries := entryCount + 1, liveEntries + 1;
      payloadBytes := payloadBytes + s.blob.byteLength;
      logicalIndexBytes := logicalIndexBytes + INDEX_ENTRY_BYTES;
      referenceCount := referenceCount + 1;
    }

    /** Emptying a slot whose last reference goes. */
    method Empty(i: nat)
      requires Counted() && i < |slots| && slots[i].Some?
      requires slots[i].value.state != SlotRetired && !slots[i].value.lease.active
      modifies this`slots, this`entryCount, this`liveEntries, this`quarantinedEntries,
        this`payloadBytes, this`logicalIndexBytes, this`referenceCount, this`repairCount
      ensures Counted() && slots == old(slots)[i := None]
    {
      hide Sum;
      var s := slots[i].value;
      CountsMove(slots, i, None);
      assert repairCount == Count(Repairs) >= s.repairs;
      slots := slots[i := None];
      entryCount := entryCount - 1;
      if s.state == SlotLive {
        liveEntries := liveEntries - 1;
      } else {
        quarantinedEntries := quarantinedEntries - 1;
      }
      payloadBytes := payloadBytes - s.blob.byteLength;
      logicalIndexBytes := logicalIndexBytes - INDEX_ENTRY_BYTES;
      referenceCount, repairCount := referenceCount - s.references, repairCount - s.repairs;
    }

    method PutBlob(expected: BlobRef, payload: Bytes, provenance: Digest)
      returns (reply: Result<Placed, StoreError>)
      requires Counted()
      modifies this
      ensures Counted() && (old(Valid()) ==> Valid())
      ensures Outcome(View(), reply) == Put(cfg, old(View()), expected, payload, provenance)
    {
      hide StoreGood, BlobOf, Insert, Sum;
      ghost var before := View();
      var refused := Refused(cfg, View(), OPERATION_PUT);
      if refused.Some? {
        return Failure(refused.value);
      }
      if provenance == ZERO_DIGEST || provenance != cfg.grant.bundle {
        return Failure(InvalidProvenance);
      }
      if !Hashable(payload) || BlobOf(cfg, payload) != expected {
        return Failure(BlobMismatch);
      }
      if expected.byteLength > cfg.grant.maxObjectBytes {
        return Failure(ObjectTooLarge);
      }
      ghost var good := StoreGood(cfg, slots);
      if good {
        PutGood(cfg, before, expected, payload, provenance);
      }
      var found := LocateDigest(expected.sha);
      if found.None? {
        reply := InsertBlob(expected, payload, provenance);
        return;
      }
      var s := slots[found.value].value;
      if s.blob.byteLength != expected.byteLength || s.payload != payload {
        return Failure(DigestCollision);
      }
      if s.state == SlotQuarantined {
        return Failure(Quarantined);
      }
      if s.state == SlotRetired {
        return Failure(Retired);
      }
      assert referenceCount == Count(References);
      if referenceCount + 1 > cfg.grant.maxReferences {
        return Failure(ReferenceBudget);
      }
      CountsMove(slots, found.value, Some(s.(references := s.references + 1)));
      slots := slots[found.value := Some(s.(references := s.references + 1))];
      referenceCount := referenceCount + 1;
      return Success(Placed(found.value, false, s.references + 1));
    }

    method GetBlob(expected: BlobRef) returns (reply: Result<Bytes, StoreError>)
      ensures reply == Get(cfg, View(), expected)
    {
      hide Intact;
      var refused := Refused(cfg, View(), OPERATION_GET);
      if refused.Some? {
        return Failure(refused.value);
      }
      var found := Locate(expected);
      if found.None? {
        return Failure(NotFound);
      }
      var s := slots[found.value].value;
      if s.state == SlotQuarantined {
        return Failure(Quarantined);
      }
      if s.state == SlotRetired {
        return Failure(Retired);
      }
      if !Intact(cfg, s) {
        return Failure(CorruptPayload);
      }
      return Success(s.payload);
    }

    /** Dropping one reference, and the whole slot with the last one. */
    method ReleaseBlob(expected: BlobRef) returns (reply: Result<(), StoreError>)
      requires Counted()
      modifies this
      ensures Counted() && (old(Valid()) ==> Valid())
      ensures Outcome(View(), reply) == Release(cfg, old(View()), expected)
    {
      hide StoreGood, Sum;
      ghost var before := View();
      ghost var good := StoreGood(cfg, slots);
      if good {
        ReleaseGood(cfg, before, expected);
      }
      var refused := Refused(cfg, View(), OPERATION_RELEASE);
      if refused.Some? {
        return Failure(refused.value);
      }
      var found := Locate(expected);
      if found.None? {
        return Failure(NotFound);
      }
      var s := slots[found.value].value;
      if s.state == SlotRetired {
        return Failure(Retired);
      }
      if s.references > 1 {
        CountsMove(slots, found.value, Some(s.(references := s.references - 1)));
        slots := slots[found.value := Some(s.(references := s.references - 1))];
        referenceCount := referenceCount - 1;
        return Success(());
      }
      if s.lease.active {
        return Failure(LeaseIsActive);
      }
      Empty(found.value);
      return Success(());
    }

    /** The slot of a live object, or why the object is not usable. */
    method LocateLive(expected: BlobRef) returns (r: Result<nat, StoreError>)
      ensures r == AddressedLive(View(), expected)
    {
      var found := Locate(expected);
      if found.None? {
        return Failure(NotFound);
      }
      if slots[found.value].value.state == SlotQuarantined {
        return Failure(Quarantined);
      }
      if slots[found.value].value.state == SlotRetired {
        return Failure(Retired);
      }
      return Success(found.value);
    }

    method RetireBlob(expected: BlobRef) returns (reply: Result<(), StoreError>)
      requires Counted()
      modifies this
      ensures Counted() && (old(Valid()) ==> Valid())
      ensures Outcome(View(), reply) == Retire(cfg, old(View()), expected)
    {
      hide StoreGood, Sum;
      ghost var before := View();
      ghost var good := StoreGood(cfg, slots);
      if good {
        RetireGood(cfg, before, expected);
      }
      var refused := Refused(cfg, View(), OPERATION_RELEASE);
      if refused.Some? {
        return Failure(refused.value);
      }
      var found := LocateLive(expected);
      if found.Failure? {
        return Failure(found.error);
      }
      var s := slots[found.value].value;
      if s.lease.active {
        return Failure(LeaseIsActive);
      }
      if s.references != 1 {
        return Failure(FinalReferenceRequired);
      }
      CountsMove(slots, found.value, Some(s.(references := 0, state := SlotRetired)));
      slots := slots[found.value := Some(s.(references := 0, state := SlotRetired))];
      referenceCount, liveEntries := referenceCount - 1, liveEntries - 1;
      retiredEntries := retiredEntries + 1;
      return Success(());
    }

    method QuarantineBlob(expected: BlobRef, reason: Digest)
      returns (reply: Result<(), StoreError>)
      requires Counted()
      modifies this
      ensures Counted() && (old(Valid()) ==> Valid())
      ensures Outcome(View(), reply) == Quarantine(cfg, old(View()), expected, reason)
    {
      hide StoreGood, Sum;
      ghost var before := View();
      ghost var good := StoreGood(cfg, slots);
      if good {
        QuarantineGood(cfg, before, expected, reason);
      }
      var refused := Refused(cfg, View(), OPERATION_QUARANTINE);
      if refused.Some? {
        return Failure(refused.value);
      }
      if reason == ZERO_DIGEST {
        return Failure(InvalidDigest);
      }
      var found := LocateLive(expected);
      if found.Failure? {
        return Failure(found.error);
      }
      var i := found.value;
      var s := slots[i].value;
      if s.lease.active {
        CountsMove(slots, i, Some(ClearLease(s)));
        ClearLeaseAt(i);
        s := slots[i].value;
      }
      CountsMove(slots, i, Some(s.(state := SlotQuarantined, reason := reason)));
      slots := slots[i := Some(s.(state := SlotQuarantined, reason := reason))];
      assert slots == before.slots[i := Some(s.(state := SlotQuarantined, reason := reason))];
      liveEntries, quarantinedEntries := liveEntries - 1, quarantinedEntries + 1;
      return Success(());
    }

    /** Clearing an active lease; the counter cannot be zero then. */
    method ClearLeaseAt(i: nat)
      requires Counted() && i < |slots| && slots[i].Some? && slots[i].value.lease.active
      modifies this`slots, this`activeLeases
      ensures Counted()
      ensures slots == old(slots)[i := Some(ClearLease(old(slots)[i].value))]
    {
      var s := slots[i].value;
      CountsMove(slots, i, Some(ClearLease(s)));
      assert activeLeases == Count(ActiveLeases) > 0;
      slots := slots[i := Some(ClearLease(s))];
      activeLeases := activeLeases - 1;
    }

    method GrantLease(i: nat, r: LeaseReceipt)
      requires Counted() && i < |slots| && slots[i].Some? && !slots[i].value.lease.active
      modifies this`slots, this`activeLeases
      ensures Counted() && slots == old(slots)[i := Some(Leased(old(slots)[i].value, r))]
    {
      hide Sum;
      var s := Leased(slots[i].value, r);
      CountsMove(slots, i, Some(s));
      slots := slots[i := Some(s)];
      activeLeases := activeLeases + 1;
    }

    method AcquireLeaseOn(expected: BlobRef, l: LifecycleGrant, owner: Digest, observed: u64,
      expires: u64) returns (reply: Result<LeaseReceipt, StoreError>)
      requires Counted()
      modifies this
      ensures Counted()
      ensures Outcome(View(), reply)
              == AcquireLease(cfg, old(View()), expected, l, owner, observed, expires)
      ensures old(Valid()) && Issuable(Outcome(View(), reply)) ==> Valid()
    {
      hide Sum, StoreGood, LifecycleRefused, Intact, LifecycleGrantRoot, LeaseRoot;
      ghost var before := View();
      ghost var good := StoreGood(cfg, slots);
      if good
         && Issuable(AcquireLease(cfg, before, expected, l, owner, observed, expires)) {
        AcquireGood(cfg, before, expected, l, owner, observed, expires);
      }
      var refused := LifecycleRefused(cfg, View(), l, LEASE_ACQUIRE);
      if refused.Some? {
        return Failure(refused.value);
      }
      if owner == ZERO_DIGEST {
        return Failure(InvalidDigest);
      }
      var window := WindowError(observed, expires, l.maxSpanTicks);
      if window.Some? {
        return Failure(window.value);
      }
      var found := LocateLive(expected);
      if found.Failure? {
        return Failure(found.error);
      }
      var i := found.value;
      var s := slots[i].value;
      if s.lease.active {
        return Failure(LeaseIsActive);
      }
      assert activeLeases == Count(ActiveLeases);
      if activeLeases >= l.maxActiveLeases {
        return Failure(LeaseBudget);
      }
      if !Intact(cfg, s) {
        return Failure(CorruptPayload);
      }
      if s.lease.generation == U64_MAX {
        return Failure(GenerationExhausted);
      }
      var r := MakeLeaseReceipt(cfg, expected, s.lease.generation + 1, owner, expires,
                                LifecycleGrantRoot(cfg, l));
      GrantLease(i, r);
      return Success(r);
    }

    method RenewLeaseOn(expected: BlobRef, current: LeaseReceipt, l: LifecycleGrant,
      observed: u64, expires: u64) returns (reply: Result<LeaseReceipt, StoreError>)
      requires Counted()
      modifies this
      ensures Counted()
      ensures Outcome(View(), reply)
              == RenewLease(cfg, old(View()), expected, current, l, observed, expires)
      ensures old(Valid()) && Issuable(Outcome(View(), reply)) ==> Valid()
    {
      hide Sum, StoreGood, LifecycleRefused, Intact, LifecycleGrantRoot, LeaseRoot;
      ghost var before := View();
      ghost var good := StoreGood(cfg, slots);
      if good
         && Issuable(RenewLease(cfg, before, expected, current, l, observed, expires)) {
        RenewGood(cfg, before, expected, current, l, observed, expires);
      }
      var refused := LifecycleRefused(cfg, View(), l, LEASE_RENEW);
      if refused.Some? {
        return Failure(refused.value);
      }
      var found := Locate(expected);
      if found.None? {
        return Failure(NotFound);
      }
      var i := found.value;
      var s := slots[i].value;
      if !s.lease.active {
        return Failure(LeaseNotActive);
      }
      if !CurrentLease(cfg, s, expected, current) {
        return Failure(StaleLease);
      }
      if observed >= current.expires {
        return Failure(LeaseExpired);
      }
      if expires <= current.expires {
        return Failure(InvalidLeaseWindow);
      }
      var window := WindowError(observed, expires, l.maxSpanTicks);
      if window.Some? {
        return Failure(window.value);
      }
      if !Intact(cfg, s) {
        return Failure(CorruptPayload);
      }
      if s.lease.generation == U64_MAX {
        return Failure(GenerationExhausted);
      }
      var r := MakeLeaseReceipt(cfg, expected, s.lease.generation + 1, current.owner, expires,
                                LifecycleGrantRoot(cfg, l));
      CountsMove(slots, i, Some(Leased(s, r)));
      slots := slots[i := Some(Leased(s, r))];
      return Success(r);
    }

    /** Release of a lease, or its expiry when `expiring` gives the observed tick. */
    method EndLeaseOn(expected: BlobRef, current: LeaseReceipt, l: LifecycleGrant,
      expiring: Option<u64>) returns (reply: Result<(), StoreError>)
      requires Counted()
      modifies this
      ensures Counted() && (old(Valid()) ==> Valid())
      ensures Outcome(View(), reply)
              == EndLease(cfg, old(View()), expected, current, l, expiring)
    {
      hide StoreGood, LifecycleRefused, LeaseRoot;
      ghost var before := View();
      ghost var good := StoreGood(cfg, slots);
      if good {
        EndGood(cfg, before, expected, current, l, expiring);
      }
      var operation := if expiring.Some? then LEASE_EXPIRE else LEASE_RELEASE;
      var refused := LifecycleRefused(cfg, View(), l, operation);
      if refused.Some? {
        return Failure(refused.value);
      }
      var found := Locate(expected);
      if found.None? {
        return Failure(NotFound);
      }
      var s := slots[found.value].value;
      if !s.lease.active {
        return Failure(LeaseNotActive);
      }
      if !CurrentLease(cfg, s, expected, current) {
        return Failure(StaleLease);
      }
      if expiring.Some? && expiring.value < current.expires {
        return Failure(LeaseNotExpired);
      }
      ClearLeaseAt(found.value);
      return Success(());
    }

    /** A quarantined slot becomes live again under one more repair. */
    method Revive(i: nat, s: Slot)
      requires Counted() && i < |slots| && slots[i].Some?
      requires slots[i].value.state == SlotQuarantined && s.state == SlotLive
      requires s == slots[i].value.(payload := s.payload, state := SlotLive, reason := s.reason,
                                    repairs := slots[i].value.repairs + 1)
      modifies this`slots, this`liveEntries, this`quarantinedEntries, this`repairCount
      ensures Counted() && slots == old(slots)[i := Some(s)]
    {
      hide Sum;
      CountsMove(slots, i, Some(s));
      slots := slots[i := Some(s)];
      liveEntries, quarantinedEntries := liveEntries + 1, quarantinedEntries - 1;
      repairCount := repairCount + 1;
    }

    method RepairBlob(expected: BlobRef, candidate: Bytes, source: Digest, r: RepairGrant)
      returns (reply: Result<RepairReceipt, StoreError>)
      requires Counted()
      modifies this
      ensures Counted() && (old(Valid()) ==> Valid())
      ensures Outcome(View(), reply)
              == Repair(cfg, old(View()), expected, candidate, source, r)
    {
      hide StoreGood, RepairRefused, BlobOf, Sum, Snapshot, SnapshotFrom, RepairGrantRoot,
        RepairReceiptRoot;
      ghost var before := View();
      ghost var good := StoreGood(cfg, slots);
      if good {
        RepairGood(cfg, before, expected, candidate, source, r);
      }
      var refused := RepairRefused(cfg, View(), r, expected, source);
      if refused.Some? {
        return Failure(refused.value);
      }
      var found := Locate(expected);
      if found.None? {
        return Failure(NotFound);
      }
      var i := found.value;
      var s := slots[i].value;
      if s.state != SlotQuarantined {
        return Failure(NotQuarantined);
      }
      if s.lease.active {
        return Failure(LeaseIsActive);
      }
      if s.reason != r.expectedReason {
        return Failure(RepairReasonMismatch);
      }
      if !Hashable(candidate) || BlobOf(cfg, candidate) != expected {
        return Failure(RepairTargetMismatch);
      }
      assert repairCount == Count(Repairs);
      if s.repairs == U64_MAX || repairCount == U64_MAX {
        return Failure(GenerationExhausted);
      }
      Revive(i, Repaired(s, candidate));
      var a := LogicalAccounting();
      SnapshotFromSums(cfg, slots);
      var c := RepairReceipt(expected, s.repairs + 1, source, s.reason, RepairGrantRoot(cfg, r),
                             SnapshotFrom(cfg, slots, a), ZERO_DIGEST);
      return Success(c.(repairSha := RepairReceiptRoot(cfg, c)));
    }

    /** The full recount: every slot rule, all nine counters and every budget. */
    method VerifyState(allowCorrupt: bool) returns (ok: bool)
      ensures ok <==> && AllPass(cfg, slots, |slots|, allowCorrupt)
                      && (forall c :: Count(c) == Sum(slots, c))
                      && WithinBudgets(cfg.grant, slots)
    {
      hide Intact, StateRules, HoldsDigest, Sum, SeenSoFar;
      var entries, live, quarantined, retired, payload := 0, 0, 0, 0, 0;
      var index, references, leases, repairs := 0, 0, 0, 0;
      var seen: set<Digest> := {};
      var i := 0;
      NothingYet(slots);
      while i < |slots|
        invariant 0 <= i <= |slots|
        invariant AllPass(cfg, slots, i, allowCorrupt)
        invariant entries == Sum(slots[..i], Entries) && live == Sum(slots[..i], LiveEntries)
        invariant quarantined == Sum(slots[..i], QuarantinedEntries)
        invariant retired == Sum(slots[..i], RetiredEntries)
        invariant payload == Sum(slots[..i], PayloadBytes)
        invariant index == Sum(slots[..i], IndexBytes)
        invariant references == Sum(slots[..i], References)
        invariant leases == Sum(slots[..i], ActiveLeases)
        invariant repairs == Sum(slots[..i], Repairs) <= U64_MAX
        invariant SeenSoFar(slots, i, seen)
      {
        SumStep(slots, i);
        if slots[i].Some? {
          var s := slots[i].value;
          SeenMeans(slots, i, seen, s.blob.sha);
          if s.blob.byteLength > cfg.grant.maxObjectBytes || s.provenance != cfg.grant.bundle
             || s.blob.sha in seen || !StateRules(s) {
            assert !SlotPasses(cfg, slots, i, allowCorrupt);
            return false;
          }
          seen := seen + {s.blob.sha};
          match s.state {
            case SlotLive => live := live + 1;
            case SlotQuarantined => quarantined := quarantined + 1;
            case SlotRetired => retired := retired + 1;
          }
          if s.lease.active {
            leases := leases + 1;
          }
          repairs := repairs + s.repairs;
          if repairs > U64_MAX {
            PrefixSum(slots, i + 1, Repairs);
            return false;
          }
          if !Intact(cfg, s) && !(allowCorrupt && s.state == SlotQuarantined) {
            assert !SlotPasses(cfg, slots, i, allowCorrupt);
            return false;
          }
          entries, payload := entries + 1, payload + s.blob.byteLength;
          index, references := index + INDEX_ENTRY_BYTES, references + s.references;
          assert SlotPasses(cfg, slots, i, allowCorrupt);
          SeenMore(slots, i, seen);
        } else {
          SeenMore(slots, i, seen);
        }
        i := i + 1;
      }
      assert slots[..i] == slots;
      ok := CountsEqual(entries, live, quarantined, retired, payload, index, references, leases,
                        repairs)
            && entries <= cfg.grant.maxEntries && payload <= cfg.grant.maxPayloadBytes
            && index <= cfg.grant.maxIndexBytes && references <= cfg.grant.maxReferences;
      CountersEqual(entries, live, quarantined, retired, payload, index, references, leases,
                    repairs);
    }

    predicate CountsEqual(entries: int, live: int, quarantined: int, retired: int, payload: int,
      index: int, references: int, leases: int, repairs: int)
      reads this
    {
      && entries == entryCount && live == liveEntries && quarantined == quarantinedEntries
      && retired == retiredEntries && payload == payloadBytes && index == logicalIndexBytes
      && references == referenceCount && leases == activeLeases && repairs == repairCount
    }

    lemma CountersEqual(entries: int, live: int, quarantined: int, retired: int, payload: int,
      index: int, references: int, leases: int, repairs: int)
      requires entries == Sum(slots, Entries) && live == Sum(slots, LiveEntries)
      requires quarantined == Sum(slots, QuarantinedEntries)
      requires retired == Sum(slots, RetiredEntries) && payload == Sum(slots, PayloadBytes)
      requires index == Sum(slots, IndexBytes) && references == Sum(slots, References)
      requires leases == Sum(slots, ActiveLeases) && repairs == Sum(slots, Repairs)
      ensures CountsEqual(entries, live, quarantined, retired, payload, index, references,
                          leases, repairs)
              <==> forall c :: Count(c) == Sum(slots, c)
    {
      if forall c :: Count(c) == Sum(slots, c) {
        assert Count(Entries) == Sum(slots, Entries);
        assert Count(LiveEntries) == Sum(slots, LiveEntries);
        assert Count(QuarantinedEntries) == Sum(slots, QuarantinedEntries);
        assert Count(RetiredEntries) == Sum(slots, RetiredEntries);
        assert Count(PayloadBytes) == Sum(slots, PayloadBytes);
        assert Count(IndexBytes) == Sum(slots, IndexBytes);
        assert Count(References) == Sum(slots, References);
        assert Count(ActiveLeases) == Sum(slots, ActiveLeases);
        assert Count(Repairs) == Sum(slots, Repairs);
      }
    }

    // -------------------------------------------------------------------------------------
    // Reclaiming
    // -------------------------------------------------------------------------------------

    method LogicalAccounting() returns (a: Accounting)
      requires Counted()
      ensures a == AccountingOf(slots)
    {
      hide Sum;
      assert Count(Entries) == Sum(slots, Entries) && Count(LiveEntries) == Sum(slots, LiveEntries);
      assert Count(QuarantinedEntries) == Sum(slots, QuarantinedEntries);
      assert Count(RetiredEntries) == Sum(slots, RetiredEntries);
      assert Count(PayloadBytes) == Sum(slots, PayloadBytes);
      assert Count(IndexBytes) == Sum(slots, IndexBytes);
      assert Count(References) == Sum(slots, References);
      assert Count(ActiveLeases) == Sum(slots, ActiveLeases);
      assert Count(Repairs) == Sum(slots, Repairs);
      a := Accounting(entryCount, liveEntries, quarantinedEntries, retiredEntries, payloadBytes,
                      logicalIndexBytes, referenceCount, activeLeases, repairCount);
    }

    method AuditSnapshot() returns (r: Result<Digest, StoreError>)
      requires Valid()
      ensures r == Audit(cfg, View())
    {
      hide Sum, Intact, SnapshotFrom, Snapshot;
      var refused := Refused(cfg, View(), OPERATION_VERIFY);
      if refused.Some? {
        return Failure(refused.value);
      }
      var ok := Verify(true);
      if !ok {
        return Failure(CorruptPayload);
      }
      var a := LogicalAccounting();
      SnapshotFromSums(cfg, slots);
      return Success(SnapshotFrom(cfg, slots, a));
    }

    /** The slots of all targets and what they free, or nothing if one is not retired. */
    method LocateTargets(targets: seq<BlobRef>)
      returns (r: Option<seq<nat>>, freed: nat, repairs: nat)
      ensures r.Some? <==> AllRetired(slots, targets)
      ensures r.Some? ==>
                && |r.value| == |targets|
                && (forall k | 0 <= k < |targets| :: Find(slots, targets[k]) == Some(r.value[k]))
                && freed == Freed(slots, targets, PayloadBytes)
                && repairs == Freed(slots, targets, Repairs)
    {
      hide FindFrom;
      var indexes: seq<nat> := [];
      freed, repairs := 0, 0;
      var k := 0;
      while k < |targets|
        invariant 0 <= k <= |targets| && |indexes| == k
        invariant AllRetired(slots, targets[..k])
        invariant forall j | 0 <= j < k :: Find(slots, targets[j]) == Some(indexes[j])
        invariant freed == Freed(slots, targets[..k], PayloadBytes)
        invariant repairs == Freed(slots, targets[..k], Repairs)
      {
        var index := Locate(targets[k]);
        if index.None? || slots[index.value].value.state != SlotRetired
           || slots[index.value].value.references != 0
           || slots[index.value].value.lease.active
           || slots[index.value].value.reason != ZERO_DIGEST {
          assert !RetiredTarget(slots, targets[k]);
          return None, 0, 0;
        }
        var s := slots[index.value].value;
        assert targets[..k + 1][..k] == targets[..k];
        assert RetiredTarget(slots, targets[k]);
        OneMoreRetired(slots, targets, k);
        indexes := indexes + [index.value];
        freed, repairs := freed + s.blob.byteLength, repairs + s.repairs;
        k := k + 1;
      }
      assert targets[..k] == targets;
      return Some(indexes), freed, repairs;
    }

    /** The slots with those of the targets emptied one by one. */
    method WithoutTargets(targets: seq<BlobRef>, indexes: seq<nat>) returns (shadow: Slots)
      requires Unique(slots) && AllRetired(slots, targets) && Distinct(targets)
      requires |indexes| == |targets|
      requires forall k | 0 <= k < |targets| :: Find(slots, targets[k]) == Some(indexes[k])
      ensures shadow == Removed(slots, targets)
    {
      hide FindFrom, Unique, RetiredTarget;
      shadow := slots;
      var k := 0;
      assert Removed(slots, targets[..0]) == slots;
      while k < |indexes|
        invariant 0 <= k <= |indexes|
        invariant shadow == Removed(slots, targets[..k])
      {
        RemovedOneMore(slots, targets, k);
        shadow := shadow[indexes[k] := None];
        k := k + 1;
      }
      assert targets[..k] == targets;
    }

    method PreviewRetired(p: Permit, targets: seq<BlobRef>)
      returns (reply: Result<CommitReceipt, StoreError>)
      requires Valid()
      ensures reply == Preview(cfg, View(), p, targets)
    {
      hide StoreGood, Freed, Intact, AllRetired, CanonicalTargets, TargetsRoot, Snapshot,
        SnapshotFrom, AccountingBytes, Removed, Refused, Auditable, Distinct, Sum;
      var refused := PermitRefused(cfg, View(), p);
      if refused.Some? {
        return Failure(refused.value);
      }
      if targets == [] || |targets| > p.maxFreedEntries {
        return Failure(FreedBudget);
      }
      if !CanonicalTargets(targets) {
        return Failure(RetiredTargetMismatch);
      }
      CanonicalDistinct(targets);
      var audit := AuditSnapshot();
      if audit.Failure? {
        return Failure(audit.error);
      }
      if audit.value != p.expectedSnapshot {
        return Failure(SnapshotMismatch);
      }
      AuditIs(cfg, View());
      var indexes, freed, repairs := LocateTargets(targets);
      if indexes.None? {
        return Failure(RetiredTargetMismatch);
      }
      if freed > p.maxFreedBytes {
        return Failure(FreedBudget);
      }
      var before := LogicalAccounting();
      AccountingAfter(cfg, slots, targets);
      if before.entries < |targets| || before.retired < |targets| || before.payload < freed
         || before.index < INDEX_ENTRY_BYTES * |targets| || before.repairs < repairs {
        assert false;
        return Failure(InvalidAccounting);
      }
      var after := Minus(before, |targets|, freed, repairs);
      GoodUnique(cfg, slots);
      var shadow := WithoutTargets(targets, indexes.value);
      SnapshotFromSums(cfg, shadow);
      var r := CommitReceipt(p.authorization, TargetsRoot(cfg, targets), audit.value,
                             SnapshotFrom(cfg, shadow, after), before, after, |targets|, freed,
                             INDEX_ENTRY_BYTES * |targets|, repairs, |targets|, ZERO_DIGEST);
      return Success(r.(commitSha := CommitRoot(cfg, r)));
    }

    /** Taking over emptied slots together with the counters that were computed for them. */
    method Adopt(emptied: Slots, after: Accounting)
      requires grantSha == GrantRoot(cfg) && after == AccountingOf(emptied)
      modifies this`slots, this`entryCount, this`liveEntries, this`quarantinedEntries,
        this`retiredEntries, this`payloadBytes, this`logicalIndexBytes, this`referenceCount,
        this`activeLeases, this`repairCount
      ensures Counted() && slots == emptied
    {
      hide Sum;
      slots := emptied;
      entryCount, liveEntries := after.entries, after.live;
      quarantinedEntries, retiredEntries := after.quarantined, after.retired;
      payloadBytes, logicalIndexBytes := after.payload, after.index;
      referenceCount, activeLeases := after.references, after.leases;
      repairCount := after.repairs;
    }

    /** The commit of a preview; its final snapshot assertion cannot fail. */
    method CommitRetiredPreview(p: Permit, targets: seq<BlobRef>, expected: CommitReceipt)
      returns (reply: Result<CommitReceipt, StoreError>)
      requires Valid()
      modifies this
      ensures Valid()
      ensures Outcome(View(), reply) == CommitRetired(cfg, old(View()), p, targets, expected)
    {
      hide StoreGood, Freed, AllRetired, CanonicalTargets, TargetsRoot, Snapshot,
        SnapshotFrom, AccountingBytes, Removed, Distinct, Audit, PermitRefused, CommitRoot, Sum;
      var preview := PreviewRetired(p, targets);
      if preview.Failure? {
        return Failure(preview.error);
      }
      if preview.value != expected {
        return Failure(PreviewMismatch);
      }
      CanonicalDistinct(targets);
      RemovedGood(cfg, slots, targets);
      GoodUnique(cfg, slots);
      var indexes, _, _ := LocateTargets(targets);
      var emptied := WithoutTargets(targets, indexes.value);
      Adopt(emptied, preview.value.after);
      var a := LogicalAccounting();
      SnapshotFromSums(cfg, slots);
      if SnapshotFrom(cfg, slots, a) != preview.value.snapshotAfter {
        assert false;
      }
      return preview;
    }

    // -------------------------------------------------------------------------------------
    // Importing
    // -------------------------------------------------------------------------------------

    method DropReference(i: nat)
      requires Counted() && i < |slots| && slots[i].Some? && slots[i].value.references > 0
      modifies this`slots, this`referenceCount
      ensures Counted()
      ensures var s := old(slots)[i].value;
              slots == old(slots)[i := Some(s.(references := s.references - 1))]
    {
      hide Sum;
      var s := slots[i].value;
      CountsMove(slots, i, Some(s.(references := s.references - 1)));
      slots := slots[i := Some(s.(references := s.references - 1))];
      referenceCount := referenceCount - 1;
    }

    /** Rolling back puts, the latest first, along the contents they started from. */
    method Rollback(actions: seq<Placed>, ghost history: seq<Content>)
      requires Counted() && Retraceable(history, actions) && history[|actions|] == View()
      modifies this
      ensures Counted() && View() == history[0]
    {
      hide Sum;
      var k := |actions|;
      while k > 0
        invariant 0 <= k <= |actions|
        invariant Counted() && View() == history[k]
      {
        k := k - 1;
        assert Retraced(history[k], actions[k], history[k + 1]);
        if actions[k].inserted {
          Empty(actions[k].index);
          allocatorInsertions := allocatorInsertions - 1;
        } else {
          DropReference(actions[k].index);
        }
      }
    }

    /** Importing a verified bundle: on the first put that fails everything is rolled back. */
    method ImportBundle(items: seq<Item>)
      returns (reply: Result<seq<Placed>, StoreError>, uniqueAdded: nat, reused: nat,
               bytesAdded: nat)
      requires Valid()
      modifies this
      ensures Valid()
      ensures Outcome(View(), reply) == Import(cfg, old(View()), items)
      ensures reply.Success? ==>
                && |reply.value| == |items| && uniqueAdded == Inserted(reply.value)
                && reused == |items| - uniqueAdded
                && bytesAdded == BytesAdded(items, reply.value)
    {
      hide Sum, StoreGood, Put, Refused, Retraceable, Retraced, Inserted, BytesAdded;
      uniqueAdded, reused, bytesAdded := 0, 0, 0;
      ghost var start := View();
      var refused := Refused(cfg, View(), OPERATION_PUT);
      if refused.Some? {
        return Failure(refused.value), 0, 0, 0;
      }
      var actions: seq<Placed> := [];
      ghost var history := [start];
      RetraceStart(start);
      NothingAdded(items);
      var i := 0;
      while i < |items|
        invariant 0 <= i <= |items|
        invariant Valid()
        invariant PutAll(cfg, start, items[..i]) == Success(Trail(View(), actions))
        invariant Retraceable(history, actions) && |history| == |actions| + 1
        invariant history[0] == start && history[|actions|] == View()
        invariant uniqueAdded == Inserted(actions) && reused == i - uniqueAdded
        invariant bytesAdded == BytesAdded(items[..i], actions)
      {
        ghost var before := View();
        var item := items[i];
        TrailMore(cfg, start, items, i, Trail(before, actions));
        PutFails(cfg, before, item);
        var put := PutBlob(item.blob, item.payload, cfg.grant.bundle);
        if put.Failure? {
          PutAllPrefix(cfg, start, items, i + 1);
          Rollback(actions, history);
          return Failure(put.error), 0, 0, 0;
        }
        PutRetraced(cfg, before, item);
        Retrace(history, actions, put.value, View());
        CountMore(items, i, actions, put.value);
        actions, history := actions + [put.value], history + [View()];
        if put.value.inserted {
          uniqueAdded, bytesAdded := uniqueAdded + 1, bytesAdded + item.blob.byteLength;
        } else {
          reused := reused + 1;
        }
        i := i + 1;
      }
      assert items[..i] == items;
      var unverified := Refused(cfg, View(), OPERATION_VERIFY);
      if unverified.Some? {
        return Failure(unverified.value), 0, 0, 0;
      }
      var ok := Verify(false);
      PassIsIntact(cfg, slots);
      if !ok {
        return Failure(CorruptPayload), 0, 0, 0;
      }
      return Success(actions), uniqueAdded, reused, bytesAdded;
    }

    /** On a valid store verification fails exactly for a payload that no longer hashes. */
    method Verify(allowCorrupt: bool) returns (ok: bool)
      requires Valid()
      ensures ok <==> PayloadsPass(cfg, slots, allowCorrupt)
    {
      hide Sum, WithinBudgets, SlotPasses, StoreGood;
      GoodPasses(cfg, slots, allowCorrupt);
      GoodMeans(cfg, slots);
      ok := VerifyState(allowCorrupt);
    }
  }

  lemma PassIsIntact(cfg: Config, slots: Slots)
    ensures PayloadsPass(cfg, slots, false) <==> AllIntact(cfg, slots)
  {
    hide BlobOf;
  }

  /** `after` is `before` with one put done, and the put can be taken back. */
  predicate Retraced(before: Content, a: Placed, after: Content) {
    && Undoable(after, a) && Undo(after, a) == before
    && var s := after.slots[a.index].value;
       && s.state == SlotLive && s.references > 0
       && (a.inserted ==> !s.lease.active && s.references == 1 && s.repairs == 0)
  }

  predicate Retraceable(history: seq<Content>, actions: seq<Placed>) {
    && |history| == |actions| + 1
    && forall k | 0 <= k < |actions| :: Retraced(history[k], actions[k], history[k + 1])
  }

  lemma Retrace(history: seq<Content>, actions: seq<Placed>, a: Placed, after: Content)
    requires Retraceable(history, actions) && Retraced(history[|actions|], a, after)
    ensures Retraceable(history + [after], actions + [a])
  {
    hide Retraced;
    var h, s := history + [after], actions + [a];
    forall k | 0 <= k < |s| ensures Retraced(h[k], s[k], h[k + 1]) {
      if k < |actions| {
        assert Retraced(history[k], actions[k], history[k + 1]);
      }
    }
  }

  lemma OneMoreRetired(slots: Slots, targets: seq<BlobRef>, k: nat)
    requires k < |targets| && AllRetired(slots, targets[..k]) && RetiredTarget(slots, targets[k])
    ensures AllRetired(slots, targets[..k + 1])
  {
    hide RetiredTarget;
    assert targets[..k + 1] == targets[..k] + [targets[k]];
  }

  lemma PutRetraced(cfg: Config, st: Content, item: Item)
    requires PutItem(cfg, st, item).reply.Success?
    ensures Retraced(st, PutItem(cfg, st, item).reply.value, PutItem(cfg, st, item).content)
  {
    hide Put;
    PutUndone(cfg, st, item);
    PutShape(cfg, st, item);
  }

  lemma NothingAdded(items: seq<Item>)
    ensures Inserted([]) == 0 && BytesAdded(items[..0], []) == 0
  {
  }

  lemma PutFails(cfg: Config, st: Content, item: Item)
    ensures PutItem(cfg, st, item).reply.Failure? ==> PutItem(cfg, st, item).content == st
  {
    hide Sum, BlobOf;
  }

  /** One more item of an import, whether its put succeeds or not. */
  lemma TrailMore(cfg: Config, start: Content, items: seq<Item>, i: nat, trail: Trail)
    requires i < |items| && PutAll(cfg, start, items[..i]) == Success(trail)
    ensures var put := PutItem(cfg, trail.content, items[i]);
            PutAll(cfg, start, items[..i + 1])
            == if put.reply.Failure? then Failure(put.reply.error)
               else Success(Trail(put.content, trail.actions + [put.reply.value]))
  {
    hide PutItem;
    assert items[..i + 1][..i] == items[..i];
  }

  lemma CountMore(items: seq<Item>, i: nat, actions: seq<Placed>, a: Placed)
    requires i < |items| && |actions| == i
    ensures Inserted(actions + [a]) == Inserted(actions) + if a.inserted then 1 else 0
    ensures BytesAdded(items[..i + 1], actions + [a])
            == BytesAdded(items[..i], actions)
               + if a.inserted then items[i].blob.byteLength else 0
  {
    hide Inserted, BytesAdded;
    assert items[..i + 1] == items[..i] + [items[i]];
    CountOneMore(items[..i], items[i], actions, a);
  }

  lemma RetraceStart(start: Content)
    ensures Retraceable([start], [])
  {
  }

  lemma AuditIs(cfg: Config, st: Content)
    requires Audit(cfg, st).Success?
    ensures Audit(cfg, st).value == Snapshot(cfg, st.slots)
  {
  }

  lemma GoodUnique(cfg: Config, slots: Slots)
    requires StoreGood(cfg, slots)
    ensures Unique(slots)
  {
  }

  lemma {:induction false} NothingCounted(slots: Slots, c: Counter)
    requires forall i | 0 <= i < |slots| :: slots[i].None?
    ensures Sum(slots, c) == 0
  {
    if slots != [] {
      NothingCounted(slots[..|slots| - 1], c);
    }
  }

  predicate SeenSoFar(slots: Slots, n: nat, seen: set<Digest>)
    requires n <= |slots|
  {
    && (forall k | 0 <= k < n && slots[k].Some? :: slots[k].value.blob.sha in seen)
    && (forall d | d in seen :: exists k :: 0 <= k < n && HoldsDigest(slots[k], d))
  }

  lemma SeenMeans(slots: Slots, n: nat, seen: set<Digest>, sha: Digest)
    requires n <= |slots| && SeenSoFar(slots, n, seen)
    ensures sha !in seen <==> forall k | 0 <= k < n :: !HoldsDigest(slots[k], sha)
  {
  }

  lemma SeenMore(slots: Slots, n: nat, seen: set<Digest>)
    requires n < |slots|
    requires slots[n].None? ==> SeenSoFar(slots, n, seen)
    requires slots[n].Some? ==>
               slots[n].value.blob.sha in seen
               && (SeenSoFar(slots, n, seen - {slots[n].value.blob.sha})
                   || SeenSoFar(slots, n, seen))
    ensures SeenSoFar(slots, n + 1, seen)
  {
    if slots[n].Some? {
      var sha := slots[n].value.blob.sha;
      assert HoldsDigest(slots[n], sha);
      forall d | d in seen ensures exists k :: 0 <= k < n + 1 && HoldsDigest(slots[k], d) {
        if d != sha {
          assert d in seen - {sha};
        }
      }
    }
  }

  lemma NothingYet(slots: Slots)
    ensures forall c {:trigger Sum(slots[..0], c)} :: Sum(slots[..0], c) == 0
    ensures SeenSoFar(slots, 0, {})
  {
  }

  lemma SumStep(slots: Slots, i: nat)
    requires i < |slots|
    ensures forall c {:trigger Sum(slots[..i + 1], c)} ::
              Sum(slots[..i + 1], c) == Sum(slots[..i], c) + Weight(c, slots[i])
  {
    hide Weight;
    assert slots[..i + 1][..i] == slots[..i];
  }

  lemma {:induction false} PrefixSum(slots: Slots, n: nat, c: Counter)
    requires n <= |slots|
    ensures Sum(slots[..n], c) <= Sum(slots, c)
    decreases |slots|
  {
    hide Weight;
    if n < |slots| {
      PrefixSum(slots[..|slots| - 1], n, c);
      assert slots[..|slots| - 1][..n] == slots[..n];
    } else {
      assert slots[..n] == slots;
    }
  }
}
