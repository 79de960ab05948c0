/** The rules that every single store operation keeps. */
module ObjectStoreRules {
  import opened Bytes
  import opened ObjectStore

  /** The budgets after one slot changes, in terms of the weights that change. */
  predicate FitsBudgets(g: Grant, slots: Slots, i: nat, s: Option<Slot>)
    requires i < |slots|
  {
    && Sum(slots, Entries) - Weight(Entries, slots[i]) + Weight(Entries, s) <= g.maxEntries
    && Sum(slots, PayloadBytes) - Weight(PayloadBytes, slots[i]) + Weight(PayloadBytes, s)
       <= g.maxPayloadBytes
    && Sum(slots, IndexBytes) - Weight(IndexBytes, slots[i]) + Weight(IndexBytes, s)
       <= g.maxIndexBytes
    && Sum(slots, References) - Weight(References, slots[i]) + Weight(References, s)
       <= g.maxReferences
    && Sum(slots, Repairs) - Weight(Repairs, slots[i]) + Weight(Repairs, s) <= U64_MAX
  }

  predicate DigestFree(slots: Slots, i: nat, sha: Digest) {
    forall k | 0 <= k < |slots| && k != i :: !HoldsDigest(slots[k], sha)
  }

  /** The one update lemma: a good store stays good when a slot changes within the rules. */
  lemma SlotReplaced(cfg: Config, slots: Slots, i: nat, s: Option<Slot>)
    requires StoreGood(cfg, slots) && i < |slots| && FitsBudgets(cfg.grant, slots, i, s)
    requires s.Some? ==> SlotGood(cfg.grant, s.value) && DigestFree(slots, i, s.value.blob.sha)
    ensures StoreGood(cfg, slots[i := s])
  {
    hide Weight, SlotGood, Sum;
    SumUpdate(slots, i, s, Entries);
    SumUpdate(slots, i, s, PayloadBytes);
    SumUpdate(slots, i, s, IndexBytes);
    SumUpdate(slots, i, s, References);
    SumUpdate(slots, i, s, Repairs);
    var after := slots[i := s];
    forall a, b | 0 <= a < b < |after| && after[a].Some? && after[b].Some?
      ensures after[a].value.blob.sha != after[b].value.blob.sha
    {
      if a == i {
        assert !HoldsDigest(slots[b], s.value.blob.sha);
      } else if b == i {
        assert !HoldsDigest(slots[a], s.value.blob.sha);
      }
    }
  }

  lemma OwnDigestFree(cfg: Config, slots: Slots, i: nat)
    requires StoreGood(cfg, slots) && i < |slots| && slots[i].Some?
    ensures DigestFree(slots, i, slots[i].value.blob.sha)
  {
    hide SlotGood, Sum, WithinBudgets;
  }

  /** A slot changed in place keeps its blob; only references and repairs may count more. */
  lemma SlotChanged(cfg: Config, slots: Slots, i: nat, s: Slot)
    requires StoreGood(cfg, slots) && i < |slots| && slots[i].Some?
    requires s.blob == slots[i].value.blob && SlotGood(cfg.grant, s)
    requires s.references <= slots[i].value.references
             || (s.references == slots[i].value.references + 1
                 && Sum(slots, References) < cfg.grant.maxReferences)
    requires s.repairs <= slots[i].value.repairs
             || (s.repairs == slots[i].value.repairs + 1 && Sum(slots, Repairs) < U64_MAX)
    ensures StoreGood(cfg, slots[i := Some(s)])
  {
    OwnDigestFree(cfg, slots, i);
    SlotReplaced(cfg, slots, i, Some(s));
  }

  lemma SlotEmptied(cfg: Config, slots: Slots, i: nat)
    requires StoreGood(cfg, slots) && i < |slots|
    ensures StoreGood(cfg, slots[i := None])
  {
    hide SlotGood, Sum;
    SlotReplaced(cfg, slots, i, None);
  }

  // ---------------------------------------------------------------------------------------
  // Single operations
  // ---------------------------------------------------------------------------------------

  lemma InsertGood(cfg: Config, st: Content, expected: BlobRef, payload: Bytes)
    requires StoreGood(cfg, st.slots) && FindDigestFrom(st.slots, expected.sha, 0).None?
    requires 0 < expected.byteLength <= cfg.grant.maxObjectBytes
    ensures StoreGood(cfg, Insert(cfg, st, expected, payload, cfg.grant.bundle).content.slots)
  {
    hide StoreGood, Sum;
    var r := Insert(cfg, st, expected, payload, cfg.grant.bundle);
    if r.reply.Success? {
      GoodMeans(cfg, st.slots);
      SlotReplaced(cfg, st.slots, r.reply.value.index,
                   Some(NewSlot(expected, payload, cfg.grant.bundle)));
    }
  }

  lemma GoodMeans(cfg: Config, slots: Slots)
    requires StoreGood(cfg, slots)
    ensures WithinBudgets(cfg.grant, slots) && |slots| == cfg.capacity
    ensures forall i | 0 <= i < |slots| && slots[i].Some? :: SlotGood(cfg.grant, slots[i].value)
  {
  }

  lemma PutGood(cfg: Config, st: Content, expected: BlobRef, payload: Bytes, provenance: Digest)
    requires StoreGood(cfg, st.slots)
    ensures StoreGood(cfg, Put(cfg, st, expected, payload, provenance).content.slots)
  {
    hide StoreGood, Sum, Insert, WithinBudgets;
    GoodMeans(cfg, st.slots);
    var found := FindDigestFrom(st.slots, expected.sha, 0);
    if Refused(cfg, st, OPERATION_PUT).None? && provenance == cfg.grant.bundle
       && Hashable(payload) && BlobOf(cfg, payload) == expected
       && expected.byteLength <= cfg.grant.maxObjectBytes {
      if found.None? {
        InsertGood(cfg, st, expected, payload);
      } else if Reuse(cfg, st, found.value, expected, payload).reply.Success? {
        var s := st.slots[found.value].value;
        assert SlotGood(cfg.grant, s);
        SlotChanged(cfg, st.slots, found.value, s.(references := s.references + 1));
      }
    }
  }

  lemma ReleaseGood(cfg: Config, st: Content, expected: BlobRef)
    requires StoreGood(cfg, st.slots)
    ensures StoreGood(cfg, Release(cfg, st, expected).content.slots)
  {
    hide StoreGood, Sum, WithinBudgets;
    GoodMeans(cfg, st.slots);
    var found := Addressed(st, expected);
    if Release(cfg, st, expected).reply.Success? {
      var s := st.slots[found.value].value;
      assert SlotGood(cfg.grant, s);
      if s.references > 1 {
        SlotChanged(cfg, st.slots, found.value, s.(references := s.references - 1));
      } else {
        SlotEmptied(cfg, st.slots, found.value);
      }
    }
  }

  lemma RetireGood(cfg: Config, st: Content, expected: BlobRef)
    requires StoreGood(cfg, st.slots)
    ensures StoreGood(cfg, Retire(cfg, st, expected).content.slots)
  {
    hide StoreGood, Sum, WithinBudgets;
    GoodMeans(cfg, st.slots);
    if Retire(cfg, st, expected).reply.Success? {
      var i := AddressedLive(st, expected).value;
      var s := st.slots[i].value;
      assert SlotGood(cfg.grant, s);
      SlotChanged(cfg, st.slots, i, s.(references := 0, state := SlotRetired));
    }
  }

  lemma QuarantineGood(cfg: Config, st: Content, expected: BlobRef, reason: Digest)
    requires StoreGood(cfg, st.slots)
    ensures StoreGood(cfg, Quarantine(cfg, st, expected, reason).content.slots)
  {
    hide StoreGood, Sum, WithinBudgets;
    GoodMeans(cfg, st.slots);
    if Quarantine(cfg, st, expected, reason).reply.Success? {
      var i := AddressedLive(st, expected).value;
      var s := st.slots[i].value;
      assert SlotGood(cfg.grant, s);
      var free := if s.lease.active then ClearLease(s) else s;
      SlotChanged(cfg, st.slots, i, free.(state := SlotQuarantined, reason := reason));
    }
  }

  /** No receipt digest that is issued happens to be the zero digest. */
  predicate Issuable(r: Outcome<LeaseReceipt>) {
    r.reply.Success? ==> r.reply.value.leaseSha != ZERO_DIGEST
  }

  lemma AcquireGood(cfg: Config, st: Content, expected: BlobRef, l: LifecycleGrant,
    owner: Digest, observed: u64, expires: u64)
    requires StoreGood(cfg, st.slots)
    requires Issuable(AcquireLease(cfg, st, expected, l, owner, observed, expires))
    ensures StoreGood(cfg, AcquireLease(cfg, st, expected, l, owner, observed, expires)
                             .content.slots)
  {
    hide StoreGood, Sum, WithinBudgets, LeaseRoot, LifecycleGrantRoot, LifecycleRefused;
    GoodMeans(cfg, st.slots);
    var r := AcquireLease(cfg, st, expected, l, owner, observed, expires);
    if r.reply.Success? {
      var i := AddressedLive(st, expected).value;
      var s := st.slots[i].value;
      assert SlotGood(cfg.grant, s);
      SlotChanged(cfg, st.slots, i, Leased(s, r.reply.value));
    }
  }

  lemma RenewGood(cfg: Config, st: Content, expected: BlobRef, current: LeaseReceipt,
    l: LifecycleGrant, observed: u64, expires: u64)
    requires StoreGood(cfg, st.slots)
    requires Issuable(RenewLease(cfg, st, expected, current, l, observed, expires))
    ensures StoreGood(cfg, RenewLease(cfg, st, expected, current, l, observed, expires)
                             .content.slots)
  {
    hide StoreGood, Sum, WithinBudgets, LeaseRoot, LifecycleGrantRoot, LifecycleRefused;
    GoodMeans(cfg, st.slots);
    var r := RenewLease(cfg, st, expected, current, l, observed, expires);
    if r.reply.Success? {
      var i := Addressed(st, expected).value;
      var s := st.slots[i].value;
      assert SlotGood(cfg.grant, s);
      SlotChanged(cfg, st.slots, i, Leased(s, r.reply.value));
    }
  }

  lemma EndGood(cfg: Config, st: Content, expected: BlobRef, current: LeaseReceipt,
    l: LifecycleGrant, expiring: Option<u64>)
    requires StoreGood(cfg, st.slots)
    ensures StoreGood(cfg, EndLease(cfg, st, expected, current, l, expiring).content.slots)
  {
    hide StoreGood, Sum, WithinBudgets, LeaseRoot, LifecycleRefused;
    GoodMeans(cfg, st.slots);
    if EndLease(cfg, st, expected, current, l, expiring).reply.Success? {
      var i := Addressed(st, expected).value;
      var s := st.slots[i].value;
      assert SlotGood(cfg.grant, s);
      SlotChanged(cfg, st.slots, i, ClearLease(s));
    }
  }

  lemma RepairGood(cfg: Config, st: Content, expected: BlobRef, candidate: Bytes, source: Digest,
    r: RepairGrant)
    requires StoreGood(cfg, st.slots)
    ensures StoreGood(cfg, Repair(cfg, st, expected, candidate, source, r).content.slots)
  {
    hide StoreGood, Sum, RepairRefused, MakeRepairReceipt;
    GoodMeans(cfg, st.slots);
    if Repair(cfg, st, expected, candidate, source, r).reply.Success? {
      var i := Addressed(st, expected).value;
      var s := st.slots[i].value;
      assert SlotGood(cfg.grant, s);
      SlotChanged(cfg, st.slots, i, Repaired(s, candidate));
    }
  }

  // ---------------------------------------------------------------------------------------
  // Payloads
  // ---------------------------------------------------------------------------------------

  predicate AllIntact(cfg: Config, slots: Slots) {
    forall i | 0 <= i < |slots| && slots[i].Some? :: Intact(cfg, slots[i].value)
  }
}
