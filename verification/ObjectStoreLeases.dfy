/** What a lease receipt is worth over whole runs. */
module ObjectStoreLeases {
  import opened Bytes
  import opened ObjectStore
  import opened ObjectStoreRules
  import opened ObjectStoreRuns

  // ---------------------------------------------------------------------------------------
  // Within one occupancy
  // ---------------------------------------------------------------------------------------

  /** Along one occupancy generations only rise, and an old lease mark never comes back. */
  predicate LeaseAdvances(s: Slot, after: Slot) {
    && after.blob == s.blob
    && s.lease.generation <= after.lease.generation
    && (after.lease.active ==>
          after.lease == s.lease || s.lease.generation < after.lease.generation)
  }

  lemma OccupiedStep(cfg: Config, before: Slots, after: Slots, i: nat)
    requires AllStep(cfg, before, after)
    requires i < |before| && before[i].Some? && i < |after| && after[i].Some?
    ensures LeaseAdvances(before[i].value, after[i].value)
  {
    hide Intact;
  }

  lemma {:induction false} LeaseHistory(cfg: Config, st: Content, ops: seq<StoreOp>, i: nat)
    requires GenerationsBounded(st.slots) && Occupied(cfg, st, ops, i)
    ensures GenerationsBounded(AfterOps(cfg, st, ops).slots)
    ensures var after := AfterOps(cfg, st, ops).slots;
            && i < |st.slots| && st.slots[i].Some? && i < |after| && after[i].Some?
            && LeaseAdvances(st.slots[i].value, after[i].value)
  {
    hide Apply, AllStep, GenerationsBounded, Occupied, LeasesKept;
    OccupiedStart(cfg, st, ops, i);
    if ops != [] {
      var n := |ops| - 1;
      OccupiedPrefix(cfg, st, ops, i);
      LeaseHistory(cfg, st, ops[..n], i);
      var before := AfterOps(cfg, st, ops[..n]);
      ApplySteps(cfg, before, ops[n]);
      OccupiedStep(cfg, before.slots, AfterOps(cfg, st, ops).slots, i);
    }
  }

  /**
   * Lease fencing. A receipt that the slot no longer accepts, and whose generation was issued
   * before now, is never accepted again while the object stays in its slot.
   */
  lemma StaleForEver(cfg: Config, st: Content, ops: seq<StoreOp>, i: nat, expected: BlobRef,
    r: LeaseReceipt)
    requires GenerationsBounded(st.slots) && Occupied(cfg, st, ops, i)
    requires i < |st.slots| && st.slots[i].Some?
    requires !CurrentLease(cfg, st.slots[i].value, expected, r)
    requires r.generation <= st.slots[i].value.lease.generation
    ensures var after := AfterOps(cfg, st, ops).slots;
            && i < |after| && after[i].Some?
            && !CurrentLease(cfg, after[i].value, expected, r)
  {
    hide Occupied, GenerationsBounded, LeaseRoot;
    LeaseHistory(cfg, st, ops, i);
  }

  // ---------------------------------------------------------------------------------------
  // Issuing
  // ---------------------------------------------------------------------------------------

  /**
   * A successful acquire or renew makes its own receipt the current one, at a generation above
   * every receipt that was accepted before, and those are refused from now on.
   */
  lemma LatestReceiptOnly(cfg: Config, st: Content, op: StoreOp, previous: LeaseReceipt)
    requires Leases(op)
    requires var r := LeaseReply(cfg, st, op);
             && r.reply.Success? && LifecycleGrantRoot(cfg, op.grant) != ZERO_DIGEST
    ensures var r := LeaseReply(cfg, st, op);
            var i := Find(st.slots, op.expected);
            && i.Some? && i.value < |r.content.slots| && r.content.slots[i.value].Some?
            && var s := r.content.slots[i.value].value;
               && CurrentLease(cfg, s, op.expected, r.reply.value)
               && r.reply.value.generation == st.slots[i.value].value.lease.generation + 1
               && (CurrentLease(cfg, st.slots[i.value].value, op.expected, previous) ==>
                     !CurrentLease(cfg, s, op.expected, previous)
                     && previous.generation < s.lease.generation)
  {
    hide LifecycleGrantRoot, LifecycleRefused, BlobOf, Sum;
  }

  function LeasePreimage(r: LeaseReceipt): Bytes {
    LEASE_RECEIPT_DOMAIN + Word(r.target.byteLength) + r.target.sha + Word(r.generation)
    + r.owner + LE64(r.expires) + r.lifecycleGrant
  }

  lemma RootOfPreimage(cfg: Config, r: LeaseReceipt)
    ensures LeaseRoot(cfg, r) == cfg.sha(LeasePreimage(r))
  {
    hide Word, LE64;
  }

  /**
   * After a lease is issued the slot accepts exactly that receipt, whatever other receipt is
   * presented, unless the two collide.
   */
  lemma AcceptsExactlyTheLatest(cfg: Config, st: Content, op: StoreOp, p: LeaseReceipt)
    requires Leases(op)
    requires var r := LeaseReply(cfg, st, op);
             && r.reply.Success? && LifecycleGrantRoot(cfg, op.grant) != ZERO_DIGEST
             && NoCollision(cfg.sha, iset{LeasePreimage(r.reply.value), LeasePreimage(p)})
    ensures var r := LeaseReply(cfg, st, op);
            var i := Find(st.slots, op.expected);
            && i.Some? && i.value < |r.content.slots| && r.content.slots[i.value].Some?
            && (CurrentLease(cfg, r.content.slots[i.value].value, op.expected, p)
                <==> p == r.reply.value)
  {
    LatestReceiptOnly(cfg, st, op, p);
    hide LeaseReply, LifecycleGrantRoot;
    var r := LeaseReply(cfg, st, op);
    var s := r.content.slots[Find(st.slots, op.expected).value].value;
    if CurrentLease(cfg, s, op.expected, p) {
      SameLease(p, r.reply.value);
    }
  }

  lemma SameLease(a: LeaseReceipt, b: LeaseReceipt)
    requires LeasePreimage(a) == LeasePreimage(b) && a.leaseSha == b.leaseSha
    requires a.target == b.target && a.generation == b.generation
    ensures a == b
  {
    hide Word, LE64;
    var n := |LEASE_RECEIPT_DOMAIN|;
    var x, y := LeasePreimage(a), LeasePreimage(b);
    assert x[n + 48..n + 80] == a.owner && y[n + 48..n + 80] == b.owner;
    assert x[n + 80..n + 88] == LE64(a.expires) && y[n + 80..n + 88] == LE64(b.expires);
    assert x[n + 88..] == a.lifecycleGrant && y[n + 88..] == b.lifecycleGrant;
    LE64Injective(a.expires, b.expires);
  }

  // ---------------------------------------------------------------------------------------
  // Over whole runs
  // ---------------------------------------------------------------------------------------

  /** The store accepts the receipt for the object that it names. */
  predicate Accepted(cfg: Config, slots: Slots, r: LeaseReceipt) {
    var i := Find(slots, r.target);
    i.Some? && CurrentLease(cfg, slots[i.value].value, r.target, r)
  }

  /** The lease mark of the object `t`, if it is stored. */
  function Mark(slots: Slots, t: BlobRef): Option<LeaseMark> {
    var i := Find(slots, t);
    if i.None? then None else Some(slots[i.value].value.lease)
  }

  predicate LeaseActive(slots: Slots, t: BlobRef) {
    Mark(slots, t).Some? && Mark(slots, t).value.active
  }

  /** The last receipt that the run issued for `t`. */
  function LastLease(cfg: Config, st: Content, ops: seq<StoreOp>, t: BlobRef)
    : Option<LeaseReceipt>
  {
    if ops == [] then None
    else
      var n := |ops| - 1;
      var issued := Issued(cfg, AfterOps(cfg, st, ops[..n]), ops[n], t);
      if issued.Some? then issued else LastLease(cfg, st, ops[..n], t)
  }

  /** The object `t` was not stored at some point of the run. */
  predicate Vacated(cfg: Config, st: Content, ops: seq<StoreOp>, t: BlobRef) {
    exists k :: 0 <= k <= |ops| && Mark(AfterOps(cfg, st, ops[..k]).slots, t).None?
  }

  /** What every issued receipt looks like. */
  predicate Formed(cfg: Config, t: BlobRef, p: LeaseReceipt) {
    && p.target == t && p.generation != 0 && p.owner != ZERO_DIGEST && p.expires != 0
    && p.leaseSha == LeaseRoot(cfg, p)
  }

  function MarkOf(p: LeaseReceipt): LeaseMark {
    LeaseMark(p.generation, true, p.leaseSha)
  }

  lemma IssuedMark(cfg: Config, st: Content, op: StoreOp, t: BlobRef)
    requires Issued(cfg, st, op, t).Some? && Unique(Apply(cfg, st, op).slots)
    ensures Formed(cfg, t, Issued(cfg, st, op, t).value)
    ensures Mark(Apply(cfg, st, op).slots, t) == Some(MarkOf(Issued(cfg, st, op, t).value))
  {
    hide Sum, Word, LE64, LifecycleGrantRoot, LifecycleRefused, BlobOf, FindFrom;
    var i := Find(st.slots, t).value;
    HeldOnce(Apply(cfg, st, op).slots, t, i);
  }

  lemma KeptMark(before: Slots, after: Slots, t: BlobRef)
    requires LeasesKept(t, before, after) && Unique(before) && LeaseActive(after, t)
    ensures Mark(before, t) == Mark(after, t)
  {
    hide FindFrom;
    var j := Find(after, t).value;
    assert LeaseKept(t, before[j], after[j]);
    HeldOnce(before, t, j);
  }

  /** The mark of an active lease is that of the last receipt issued, or else the old one. */
  lemma {:induction false} MarkTracked(cfg: Config, st: Content, ops: seq<StoreOp>, t: BlobRef)
    requires Sound(cfg, st) && AllIssuable(cfg, st, ops)
    ensures var last := LastLease(cfg, st, ops, t);
            var after := AfterOps(cfg, st, ops).slots;
            && (last.Some? ==> Formed(cfg, t, last.value))
            && (LeaseActive(after, t) ==>
                  Mark(after, t)
                  == if last.Some? then Some(MarkOf(last.value)) else Mark(st.slots, t))
  {
    hide Apply, AllStep, GenerationsBounded, StoreGood, AllIntact, OpIssuable, Mark, Formed,
      Issued, LeasesKept;
    if ops != [] {
      var n := |ops| - 1;
      var before := AfterOps(cfg, st, ops[..n]);
      IssuablePrefix(cfg, st, ops);
      MarkTracked(cfg, st, ops[..n], t);
      RunsGood(cfg, st, ops[..n]);
      RunsGood(cfg, st, ops);
      GoodUnique(cfg, before.slots);
      GoodUnique(cfg, AfterOps(cfg, st, ops).slots);
      ApplySteps(cfg, before, ops[n]);
      if Issued(cfg, before, ops[n], t).Some? {
        IssuedMark(cfg, before, ops[n], t);
      } else if LeaseActive(AfterOps(cfg, st, ops).slots, t) {
        KeptMark(before.slots, AfterOps(cfg, st, ops).slots, t);
      }
    }
  }

  lemma GoodUnique(cfg: Config, slots: Slots)
    requires StoreGood(cfg, slots)
    ensures Unique(slots)
  {
  }

  lemma AcceptedMark(cfg: Config, slots: Slots, r: LeaseReceipt)
    ensures Accepted(cfg, slots, r)
            <==> Formed(cfg, r.target, r) && r.lifecycleGrant != ZERO_DIGEST
                 && Mark(slots, r.target) == Some(MarkOf(r))
  {
    hide LeaseRoot;
  }

  /** The receipt does not share its digest with the last one issued unless it equals it. */
  ghost predicate Apart(cfg: Config, last: Option<LeaseReceipt>, r: LeaseReceipt) {
    last.Some? ==> NoCollision(cfg.sha, iset{LeasePreimage(last.value), LeasePreimage(r)})
  }

  /**
   * A receipt that is refused now is accepted after a run exactly when it is the last one that
   * the run issued for its object and that lease is still active, collisions aside.
   */
  lemma AcceptedExactly(cfg: Config, st: Content, ops: seq<StoreOp>, r: LeaseReceipt)
    requires Sound(cfg, st) && AllIssuable(cfg, st, ops) && !Accepted(cfg, st.slots, r)
    requires Apart(cfg, LastLease(cfg, st, ops, r.target), r)
    ensures var after := AfterOps(cfg, st, ops).slots;
            Accepted(cfg, after, r)
            <==> && LastLease(cfg, st, ops, r.target) == Some(r)
                 && LeaseActive(after, r.target) && r.lifecycleGrant != ZERO_DIGEST
  {
    hide Sound, AllIssuable, LastLease, AfterOps, LeasePreimage, Accepted, LeaseRoot, Find;
    var after := AfterOps(cfg, st, ops).slots;
    var last := LastLease(cfg, st, ops, r.target);
    MarkTracked(cfg, st, ops, r.target);
    AcceptedMark(cfg, st.slots, r);
    AcceptedMark(cfg, after, r);
    if Accepted(cfg, after, r) && last.Some? {
      RootOfPreimage(cfg, r);
      RootOfPreimage(cfg, last.value);
      SameLease(r, last.value);
    }
  }

  /** An object that stays stored stays in its slot. */
  lemma SameSlot(cfg: Config, before: Slots, after: Slots, t: BlobRef)
    requires Unique(before) && Unique(after) && AllStep(cfg, before, after)
    requires Find(before, t).Some? && Find(after, t).Some?
    ensures Find(after, t) == Find(before, t)
  {
    hide FreshSlot, Intact;
    var i, j := Find(before, t).value, Find(after, t).value;
    assert SlotStep(cfg, before[i], after[i]) && SlotStep(cfg, before[j], after[j]);
    assert Holds(before[i], t) && Holds(after[j], t);
  }

  lemma {:induction false} StaysPut(cfg: Config, st: Content, ops: seq<StoreOp>, t: BlobRef)
    requires Sound(cfg, st) && AllIssuable(cfg, st, ops) && !Vacated(cfg, st, ops, t)
    ensures Find(st.slots, t).Some? && Find(AfterOps(cfg, st, ops).slots, t) == Find(st.slots, t)
    ensures Occupied(cfg, st, ops, Find(st.slots, t).value)
  {
    hide Apply, AllStep, GenerationsBounded, StoreGood, AllIntact, OpIssuable, LeasesKept,
      FindFrom;
    if ops == [] {
      assert Mark(AfterOps(cfg, st, ops[..0]).slots, t).Some?;
    } else {
      var n := |ops| - 1;
      var before := AfterOps(cfg, st, ops[..n]);
      IssuablePrefix(cfg, st, ops);
      NotVacatedPrefix(cfg, st, ops, t);
      StaysPut(cfg, st, ops[..n], t);
      RunsGood(cfg, st, ops[..n]);
      RunsGood(cfg, st, ops);
      GoodUnique(cfg, before.slots);
      GoodUnique(cfg, AfterOps(cfg, st, ops).slots);
      ApplySteps(cfg, before, ops[n]);
      SameSlot(cfg, before.slots, AfterOps(cfg, st, ops).slots, t);
      OccupiedMore(cfg, st, ops, Find(st.slots, t).value);
    }
  }

  lemma NotVacatedPrefix(cfg: Config, st: Content, ops: seq<StoreOp>, t: BlobRef)
    requires ops != [] && !Vacated(cfg, st, ops, t)
    ensures !Vacated(cfg, st, ops[..|ops| - 1], t)
    ensures Mark(AfterOps(cfg, st, ops).slots, t).Some?
  {
    hide AfterOps, Mark;
    var most := ops[..|ops| - 1];
    assert forall k | 0 <= k <= |most| :: most[..k] == ops[..k];
    assert ops[..|ops|] == ops;
  }

  lemma OccupiedMore(cfg: Config, st: Content, ops: seq<StoreOp>, i: nat)
    requires ops != [] && Occupied(cfg, st, ops[..|ops| - 1], i)
    requires i < |AfterOps(cfg, st, ops).slots| && AfterOps(cfg, st, ops).slots[i].Some?
    ensures Occupied(cfg, st, ops, i)
  {
    hide AfterOps;
    var most := ops[..|ops| - 1];
    forall k | 0 <= k <= |ops|
      ensures i < |AfterOps(cfg, st, ops[..k]).slots|
              && AfterOps(cfg, st, ops[..k]).slots[i].Some?
    {
      if k < |ops| {
        assert most[..k] == ops[..k];
      } else {
        assert ops[..k] == ops;
      }
    }
  }

  /**
   * When a stale receipt comes back. A receipt that is refused although its generation has
   * been issued is accepted after a run exactly when the object left the store in between,
   * was put again, and the last lease issued since is that very receipt (the same generation,
   * owner, expiry and grant), still active, collisions aside.
   */
  lemma StaleAcceptedExactly(cfg: Config, st: Content, ops: seq<StoreOp>, r: LeaseReceipt)
    requires Sound(cfg, st) && AllIssuable(cfg, st, ops) && !Accepted(cfg, st.slots, r)
    requires var m := Mark(st.slots, r.target); m.Some? && r.generation <= m.value.generation
    requires Apart(cfg, LastLease(cfg, st, ops, r.target), r)
    ensures var after := AfterOps(cfg, st, ops).slots;
            Accepted(cfg, after, r)
            <==> && Vacated(cfg, st, ops, r.target)
                 && LastLease(cfg, st, ops, r.target) == Some(r)
                 && LeaseActive(after, r.target) && r.lifecycleGrant != ZERO_DIGEST
  {
    hide AllIssuable, LastLease, AfterOps, Apart, CurrentLease, Occupied, Vacated, StoreGood,
      AllIntact, GenerationsBounded;
    AcceptedExactly(cfg, st, ops, r);
    if !Vacated(cfg, st, ops, r.target) {
      StaysPut(cfg, st, ops, r.target);
      StaleForEver(cfg, st, ops, Find(st.slots, r.target).value, r.target, r);
    }
  }

  // ---------------------------------------------------------------------------------------
  // Putting again
  // ---------------------------------------------------------------------------------------

  /**
   * Across occupancies fencing fails: an object that is put again starts over at generation
   * zero, so acquiring it with the same owner, expiry and grant as after the earlier put issues
   * the very receipt of that earlier lease, and the slot accepts it.
   */
  lemma ReceiptReturnsAfterReput(cfg: Config, before: Content, later: Content, put: StoreOp,
    acquire: StoreOp)
    requires put.PutOp? && acquire.AcquireOp? && acquire.expected == put.expected
    requires StoreGood(cfg, before.slots) && StoreGood(cfg, later.slots)
    requires Inserts(cfg, before, put) && Inserts(cfg, later, put)
    requires LeaseReply(cfg, Apply(cfg, before, put), acquire).reply.Success?
    requires LeaseReply(cfg, Apply(cfg, later, put), acquire).reply.Success?
    requires LifecycleGrantRoot(cfg, acquire.grant) != ZERO_DIGEST
    ensures var first := LeaseReply(cfg, Apply(cfg, before, put), acquire);
            var second := LeaseReply(cfg, Apply(cfg, later, put), acquire);
            second.reply == first.reply
            && Accepted(cfg, Apply(cfg, Apply(cfg, later, put), acquire).slots,
                        first.reply.value)
  {
    hide Put, LeaseReply, LifecycleGrantRoot, StoreGood;
    InsertedFresh(cfg, before, put);
    InsertedFresh(cfg, later, put);
    var a, b := Apply(cfg, before, put), Apply(cfg, later, put);
    SameReceipt(cfg, a, b, acquire);
    PutGood(cfg, later, put.expected, put.payload, put.provenance);
    GoodUnique(cfg, b.slots);
    IssuedAccepted(cfg, b, acquire);
  }

  /** A put that is accepted and finds no earlier copy of its blob. */
  predicate Inserts(cfg: Config, st: Content, put: StoreOp)
    requires put.PutOp?
  {
    var r := Put(cfg, st, put.expected, put.payload, put.provenance).reply;
    r.Success? && r.value.inserted
  }

  lemma IssuedAccepted(cfg: Config, st: Content, acquire: StoreOp)
    requires Unique(st.slots) && acquire.AcquireOp?
    requires LeaseReply(cfg, st, acquire).reply.Success?
    requires LifecycleGrantRoot(cfg, acquire.grant) != ZERO_DIGEST
    ensures Accepted(cfg, Apply(cfg, st, acquire).slots, LeaseReply(cfg, st, acquire).reply.value)
  {
    hide Sum, Word, LE64, LifecycleGrantRoot, LifecycleRefused, BlobOf, FindFrom;
    var i := Find(st.slots, acquire.expected).value;
    HeldOnce(Apply(cfg, st, acquire).slots, acquire.expected, i);
  }

  /** A newly inserted object has never been leased. */
  lemma InsertedFresh(cfg: Config, st: Content, put: StoreOp)
    requires put.PutOp? && StoreGood(cfg, st.slots) && Inserts(cfg, st, put)
    ensures var after := Apply(cfg, st, put).slots;
            var i := Find(after, put.expected);
            i.Some? && i.value < |after| && after[i.value].Some?
            && after[i.value].value.lease.generation == 0
  {
    hide Sum, BlobOf, WithinBudgets, FindFrom, FindDigestFrom, FirstEmptyFrom;
    var r := Put(cfg, st, put.expected, put.payload, put.provenance);
    PutGood(cfg, st, put.expected, put.payload, put.provenance);
    HeldOnce(r.content.slots, put.expected, r.reply.value.index);
  }

  lemma SameReceipt(cfg: Config, a: Content, b: Content, acquire: StoreOp)
    requires acquire.AcquireOp?
    requires LeaseReply(cfg, a, acquire).reply.Success?
    requires LeaseReply(cfg, b, acquire).reply.Success?
    requires var i, k := Find(a.slots, acquire.expected), Find(b.slots, acquire.expected);
             i.Some? && k.Some?
             && a.slots[i.value].value.lease.generation == 0
             && b.slots[k.value].value.lease.generation == 0
    ensures LeaseReply(cfg, b, acquire).reply == LeaseReply(cfg, a, acquire).reply
  {
    hide LeaseRoot, LifecycleGrantRoot, LifecycleRefused, BlobOf, Sum;
  }
}
