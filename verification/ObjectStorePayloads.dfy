/** What a payload that is read back is worth, and how long a put lasts. */
module ObjectStorePayloads {
  import opened Bytes
  import opened ObjectStore
  import opened ObjectStoreRules
  import opened ObjectStoreReclaim
  import opened ObjectStoreImport
  import opened ObjectStoreRuns
  import opened ObjectStoreLeases

  /** A payload that is returned has the length and digest that were asked for. */
  lemma GetReturnsBlob(cfg: Config, st: Content, expected: BlobRef)
    requires Get(cfg, st, expected).Success?
    ensures var payload := Get(cfg, st, expected).value;
            Hashable(payload) && BlobOf(cfg, payload) == expected
  {
    hide FindFrom;
  }

  /**
   * On a store that operations have led to, reading is refused for exactly four reasons: the
   * store is closed or reading not granted, the object is not stored, or it is not live.
   */
  lemma GetFailsExactly(cfg: Config, st: Content, expected: BlobRef)
    requires Sound(cfg, st)
    ensures var found := Find(st.slots, expected);
            Get(cfg, st, expected).Success?
            <==> && !st.closed && HasBit(cfg.grant.operations, OPERATION_GET)
                 && found.Some? && st.slots[found.value].value.state == SlotLive
    ensures Get(cfg, st, expected) != Failure(CorruptPayload)
  {
    hide FindFrom, BlobOf, HasBit, SlotGood, Sum, Unique, WithinBudgets;
    var found := Find(st.slots, expected);
    if found.Some? {
      var s := st.slots[found.value].value;
      assert Intact(cfg, s);
      assert s.state.SlotLive? || s.state.SlotQuarantined? || s.state.SlotRetired?;
    }
  }

  /** No operation ever makes a payload of a new store unreadable. */
  lemma NeverCorrupt(cfg: Config, ops: seq<StoreOp>, expected: BlobRef)
    requires AllIssuable(cfg, EmptyContent(cfg), ops)
    ensures Get(cfg, AfterOps(cfg, EmptyContent(cfg), ops), expected) != Failure(CorruptPayload)
  {
    hide Sound, AfterOps, AllIssuable, Get;
    EmptyIsSound(cfg);
    RunsGood(cfg, EmptyContent(cfg), ops);
    GetFailsExactly(cfg, AfterOps(cfg, EmptyContent(cfg), ops), expected);
  }

  lemma EmptyIsSound(cfg: Config)
    ensures Sound(cfg, EmptyContent(cfg))
  {
    hide StoreGood, AllIntact, GenerationsBounded;
    EmptyGood(cfg);
  }

  // ---------------------------------------------------------------------------------------
  // Reading back what was put
  // ---------------------------------------------------------------------------------------

  /** Slot `i` holds a live object after every prefix of the run. */
  predicate LiveThroughout(cfg: Config, st: Content, ops: seq<StoreOp>, i: nat) {
    forall k | 0 <= k <= |ops| ::
      var slots := AfterOps(cfg, st, ops[..k]).slots;
      i < |slots| && slots[i].Some? && slots[i].value.state == SlotLive
  }

  lemma LivePrefix(cfg: Config, st: Content, ops: seq<StoreOp>, i: nat)
    requires LiveThroughout(cfg, st, ops, i)
    ensures Occupied(cfg, st, ops, i)
    ensures ops != [] ==> LiveThroughout(cfg, st, ops[..|ops| - 1], i)
  {
    hide AfterOps;
    if ops != [] {
      var most := ops[..|ops| - 1];
      assert forall k | 0 <= k <= |most| :: most[..k] == ops[..k];
    }
  }

  lemma LiveNow(cfg: Config, st: Content, ops: seq<StoreOp>, i: nat)
    requires LiveThroughout(cfg, st, ops, i)
    ensures var slots := AfterOps(cfg, st, ops).slots;
            i < |slots| && slots[i].Some? && slots[i].value.state == SlotLive
  {
    hide AfterOps;
    assert ops[..|ops|] == ops;
  }

  lemma SamePayload(cfg: Config, before: Slots, after: Slots, i: nat)
    requires AllStep(cfg, before, after) && i < |before|
    requires before[i].Some? && after[i].Some? && before[i].value.state == SlotLive
    ensures after[i].value.payload == before[i].value.payload
  {
    hide Intact;
  }

  lemma {:induction false} PayloadStays(cfg: Config, st: Content, ops: seq<StoreOp>, i: nat)
    requires GenerationsBounded(st.slots) && LiveThroughout(cfg, st, ops, i)
    ensures var after := AfterOps(cfg, st, ops).slots;
            && GenerationsBounded(after)
            && i < |st.slots| && st.slots[i].Some? && i < |after| && after[i].Some?
            && after[i].value.payload == st.slots[i].value.payload
  {
    hide Apply, AllStep, GenerationsBounded, LiveThroughout, LeasesKept;
    LiveNow(cfg, st, ops, i);
    if ops != [] {
      var n := |ops| - 1;
      LivePrefix(cfg, st, ops, i);
      PayloadStays(cfg, st, ops[..n], i);
      LiveNow(cfg, st, ops[..n], i);
      var before := AfterOps(cfg, st, ops[..n]);
      ApplySteps(cfg, before, ops[n]);
      SamePayload(cfg, before.slots, AfterOps(cfg, st, ops).slots, i);
    }
  }

  lemma {:induction false} StaysOpen(cfg: Config, st: Content, ops: seq<StoreOp>)
    ensures AfterOps(cfg, st, ops).closed == st.closed
  {
    hide Apply;
    if ops != [] {
      StaysOpen(cfg, st, ops[..|ops| - 1]);
      ApplyOpen(cfg, AfterOps(cfg, st, ops[..|ops| - 1]), ops[|ops| - 1]);
    }
  }

  lemma ApplyOpen(cfg: Config, st: Content, op: StoreOp)
    ensures Apply(cfg, st, op).closed == st.closed
  {
    hide Sum, LeaseRoot, LifecycleGrantRoot, LifecycleRefused, RepairRefused, BlobOf, FindFrom,
      MakeRepairReceipt, WindowError, Refused, FindDigestFrom, FirstEmptyFrom, HasBit, AllIntact;
    match op
    case ImportOp(items) =>
      if PutAll(cfg, st, items).Success? {
        PutAllOpen(cfg, st, items);
      }
    case CommitOp(permit, targets, preview) => CommitOpen(cfg, st, op);
    case _ =>
  }

  lemma CommitOpen(cfg: Config, st: Content, op: StoreOp)
    requires op.CommitOp?
    ensures Apply(cfg, st, op).closed == st.closed
  {
    hide Preview;
  }

  /** Where a put placed its object and what it left there. */
  lemma PutPlaces(cfg: Config, st: Content, put: StoreOp)
    requires put.PutOp? && Changes(cfg, st, put)
    ensures var i := PlacedAt(cfg, st, put);
            var after := Apply(cfg, st, put).slots;
            && i < |after| && after[i].Some? && after[i].value.blob == put.expected
            && after[i].value.payload == put.payload && Hashable(put.payload)
            && BlobOf(cfg, put.payload) == put.expected && !st.closed
  {
    hide Sum, BlobOf, FindDigestFrom, FirstEmptyFrom;
  }

  function PlacedAt(cfg: Config, st: Content, put: StoreOp): nat
    requires put.PutOp? && Changes(cfg, st, put)
  {
    Put(cfg, st, put.expected, put.payload, put.provenance).reply.value.index
  }

  /**
   * What was put is what is read, after every run that leaves the object live in its slot,
   * whatever else the run does.
   */
  lemma GetAfterPut(cfg: Config, st: Content, put: StoreOp, ops: seq<StoreOp>)
    requires Sound(cfg, st) && put.PutOp? && Changes(cfg, st, put)
    requires HasBit(cfg.grant.operations, OPERATION_GET)
    requires AllIssuable(cfg, Apply(cfg, st, put), ops)
    requires LiveThroughout(cfg, Apply(cfg, st, put), ops, PlacedAt(cfg, st, put))
    ensures Get(cfg, AfterOps(cfg, Apply(cfg, st, put), ops), put.expected)
            == Success(put.payload)
  {
    hide Apply, AllStep, GenerationsBounded, LiveThroughout, StoreGood, AllIntact, AllIssuable,
      OpIssuable, AfterOps, Changes, PlacedAt, Get, Occupied, BlobOf, Hashable, LeasesKept, Find;
    var i, start := PlacedAt(cfg, st, put), Apply(cfg, st, put);
    PutPlaces(cfg, st, put);
    PutIsSound(cfg, st, put);
    PayloadStays(cfg, start, ops, i);
    LivePrefix(cfg, start, ops, i);
    LeaseHistory(cfg, start, ops, i);
    LiveNow(cfg, start, ops, i);
    ApplyOpen(cfg, st, put);
    ReadsBack(cfg, start, ops, put.expected, i);
  }

  lemma PutIsSound(cfg: Config, st: Content, put: StoreOp)
    requires Sound(cfg, st) && put.PutOp?
    ensures Sound(cfg, Apply(cfg, st, put))
  {
    hide Apply, AllStep, StoreGood, AllIntact, GenerationsBounded, LeasesKept;
    ApplyGood(cfg, st, put);
    ApplySteps(cfg, st, put);
    IntactStep(cfg, st.slots, Apply(cfg, st, put).slots);
  }

  /** A live object of an open store is read from its slot. */
  lemma ReadsBack(cfg: Config, st: Content, ops: seq<StoreOp>, t: BlobRef, i: nat)
    requires Sound(cfg, st) && AllIssuable(cfg, st, ops)
    requires HasBit(cfg.grant.operations, OPERATION_GET)
    requires !st.closed
    requires var slots := AfterOps(cfg, st, ops).slots;
             i < |slots| && Holds(slots[i], t) && slots[i].value.state == SlotLive
    ensures Get(cfg, AfterOps(cfg, st, ops), t)
            == Success(AfterOps(cfg, st, ops).slots[i].value.payload)
  {
    hide AfterOps, AllIssuable, StoreGood, FindFrom, BlobOf, HasBit;
    RunsGood(cfg, st, ops);
    StaysOpen(cfg, st, ops);
    var after := AfterOps(cfg, st, ops);
    GoodUnique(cfg, after.slots);
    HeldOnce(after.slots, t, i);
    GetFailsExactly(cfg, after, t);
  }

  /**
   * After any run that leaves the object in its slot, with quarantines and repairs in between,
   * a live object is read with success, and what is read is what was put unless the two
   * payloads have colliding blobs.
   */
  lemma GetAfterRepairs(cfg: Config, st: Content, put: StoreOp, ops: seq<StoreOp>)
    requires Sound(cfg, st) && put.PutOp? && Changes(cfg, st, put)
    requires HasBit(cfg.grant.operations, OPERATION_GET)
    requires AllIssuable(cfg, Apply(cfg, st, put), ops)
    requires Occupied(cfg, Apply(cfg, st, put), ops, PlacedAt(cfg, st, put))
    requires var slots := AfterOps(cfg, Apply(cfg, st, put), ops).slots;
             var i := PlacedAt(cfg, st, put);
             i < |slots| && slots[i].Some? && slots[i].value.state == SlotLive
    ensures Hashable(put.payload)
    ensures var read := Get(cfg, AfterOps(cfg, Apply(cfg, st, put), ops), put.expected);
            && read.Success? && Hashable(read.value)
            && (BlobsApart(cfg, read.value, put.payload) ==> read.value == put.payload)
  {
    hide Apply, AllStep, GenerationsBounded, StoreGood, AllIntact, AllIssuable, OpIssuable,
      AfterOps, Changes, PlacedAt, Get, Occupied, BlobOf, Hashable, LeasesKept, Find, BlobsApart;
    var i, start := PlacedAt(cfg, st, put), Apply(cfg, st, put);
    PutPlaces(cfg, st, put);
    PutIsSound(cfg, st, put);
    LeaseHistory(cfg, start, ops, i);
    ApplyOpen(cfg, st, put);
    ReadsBack(cfg, start, ops, put.expected, i);
    var after := AfterOps(cfg, start, ops);
    GetReturnsBlob(cfg, after, put.expected);
    if BlobsApart(cfg, Get(cfg, after, put.expected).value, put.payload) {
      SameBlob(cfg, Get(cfg, after, put.expected).value, put.payload);
    }
  }

  function BlobPreimage(cfg: Config, payload: Bytes): Bytes
    requires Hashable(payload)
  {
    BLOB_DOMAIN + cfg.grant.tenant + LE64(|payload|) + payload
  }

  ghost predicate BlobsApart(cfg: Config, a: Bytes, b: Bytes)
    requires Hashable(a) && Hashable(b)
  {
    NoCollision(cfg.sha, iset{BlobPreimage(cfg, a), BlobPreimage(cfg, b)})
  }

  lemma SameBlob(cfg: Config, a: Bytes, b: Bytes)
    requires Hashable(a) && Hashable(b) && BlobOf(cfg, a) == BlobOf(cfg, b)
    requires BlobsApart(cfg, a, b)
    ensures a == b
  {
    hide LE64;
    var n := |BLOB_DOMAIN| + 40;
    assert BlobPreimage(cfg, a)[n..] == a && BlobPreimage(cfg, b)[n..] == b;
  }
}
