/** Exact reclamation of retired objects: previews, commits and their receipts. */
module ObjectStoreReclaim {
  import opened Bytes
  import opened Outbox
  import opened ObjectStore
  import opened ObjectStoreRules

  const RETIRED_TARGETS_DOMAIN := Ascii("glacier-continuation-store-retired-targets-v1\0")
  const RETIRED_COMMIT_DOMAIN := Ascii("glacier-continuation-store-retired-commit-v1\0")

  datatype Permit = Permit(
    epoch: u64, tenant: Digest, bundle: Digest, storeGrant: Digest, expectedSnapshot: Digest,
    authorization: Digest, maxFreedEntries: u64, maxFreedBytes: u64)

  /** The nine counts of a store, as receipts carry them. */
  datatype Accounting = Accounting(
    entries: nat, live: nat, quarantined: nat, retired: nat, payload: nat, index: nat,
    references: nat, leases: nat, repairs: nat)

  datatype CommitReceipt = CommitReceipt(
    authorization: Digest, targets: Digest, snapshotBefore: Digest, snapshotAfter: Digest,
    before: Accounting, after: Accounting, freedEntries: nat, freedPayload: nat,
    freedIndex: nat, freedRepairs: nat, deallocations: nat, commitSha: Digest)

  function AccountingOf(slots: Slots): Accounting {
    Accounting(Sum(slots, Entries), Sum(slots, LiveEntries), Sum(slots, QuarantinedEntries),
               Sum(slots, RetiredEntries), Sum(slots, PayloadBytes), Sum(slots, IndexBytes),
               Sum(slots, References), Sum(slots, ActiveLeases), Sum(slots, Repairs))
  }

  // ---------------------------------------------------------------------------------------
  // Canonical target lists
  // ---------------------------------------------------------------------------------------

  /** Lexicographic order of byte strings. */
  predicate LexLeq(a: Bytes, b: Bytes) {
    a == [] || (b != [] && (a[0] < b[0] || (a[0] == b[0] && LexLeq(a[1..], b[1..]))))
  }

  predicate KeyLeq(a: BlobRef, b: BlobRef) {
    if a.sha == b.sha then a.byteLength <= b.byteLength else LexLeq(a.sha, b.sha)
  }

  predicate ValidTarget(t: BlobRef) {
    0 < t.byteLength <= U64_MAX && t.sha != ZERO_DIGEST
  }

  predicate CanonicalTargets(targets: seq<BlobRef>) {
    && targets != []
    && (forall i | 0 <= i < |targets| :: ValidTarget(targets[i]))
    && (forall i, j | 0 <= i < j < |targets| ::
          KeyLeq(targets[i], targets[j]) && targets[i] != targets[j])
  }

  function TargetBytes(targets: seq<BlobRef>): Bytes {
    if targets == [] then []
    else Word(targets[0].byteLength) + targets[0].sha + TargetBytes(targets[1..])
  }

  function TargetsRoot(cfg: Config, targets: seq<BlobRef>): Digest {
    cfg.sha(RETIRED_TARGETS_DOMAIN + Word(|targets|) + TargetBytes(targets))
  }

  // ---------------------------------------------------------------------------------------
  // What a commit removes
  // ---------------------------------------------------------------------------------------

  /** The target slots emptied, every other slot identical. */
  function Removed(slots: Slots, targets: seq<BlobRef>): (after: Slots)
    ensures |after| == |slots|
    ensures forall i | 0 <= i < |slots| ::
              after[i] == if slots[i].Some? && slots[i].value.blob in targets then None
                          else slots[i]
  {
    seq(|slots|, i requires 0 <= i < |slots| =>
      if slots[i].Some? && slots[i].value.blob in targets then None else slots[i])
  }

  predicate RetiredTarget(slots: Slots, t: BlobRef) {
    var i := Find(slots, t);
    && i.Some?
    && var s := slots[i.value].value;
       && s.state == SlotRetired && s.references == 0 && !s.lease.active
       && s.reason == ZERO_DIGEST
  }

  predicate AllRetired(slots: Slots, targets: seq<BlobRef>) {
    forall k | 0 <= k < |targets| :: RetiredTarget(slots, targets[k])
  }

  /** What the targets together weigh in one count. */
  function Freed(slots: Slots, targets: seq<BlobRef>, c: Counter): nat
    requires AllRetired(slots, targets)
  {
    if targets == [] then 0
    else
      var n := |targets| - 1;
      assert RetiredTarget(slots, targets[n]);
      Freed(slots, targets[..n], c) + Weight(c, slots[Find(slots, targets[n]).value])
  }

  function CommitRoot(cfg: Config, r: CommitReceipt): Digest {
    cfg.sha(RETIRED_COMMIT_DOMAIN + r.authorization + r.targets + r.snapshotBefore
            + r.snapshotAfter + AccountingBytes(r.before) + AccountingBytes(r.after)
            + Word(r.freedEntries) + Word(r.freedPayload) + Word(r.freedIndex)
            + Word(r.freedRepairs) + Word(r.deallocations))
  }

  function AccountingBytes(a: Accounting): Bytes {
    Word(a.entries) + Word(a.live) + Word(a.quarantined) + Word(a.retired) + Word(a.payload)
    + Word(a.index) + Word(a.references) + Word(a.leases) + Word(a.repairs)
  }

  function PermitRefused(cfg: Config, st: Content, p: Permit): Option<StoreError> {
    var refused := Refused(cfg, st, OPERATION_RELEASE);
    if refused.Some? then refused
    else if p.tenant == ZERO_DIGEST || p.bundle == ZERO_DIGEST || p.storeGrant == ZERO_DIGEST
            || p.expectedSnapshot == ZERO_DIGEST || p.authorization == ZERO_DIGEST
            || p.epoch == 0 || p.maxFreedEntries == 0 || p.maxFreedBytes == 0 then
      Some(InvalidPermit)
    else if p.epoch != cfg.grant.epoch || p.tenant != cfg.grant.tenant
            || p.bundle != cfg.grant.bundle || p.storeGrant != GrantRoot(cfg) then
      Some(ScopeMismatch)
    else None
  }

  /** Verification as commits and plans run it: quarantined payloads may be corrupt. */
  predicate Auditable(cfg: Config, slots: Slots) {
    forall i | 0 <= i < |slots| && slots[i].Some? ::
      slots[i].value.state == SlotQuarantined || Intact(cfg, slots[i].value)
  }

  /** The audited snapshot root of a good store. */
  function Audit(cfg: Config, st: Content): Result<Digest, StoreError> {
    var refused := Refused(cfg, st, OPERATION_VERIFY);
    if refused.Some? then Failure(refused.value)
    else if !Auditable(cfg, st.slots) then Failure(CorruptPayload)
    else Success(Snapshot(cfg, st.slots))
  }

  function Minus(a: Accounting, entries: nat, payload: nat, repairs: nat): Accounting
    requires entries <= a.entries && entries <= a.retired && payload <= a.payload
    requires INDEX_ENTRY_BYTES * entries <= a.index && repairs <= a.repairs
  {
    a.(entries := a.entries - entries, retired := a.retired - entries,
       payload := a.payload - payload, index := a.index - INDEX_ENTRY_BYTES * entries,
       repairs := a.repairs - repairs)
  }

  /** The receipt a commit of exactly these targets would leave. */
  function PreviewReceipt(cfg: Config, st: Content, p: Permit, targets: seq<BlobRef>)
    : CommitReceipt
    requires AllRetired(st.slots, targets)
  {
    var bytes, repairs := Freed(st.slots, targets, PayloadBytes), Freed(st.slots, targets, Repairs);
    var removed := Removed(st.slots, targets);
    var r := CommitReceipt(p.authorization, TargetsRoot(cfg, targets), Snapshot(cfg, st.slots),
                           Snapshot(cfg, removed), AccountingOf(st.slots),
                           AccountingOf(removed), |targets|, bytes,
                           INDEX_ENTRY_BYTES * |targets|, repairs, |targets|, ZERO_DIGEST);
    r.(commitSha := CommitRoot(cfg, r))
  }

  function Preview(cfg: Config, st: Content, p: Permit, targets: seq<BlobRef>)
    : Result<CommitReceipt, StoreError>
  {
    var refused := PermitRefused(cfg, st, p);
    var audit := Audit(cfg, st);
    if refused.Some? then Failure(refused.value)
    else if targets == [] || |targets| > p.maxFreedEntries then Failure(FreedBudget)
    else if !CanonicalTargets(targets) then Failure(RetiredTargetMismatch)
    else if audit.Failure? then Failure(audit.error)
    else if audit.value != p.expectedSnapshot then Failure(SnapshotMismatch)
    else if !AllRetired(st.slots, targets) then Failure(RetiredTargetMismatch)
    else if Freed(st.slots, targets, PayloadBytes) > p.maxFreedBytes then Failure(FreedBudget)
    else Success(PreviewReceipt(cfg, st, p, targets))
  }

  function CommitRetired(cfg: Config, st: Content, p: Permit, targets: seq<BlobRef>,
    expected: CommitReceipt): Outcome<CommitReceipt>
  {
    var preview := Preview(cfg, st, p, targets);
    if preview.Failure? then Outcome(st, Failure(preview.error))
    else if preview.value != expected then Outcome(st, Failure(PreviewMismatch))
    else Outcome(st.(slots := Removed(st.slots, targets)), Success(expected))
  }

  /** The snapshot root as the running counters of a store yield it. */
  function SnapshotFrom(cfg: Config, slots: Slots, a: Accounting): Digest {
    cfg.sha(
      LIFECYCLE_SNAPSHOT_DOMAIN
      + cfg.sha(SNAPSHOT_DOMAIN + GrantRoot(cfg) + Word(a.entries) + Word(a.live)
                + Word(a.quarantined) + Word(a.payload) + Word(a.index) + Word(a.references)
                + SlotsV1(slots, 0))
      + Word(a.leases) + Word(a.repairs) + SlotsV2(slots, 0))
  }

  lemma SnapshotFromSums(cfg: Config, slots: Slots)
    ensures SnapshotFrom(cfg, slots, AccountingOf(slots)) == Snapshot(cfg, slots)
  {
    hide Sum, Word, SlotsV1, SlotsV2, GrantRoot;
  }

  // ---------------------------------------------------------------------------------------
  // Counts after a removal
  // ---------------------------------------------------------------------------------------

  lemma FoundUnique(slots: Slots, t: BlobRef, i: nat)
    requires Unique(slots) && i < |slots| && Holds(slots[i], t)
    ensures Find(slots, t) == Some(i)
  {
    var found := Find(slots, t);
    assert found.Some? && Holds(slots[found.value], t);
  }

  /** Removing one more target empties exactly its own slot. */
  lemma RemovedOneMore(slots: Slots, targets: seq<BlobRef>, n: nat)
    requires Unique(slots) && AllRetired(slots, targets) && n < |targets|
    requires forall k | 0 <= k < n :: targets[k] != targets[n]
    ensures var i := Find(slots, targets[n]).value;
            var before := Removed(slots, targets[..n]);
            && before[i] == slots[i]
            && Removed(slots, targets[..n + 1]) == before[i := None]
  {
    hide FindFrom;
    assert RetiredTarget(slots, targets[n]);
    var t := targets[n];
    var i := Find(slots, t).value;
    assert targets[..n + 1] == targets[..n] + [t];
    var before, after := Removed(slots, targets[..n]), Removed(slots, targets[..n + 1]);
    assert t !in targets[..n];
    forall k | 0 <= k < |slots| ensures after[k] == before[i := None][k] {
      if Holds(slots[k], t) {
        FoundUnique(slots, t, k);
      }
    }
  }

  predicate Distinct(targets: seq<BlobRef>) {
    forall i, j | 0 <= i < j < |targets| :: targets[i] != targets[j]
  }

  /** Each count after a removal is what it was, less what the targets weigh. */
  lemma {:induction false} RemovedSum(slots: Slots, targets: seq<BlobRef>, n: nat, c: Counter)
    requires Unique(slots) && AllRetired(slots, targets) && n <= |targets| && Distinct(targets)
    ensures AllRetired(slots, targets[..n])
    ensures Sum(Removed(slots, targets[..n]), c) + Freed(slots, targets[..n], c)
            == Sum(slots, c)
  {
    hide Weight, RetiredTarget;
    if n == 0 {
      assert Removed(slots, targets[..0]) == slots;
    } else {
      RemovedSum(slots, targets, n - 1, c);
      RemovedOneMore(slots, targets, n - 1);
      assert RetiredTarget(slots, targets[n - 1]);
      TargetFound(slots, targets[n - 1]);
      var i := Find(slots, targets[n - 1]).value;
      SumUpdate(Removed(slots, targets[..n - 1]), i, None, c);
      NoWeight(c);
      assert targets[..n][..n - 1] == targets[..n - 1];
    }
  }

  lemma TargetFound(slots: Slots, t: BlobRef)
    requires RetiredTarget(slots, t)
    ensures Find(slots, t).Some?
  {
  }

  lemma NoWeight(c: Counter)
    ensures Weight(c, None) == 0
  {
  }

  /** Retired targets weigh one entry each, and nothing in references or leases. */
  lemma {:induction false} FreedWeights(slots: Slots, targets: seq<BlobRef>)
    requires AllRetired(slots, targets)
    ensures Freed(slots, targets, Entries) == |targets|
    ensures Freed(slots, targets, RetiredEntries) == |targets|
    ensures Freed(slots, targets, IndexBytes) == INDEX_ENTRY_BYTES * |targets|
    ensures Freed(slots, targets, LiveEntries) == 0
    ensures Freed(slots, targets, QuarantinedEntries) == 0
    ensures Freed(slots, targets, References) == 0
    ensures Freed(slots, targets, ActiveLeases) == 0
  {
    if targets != [] {
      var n := |targets| - 1;
      assert RetiredTarget(slots, targets[n]);
      FreedWeights(slots, targets[..n]);
    }
  }

  /**
   * Subtracting what the targets free from the running counters gives exactly the counters of
   * the store without them, and never underflows.
   */
  lemma AccountingAfter(cfg: Config, slots: Slots, targets: seq<BlobRef>)
    requires StoreGood(cfg, slots) && AllRetired(slots, targets) && Distinct(targets)
    ensures var a := AccountingOf(slots);
            var bytes, repairs := Freed(slots, targets, PayloadBytes), Freed(slots, targets, Repairs);
            && |targets| <= a.entries && |targets| <= a.retired && bytes <= a.payload
            && INDEX_ENTRY_BYTES * |targets| <= a.index && repairs <= a.repairs
            && AccountingOf(Removed(slots, targets)) == Minus(a, |targets|, bytes, repairs)
  {
    hide SlotGood, Sum, Freed, RetiredTarget, WithinBudgets;
    assert targets[..|targets|] == targets;
    forall c ensures Sum(Removed(slots, targets), c) + Freed(slots, targets, c) == Sum(slots, c) {
      RemovedSum(slots, targets, |targets|, c);
    }
    FreedWeights(slots, targets);
  }

  lemma RemovedGood(cfg: Config, slots: Slots, targets: seq<BlobRef>)
    requires StoreGood(cfg, slots) && AllRetired(slots, targets) && Distinct(targets)
    ensures StoreGood(cfg, Removed(slots, targets))
  {
    hide SlotGood, Sum, RetiredTarget;
    AccountingAfter(cfg, slots, targets);
  }

  // ---------------------------------------------------------------------------------------
  // Receipts
  // ---------------------------------------------------------------------------------------

  /** The arithmetic that any honest accounting satisfies. */
  predicate ValidAccounting(a: Accounting) {
    && a.entries <= U64_MAX && a.payload <= U64_MAX && a.index <= U64_MAX
    && a.references <= U64_MAX && a.repairs <= U64_MAX
    && a.entries == a.live + a.quarantined + a.retired
    && a.index == a.entries * INDEX_ENTRY_BYTES
    && a.references >= a.live + a.quarantined
    && a.leases <= a.live
    && (if a.entries == 0 then a.payload == 0 && a.references == 0 && a.repairs == 0
        else a.payload >= a.entries)
    && (a.live + a.quarantined != 0 || a.references == 0)
  }

  /** The stand-alone receipt verifier. */
  predicate VerifiedReceipt(cfg: Config, r: CommitReceipt) {
    && r.authorization != ZERO_DIGEST && r.targets != ZERO_DIGEST
    && r.snapshotBefore != ZERO_DIGEST && r.snapshotAfter != ZERO_DIGEST
    && r.commitSha != ZERO_DIGEST
    && r.snapshotBefore != r.snapshotAfter
    && r.freedEntries != 0 && r.freedPayload != 0
    && r.freedIndex == r.freedEntries * INDEX_ENTRY_BYTES
    && r.deallocations == r.freedEntries
    && r.before.entries == r.after.entries + r.freedEntries
    && r.before.retired == r.after.retired + r.freedEntries
    && r.before.payload == r.after.payload + r.freedPayload
    && r.before.index == r.after.index + r.freedIndex
    && r.before.repairs == r.after.repairs + r.freedRepairs
    && r.before.live == r.after.live && r.before.quarantined == r.after.quarantined
    && r.before.references == r.after.references && r.before.leases == r.after.leases
    && ValidAccounting(r.before) && ValidAccounting(r.after)
    && r.commitSha == CommitRoot(cfg, r)
  }

  lemma {:induction false} CountsFit(g: Grant, slots: Slots)
    requires forall i | 0 <= i < |slots| && slots[i].Some? :: SlotGood(g, slots[i].value)
    ensures var a := AccountingOf(slots);
            && a.entries == a.live + a.quarantined + a.retired
            && a.index == a.entries * INDEX_ENTRY_BYTES
            && a.references >= a.live + a.quarantined && a.leases <= a.live
            && a.payload >= a.entries
            && (a.live + a.quarantined == 0 ==> a.references == 0)
            && (a.entries == 0 ==> a.payload == 0 && a.repairs == 0)
  {
    if slots != [] {
      var n := |slots| - 1;
      CountsFit(g, slots[..n]);
      if slots[n].Some? {
        assert SlotGood(g, slots[n].value);
      }
    }
  }

  lemma GoodAccounting(cfg: Config, slots: Slots)
    requires StoreGood(cfg, slots)
    ensures ValidAccounting(AccountingOf(slots))
  {
    CountsFit(cfg.grant, slots);
  }

  lemma {:induction false} SlotsV2Length(slots: Slots, from: nat)
    requires from <= |slots|
    ensures |SlotsV2(slots, from)| == 64 * Sum(slots[from..], Entries)
    decreases |slots| - from
  {
    hide Word;
    if from < |slots| {
      SlotsV2Length(slots, from + 1);
      assert slots[from..] == [slots[from]] + slots[from + 1..];
      SumFront(slots[from..], Entries);
      if slots[from].Some? {
        V2Length(slots, from);
      }
    } else {
      assert slots[from..] == [];
    }
  }

  lemma V2Length(slots: Slots, i: nat)
    requires i < |slots| && slots[i].Some?
    ensures |SlotV2(i, slots[i].value)| == 64
  {
    hide Word;
  }

  lemma {:induction false} SumFront(slots: Slots, c: Counter)
    requires slots != []
    ensures Sum(slots, c) == Weight(c, slots[0]) + Sum(slots[1..], c)
  {
    hide Weight;
    var n := |slots| - 1;
    if n > 0 {
      SumFront(slots[..n], c);
      assert slots[..n][1..] == slots[1..][..n - 1];
    }
  }

  /** Snapshots of stores with different entry counts differ, unless they collide. */
  lemma SnapshotsDiffer(cfg: Config, a: Slots, b: Slots)
    requires Sum(a, Entries) != Sum(b, Entries)
    requires NoCollision(cfg.sha, iset{SnapshotPreimage(cfg, a), SnapshotPreimage(cfg, b)})
    ensures Snapshot(cfg, a) != Snapshot(cfg, b)
  {
    hide SnapshotV1, Word, Sum;
    SlotsV2Length(a, 0);
    SlotsV2Length(b, 0);
    assert a[0..] == a && b[0..] == b;
    assert |SnapshotPreimage(cfg, a)| != |SnapshotPreimage(cfg, b)|;
  }

  lemma {:induction false} FreedSomething(g: Grant, slots: Slots, targets: seq<BlobRef>)
    requires AllRetired(slots, targets)
    requires forall i | 0 <= i < |slots| && slots[i].Some? :: SlotGood(g, slots[i].value)
    ensures Freed(slots, targets, PayloadBytes) >= |targets|
  {
    if targets != [] {
      var n := |targets| - 1;
      assert RetiredTarget(slots, targets[n]);
      FreedSomething(g, slots, targets[..n]);
    }
  }

  /** The digests a preview computes are not zero and its two snapshots do not collide. */
  ghost predicate PreviewNameable(cfg: Config, st: Content, targets: seq<BlobRef>,
    r: CommitReceipt)
  {
    && r.targets != ZERO_DIGEST && r.snapshotAfter != ZERO_DIGEST && r.commitSha != ZERO_DIGEST
    && NoCollision(cfg.sha, iset{SnapshotPreimage(cfg, st.slots),
                                 SnapshotPreimage(cfg, Removed(st.slots, targets))})
  }

  lemma CanonicalDistinct(targets: seq<BlobRef>)
    requires CanonicalTargets(targets)
    ensures Distinct(targets)
  {
  }

  /** Every receipt a good store previews passes the stand-alone verifier. */
  lemma PreviewVerifies(cfg: Config, st: Content, p: Permit, targets: seq<BlobRef>)
    requires StoreGood(cfg, st.slots) && Preview(cfg, st, p, targets).Success?
    requires PreviewNameable(cfg, st, targets, Preview(cfg, st, p, targets).value)
    ensures VerifiedReceipt(cfg, Preview(cfg, st, p, targets).value)
  {
    hide SlotGood, Sum, Freed, RetiredTarget, WithinBudgets, ValidAccounting, SnapshotPreimage,
      AccountingBytes, TargetsRoot, Intact, KeyLeq, CanonicalTargets, StoreGood;
    CanonicalDistinct(targets);
    AccountingAfter(cfg, st.slots, targets);
    RemovedGood(cfg, st.slots, targets);
    GoodAccounting(cfg, st.slots);
    GoodAccounting(cfg, Removed(st.slots, targets));
    GoodMeans(cfg, st.slots);
    FreedSomething(cfg.grant, st.slots, targets);
    SnapshotsDiffer(cfg, st.slots, Removed(st.slots, targets));
  }

  /**
   * Committing twice equals committing once: the same commit, tried again on its own result,
   * is refused and changes nothing.
   */
  lemma CommitTwice(cfg: Config, st: Content, p: Permit, targets: seq<BlobRef>,
    r: CommitReceipt)
    requires StoreGood(cfg, st.slots) && CommitRetired(cfg, st, p, targets, r).reply.Success?
    requires PreviewNameable(cfg, st, targets, r)
    ensures var once := CommitRetired(cfg, st, p, targets, r).content;
            var twice := CommitRetired(cfg, once, p, targets, r);
            twice.content == once && twice.reply.Failure?
  {
    hide SlotGood, Sum, Freed, RetiredTarget, SnapshotPreimage, TargetsRoot, Intact, KeyLeq,
      CanonicalTargets, StoreGood, CommitRoot, PermitRefused;
    CanonicalDistinct(targets);
    AccountingAfter(cfg, st.slots, targets);
    SnapshotsDiffer(cfg, st.slots, Removed(st.slots, targets));
  }
}
