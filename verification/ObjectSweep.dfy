/**
 * Sweep journals and commits (bench/continuation_object_sweep.py): a plan is staged, then
 * either aborted or committed, and a commit reclaims exactly the retired objects.
 */
module ObjectSweep {
  import opened Bytes
  import opened Outbox
  import opened ObjectStore
  import opened ObjectStoreReclaim
  import opened ObjectCollection

  const SWEEP_GRANT_DOMAIN := Ascii("glacier-continuation-store-sweep-grant-v1\0")
  const PREPARE_DOMAIN := Ascii("glacier-continuation-store-sweep-prepare-v1\0")
  const ABORT_DOMAIN := Ascii("glacier-continuation-store-sweep-abort-v1\0")
  const COMMIT_GRANT_DOMAIN := Ascii("glacier-continuation-store-sweep-commit-grant-v1\0")
  const COMMIT_DOMAIN := Ascii("glacier-continuation-store-sweep-commit-v1\0")

  datatype SweepError =
    | InvalidSweepGrant | SweepClosed | SweepScopeMismatch | AlreadyPrepared | NotPrepared
    | SweepSnapshotMismatch | SweepPlanMismatch | NothingToSweep | SweepBudget
    | JournalMismatch | PlanningFailed | StoreRefused | SweepPreviewMismatch

  datatype SweepGrant = SweepGrant(
    epoch: u64, tenant: Digest, bundle: Digest, storeGrant: Digest, expectedSnapshot: Digest,
    plan: Digest, maxEntries: u64, maxBytes: u64, challenge: Digest)

  datatype CommitGrant = CommitGrant(
    epoch: u64, tenant: Digest, bundle: Digest, storeGrant: Digest, sweepGrant: Digest,
    prepare: Digest, expectedSnapshot: Digest, plan: Digest, maxFreedEntries: u64,
    maxFreedBytes: u64, challenge: Digest)

  datatype JournalState = JournalEmpty | JournalPrepared | JournalAborted

  datatype Journal = Journal(
    state: JournalState, sweepGrant: Digest, plan: Digest, snapshot: Digest,
    stagedEntries: nat, stagedBytes: nat, prepareSha: Digest, abortSha: Digest)

  const EMPTY_JOURNAL :=
    Journal(JournalEmpty, ZERO_DIGEST, ZERO_DIGEST, ZERO_DIGEST, 0, 0, ZERO_DIGEST, ZERO_DIGEST)

  datatype SweepReceipt = SweepReceipt(
    commitGrant: Digest, sweepGrant: Digest, prepare: Digest, plan: Digest, targets: Digest,
    snapshotBefore: Digest, snapshotAfter: Digest, storeCommit: Digest, freedEntries: nat,
    freedPayload: nat, freedIndex: nat, freedRepairs: nat, deallocations: nat,
    commitSha: Digest)

  datatype SweepPreview = SweepPreview(
    commitGrant: CommitGrant, permit: Permit, targets: seq<BlobRef>, receipt: SweepReceipt,
    storeReceipt: CommitReceipt)

  // ---------------------------------------------------------------------------------------
  // Grants and roots
  // ---------------------------------------------------------------------------------------

  predicate ValidSweepGrant(g: SweepGrant) {
    && g.tenant != ZERO_DIGEST && g.bundle != ZERO_DIGEST && g.storeGrant != ZERO_DIGEST
    && g.expectedSnapshot != ZERO_DIGEST && g.plan != ZERO_DIGEST && g.challenge != ZERO_DIGEST
    && g.epoch != 0 && g.maxEntries != 0 && g.maxBytes != 0
  }

  function SweepGrantRoot(cfg: Config, g: SweepGrant): Digest {
    cfg.sha(SWEEP_GRANT_DOMAIN + LE64(g.epoch) + g.tenant + g.bundle + g.storeGrant
            + g.expectedSnapshot + g.plan + LE64(g.maxEntries) + LE64(g.maxBytes) + g.challenge)
  }

  predicate ValidCommitGrant(g: CommitGrant) {
    && g.tenant != ZERO_DIGEST && g.bundle != ZERO_DIGEST && g.storeGrant != ZERO_DIGEST
    && g.sweepGrant != ZERO_DIGEST && g.prepare != ZERO_DIGEST
    && g.expectedSnapshot != ZERO_DIGEST && g.plan != ZERO_DIGEST && g.challenge != ZERO_DIGEST
    && g.epoch != 0 && g.maxFreedEntries != 0 && g.maxFreedBytes != 0
  }

  function CommitGrantRoot(cfg: Config, g: CommitGrant): Digest {
    cfg.sha(COMMIT_GRANT_DOMAIN + LE64(g.epoch) + g.tenant + g.bundle + g.storeGrant
            + g.sweepGrant + g.prepare + g.expectedSnapshot + g.plan + LE64(g.maxFreedEntries)
            + LE64(g.maxFreedBytes) + g.challenge)
  }

  function PrepareRoot(cfg: Config, j: Journal): Digest {
    cfg.sha(PREPARE_DOMAIN + j.sweepGrant + j.plan + j.snapshot + Word(j.stagedEntries)
            + Word(j.stagedBytes))
  }

  function AbortRoot(cfg: Config, j: Journal): Digest {
    cfg.sha(ABORT_DOMAIN + j.sweepGrant + j.plan + j.snapshot + Word(j.stagedEntries)
            + Word(j.stagedBytes) + j.prepareSha)
  }

  function SweepCommitRoot(cfg: Config, r: SweepReceipt): Digest {
    cfg.sha(COMMIT_DOMAIN + r.commitGrant + r.sweepGrant + r.prepare + r.plan + r.targets
            + r.snapshotBefore + r.snapshotAfter + r.storeCommit + Word(r.freedEntries)
            + Word(r.freedPayload) + Word(r.freedIndex) + Word(r.freedRepairs)
            + Word(r.deallocations))
  }

  function GrantRefused(cfg: Config, st: Content, g: SweepGrant): Option<SweepError> {
    if !ValidSweepGrant(g) then Some(InvalidSweepGrant)
    else if st.closed then Some(SweepClosed)
    else if g.epoch != cfg.grant.epoch || g.tenant != cfg.grant.tenant
            || g.bundle != cfg.grant.bundle || g.storeGrant != GrantRoot(cfg) then
      Some(SweepScopeMismatch)
    else None
  }

  // ---------------------------------------------------------------------------------------
  // Journals
  // ---------------------------------------------------------------------------------------

  predicate PreparedUnder(cfg: Config, g: SweepGrant, j: Journal) {
    && j.state == JournalPrepared && j.abortSha == ZERO_DIGEST
    && 0 < j.stagedEntries <= g.maxEntries && 0 < j.stagedBytes <= g.maxBytes
    && j.sweepGrant == SweepGrantRoot(cfg, g) && j.plan == g.plan
    && j.snapshot == g.expectedSnapshot && j.prepareSha == PrepareRoot(cfg, j)
  }

  /** The stand-alone journal verifier. */
  predicate VerifiedJournal(cfg: Config, g: SweepGrant, j: Journal) {
    && ValidSweepGrant(g)
    && match j.state
       case JournalEmpty => j == EMPTY_JOURNAL
       case JournalPrepared => PreparedUnder(cfg, g, j)
       case JournalAborted =>
         && PreparedUnder(cfg, g, j.(state := JournalPrepared, abortSha := ZERO_DIGEST))
         && j.abortSha != ZERO_DIGEST && j.abortSha == AbortRoot(cfg, j)
  }

  function Prepare(cfg: Config, st: Content, g: SweepGrant, cg: CollectionGrant,
    roots: seq<BlobRef>, leases: seq<LeaseReceipt>, current: Journal)
    : Result<Journal, SweepError>
  {
    var refused := GrantRefused(cfg, st, g);
    var plan := Plan(cfg, st, cg, roots, leases);
    if current != EMPTY_JOURNAL then Failure(AlreadyPrepared)
    else if refused.Some? then Failure(refused.value)
    else if cg.expectedSnapshot != g.expectedSnapshot then Failure(SweepSnapshotMismatch)
    else if plan.Failure? then Failure(PlanningFailed)
    else
      var p := plan.value.0;
      if p.snapshot != g.expectedSnapshot then Failure(SweepSnapshotMismatch)
      else if p.planSha != g.plan then Failure(SweepPlanMismatch)
      else if p.entries[3] == 0 || p.collectibleBytes == 0 then Failure(NothingToSweep)
      else if p.entries[3] > g.maxEntries || p.collectibleBytes > g.maxBytes then
        Failure(SweepBudget)
      else
        var j := Journal(JournalPrepared, SweepGrantRoot(cfg, g), p.planSha, p.snapshot,
                         p.entries[3], p.collectibleBytes, ZERO_DIGEST, ZERO_DIGEST);
        Success(j.(prepareSha := PrepareRoot(cfg, j)))
  }

  function Abort(cfg: Config, st: Content, g: SweepGrant, current: Journal)
    : Result<Journal, SweepError>
  {
    var refused := GrantRefused(cfg, st, g);
    var audit := Audit(cfg, st);
    if refused.Some? then Failure(refused.value)
    else if !PreparedUnder(cfg, g, current) then Failure(NotPrepared)
    else if audit.Failure? then Failure(StoreRefused)
    else if audit.value != g.expectedSnapshot then Failure(SweepSnapshotMismatch)
    else
      Success(current.(state := JournalAborted, abortSha := AbortRoot(cfg, current)))
  }

  /** A prepared journal passes the verifier. */
  lemma PrepareVerifies(cfg: Config, st: Content, g: SweepGrant, cg: CollectionGrant,
    roots: seq<BlobRef>, leases: seq<LeaseReceipt>, current: Journal)
    requires Prepare(cfg, st, g, cg, roots, leases, current).Success?
    ensures var j := Prepare(cfg, st, g, cg, roots, leases, current).value;
            VerifiedJournal(cfg, g, j) && j.state == JournalPrepared
  {
    hide Plan, SweepGrantRoot, Word, GrantRoot;
  }

  /** Aborting leads from a verified prepared journal to a verified aborted one. */
  lemma AbortVerifies(cfg: Config, st: Content, g: SweepGrant, current: Journal)
    requires Abort(cfg, st, g, current).Success?
    requires AbortRoot(cfg, current) != ZERO_DIGEST
    ensures VerifiedJournal(cfg, g, current)
    ensures var j := Abort(cfg, st, g, current).value;
            && VerifiedJournal(cfg, g, j) && j.state == JournalAborted
            && Abort(cfg, st, g, j).Failure?
  {
    hide Audit, SweepGrantRoot, Word, GrantRoot;
    var j := Abort(cfg, st, g, current).value;
    assert current == j.(state := JournalPrepared, abortSha := ZERO_DIGEST);
  }

  // ---------------------------------------------------------------------------------------
  // Targets of a commit
  // ---------------------------------------------------------------------------------------

  /** The blobs of all collectible decisions. */
  function CollectibleTargets(ds: seq<Decision>): seq<BlobRef> {
    if ds == [] then []
    else
      var n := |ds| - 1;
      CollectibleTargets(ds[..n]) + if ds[n].class_ == Collectible then [ds[n].target] else []
  }

  function InsertKey(sorted: seq<BlobRef>, t: BlobRef): seq<BlobRef> {
    if sorted == [] || KeyLeq(t, sorted[0]) then [t] + sorted
    else [sorted[0]] + InsertKey(sorted[1..], t)
  }

  /** The targets in the canonical order. */
  function SortKeys(targets: seq<BlobRef>): seq<BlobRef> {
    if targets == [] then [] else InsertKey(SortKeys(targets[..|targets| - 1]), targets[|targets| - 1])
  }

  function TotalTargetBytes(targets: seq<BlobRef>): nat {
    if targets == [] then 0 else targets[0].byteLength + TotalTargetBytes(targets[1..])
  }

  lemma {:induction false} InsertSame(sorted: seq<BlobRef>, t: BlobRef)
    ensures multiset(InsertKey(sorted, t)) == multiset(sorted) + multiset{t}
    ensures TotalTargetBytes(InsertKey(sorted, t)) == TotalTargetBytes(sorted) + t.byteLength
  {
    if sorted != [] && !KeyLeq(t, sorted[0]) {
      InsertSame(sorted[1..], t);
      assert sorted == [sorted[0]] + sorted[1..];
      assert InsertKey(sorted, t)[1..] == InsertKey(sorted[1..], t);
    } else {
      assert ([t] + sorted)[1..] == sorted;
    }
  }

  function SumBytes(targets: seq<BlobRef>): nat {
    if targets == [] then 0
    else SumBytes(targets[..|targets| - 1]) + targets[|targets| - 1].byteLength
  }

  lemma {:induction false} SortSame(targets: seq<BlobRef>)
    ensures multiset(SortKeys(targets)) == multiset(targets)
    ensures TotalTargetBytes(SortKeys(targets)) == SumBytes(targets)
  {
    hide InsertKey, TotalTargetBytes;
    NoBytes();
    if targets != [] {
      var n := |targets| - 1;
      SortSame(targets[..n]);
      InsertSame(SortKeys(targets[..n]), targets[n]);
      assert targets == targets[..n] + [targets[n]];
    }
  }

  predicate RetiredSlot(s: Option<Slot>) {
    s.Some? && s.value.state == SlotRetired
  }

  lemma CollectibleLast(slots: Slots)
    requires slots != []
    ensures var n := |slots| - 1;
            CollectibleTargets(Decisions(slots))
            == CollectibleTargets(Decisions(slots[..n]))
               + if RetiredSlot(slots[n]) then [slots[n].value.blob] else []
  {
    var n := |slots| - 1;
    var ds := Decisions(slots[..n]);
    if slots[n].Some? {
      var d := DecisionAt(n, slots[n].value);
      assert (ds + [d])[..|ds|] == ds;
    } else {
      assert Decisions(slots) == ds;
    }
  }

  lemma NoBytes()
    ensures TotalTargetBytes([]) == 0
  {
  }

  /** Collectible decisions count and weigh what the retired slots do. */
  lemma {:induction false} CollectibleCounts(slots: Slots)
    ensures |CollectibleTargets(Decisions(slots))| == Sum(slots, RetiredEntries)
    ensures |CollectibleTargets(Decisions(slots))| == ClassSum(slots, Collectible, Occurrences)
    ensures SumBytes(CollectibleTargets(Decisions(slots)))
            == ClassSum(slots, Collectible, BytesHeld)
  {
    hide Decisions, CollectibleTargets;
    if slots == [] {
      NothingCollectible();
    } else {
      var n := |slots| - 1;
      CollectibleCounts(slots[..n]);
      CollectibleLast(slots);
      var before := CollectibleTargets(Decisions(slots[..n]));
      if RetiredSlot(slots[n]) {
        var t := slots[n].value.blob;
        assert (before + [t])[..|before|] == before;
      } else {
        assert before + [] == before;
      }
    }
  }

  lemma NothingCollectible()
    ensures CollectibleTargets(Decisions([])) == []
  {
  }

  /** Collectible decisions name exactly the retired slots. */
  lemma {:induction false} CollectibleExact(slots: Slots)
    ensures forall t | t in CollectibleTargets(Decisions(slots)) ::
              exists i :: 0 <= i < |slots| && Holds(slots[i], t) && RetiredSlot(slots[i])
    ensures forall i | 0 <= i < |slots| && RetiredSlot(slots[i]) ::
              slots[i].value.blob in CollectibleTargets(Decisions(slots))
  {
    hide Decisions, CollectibleTargets;
    if slots == [] {
      NothingCollectible();
    } else {
      var n := |slots| - 1;
      CollectibleExact(slots[..n]);
      CollectibleLast(slots);
      var before := CollectibleTargets(Decisions(slots[..n]));
      forall t | t in CollectibleTargets(Decisions(slots))
        ensures exists i :: 0 <= i < |slots| && Holds(slots[i], t) && RetiredSlot(slots[i])
      {
        if t in before {
          var i :| 0 <= i < n && Holds(slots[..n][i], t) && RetiredSlot(slots[..n][i]);
          assert Holds(slots[i], t);
        } else {
          assert Holds(slots[n], t);
        }
      }
      forall i | 0 <= i < |slots| && RetiredSlot(slots[i])
        ensures slots[i].value.blob in CollectibleTargets(Decisions(slots))
      {
        if i < n {
          assert RetiredSlot(slots[..n][i]);
        }
      }
    }
  }

  /** The slots of a store without anything retired in it. */
  function WithoutRetired(slots: Slots): (after: Slots)
    ensures |after| == |slots|
    ensures forall i | 0 <= i < |slots| ::
              after[i] == if slots[i].Some? && slots[i].value.state == SlotRetired then None
                          else slots[i]
  {
    seq(|slots|, i requires 0 <= i < |slots| =>
      if slots[i].Some? && slots[i].value.state == SlotRetired then None else slots[i])
  }

  /** Removing the collectible targets removes precisely the retired slots. */
  lemma RemovesPreciselyRetired(slots: Slots)
    requires Unique(slots)
    ensures Removed(slots, SortKeys(CollectibleTargets(Decisions(slots))))
            == WithoutRetired(slots)
  {
    hide Sum, ClassSum, Decisions, CollectibleTargets, SortKeys, SumBytes;
    var targets := CollectibleTargets(Decisions(slots));
    CollectibleExact(slots);
    SortSame(targets);
    var sorted := SortKeys(targets);
    forall i | 0 <= i < |slots|
      ensures Removed(slots, sorted)[i] == WithoutRetired(slots)[i]
    {
      if slots[i].Some? {
        var t := slots[i].value.blob;
        assert t in sorted <==> t in multiset(sorted);
        assert multiset(sorted) == multiset(targets);
        if t in targets {
          var k :| 0 <= k < |slots| && Holds(slots[k], t) && RetiredSlot(slots[k]);
          assert Holds(slots[i], t);
          FoundUnique(slots, t, i);
          FoundUnique(slots, t, k);
        }
      }
    }
  }

  // ---------------------------------------------------------------------------------------
  // Previewing and committing
  // ---------------------------------------------------------------------------------------

  predicate CommitGrantMatches(cfg: Config, g: SweepGrant, c: CommitGrant, j: Journal) {
    && c.epoch == cfg.grant.epoch && c.tenant == cfg.grant.tenant && c.bundle == cfg.grant.bundle
    && c.storeGrant == GrantRoot(cfg)
    && c.sweepGrant == SweepGrantRoot(cfg, g) && c.prepare == j.prepareSha
    && c.expectedSnapshot == j.snapshot && c.plan == j.plan
    && c.maxFreedEntries <= g.maxEntries && c.maxFreedBytes <= g.maxBytes
  }

  function PermitOf(cfg: Config, c: CommitGrant): Permit {
    Permit(c.epoch, c.tenant, c.bundle, c.storeGrant, c.expectedSnapshot,
           CommitGrantRoot(cfg, c), c.maxFreedEntries, c.maxFreedBytes)
  }

  function ReceiptOf(cfg: Config, c: CommitGrant, j: Journal, s: CommitReceipt): SweepReceipt {
    var r := SweepReceipt(CommitGrantRoot(cfg, c), c.sweepGrant, j.prepareSha, j.plan,
                          s.targets, s.snapshotBefore, s.snapshotAfter, s.commitSha,
                          s.freedEntries, s.freedPayload, s.freedIndex, s.freedRepairs,
                          s.deallocations, ZERO_DIGEST);
    r.(commitSha := SweepCommitRoot(cfg, r))
  }

  function PreviewRefused(cfg: Config, st: Content, g: SweepGrant, c: CommitGrant,
    cg: CollectionGrant, j: Journal): Option<SweepError>
  {
    var refused := GrantRefused(cfg, st, g);
    if refused.Some? then refused
    else if !PreparedUnder(cfg, g, j) then Some(NotPrepared)
    else if !ValidCommitGrant(c) then Some(InvalidSweepGrant)
    else if !CommitGrantMatches(cfg, g, c, j) then Some(JournalMismatch)
    else if cg.expectedSnapshot != j.snapshot then Some(JournalMismatch)
    else None
  }

  function PreviewCommit(cfg: Config, st: Content, g: SweepGrant, c: CommitGrant,
    cg: CollectionGrant, roots: seq<BlobRef>, leases: seq<LeaseReceipt>, j: Journal)
    : Result<SweepPreview, SweepError>
  {
    var refused := PreviewRefused(cfg, st, g, c, cg, j);
    var plan := Plan(cfg, st, cg, roots, leases);
    if refused.Some? then Failure(refused.value)
    else if plan.Failure? then Failure(PlanningFailed)
    else
      var p := plan.value.0;
      var targets := SortKeys(CollectibleTargets(plan.value.1));
      var bytes := TotalTargetBytes(targets);
      if p.planSha != j.plan || p.planSha != c.plan || p.snapshot != j.snapshot then
        Failure(JournalMismatch)
      else if |targets| != j.stagedEntries || bytes != j.stagedBytes
              || |targets| != p.entries[3] || bytes != p.collectibleBytes then
        Failure(JournalMismatch)
      else if |targets| > c.maxFreedEntries || bytes > c.maxFreedBytes then Failure(SweepBudget)
      else
        var permit := PermitOf(cfg, c);
        var s := ObjectStoreReclaim.Preview(cfg, st, permit, targets);
        if s.Failure? then Failure(StoreRefused)
        else Success(SweepPreview(c, permit, targets, ReceiptOf(cfg, c, j, s.value), s.value))
  }

  /** The stand-alone verifier of a sweep commit and of the store receipt inside it. */
  predicate VerifiedCommit(cfg: Config, c: CommitGrant, r: SweepReceipt, s: CommitReceipt) {
    && ValidCommitGrant(c) && VerifiedReceipt(cfg, s)
    && r.commitGrant == CommitGrantRoot(cfg, c) && r.sweepGrant == c.sweepGrant
    && r.prepare == c.prepare && r.plan == c.plan && r.snapshotBefore == c.expectedSnapshot
    && s.authorization == CommitGrantRoot(cfg, c) && s.commitSha == CommitRoot(cfg, s)
    && r.targets == s.targets && r.snapshotBefore == s.snapshotBefore
    && r.snapshotAfter == s.snapshotAfter && r.storeCommit == s.commitSha
    && r.freedEntries == s.freedEntries && r.freedPayload == s.freedPayload
    && r.freedIndex == s.freedIndex && r.freedRepairs == s.freedRepairs
    && r.deallocations == s.deallocations
    && r.freedEntries <= c.maxFreedEntries && r.freedPayload <= c.maxFreedBytes
    && r.commitSha == SweepCommitRoot(cfg, r)
  }

  datatype Committed = Committed(content: Content, reply: Result<SweepReceipt, SweepError>)

  function CommitPreview(cfg: Config, st: Content, v: SweepPreview): Committed {
    if !VerifiedCommit(cfg, v.commitGrant, v.receipt, v.storeReceipt) then
      Committed(st, Failure(SweepPreviewMismatch))
    else if v.targets == [] || TargetsRoot(cfg, v.targets) != v.receipt.targets then
      Committed(st, Failure(SweepPreviewMismatch))
    else
      var done := CommitRetired(cfg, st, v.permit, v.targets, v.storeReceipt);
      if done.reply.Failure? then Committed(done.content, Failure(SweepPreviewMismatch))
      else Committed(done.content, Success(v.receipt))
  }

  lemma {:induction false} TargetBytesFreed(slots: Slots, targets: seq<BlobRef>)
    requires AllRetired(slots, targets)
    ensures Freed(slots, targets, PayloadBytes) == SumBytes(targets)
  {
    hide RetiredTarget;
    if targets != [] {
      var n := |targets| - 1;
      TargetBytesFreed(slots, targets[..n]);
      FoundWeight(slots, targets[n]);
    }
  }

  lemma FoundWeight(slots: Slots, t: BlobRef)
    requires RetiredTarget(slots, t)
    ensures Find(slots, t).Some?
    ensures Weight(PayloadBytes, slots[Find(slots, t).value]) == t.byteLength
  {
  }

  lemma {:induction false} TotalIsSum(targets: seq<BlobRef>)
    ensures TotalTargetBytes(targets) == SumBytes(targets)
  {
    if targets != [] {
      var n := |targets| - 1;
      TotalSplit(targets, n);
      TotalIsSum(targets[..n]);
    }
  }

  lemma {:induction false} TotalSplit(targets: seq<BlobRef>, n: nat)
    requires n == |targets| - 1
    ensures TotalTargetBytes(targets)
            == TotalTargetBytes(targets[..n]) + targets[n].byteLength
  {
    if n > 0 {
      TotalSplit(targets[1..], n - 1);
      assert targets[..n][1..] == targets[1..][..n - 1];
    }
  }

  /** Every preview passes both receipt verifiers, given digests that are not zero. */
  lemma SweepPreviewVerifies(cfg: Config, st: Content, g: SweepGrant, c: CommitGrant,
    cg: CollectionGrant, roots: seq<BlobRef>, leases: seq<LeaseReceipt>, j: Journal)
    requires StoreGood(cfg, st.slots)
    requires PreviewCommit(cfg, st, g, c, cg, roots, leases, j).Success?
    requires var v := PreviewCommit(cfg, st, g, c, cg, roots, leases, j).value;
             PreviewNameable(cfg, st, v.targets, v.storeReceipt)
    ensures var v := PreviewCommit(cfg, st, g, c, cg, roots, leases, j).value;
            VerifiedCommit(cfg, c, v.receipt, v.storeReceipt)
  {
    hide StoreGood, Plan, SortKeys, VerifiedReceipt, PreparedUnder, SweepGrantRoot,
      CommitGrantRoot, GrantRefused, GrantRoot, Freed, AllRetired, CanonicalTargets, Audit,
      PreviewNameable, Snapshot, TargetsRoot, Removed, AccountingBytes;
    var v := PreviewCommit(cfg, st, g, c, cg, roots, leases, j).value;
    PreviewVerifies(cfg, st, v.permit, v.targets);
    PreviewAgrees(cfg, st, v.permit, v.targets);
  }

  lemma PreviewAgrees(cfg: Config, st: Content, p: Permit, targets: seq<BlobRef>)
    requires ObjectStoreReclaim.Preview(cfg, st, p, targets).Success?
    ensures var s := ObjectStoreReclaim.Preview(cfg, st, p, targets).value;
            && s.snapshotBefore == p.expectedSnapshot && s.authorization == p.authorization
            && s.freedEntries == |targets| <= p.maxFreedEntries
            && s.freedPayload <= p.maxFreedBytes && s.targets == TargetsRoot(cfg, targets)
            && s.commitSha == CommitRoot(cfg, s)
            && s.snapshotBefore == Snapshot(cfg, st.slots)
            && s.snapshotAfter == Snapshot(cfg, Removed(st.slots, targets))
            && targets != []
  {
    hide StoreGood, Freed, AllRetired, CanonicalTargets, Snapshot, TargetsRoot, Removed,
      AccountingBytes, Auditable;
  }

  /**
   * Exact reclamation. Committing a preview on the store it was made from always succeeds,
   * empties precisely the retired slots, keeps every other slot identical, and the store stays
   * good.
   */
  lemma SweepReclaimsExactly(cfg: Config, st: Content, g: SweepGrant, c: CommitGrant,
    cg: CollectionGrant, roots: seq<BlobRef>, leases: seq<LeaseReceipt>, j: Journal)
    requires StoreGood(cfg, st.slots)
    requires PreviewCommit(cfg, st, g, c, cg, roots, leases, j).Success?
    requires var v := PreviewCommit(cfg, st, g, c, cg, roots, leases, j).value;
             PreviewNameable(cfg, st, v.targets, v.storeReceipt)
    ensures var v := PreviewCommit(cfg, st, g, c, cg, roots, leases, j).value;
            var done := CommitPreview(cfg, st, v);
            && done.reply == Success(v.receipt)
            && done.content == st.(slots := WithoutRetired(st.slots))
            && StoreGood(cfg, done.content.slots)
  {
    hide StoreGood, SortKeys, VerifiedCommit, PreparedUnder, SweepGrantRoot,
      CommitGrantRoot, GrantRefused, GrantRoot, Freed, AllRetired, CanonicalTargets, Audit,
      PreviewNameable, Snapshot, TargetsRoot, Removed, AccountingBytes, Covered, ClassSum,
      PlanRefused, MakePlan, Decisions, CollectibleTargets, WithoutRetired, PermitRefused, Distinct;
    SweepPreviewVerifies(cfg, st, g, c, cg, roots, leases, j);
    var v := PreviewCommit(cfg, st, g, c, cg, roots, leases, j).value;
    PreviewAgrees(cfg, st, v.permit, v.targets);
    UniqueOf(cfg, st.slots);
    RemovesPreciselyRetired(st.slots);
    CanonicalDistinct(v.targets);
    RemovedGood(cfg, st.slots, v.targets);
  }

  lemma UniqueOf(cfg: Config, slots: Slots)
    requires StoreGood(cfg, slots)
    ensures Unique(slots)
  {
  }

  // ---------------------------------------------------------------------------------------
  // Recovering a published commit
  // ---------------------------------------------------------------------------------------

  datatype Disposition = AppliedNow | AlreadyApplied

  datatype Recovery = Recovery(content: Content, reply: Result<Disposition, SweepError>)

  /**
   * Finishing a commit whose record is durably published: apply it to the before-store, leave
   * the after-store alone, and refuse any other store.
   */
  function RecoverCommit(cfg: Config, st: Content, v: SweepPreview): Recovery {
    var audit := Audit(cfg, st);
    if audit.Failure? then Recovery(st, Failure(StoreRefused))
    else if audit.value == v.receipt.snapshotBefore then
      var done := CommitPreview(cfg, st, v);
      if done.reply.Failure? then Recovery(done.content, Failure(done.reply.error))
      else Recovery(done.content, Success(AppliedNow))
    else if audit.value == v.receipt.snapshotAfter then Recovery(st, Success(AlreadyApplied))
    else Recovery(st, Failure(SweepSnapshotMismatch))
  }

  lemma AuditAfterSweep(cfg: Config, st: Content)
    requires Audit(cfg, st).Success?
    ensures var after := st.(slots := WithoutRetired(st.slots));
            Audit(cfg, after) == Success(Snapshot(cfg, after.slots))
  {
    hide Intact, Snapshot;
  }

  /**
   * Whether the crash came before or after the store was changed, recovery ends in the same
   * store, and recovering again changes nothing: applying twice equals applying once.
   */
  lemma RecoveryConverges(cfg: Config, st: Content, g: SweepGrant, c: CommitGrant,
    cg: CollectionGrant, roots: seq<BlobRef>, leases: seq<LeaseReceipt>, j: Journal)
    requires StoreGood(cfg, st.slots)
    requires PreviewCommit(cfg, st, g, c, cg, roots, leases, j).Success?
    requires var v := PreviewCommit(cfg, st, g, c, cg, roots, leases, j).value;
             PreviewNameable(cfg, st, v.targets, v.storeReceipt)
    ensures var v := PreviewCommit(cfg, st, g, c, cg, roots, leases, j).value;
            var after := st.(slots := WithoutRetired(st.slots));
            && RecoverCommit(cfg, st, v) == Recovery(after, Success(AppliedNow))
            && RecoverCommit(cfg, after, v) == Recovery(after, Success(AlreadyApplied))
            && CommitPreview(cfg, after, v).reply.Failure?
            && CommitPreview(cfg, after, v).content == after
  {
    hide StoreGood, SortKeys, VerifiedCommit, PreparedUnder, SweepGrantRoot,
      CommitGrantRoot, GrantRefused, GrantRoot, Freed, AllRetired, CanonicalTargets,
      PreviewNameable, Snapshot, TargetsRoot, Removed, AccountingBytes, Covered, ClassSum,
      PlanRefused, MakePlan, Decisions, CollectibleTargets, WithoutRetired, PermitRefused,
      Auditable, CommitRetired, CommitPreview;
    SweepReclaimsExactly(cfg, st, g, c, cg, roots, leases, j);
    SweepPreviewVerifies(cfg, st, g, c, cg, roots, leases, j);
    var v := PreviewCommit(cfg, st, g, c, cg, roots, leases, j).value;
    PreviewAgrees(cfg, st, v.permit, v.targets);
    UniqueOf(cfg, st.slots);
    RemovesPreciselyRetired(st.slots);
    SameRemoval(cfg, st, cg, roots, leases, v.targets, g, c, j);
    PreviewAudited(cfg, st, v.permit, v.targets);
    AuditAfterSweep(cfg, st);
    DifferentSnapshots(cfg, c, v.receipt, v.storeReceipt);
    CommitRefusedAfter(cfg, st.(slots := WithoutRetired(st.slots)), v);
  }

  lemma SameRemoval(cfg: Config, st: Content, cg: CollectionGrant, roots: seq<BlobRef>,
    leases: seq<LeaseReceipt>, targets: seq<BlobRef>, g: SweepGrant, c: CommitGrant, j: Journal)
    requires PreviewCommit(cfg, st, g, c, cg, roots, leases, j).Success?
    requires targets == PreviewCommit(cfg, st, g, c, cg, roots, leases, j).value.targets
    ensures targets == SortKeys(CollectibleTargets(Decisions(st.slots)))
    ensures PreviewCommit(cfg, st, g, c, cg, roots, leases, j).value.receipt.snapshotBefore
            == PreviewCommit(cfg, st, g, c, cg, roots, leases, j).value.storeReceipt.snapshotBefore
  {
    hide SortKeys, Covered, ClassSum, PlanRefused, MakePlan, Decisions, CollectibleTargets,
      GrantRefused, PreparedUnder;
  }

  lemma PreviewAudited(cfg: Config, st: Content, p: Permit, targets: seq<BlobRef>)
    requires ObjectStoreReclaim.Preview(cfg, st, p, targets).Success?
    ensures Audit(cfg, st) == Success(p.expectedSnapshot)
  {
    hide Freed, AllRetired, CanonicalTargets, Snapshot, TargetsRoot, Auditable;
  }

  lemma DifferentSnapshots(cfg: Config, c: CommitGrant, r: SweepReceipt, s: CommitReceipt)
    requires VerifiedCommit(cfg, c, r, s)
    ensures r.snapshotBefore != r.snapshotAfter
    ensures r.snapshotBefore == s.snapshotBefore && r.snapshotAfter == s.snapshotAfter
  {
    hide ValidAccounting, CommitRoot;
  }

  /** A commit tried on a store with another snapshot is refused and changes nothing. */
  lemma CommitRefusedAfter(cfg: Config, st: Content, v: SweepPreview)
    requires Audit(cfg, st).Success? && Audit(cfg, st).value != v.permit.expectedSnapshot
    ensures CommitPreview(cfg, st, v).reply.Failure? && CommitPreview(cfg, st, v).content == st
  {
    hide VerifiedCommit, Audit, Freed, AllRetired, CanonicalTargets, TargetsRoot;
  }

  // ---------------------------------------------------------------------------------------
  // What was prepared can be committed
  // ---------------------------------------------------------------------------------------

  lemma {:induction false} LexTotal(a: Bytes, b: Bytes)
    ensures LexLeq(a, b) || LexLeq(b, a)
  {
    if a != [] && b != [] && a[0] == b[0] {
      LexTotal(a[1..], b[1..]);
    }
  }

  lemma {:induction false} LexTransitive(a: Bytes, b: Bytes, c: Bytes)
    requires LexLeq(a, b) && LexLeq(b, c)
    ensures LexLeq(a, c)
  {
    if a != [] && a[0] == b[0] == c[0] {
      LexTransitive(a[1..], b[1..], c[1..]);
    }
  }

  lemma {:induction false} LexAntisymmetric(a: Bytes, b: Bytes)
    requires LexLeq(a, b) && LexLeq(b, a)
    ensures a == b
  {
    if a != [] {
      LexAntisymmetric(a[1..], b[1..]);
    }
  }

  lemma KeyOrder(a: BlobRef, b: BlobRef, c: BlobRef)
    ensures KeyLeq(a, b) || KeyLeq(b, a)
    ensures KeyLeq(a, b) && KeyLeq(b, c) ==> KeyLeq(a, c)
  {
    LexTotal(a.sha, b.sha);
    if KeyLeq(a, b) && KeyLeq(b, c) && a.sha != b.sha && b.sha != c.sha {
      LexTransitive(a.sha, b.sha, c.sha);
      if a.sha == c.sha {
        LexAntisymmetric(a.sha, b.sha);
      }
    }
  }

  predicate Sorted(targets: seq<BlobRef>) {
    forall i, j | 0 <= i < j < |targets| :: KeyLeq(targets[i], targets[j])
  }

  lemma {:induction false} InsertSorted(sorted: seq<BlobRef>, t: BlobRef)
    requires Sorted(sorted)
    ensures Sorted(InsertKey(sorted, t))
  {
    hide KeyLeq;
    var r := InsertKey(sorted, t);
    if sorted == [] || KeyLeq(t, sorted[0]) {
      forall j | 0 < j < |r| ensures KeyLeq(r[0], r[j]) {
        if j > 1 {
          KeyOrder(t, sorted[0], sorted[j - 1]);
        }
      }
    } else {
      InsertSorted(sorted[1..], t);
      InsertSame(sorted[1..], t);
      var rest := InsertKey(sorted[1..], t);
      forall j | 0 <= j < |rest| ensures KeyLeq(sorted[0], rest[j]) {
        assert rest[j] in multiset(rest);
        if rest[j] == t {
          KeyOrder(t, sorted[0], t);
        } else {
          assert rest[j] in sorted[1..];
        }
      }
    }
  }

  lemma {:induction false} SortSorts(targets: seq<BlobRef>)
    ensures Sorted(SortKeys(targets))
  {
    if targets != [] {
      var n := |targets| - 1;
      SortSorts(targets[..n]);
      InsertSorted(SortKeys(targets[..n]), targets[n]);
    }
  }

  /** The blobs of the slots are proper targets: no digest among them is zero. */
  predicate BlobsNonZero(slots: Slots) {
    forall i | 0 <= i < |slots| && slots[i].Some? :: slots[i].value.blob.sha != ZERO_DIGEST
  }

  lemma {:induction false} CollectibleDistinct(slots: Slots)
    requires Unique(slots)
    ensures Distinct(CollectibleTargets(Decisions(slots)))
  {
    hide Decisions, CollectibleTargets;
    if slots == [] {
      NothingCollectible();
    } else {
      var n := |slots| - 1;
      CollectibleDistinct(slots[..n]);
      CollectibleLast(slots);
      CollectibleExact(slots[..n]);
      if RetiredSlot(slots[n]) {
        var before := CollectibleTargets(Decisions(slots[..n]));
        forall i | 0 <= i < |before| ensures before[i] != slots[n].value.blob {
          assert before[i] in before;
          var k :| 0 <= k < n && Holds(slots[..n][k], before[i]) && RetiredSlot(slots[..n][k]);
          assert slots[k].value.blob.sha != slots[n].value.blob.sha;
        }
      }
    }
  }

  lemma {:induction false} DistinctIsMultiset(targets: seq<BlobRef>)
    ensures Distinct(targets) <==> forall t | t in targets :: multiset(targets)[t] == 1
  {
    if targets != [] {
      var n := |targets| - 1;
      DistinctIsMultiset(targets[..n]);
      assert targets == targets[..n] + [targets[n]];
      if Distinct(targets) {
        assert targets[n] !in multiset(targets[..n]);
        forall t | t in targets ensures multiset(targets)[t] == 1 {
          if t != targets[n] {
            assert t in targets[..n];
          }
        }
      } else if Distinct(targets[..n]) {
        var i :| 0 <= i < n && targets[i] == targets[n];
        assert targets[..n][i] in multiset(targets[..n]);
      } else {
        var t :| t in targets[..n] && multiset(targets[..n])[t] != 1;
        assert t in multiset(targets[..n]) && t in targets;
      }
    }
  }

  /** The sorted collectible targets of a good store are a canonical target list. */
  lemma SweepTargetsCanonical(cfg: Config, slots: Slots)
    requires StoreGood(cfg, slots) && BlobsNonZero(slots)
    ensures var targets := SortKeys(CollectibleTargets(Decisions(slots)));
            (targets != [] ==> CanonicalTargets(targets)) && AllRetired(slots, targets)
  {
    hide Sum, WithinBudgets, Decisions, CollectibleTargets, SortKeys, KeyLeq, FindFrom,
      SumBytes, TotalTargetBytes, ClassSum;
    var raw := CollectibleTargets(Decisions(slots));
    var targets := SortKeys(raw);
    SortSame(raw);
    SortSorts(raw);
    CollectibleExact(slots);
    CollectibleDistinct(slots);
    DistinctIsMultiset(raw);
    DistinctIsMultiset(targets);
    forall t | t in targets ensures ValidTarget(t) && RetiredTarget(slots, t) {
      assert t in multiset(targets);
      assert t in raw;
      var i :| 0 <= i < |slots| && Holds(slots[i], t) && RetiredSlot(slots[i]);
      FoundUnique(slots, t, i);
      assert SlotGood(cfg.grant, slots[i].value);
    }
    forall t | t in targets ensures multiset(targets)[t] == 1 {
      assert t in multiset(targets);
      assert t in raw;
    }
    assert Distinct(targets);
  }

  /**
   * None of the consistency checks of a commit can fail by itself: what was prepared on a good
   * store can be previewed on it with the same evidence and enough budget.
   */
  lemma PreparedCanCommit(cfg: Config, st: Content, g: SweepGrant, c: CommitGrant,
    cg: CollectionGrant, roots: seq<BlobRef>, leases: seq<LeaseReceipt>)
    requires StoreGood(cfg, st.slots) && BlobsNonZero(st.slots)
    requires Prepare(cfg, st, g, cg, roots, leases, EMPTY_JOURNAL).Success?
    requires var j := Prepare(cfg, st, g, cg, roots, leases, EMPTY_JOURNAL).value;
             && ValidCommitGrant(c) && CommitGrantMatches(cfg, g, c, j)
             && j.stagedEntries <= c.maxFreedEntries && j.stagedBytes <= c.maxFreedBytes
             && CommitGrantRoot(cfg, c) != ZERO_DIGEST
    requires Refused(cfg, st, OPERATION_RELEASE).None?
    ensures var j := Prepare(cfg, st, g, cg, roots, leases, EMPTY_JOURNAL).value;
            PreviewCommit(cfg, st, g, c, cg, roots, leases, j).Success?
  {
    hide StoreGood, SortKeys, Covered, ClassSum, Decisions, CollectibleTargets, CanonicalTargets,
      SweepGrantRoot, CommitGrantRoot, GrantRoot, Snapshot, PlanRoot, AllRetired, Freed,
      BlobsNonZero, CanonicalRoots, CanonicalLeases, TotalTargetBytes, SumBytes, Sum, Auditable,
      PrepareRoot, Word, Refused;
    var j := Prepare(cfg, st, g, cg, roots, leases, EMPTY_JOURNAL).value;
    PrepareVerifies(cfg, st, g, cg, roots, leases, EMPTY_JOURNAL);
    var raw := CollectibleTargets(Decisions(st.slots));
    var targets := SortKeys(raw);
    SweepTargetsCanonical(cfg, st.slots);
    CollectibleCounts(st.slots);
    SortSame(raw);
    SortLength(raw);
    TotalIsSum(targets);
    TargetBytesFreed(st.slots, targets);
  }

  lemma SortLength(targets: seq<BlobRef>)
    ensures |SortKeys(targets)| == |targets|
  {
    SortSame(targets);
    assert |multiset(SortKeys(targets))| == |SortKeys(targets)|;
    assert |multiset(targets)| == |targets|;
  }
}
