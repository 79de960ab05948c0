/**
 * Collection plans (bench/continuation_object_collection.py): every occupied slot is reachable,
 * leased, quarantined or collectible, justified by root references and lease receipts that
 * cover the store exactly.
 */
module ObjectCollection {
  import opened Bytes
  import opened Outbox
  import opened ObjectStore
  import opened ObjectStoreReclaim

  const COLLECTION_GRANT_DOMAIN := Ascii("glacier-continuation-store-collection-grant-v1\0")
  const ROOTS_DOMAIN := Ascii("glacier-continuation-store-collection-roots-v1\0")
  const LEASES_DOMAIN := Ascii("glacier-continuation-store-collection-leases-v1\0")
  const PLAN_DOMAIN := Ascii("glacier-continuation-store-collection-plan-v1\0")

  datatype PlanError =
    | PlanClosed | InvalidPlanGrant | PlanScopeMismatch | PlanBudget | PlanSnapshotMismatch
    | AuditFailed | Noncanonical | CoverageMismatch

  datatype CollectionGrant = CollectionGrant(
    epoch: u64, tenant: Digest, bundle: Digest, storeGrant: Digest, expectedSnapshot: Digest,
    maxRoots: u64, maxLeases: u64, maxScans: u64, maxCollectibleEntries: u64,
    maxCollectibleBytes: u64, challenge: Digest)

  datatype Class = Reachable | LeasedOut | InQuarantine | Collectible

  datatype Decision = Decision(
    index: nat, class_: Class, target: BlobRef, references: nat, generation: nat, repairs: nat)

  /** How much of a class to count. */
  datatype Measure = Occurrences | ReferencesHeld | BytesHeld

  datatype PlanReceipt = PlanReceipt(
    grantSha: Digest, snapshot: Digest, roots: Digest, leases: Digest, occupied: nat,
    rootCount: nat, leaseCount: nat, entries: seq<nat>, references: seq<nat>,
    collectibleBytes: nat, planSha: Digest)

  // ---------------------------------------------------------------------------------------
  // Classes
  // ---------------------------------------------------------------------------------------

  function ClassOf(s: Slot): Class {
    if s.state == SlotQuarantined then InQuarantine
    else if s.state == SlotRetired then Collectible
    else if s.lease.active then LeasedOut
    else Reachable
  }

  function ClassCode(c: Class): nat {
    match c
    case Reachable => 1
    case LeasedOut => 2
    case InQuarantine => 3
    case Collectible => 4
  }

  function Measured(s: Slot, m: Measure): nat {
    match m
    case Occurrences => 1
    case ReferencesHeld => s.references
    case BytesHeld => s.blob.byteLength
  }

  function ClassWeight(s: Option<Slot>, c: Class, m: Measure): nat {
    if s.Some? && ClassOf(s.value) == c then Measured(s.value, m) else 0
  }

  function ClassSum(slots: Slots, c: Class, m: Measure): nat {
    if slots == [] then 0
    else ClassSum(slots[..|slots| - 1], c, m) + ClassWeight(slots[|slots| - 1], c, m)
  }

  function DecisionAt(i: nat, s: Slot): Decision {
    Decision(i, ClassOf(s), s.blob, s.references, s.lease.generation, s.repairs)
  }

  /** One decision for every occupied slot, in slot order. */
  function Decisions(slots: Slots): seq<Decision> {
    if slots == [] then []
    else
      var n := |slots| - 1;
      Decisions(slots[..n])
      + if slots[n].Some? then [DecisionAt(n, slots[n].value)] else []
  }

  // ---------------------------------------------------------------------------------------
  // Coverage
  // ---------------------------------------------------------------------------------------

  function RootCount(roots: seq<BlobRef>, blob: BlobRef): nat {
    if roots == [] then 0
    else RootCount(roots[..|roots| - 1], blob) + if roots[|roots| - 1] == blob then 1 else 0
  }

  predicate RootHeld(slots: Slots, root: BlobRef) {
    var i := Find(slots, root);
    i.Some? && slots[i.value].value.state != SlotRetired
  }

  predicate LeaseHeld(cfg: Config, slots: Slots, r: LeaseReceipt) {
    var i := Find(slots, r.target);
    && i.Some?
    && var s := slots[i.value].value;
       && s.lease.active && r.generation == s.lease.generation
       && r.leaseSha == s.lease.receipt && r.leaseSha == LeaseRoot(cfg, r)
  }

  predicate Covers(leases: seq<LeaseReceipt>, blob: BlobRef) {
    exists k :: 0 <= k < |leases| && leases[k].target == blob
  }

  predicate LeasesDistinct(leases: seq<LeaseReceipt>) {
    forall i, j | 0 <= i < j < |leases| :: leases[i].target != leases[j].target
  }

  /** What one slot demands of the evidence. */
  predicate SlotCovered(s: Slot, roots: seq<BlobRef>, leases: seq<LeaseReceipt>) {
    && RootCount(roots, s.blob) == s.references
    && (s.lease.active <==> Covers(leases, s.blob))
    && (s.state == SlotRetired ==> !s.lease.active)
  }

  /** The roots and receipts account for every reference and every active lease, exactly. */
  predicate Covered(cfg: Config, slots: Slots, roots: seq<BlobRef>, leases: seq<LeaseReceipt>) {
    && (forall k | 0 <= k < |roots| :: RootHeld(slots, roots[k]))
    && (forall k | 0 <= k < |leases| :: LeaseHeld(cfg, slots, leases[k]))
    && LeasesDistinct(leases)
    && (forall i | 0 <= i < |slots| && slots[i].Some? ::
          SlotCovered(slots[i].value, roots, leases))
  }

  predicate CanonicalRoots(roots: seq<BlobRef>) {
    && (forall i | 0 <= i < |roots| :: ValidTarget(roots[i]))
    && (forall i, j | 0 <= i < j < |roots| :: KeyLeq(roots[i], roots[j]))
  }

  predicate LeaseKeyLeq(a: LeaseReceipt, b: LeaseReceipt) {
    if a.target != b.target then KeyLeq(a.target, b.target)
    else if a.generation != b.generation then a.generation <= b.generation
    else LexLeq(a.leaseSha, b.leaseSha)
  }

  predicate ValidLeaseReceipt(cfg: Config, r: LeaseReceipt) {
    && ValidTarget(r.target) && 0 < r.generation <= U64_MAX && r.owner != ZERO_DIGEST
    && r.expires != 0 && r.lifecycleGrant != ZERO_DIGEST && r.leaseSha == LeaseRoot(cfg, r)
  }

  predicate CanonicalLeases(cfg: Config, leases: seq<LeaseReceipt>) {
    && (forall i | 0 <= i < |leases| :: ValidLeaseReceipt(cfg, leases[i]))
    && (forall i, j | 0 <= i < j < |leases| :: LeaseKeyLeq(leases[i], leases[j]))
  }

  // ---------------------------------------------------------------------------------------
  // The plan
  // ---------------------------------------------------------------------------------------

  predicate ValidCollectionGrant(g: CollectionGrant) {
    && g.tenant != ZERO_DIGEST && g.bundle != ZERO_DIGEST && g.storeGrant != ZERO_DIGEST
    && g.expectedSnapshot != ZERO_DIGEST && g.challenge != ZERO_DIGEST
    && g.epoch != 0 && g.maxScans != 0
  }

  function CollectionGrantRoot(cfg: Config, g: CollectionGrant): Digest {
    cfg.sha(COLLECTION_GRANT_DOMAIN + LE64(g.epoch) + g.tenant + g.bundle + g.storeGrant
            + g.expectedSnapshot
            + PackWords([g.maxRoots, g.maxLeases, g.maxScans, g.maxCollectibleEntries,
                         g.maxCollectibleBytes])
            + g.challenge)
  }

  function LeaseShas(leases: seq<LeaseReceipt>): Bytes {
    if leases == [] then [] else leases[0].leaseSha + LeaseShas(leases[1..])
  }

  function RootsRoot(cfg: Config, roots: seq<BlobRef>): Digest {
    cfg.sha(ROOTS_DOMAIN + Word(|roots|) + TargetBytes(roots))
  }

  function LeasesRoot(cfg: Config, leases: seq<LeaseReceipt>): Digest {
    cfg.sha(LEASES_DOMAIN + Word(|leases|) + LeaseShas(leases))
  }

  function DecisionBytes(ds: seq<Decision>): Bytes {
    if ds == [] then []
    else
      Word(ds[0].index) + Word(ClassCode(ds[0].class_)) + Word(ds[0].target.byteLength)
      + ds[0].target.sha + Word(ds[0].references) + Word(ds[0].generation)
      + Word(ds[0].repairs) + DecisionBytes(ds[1..])
  }

  /** Class by class: how many entries, then what they hold. */
  function ClassWords(entries: seq<nat>, held: seq<nat>): Bytes {
    if entries == [] || held == [] then []
    else Word(entries[0]) + Word(held[0]) + ClassWords(entries[1..], held[1..])
  }

  function PlanRoot(cfg: Config, p: PlanReceipt, ds: seq<Decision>): Digest {
    cfg.sha(PLAN_DOMAIN + p.grantSha + p.snapshot + p.roots + p.leases + Word(cfg.capacity)
            + Word(p.occupied) + Word(p.rootCount) + Word(p.leaseCount)
            + ClassWords(p.entries, p.references + [p.collectibleBytes]) + DecisionBytes(ds))
  }

  function PlanRefused(cfg: Config, st: Content, g: CollectionGrant, roots: seq<BlobRef>,
    leases: seq<LeaseReceipt>): Option<PlanError>
  {
    if !ValidCollectionGrant(g) then Some(InvalidPlanGrant)
    else if st.closed then Some(PlanClosed)
    else if g.epoch != cfg.grant.epoch || g.tenant != cfg.grant.tenant
            || g.bundle != cfg.grant.bundle || g.storeGrant != GrantRoot(cfg) then
      Some(PlanScopeMismatch)
    else if |roots| > g.maxRoots || |leases| > g.maxLeases || cfg.capacity > g.maxScans then
      Some(PlanBudget)
    else if Audit(cfg, st).Failure? then Some(AuditFailed)
    else if Audit(cfg, st).value != g.expectedSnapshot then Some(PlanSnapshotMismatch)
    else if !CanonicalRoots(roots) || !CanonicalLeases(cfg, leases) then Some(Noncanonical)
    else None
  }

  function MakePlan(cfg: Config, st: Content, g: CollectionGrant, roots: seq<BlobRef>,
    leases: seq<LeaseReceipt>): PlanReceipt
  {
    var slots := st.slots;
    var p := PlanReceipt(
      CollectionGrantRoot(cfg, g), Snapshot(cfg, slots), RootsRoot(cfg, roots),
      LeasesRoot(cfg, leases), Sum(slots, Entries), |roots|, |leases|,
      [ClassSum(slots, Reachable, Occurrences), ClassSum(slots, LeasedOut, Occurrences),
       ClassSum(slots, InQuarantine, Occurrences), ClassSum(slots, Collectible, Occurrences)],
      [ClassSum(slots, Reachable, ReferencesHeld), ClassSum(slots, LeasedOut, ReferencesHeld),
       ClassSum(slots, InQuarantine, ReferencesHeld)],
      ClassSum(slots, Collectible, BytesHeld), ZERO_DIGEST);
    p.(planSha := PlanRoot(cfg, p, Decisions(slots)))
  }

  /** What planning must answer on a good store. */
  function Plan(cfg: Config, st: Content, g: CollectionGrant, roots: seq<BlobRef>,
    leases: seq<LeaseReceipt>): Result<(PlanReceipt, seq<Decision>), PlanError>
  {
    var refused := PlanRefused(cfg, st, g, roots, leases);
    if refused.Some? then Failure(refused.value)
    else if !Covered(cfg, st.slots, roots, leases) then Failure(CoverageMismatch)
    else if ClassSum(st.slots, Collectible, Occurrences) > g.maxCollectibleEntries
            || ClassSum(st.slots, Collectible, BytesHeld) > g.maxCollectibleBytes then
      Failure(PlanBudget)
    else Success((MakePlan(cfg, st, g, roots, leases), Decisions(st.slots)))
  }

  // ---------------------------------------------------------------------------------------
  // The partition
  // ---------------------------------------------------------------------------------------

  function SlotRoots(slots: Slots, roots: seq<BlobRef>): nat {
    if slots == [] then 0
    else
      var n := |slots| - 1;
      SlotRoots(slots[..n], roots)
      + if slots[n].Some? then RootCount(roots, slots[n].value.blob) else 0
  }

  /** One root adds one to exactly the slot that holds it. */
  lemma {:induction false} OneRoot(slots: Slots, roots: seq<BlobRef>, root: BlobRef)
    requires Unique(slots)
    ensures SlotRoots(slots, roots + [root])
            == SlotRoots(slots, roots) + if Find(slots, root).Some? then 1 else 0
  {
    hide FindFrom;
    if slots != [] {
      var n := |slots| - 1;
      OneRoot(slots[..n], roots, root);
      FindShorter(slots, root);
      if slots[n].Some? {
        assert (roots + [root])[..|roots|] == roots;
        if slots[n].value.blob == root {
          assert Holds(slots[n], root);
        }
      }
    } else {
      assert Find(slots, root).None?;
    }
  }

  lemma FindShorter(slots: Slots, blob: BlobRef)
    requires slots != []
    ensures var n := |slots| - 1;
            Find(slots, blob).Some?
            <==> Find(slots[..n], blob).Some? || Holds(slots[n], blob)
    ensures Unique(slots) && Holds(slots[|slots| - 1], blob)
            ==> Find(slots[..|slots| - 1], blob).None?
  {
    hide FindFrom;
    var n := |slots| - 1;
    var a, b := Find(slots, blob), Find(slots[..n], blob);
    if b.Some? {
      assert Holds(slots[b.value], blob);
    }
    if a.Some? && a.value < n {
      assert Holds(slots[..n][a.value], blob);
    }
  }

  /** Every root is held by one slot, so the slots' root counts add up to all roots. */
  lemma {:induction false} RootsAddUp(slots: Slots, roots: seq<BlobRef>)
    requires Unique(slots) && forall k | 0 <= k < |roots| :: RootHeld(slots, roots[k])
    ensures SlotRoots(slots, roots) == |roots|
  {
    hide Find, Unique;
    if roots == [] {
      NoRoots(slots);
    } else {
      var n := |roots| - 1;
      RootsAddUp(slots, roots[..n]);
      assert roots == roots[..n] + [roots[n]];
      assert RootHeld(slots, roots[n]);
      OneRoot(slots, roots[..n], roots[n]);
    }
  }

  lemma {:induction false} NoRoots(slots: Slots)
    ensures SlotRoots(slots, []) == 0
  {
    if slots != [] {
      NoRoots(slots[..|slots| - 1]);
    }
  }

  lemma {:induction false} CoveredReferences(slots: Slots, roots: seq<BlobRef>,
    leases: seq<LeaseReceipt>)
    requires forall i | 0 <= i < |slots| && slots[i].Some? ::
               SlotCovered(slots[i].value, roots, leases)
    ensures SlotRoots(slots, roots) == Sum(slots, References)
  {
    if slots != [] {
      var n := |slots| - 1;
      CoveredReferences(slots[..n], roots, leases);
      if slots[n].Some? {
        assert SlotCovered(slots[n].value, roots, leases);
      }
    }
  }

  function CoveredTargets(slots: Slots, leases: seq<LeaseReceipt>): nat {
    if slots == [] then 0
    else
      var n := |slots| - 1;
      CoveredTargets(slots[..n], leases)
      + if slots[n].Some? && Covers(leases, slots[n].value.blob) then 1 else 0
  }

  lemma CoversMore(leases: seq<LeaseReceipt>, r: LeaseReceipt, blob: BlobRef)
    ensures Covers(leases + [r], blob) <==> Covers(leases, blob) || r.target == blob
  {
    var all := leases + [r];
    if Covers(leases, blob) {
      var k :| 0 <= k < |leases| && leases[k].target == blob;
      assert all[k].target == blob;
    }
    if r.target == blob {
      assert all[|leases|].target == blob;
    }
  }

  /** One more lease receipt covers exactly one more slot. */
  lemma {:induction false} OneLease(slots: Slots, leases: seq<LeaseReceipt>, r: LeaseReceipt)
    requires Unique(slots) && !Covers(leases, r.target)
    ensures CoveredTargets(slots, leases + [r])
            == CoveredTargets(slots, leases) + if Find(slots, r.target).Some? then 1 else 0
  {
    hide FindFrom, Covers;
    if slots != [] {
      var n := |slots| - 1;
      OneLease(slots[..n], leases, r);
      FindShorter(slots, r.target);
      if slots[n].Some? {
        CoversMore(leases, r, slots[n].value.blob);
      }
    } else {
      assert Find(slots, r.target).None?;
    }
  }

  lemma {:induction false} LeasesAddUp(cfg: Config, slots: Slots, leases: seq<LeaseReceipt>)
    requires Unique(slots) && LeasesDistinct(leases)
    requires forall k | 0 <= k < |leases| :: LeaseHeld(cfg, slots, leases[k])
    ensures CoveredTargets(slots, leases) == |leases|
  {
    hide Find, Unique, LeaseRoot;
    if leases == [] {
      NoLeases(slots);
    } else {
      var n := |leases| - 1;
      LeasesAddUp(cfg, slots, leases[..n]);
      assert leases == leases[..n] + [leases[n]];
      assert LeaseHeld(cfg, slots, leases[n]);
      OneLease(slots, leases[..n], leases[n]);
    }
  }

  lemma {:induction false} NoLeases(slots: Slots)
    ensures CoveredTargets(slots, []) == 0
  {
    if slots != [] {
      NoLeases(slots[..|slots| - 1]);
    }
  }

  lemma {:induction false} CoveredLeases(slots: Slots, roots: seq<BlobRef>,
    leases: seq<LeaseReceipt>)
    requires forall i | 0 <= i < |slots| && slots[i].Some? ::
               SlotCovered(slots[i].value, roots, leases)
    ensures CoveredTargets(slots, leases) == Sum(slots, ActiveLeases)
  {
    hide Covers, RootCount;
    if slots != [] {
      var n := |slots| - 1;
      CoveredLeases(slots[..n], roots, leases);
      if slots[n].Some? {
        assert SlotCovered(slots[n].value, roots, leases);
      }
    }
  }

  lemma {:induction false} ClassesAddUp(g: Grant, slots: Slots)
    requires forall i | 0 <= i < |slots| && slots[i].Some? :: SlotGood(g, slots[i].value)
    ensures ClassSum(slots, Reachable, Occurrences) + ClassSum(slots, LeasedOut, Occurrences)
            + ClassSum(slots, InQuarantine, Occurrences)
            + ClassSum(slots, Collectible, Occurrences) == Sum(slots, Entries)
    ensures ClassSum(slots, Reachable, ReferencesHeld)
            + ClassSum(slots, LeasedOut, ReferencesHeld)
            + ClassSum(slots, InQuarantine, ReferencesHeld) == Sum(slots, References)
    ensures ClassSum(slots, Collectible, Occurrences) == Sum(slots, RetiredEntries)
    ensures ClassSum(slots, InQuarantine, Occurrences) == Sum(slots, QuarantinedEntries)
    ensures ClassSum(slots, LeasedOut, Occurrences) == Sum(slots, ActiveLeases)
  {
    if slots != [] {
      var n := |slots| - 1;
      ClassesAddUp(g, slots[..n]);
      SlotClass(g, slots[n]);
    }
  }

  lemma SlotClass(g: Grant, s: Option<Slot>)
    requires s.Some? ==> SlotGood(g, s.value)
    ensures ClassWeight(s, Reachable, Occurrences) + ClassWeight(s, LeasedOut, Occurrences)
            + ClassWeight(s, InQuarantine, Occurrences)
            + ClassWeight(s, Collectible, Occurrences) == Weight(Entries, s)
    ensures ClassWeight(s, Reachable, ReferencesHeld)
            + ClassWeight(s, LeasedOut, ReferencesHeld)
            + ClassWeight(s, InQuarantine, ReferencesHeld) == Weight(References, s)
    ensures ClassWeight(s, Collectible, Occurrences) == Weight(RetiredEntries, s)
    ensures ClassWeight(s, InQuarantine, Occurrences) == Weight(QuarantinedEntries, s)
    ensures ClassWeight(s, LeasedOut, Occurrences) == Weight(ActiveLeases, s)
  {
  }

  /**
   * The partition. Whenever a plan is made its four classes account for every occupied slot,
   * the references of the first three for every root and every counted reference, the
   * collectible class for exactly the retired entries, and the receipts for exactly the
   * active leases.
   */
  lemma PlanPartitions(cfg: Config, st: Content, g: CollectionGrant, roots: seq<BlobRef>,
    leases: seq<LeaseReceipt>)
    requires StoreGood(cfg, st.slots) && Plan(cfg, st, g, roots, leases).Success?
    ensures var p := Plan(cfg, st, g, roots, leases).value.0;
            && |p.entries| == 4 && |p.references| == 3
            && p.entries[0] + p.entries[1] + p.entries[2] + p.entries[3]
               == p.occupied == Sum(st.slots, Entries)
            && p.references[0] + p.references[1] + p.references[2]
               == p.rootCount == |roots| == Sum(st.slots, References)
            && p.entries[3] == Sum(st.slots, RetiredEntries)
            && p.entries[1] == p.leaseCount == |leases| == Sum(st.slots, ActiveLeases)
  {
    hide SlotGood, Sum, ClassSum, SlotRoots, CoveredTargets, RootHeld, LeaseHeld, SlotCovered,
      PlanRefused, PlanRoot, Snapshot, WithinBudgets, Decisions;
    ClassesAddUp(cfg.grant, st.slots);
    RootsAddUp(st.slots, roots);
    CoveredReferences(st.slots, roots, leases);
    LeasesAddUp(cfg, st.slots, leases);
    CoveredLeases(st.slots, roots, leases);
  }

  /** The decisions name every occupied slot once, with its own class. */
  lemma {:induction false} DecisionsExact(slots: Slots)
    ensures |Decisions(slots)| == Sum(slots, Entries)
    ensures forall d | d in Decisions(slots) ::
              && d.index < |slots| && slots[d.index].Some?
              && d == DecisionAt(d.index, slots[d.index].value)
    ensures forall i | 0 <= i < |slots| && slots[i].Some? ::
              DecisionAt(i, slots[i].value) in Decisions(slots)
  {
    if slots != [] {
      var n := |slots| - 1;
      DecisionsExact(slots[..n]);
      forall i | 0 <= i < |slots| && slots[i].Some?
        ensures DecisionAt(i, slots[i].value) in Decisions(slots)
      {
        if i < n {
          assert DecisionAt(i, slots[..n][i].value) in Decisions(slots[..n]);
        }
      }
    }
  }
}
