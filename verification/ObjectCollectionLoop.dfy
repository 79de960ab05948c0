/** Planning a collection step by step: per-slot tallies of roots and leases, then one scan. */
module ObjectCollectionLoop {
  import opened Bytes
  import opened ObjectStore
  import opened ObjectStoreReclaim
  import opened ObjectStoreClass
  import opened ObjectCollection

  /** The per-slot root tally after some roots. */
  ghost predicate Tallied(slots: Slots, roots: seq<BlobRef>, perSlot: seq<nat>) {
    && |perSlot| == |slots|
    && forall i | 0 <= i < |slots| && slots[i].Some? ::
         perSlot[i] == RootCount(roots, slots[i].value.blob)
  }

  lemma TallyMore(slots: Slots, roots: seq<BlobRef>, root: BlobRef, perSlot: seq<nat>, i: nat)
    requires Unique(slots) && Tallied(slots, roots, perSlot) && Find(slots, root) == Some(i)
    requires i < |slots|
    ensures Tallied(slots, roots + [root], perSlot[i := perSlot[i] + 1])
  {
    hide FindFrom;
    var all := roots + [root];
    assert all[..|roots|] == roots;
    assert Holds(slots[i], root);
    forall k | 0 <= k < |slots| && slots[k].Some?
      ensures perSlot[i := perSlot[i] + 1][k] == RootCount(all, slots[k].value.blob)
    {
      if slots[k].value.blob == root {
        FoundUnique(slots, root, k);
      }
    }
  }

  lemma NoneTallied(slots: Slots, roots: seq<BlobRef>, perSlot: seq<nat>)
    requires |perSlot| == |slots| && forall i | 0 <= i < |slots| :: perSlot[i] == 0
    ensures Tallied(slots, roots[..0], perSlot)
  {
  }

  /** Counting the roots of every slot; nothing if a root is unknown or retired. */
  method TallyRoots(store: Store, roots: seq<BlobRef>) returns (r: Option<seq<nat>>)
    requires Unique(store.slots)
    ensures r.Some? <==> forall k | 0 <= k < |roots| :: RootHeld(store.slots, roots[k])
    ensures r.Some? ==> Tallied(store.slots, roots, r.value)
  {
    hide FindFrom, Unique, Tallied, RootCount;
    var perSlot := new nat[|store.slots|](_ => 0);
    var k := 0;
    NoneTallied(store.slots, roots, perSlot[..]);
    while k < |roots|
      invariant 0 <= k <= |roots|
      invariant forall j | 0 <= j < k :: RootHeld(store.slots, roots[j])
      invariant Tallied(store.slots, roots[..k], perSlot[..])
    {
      var index := store.Locate(roots[k]);
      if index.None? || store.slots[index.value].value.state == SlotRetired {
        assert !RootHeld(store.slots, roots[k]);
        return None;
      }
      assert RootHeld(store.slots, roots[k]);
      TallyMore(store.slots, roots[..k], roots[k], perSlot[..], index.value);
      assert roots[..k + 1] == roots[..k] + [roots[k]];
      ghost var before := perSlot[..];
      perSlot[index.value] := perSlot[index.value] + 1;
      assert perSlot[..] == before[index.value := before[index.value] + 1];
      k := k + 1;
    }
    assert roots[..k] == roots;
    return Some(perSlot[..]);
  }

  ghost predicate Marked(slots: Slots, leases: seq<LeaseReceipt>, perSlot: seq<bool>) {
    && |perSlot| == |slots|
    && forall i | 0 <= i < |slots| && slots[i].Some? ::
         perSlot[i] <==> Covers(leases, slots[i].value.blob)
  }

  lemma MarkMore(slots: Slots, leases: seq<LeaseReceipt>, r: LeaseReceipt, perSlot: seq<bool>,
    i: nat)
    requires Unique(slots) && Marked(slots, leases, perSlot)
    requires Find(slots, r.target) == Some(i) && i < |slots|
    ensures Marked(slots, leases + [r], perSlot[i := true])
  {
    hide FindFrom, Covers;
    assert Holds(slots[i], r.target);
    forall k | 0 <= k < |slots| && slots[k].Some?
      ensures perSlot[i := true][k] <==> Covers(leases + [r], slots[k].value.blob)
    {
      CoversMore(leases, r, slots[k].value.blob);
      if slots[k].value.blob == r.target {
        FoundUnique(slots, r.target, k);
      }
    }
  }

  lemma DistinctMore(leases: seq<LeaseReceipt>, k: nat)
    requires k < |leases| && LeasesDistinct(leases[..k])
    ensures LeasesDistinct(leases[..k + 1]) <==> !Covers(leases[..k], leases[k].target)
    ensures Covers(leases[..k], leases[k].target) ==> !LeasesDistinct(leases)
  {
    var before, all := leases[..k], leases[..k + 1];
    if Covers(before, leases[k].target) {
      var j :| 0 <= j < k && before[j].target == leases[k].target;
      assert all[j].target == all[k].target && leases[j].target == leases[k].target;
    } else {
      forall i, j | 0 <= i < j < |all| ensures all[i].target != all[j].target {
        assert all[i] == before[i];
        if j < k {
          assert all[j] == before[j];
        }
      }
    }
  }

  /** Marking the slot of every receipt; nothing if one is unknown, stale or doubled. */
  method MarkLeases(store: Store, leases: seq<LeaseReceipt>) returns (r: Option<seq<bool>>)
    requires Unique(store.slots)
    ensures r.Some? <==>
              && (forall k | 0 <= k < |leases| :: LeaseHeld(store.cfg, store.slots, leases[k]))
              && LeasesDistinct(leases)
    ensures r.Some? ==> Marked(store.slots, leases, r.value)
  {
    hide FindFrom, Unique, LeaseRoot, LeasesDistinct, Covers;
    var perSlot := new bool[|store.slots|](_ => false);
    var k := 0;
    NoneMarked(store.slots, leases, perSlot[..]);
    while k < |leases|
      invariant 0 <= k <= |leases|
      invariant forall j | 0 <= j < k :: LeaseHeld(store.cfg, store.slots, leases[j])
      invariant LeasesDistinct(leases[..k])
      invariant Marked(store.slots, leases[..k], perSlot[..])
    {
      var index := store.Locate(leases[k].target);
      if index.None? {
        assert !LeaseHeld(store.cfg, store.slots, leases[k]);
        return None;
      }
      DistinctMore(leases, k);
      if perSlot[index.value] {
        return None;
      }
      var s := store.slots[index.value].value;
      if !s.lease.active || LeaseRoot(store.cfg, leases[k]) != leases[k].leaseSha
         || leases[k].generation != s.lease.generation
         || leases[k].leaseSha != s.lease.receipt {
        assert !LeaseHeld(store.cfg, store.slots, leases[k]);
        return None;
      }
      assert LeaseHeld(store.cfg, store.slots, leases[k]);
      MarkMore(store.slots, leases[..k], leases[k], perSlot[..], index.value);
      assert leases[..k + 1] == leases[..k] + [leases[k]];
      ghost var before := perSlot[..];
      perSlot[index.value] := true;
      assert perSlot[..] == before[index.value := true];
      k := k + 1;
    }
    assert leases[..k] == leases;
    return Some(perSlot[..]);
  }

  lemma NoneMarked(slots: Slots, leases: seq<LeaseReceipt>, perSlot: seq<bool>)
    requires |perSlot| == |slots| && forall i | 0 <= i < |slots| :: !perSlot[i]
    ensures Marked(slots, leases[..0], perSlot) && LeasesDistinct(leases[..0])
  {
  }

  /** The test the scan makes of one slot, in terms of the tallies. */
  lemma SlotTest(s: Slot, roots: seq<BlobRef>, leases: seq<LeaseReceipt>, rootsHere: nat,
    leaseHere: bool)
    requires rootsHere == RootCount(roots, s.blob) && (leaseHere <==> Covers(leases, s.blob))
    requires s.state == SlotRetired ==> rootsHere == 0
    ensures SlotCovered(s, roots, leases)
            <==> && (if s.state == SlotRetired then
                       s.references == 0 && !leaseHere && !s.lease.active
                     else rootsHere == s.references)
                 && s.lease.active == leaseHere
  {
    hide RootCount, Covers;
  }

  lemma {:induction false} RetiredUnrooted(slots: Slots, roots: seq<BlobRef>, i: nat)
    requires Unique(slots) && i < |slots| && slots[i].Some?
    requires slots[i].value.state == SlotRetired
    requires forall k | 0 <= k < |roots| :: RootHeld(slots, roots[k])
    ensures RootCount(roots, slots[i].value.blob) == 0
  {
    hide FindFrom;
    if roots != [] {
      var n := |roots| - 1;
      RetiredUnrooted(slots, roots[..n], i);
      assert RootHeld(slots, roots[n]);
      if roots[n] == slots[i].value.blob {
        FoundUnique(slots, roots[n], i);
      }
    }
  }

  lemma ClassStep(slots: Slots, i: nat)
    requires i < |slots|
    ensures forall c, m {:trigger ClassSum(slots[..i + 1], c, m)} ::
              ClassSum(slots[..i + 1], c, m)
              == ClassSum(slots[..i], c, m) + ClassWeight(slots[i], c, m)
    ensures Decisions(slots[..i + 1])
            == Decisions(slots[..i])
               + if slots[i].Some? then [DecisionAt(i, slots[i].value)] else []
  {
    hide ClassWeight;
    assert slots[..i + 1][..i] == slots[..i];
  }

  lemma NothingClassed(slots: Slots)
    ensures forall c, m {:trigger ClassSum(slots[..0], c, m)} :: ClassSum(slots[..0], c, m) == 0
    ensures Decisions(slots[..0]) == []
  {
  }

  datatype Scan = Scan(
    entries: seq<nat>, references: seq<nat>, collectibleBytes: nat, decisions: seq<Decision>)

  predicate ScanOf(slots: Slots, s: Scan) {
    && s.entries
       == [ClassSum(slots, Reachable, Occurrences), ClassSum(slots, LeasedOut, Occurrences),
           ClassSum(slots, InQuarantine, Occurrences), ClassSum(slots, Collectible, Occurrences)]
    && s.references
       == [ClassSum(slots, Reachable, ReferencesHeld), ClassSum(slots, LeasedOut, ReferencesHeld),
           ClassSum(slots, InQuarantine, ReferencesHeld)]
    && s.collectibleBytes == ClassSum(slots, Collectible, BytesHeld)
    && s.decisions == Decisions(slots)
  }

  lemma SlotAdds(s: Slot)
    ensures forall c, m {:trigger ClassWeight(Some(s), c, m)} ::
              ClassWeight(Some(s), c, m) == if c == ClassOf(s) then Measured(s, m) else 0
  {
  }

  /** One class counter up, and with it the references or bytes of the slot. */
  function ScanMore(scan: Scan, i: nat, s: Slot): Scan
    requires |scan.entries| == 4 && |scan.references| == 3
  {
    var k := ClassCode(ClassOf(s)) - 1;
    var counted := scan.(entries := scan.entries[k := scan.entries[k] + 1],
                         decisions := scan.decisions + [DecisionAt(i, s)]);
    if k == 3 then counted.(collectibleBytes := scan.collectibleBytes + s.blob.byteLength)
    else counted.(references := scan.references[k := scan.references[k] + s.references])
  }

  lemma ScanStep(slots: Slots, i: nat, scan: Scan)
    requires i < |slots| && ScanOf(slots[..i], scan)
    ensures ScanOf(slots[..i + 1],
                   if slots[i].Some? then ScanMore(scan, i, slots[i].value) else scan)
  {
    hide ClassSum, Decisions;
    ClassStep(slots, i);
    if slots[i].Some? {
      SlotAdds(slots[i].value);
    }
  }

  /** The scan over all slots: counts and decisions, unless some slot is not covered. */
  method ScanSlots(store: Store, ghost roots: seq<BlobRef>, ghost leases: seq<LeaseReceipt>,
    rootsPer: seq<nat>, leasePer: seq<bool>) returns (r: Option<Scan>)
    requires Unique(store.slots)
    requires Tallied(store.slots, roots, rootsPer) && Marked(store.slots, leases, leasePer)
    requires forall k | 0 <= k < |roots| :: RootHeld(store.slots, roots[k])
    ensures r.Some? <==>
              forall i | 0 <= i < |store.slots| && store.slots[i].Some? ::
                SlotCovered(store.slots[i].value, roots, leases)
    ensures r.Some? ==> ScanOf(store.slots, r.value)
  {
    hide Unique, ClassSum, Decisions, SlotCovered, RootHeld;
    var slots := store.slots;
    var scan := Scan([0, 0, 0, 0], [0, 0, 0], 0, []);
    NothingClassed(slots);
    var i := 0;
    while i < |slots|
      invariant 0 <= i <= |slots|
      invariant forall k | 0 <= k < i && slots[k].Some? ::
                  SlotCovered(slots[k].value, roots, leases)
      invariant ScanOf(slots[..i], scan)
    {
      ScanStep(slots, i, scan);
      if slots[i].Some? {
        var s := slots[i].value;
        if s.state == SlotRetired {
          RetiredUnrooted(slots, roots, i);
        }
        SlotTest(s, roots, leases, rootsPer[i], leasePer[i]);
        if s.state == SlotRetired {
          if rootsPer[i] != 0 || s.references != 0 || leasePer[i] || s.lease.active {
            return None;
          }
        } else if rootsPer[i] != s.references {
          return None;
        }
        if s.lease.active != leasePer[i] {
          return None;
        }
        scan := ScanMore(scan, i, s);
      }
      i := i + 1;
    }
    assert slots[..i] == slots;
    return Some(scan);
  }

  /** Planning on the mutable store answers exactly as the specification does. */
  method PlanCollection(store: Store, g: CollectionGrant, roots: seq<BlobRef>,
    leases: seq<LeaseReceipt>)
    returns (r: Result<(PlanReceipt, seq<Decision>), PlanError>)
    requires store.Valid()
    ensures r == Plan(store.cfg, store.View(), g, roots, leases)
  {
    hide StoreGood, Sum, ClassSum, Decisions, Snapshot, PlanRoot, LeasesRoot, RootsRoot,
      CanonicalLeases, CanonicalRoots, Audit, Unique, LeaseHeld, RootHeld, LeasesDistinct,
      SlotCovered, GrantRoot, CollectionGrantRoot;
    if !ValidCollectionGrant(g) {
      return Failure(InvalidPlanGrant);
    }
    if store.closed {
      return Failure(PlanClosed);
    }
    if g.epoch != store.cfg.grant.epoch || g.tenant != store.cfg.grant.tenant
       || g.bundle != store.cfg.grant.bundle || g.storeGrant != store.grantSha {
      return Failure(PlanScopeMismatch);
    }
    CapacityIs(store.cfg, store.slots);
    if |roots| > g.maxRoots || |leases| > g.maxLeases || store.cfg.capacity > g.maxScans {
      return Failure(PlanBudget);
    }
    var audit := store.AuditSnapshot();
    if audit.Failure? {
      return Failure(AuditFailed);
    }
    if audit.value != g.expectedSnapshot {
      return Failure(PlanSnapshotMismatch);
    }
    if !CanonicalRoots(roots) || !CanonicalLeases(store.cfg, leases) {
      return Failure(Noncanonical);
    }
    AuditIs(store.cfg, store.View());
    GoodUnique(store.cfg, store.slots);
    var rootsPer := TallyRoots(store, roots);
    if rootsPer.None? {
      return Failure(CoverageMismatch);
    }
    var leasePer := MarkLeases(store, leases);
    if leasePer.None? {
      return Failure(CoverageMismatch);
    }
    var scan := ScanSlots(store, roots, leases, rootsPer.value, leasePer.value);
    if scan.None? {
      return Failure(CoverageMismatch);
    }
    if scan.value.entries[3] > g.maxCollectibleEntries
       || scan.value.collectibleBytes > g.maxCollectibleBytes {
      return Failure(PlanBudget);
    }
    assert store.entryCount == store.Count(Entries);
    var p := PlanReceipt(CollectionGrantRoot(store.cfg, g), audit.value,
                         RootsRoot(store.cfg, roots), LeasesRoot(store.cfg, leases),
                         store.entryCount, |roots|, |leases|, scan.value.entries,
                         scan.value.references, scan.value.collectibleBytes, ZERO_DIGEST);
    return Success((p.(planSha := PlanRoot(store.cfg, p, scan.value.decisions)),
                    scan.value.decisions));
  }

  lemma CapacityIs(cfg: Config, slots: Slots)
    requires StoreGood(cfg, slots)
    ensures |slots| == cfg.capacity
  {
  }
}
