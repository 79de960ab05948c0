/** After any run and any crash, reopening and at most one repair give back a clean journal. */
module OutboxStorageProgress {
  import opened Bytes
  import opened Outbox
  import opened OutboxWire
  import opened OutboxRecovery
  import opened OutboxLaws
  import opened OutboxStorage
  import opened OutboxStorageSteps
  import opened OutboxStorageRuns

  /** None of the digests in a snapshot of `stream` is the zero digest that the code refuses. */
  ghost predicate Nameable(e: Env, stream: Bytes, maximum: nat) {
    var r := Recovered(e.sha, stream, e.header);
    && r.Success? && |stream| <= maximum <= U64_MAX
    && var s := Described(e, stream, maximum, r.value);
       s.committedBytes <= U64_MAX && s.discardedTailBytes <= U64_MAX ==>
         DigestsNonZero(s.(snapshotSha := SnapshotSha(e, s)))
  }

  lemma NameableSnapshot(e: Env, stream: Bytes, maximum: nat)
    requires Nameable(e, stream, maximum) && e.header != ZERO_DIGEST
    ensures ContentSnapshot(e, stream, maximum).Success?
  {
    hide Recovered, SnapshotSha;
    var r := Recovered(e.sha, stream, e.header).value;
    RecoveredBounded(e, stream);
  }

  lemma RecoveredBounded(e: Env, stream: Bytes)
    requires Recovered(e.sha, stream, e.header).Success?
    ensures var r := Recovered(e.sha, stream, e.header).value;
            HEADER_BYTES <= |stream| && r.committedBytes <= |stream|
            && r.discardedTailBytes <= |stream|
  {
    hide DecodeHeader, Committed, Replay, Recovered;
    RecoveredExactly(e.sha, stream, e.header);
    var r := Recovered(e.sha, stream, e.header).value;
    ReportNames(e.sha, r.header, r.records, |stream|);
  }

  /** Reopening a storage that no lease holds: acquire, then one fault-free repair if torn. */
  function Reopen(e: Env, d: Disk): Result<Disk, StoreError>
    requires d.Bounded()
  {
    var lease := AcquireLease(e, d);
    if lease.Failure? then Failure(lease.error)
    else if lease.value.snapshot.status == Clean then Success(AcquireDisk(d))
    else
      var plan := PrepareRepair(e, AcquireDisk(d), lease.value);
      if plan.Failure? then Failure(plan.error)
      else
        var l := lease.value;
        var r := ApplyRepair(e, PrepareRepairDisk(e, AcquireDisk(d), l),
                             l.(state := RepairReady),
                             RepairCapability(l.generation, plan.value), HandleReady);
        if r.error.Some? then Failure(r.error.value) else Success(r.disk)
  }

  /** The non-zero digests that reopening `d` will compute, and a lease generation to spend. */
  ghost predicate Reopenable(e: Env, d: Disk)
    requires d.Bounded()
  {
    && e.header != ZERO_DIGEST && e.epoch != 0
    && d.activeGeneration == 0 && d.nextGeneration <= U64_MAX
    && Nameable(e, d.Stream(), |d.backing|)
    && (Snapshotted(e, d).Success? ==>
          var s := Snapshotted(e, d).value;
          && LeaseDigest(e, s, d.nextGeneration) != ZERO_DIGEST
          && (s.status != Clean ==> PlanNonZero(e, s, d.nextGeneration) && CleanPart(e, d)))
  }

  /** The digest that would bind a lease of this generation to a snapshot. */
  function LeaseDigest(e: Env, s: Snapshot, generation: u64): Digest {
    e.sha(LEASE_BINDING_DOMAIN + LE64(STORE_ABI) + LE64(e.epoch) + LE64(generation)
          + s.snapshotSha)
  }

  /** The plan for a torn snapshot has a digest other than zero. */
  predicate PlanNonZero(e: Env, s: Snapshot, generation: u64) {
    var p := Plan(LeaseDigest(e, s, generation), s.status, s.observedBytes, s.committedBytes,
                  s.discardedTailBytes, s.finalChain, s.stateSha, s.ledgerSha);
    s.committedBytes <= U64_MAX && s.discardedTailBytes <= U64_MAX ==>
      PlanSha(e, p) != ZERO_DIGEST
  }

  /** Binding and planning fail for no other reason than a digest that is zero. */
  lemma BindingSucceeds(e: Env, d: Disk)
    requires Sound(e, d) && Reopenable(e, d) && Snapshotted(e, d).Success?
    ensures var s := Snapshotted(e, d).value;
            var g := d.nextGeneration;
            && LeaseSha(e, s, g) == Success(LeaseDigest(e, s, g))
            && (s.status != Clean ==>
                  MakeRepairPlan(e, Lease(g, s, LeaseDigest(e, s, g), LeaseReady)).Success?)
  {
    hide Recovered, ContentSnapshot, Nameable, CleanPart, WholeRecords, PlanSha;
    SnapshotMeans(e, d.Stream(), |d.backing|);
  }

  ghost predicate CleanPart(e: Env, d: Disk) {
    && HEADER_BYTES <= d.length && Boundary(WholeRecords(d.length)) <= |d.backing|
    && Nameable(e, d.backing[..Boundary(WholeRecords(d.length))], |d.backing|)
  }

  lemma AcquireSucceeds(e: Env, d: Disk)
    requires Sound(e, d) && Reopenable(e, d)
    ensures AcquireLease(e, d).Success?
    ensures var l := AcquireLease(e, d).value;
            var d1 := AcquireDisk(d);
            && Sound(e, d1) && d1.Stream() == d.Stream() && d1.fault.None?
            && Snapshotted(e, d1) == Success(l.snapshot) == Snapshotted(e, d)
            && l.generation == d.nextGeneration && Active(d1, l.generation)
            && l.state == LeaseReady
            && LeaseSha(e, l.snapshot, d.nextGeneration) == Success(l.leaseSha)
    ensures AcquireLease(e, d).value.snapshot.status == Clean ==>
              MayMint(e, AcquireDisk(d), AcquireLease(e, d).value)
  {
    hide Recovered, ContentSnapshot, WholeRecords, MakeRepairPlan, LeaseSha, Nameable, LeaseDigest,
      PlanNonZero;
    NameableSnapshot(e, d.Stream(), |d.backing|);
    BindingSucceeds(e, d);
    assert AcquireDisk(d).Stream() == d.Stream();
  }

  /** A planned repair of a torn stream, with no fault and no zero digest, runs to its end. */
  lemma RepairSucceeds(e: Env, d: Disk, l: Lease)
    requires Sound(e, d) && Torn(e, d, l) && Active(d, l.generation) && d.fault.None?
    requires l.state == LeaseReady && d.phase == BodyWrite
    requires MakeRepairPlan(e, l).Success? && CleanPart(e, d) && e.header != ZERO_DIGEST
    ensures PrepareRepair(e, d, l).Success?
    ensures var plan := PrepareRepair(e, d, l).value;
            var d1 := PrepareRepairDisk(e, d, l);
            var c := RepairCapability(l.generation, plan);
            var r := ApplyRepair(e, d1, l.(state := RepairReady), c, HandleReady);
            r.error.None? && TailDropped(d, r) && Keeps(e, d, r.disk)
  {
    hide Recovered, ContentSnapshot, WholeRecords, MakeRepairPlan, Nameable, TruncateIo, SyncIo;
    TornTail(e, d, l);
    PrepareRepairKeeps(e, d, l);
    PlanNames(e, l);
    var d1 := PrepareRepairDisk(e, d, l);
    var plan := PrepareRepair(e, d, l).value;
    var ready := l.(state := RepairReady);
    var c := RepairCapability(l.generation, plan);
    PlanIgnoresState(e, l, ready);
    ApplyRepairKeeps(e, d1, ready, c, HandleReady);
    KeepsTransitive(e, d, d1, ApplyRepair(e, d1, ready, c, HandleReady).disk);
    RepairReturns(e, d1, ready, c, HandleReady);
    TruncatePhase(d1, l.generation, plan.committedBytes);
    var t := TruncateIo(d1, l.generation, plan.committedBytes).disk;
    TruncateKeeps(e, d1, l.generation, plan.committedBytes);
    SyncErrors(t, l.generation, RepairSync, BodyWrite);
    SyncKeeps(e, t, l.generation, RepairSync, BodyWrite);
    var s := SyncIo(t, l.generation, RepairSync, BodyWrite).disk;
    assert s.Stream() == d.backing[..plan.committedBytes];
    NameableSnapshot(e, s.Stream(), |d.backing|);
    TruncatedMatches(e, d1, ready, s, plan);
  }

  lemma PlanIgnoresState(e: Env, l: Lease, ready: Lease)
    requires ready == l.(state := RepairReady)
    ensures MakeRepairPlan(e, ready) == MakeRepairPlan(e, l)
  {
  }

  /** The journal that reopening must give back: what was there, without the torn tail. */
  ghost predicate ReopenedClean(e: Env, d: Disk, after: Disk)
    requires d.Bounded()
  {
    && after.Bounded() && after.length <= d.length
    && after.Stream() == d.Stream()[..after.length]
    && Recovered(e.sha, d.Stream(), e.header).Success?
    && Recovered(e.sha, after.Stream(), e.header)
       == Success(Recovered(e.sha, d.Stream(), e.header).value.(status := Clean,
                                                                discardedTailBytes := 0))
  }

  lemma ReopenSucceeds(e: Env, d: Disk)
    requires Sound(e, d) && Reopenable(e, d)
    ensures Reopen(e, d).Success? && ReopenedClean(e, d, Reopen(e, d).value)
    ensures Keeps(e, d, Reopen(e, d).value)
  {
    hide Recovered, ContentSnapshot, WholeRecords, MakeRepairPlan, LeaseSha, Nameable,
      ApplyRepair, PrepareRepair, PrepareRepairDisk, Sound, Keeps;
    SoundMeans(e, d);
    AcquireSucceeds(e, d);
    var l, d1 := AcquireLease(e, d).value, AcquireDisk(d);
    SnapshotMeans(e, d.Stream(), |d.backing|);
    KeepsSame(e, d, d1);
    if l.snapshot.status == Clean {
      CleanAsIs(e, d, d1);
    } else {
      BindingSucceeds(e, d);
      RepairSucceeds(e, d1, l);
      TornTailDropped(e.sha, d.Stream(), e.header);
      KeepsTransitive(e, d, d1, Reopen(e, d).value);
    }
  }

  lemma SoundMeans(e: Env, d: Disk)
    requires Sound(e, d)
    ensures d.Bounded() && Recovered(e.sha, d.Stream(), e.header).Success?
    ensures d.activeGeneration < d.nextGeneration
  {
  }

  lemma CleanAsIs(e: Env, d: Disk, after: Disk)
    requires d.Bounded() && Recovered(e.sha, d.Stream(), e.header).Success?
    requires Recovered(e.sha, d.Stream(), e.header).value.status == Clean
    requires after.Bounded() && after.Stream() == d.Stream()
    ensures ReopenedClean(e, d, after)
  {
    hide Recovered, DecodeHeader, Committed, Replay;
    var b := d.Stream();
    RecoveredExactly(e.sha, b, e.header);
    var r := Recovered(e.sha, b, e.header).value;
    ReportNames(e.sha, r.header, r.records, |b|);
    assert r == r.(status := Clean, discardedTailBytes := 0);
    assert b == b[..after.length];
  }

  /**
   * Recovery always progresses. After any run, a crash at any persistence point within the
   * bounds leaves a stream that recovers to a prefix of the journal with every durable record;
   * acquiring succeeds, and at most one fault-free repair yields the same records, chain,
   * states and ledger with nothing torn behind them.
   */
  lemma RecoveryProgresses(e: Env, s: Sys, actions: seq<Action>, p: nat)
    requires Good(e, s)
    requires var d := Run(e, s, actions).disk;
             CrashLower(d) <= p <= CrashUpper(d)
             && Reopenable(e, CrashPersist(d, p))
    ensures var d := Run(e, s, actions).disk;
            var crashed := CrashPersist(d, p);
            var before := Recovered(e.sha, d.Stream(), e.header);
            var reopened := Reopen(e, crashed);
            && reopened.Success? && ReopenedClean(e, crashed, reopened.value)
            && Keeps(e, d, reopened.value)
            && Durable(d) <= WholeRecords(p) <= |before.value.records|
            && Recovered(e.sha, reopened.value.Stream(), e.header).value.records
               == before.value.records[..WholeRecords(p)]
  {
    hide Recovered, WholeRecords, Good, Sound, Keeps, Reopen, CrashPersist, Reopenable;
    var d := Run(e, s, actions).disk;
    GoodMeans(e, Run(e, s, actions));
    CrashKeeps(e, d, p);
    KeepsSound(e, d, CrashPersist(d, p));
    ReopenSucceeds(e, CrashPersist(d, p));
    SoundMeans(e, CrashPersist(d, p));
    KeepsTransitive(e, d, CrashPersist(d, p), Reopen(e, CrashPersist(d, p)).value);
  }
}
