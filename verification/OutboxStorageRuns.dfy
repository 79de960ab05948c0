/**
 * Whole runs of the storage. Every handle ever made stays usable, however stale; any call may
 * fault; a crash may keep any byte count within its bounds; a lease may be released after a
 * fault without a crash.
 */
module OutboxStorageRuns {
  import opened Bytes
  import opened Outbox
  import opened OutboxWire
  import opened OutboxRecovery
  import opened OutboxStorage
  import opened OutboxStorageSteps

  datatype AppendHandle = AppendHandle(lease: nat, capability: AppendCapability)
  datatype WriterHandle = WriterHandle(append: nat, writer: Writer)
  datatype RepairHandle = RepairHandle(lease: nat, capability: RepairCapability)
  datatype RepairerHandle = RepairerHandle(repair: nat, state: HandleState)

  /** The disk and every handle made so far; handles name each other by position. */
  datatype Sys = Sys(
    disk: Disk, leases: seq<Lease>, appends: seq<AppendHandle>, writers: seq<WriterHandle>,
    repairs: seq<RepairHandle>, repairers: seq<RepairerHandle>)

  datatype Action =
    | Acquire
    | Release(lease: nat)
    | Inject(fault: Option<Fault>)
    | Crash(persisted: nat)
    | Mint(lease: nat)
    | OpenWriter(append: nat, header: Header)
    | Append(writer: nat, encoded: Bytes)
    | Prepare(lease: nat)
    | OpenRepairer(repair: nat)
    | Repair(repairer: nat)

  /** Opening a storage on content that already recovers, torn or not. */
  function Start(e: Env, initial: Bytes, maximum: nat): (r: Result<Sys, StoreError>)
  {
    var snapshot := ContentSnapshot(e, initial, maximum);
    if e.epoch == 0 then Failure(InvalidContent)
    else if snapshot.Failure? then Failure(snapshot.error)
    else
      SnapshotMeans(e, initial, maximum);
      Success(Sys(NewDisk(initial, maximum), [], [], [], [], []))
  }

  // ---------------------------------------------------------------------------------------
  // Steps
  // ---------------------------------------------------------------------------------------

  ghost predicate Linked(s: Sys) {
    && s.disk.Bounded()
    && (forall i | 0 <= i < |s.appends| :: s.appends[i].lease < |s.leases|)
    && (forall i | 0 <= i < |s.writers| :: s.writers[i].append < |s.appends|)
    && (forall i | 0 <= i < |s.repairs| :: s.repairs[i].lease < |s.leases|)
    && (forall i | 0 <= i < |s.repairers| :: s.repairers[i].repair < |s.repairs|)
  }

  function AcquireStep(e: Env, s: Sys): Sys
    requires Linked(s)
  {
    var lease := AcquireLease(e, s.disk);
    s.(disk := AcquireDisk(s.disk),
       leases := if lease.Success? then s.leases + [lease.value] else s.leases)
  }

  function ReleaseStep(s: Sys, i: nat): Sys
    requires i < |s.leases|
  {
    s.(disk := ReleaseDisk(s.disk, s.leases[i]),
       leases := s.leases[i := ReleaseLease(s.disk, s.leases[i])])
  }

  function MintStep(e: Env, s: Sys, i: nat): Sys
    requires Linked(s) && i < |s.leases|
  {
    var l := s.leases[i];
    if !MayMint(e, s.disk, l) then s
    else
      s.(disk := MintDisk(e, s.disk, l),
         appends := s.appends
                    + [AppendHandle(i, AppendCapability(l.generation, l.snapshot.snapshotSha))])
  }

  /** What one append call returns, through the handles that the writer names. */
  function AppendOutcome(e: Env, s: Sys, i: nat, encoded: Bytes): (r: Appended)
    requires Linked(s) && i < |s.writers|
    ensures r.disk.Bounded()
  {
    var handle := s.appends[s.writers[i].append];
    AppendRecord(e, s.disk, s.leases[handle.lease], handle.capability, s.writers[i].writer,
                 encoded)
  }

  function AppendStep(e: Env, s: Sys, i: nat, encoded: Bytes): Sys
    requires Linked(s) && i < |s.writers|
  {
    var a := s.writers[i].append;
    var handle := s.appends[a];
    var r := AppendOutcome(e, s, i, encoded);
    s.(disk := r.disk, leases := s.leases[handle.lease := r.lease],
       appends := s.appends[a := handle.(capability := r.capability)],
       writers := s.writers[i := s.writers[i].(writer := r.writer)])
  }

  function PrepareStep(e: Env, s: Sys, i: nat): Sys
    requires Linked(s) && i < |s.leases|
  {
    var l := s.leases[i];
    var plan := PrepareRepair(e, s.disk, l);
    if plan.Failure? then s
    else
      s.(disk := PrepareRepairDisk(e, s.disk, l),
         leases := s.leases[i := l.(state := RepairReady)],
         repairs := s.repairs + [RepairHandle(i, RepairCapability(l.generation, plan.value))])
  }

  function RepairOutcome(e: Env, s: Sys, i: nat): Repaired
    requires Linked(s) && i < |s.repairers|
  {
    var handle := s.repairs[s.repairers[i].repair];
    ApplyRepair(e, s.disk, s.leases[handle.lease], handle.capability, s.repairers[i].state)
  }

  function RepairStep(e: Env, s: Sys, i: nat): Sys
    requires Linked(s) && i < |s.repairers|
  {
    var handle := s.repairs[s.repairers[i].repair];
    var r := RepairOutcome(e, s, i);
    s.(disk := r.disk, leases := s.leases[handle.lease := r.lease],
       repairers := s.repairers[i := s.repairers[i].(state := r.repairer)])
  }

  /** One action; an action on a handle that was never made changes nothing. */
  function Step(e: Env, s: Sys, a: Action): Sys
    requires Linked(s)
  {
    match a
    case Acquire => AcquireStep(e, s)
    case Release(i) => if i < |s.leases| then ReleaseStep(s, i) else s
    case Inject(fault) => s.(disk := SetFault(s.disk, fault))
    case Crash(p) => s.(disk := CrashPersist(s.disk, p))
    case Mint(i) => if i < |s.leases| then MintStep(e, s, i) else s
    case OpenWriter(i, header) =>
      if i < |s.appends| then
        s.(writers := s.writers + [WriterHandle(i, Writer(header, HandleReady))])
      else s
    case Append(i, encoded) => if i < |s.writers| then AppendStep(e, s, i, encoded) else s
    case Prepare(i) => if i < |s.leases| then PrepareStep(e, s, i) else s
    case OpenRepairer(i) =>
      if i < |s.repairs| then s.(repairers := s.repairers + [RepairerHandle(i, HandleReady)])
      else s
    case Repair(i) => if i < |s.repairers| then RepairStep(e, s, i) else s
  }

  // ---------------------------------------------------------------------------------------
  // What every step keeps
  // ---------------------------------------------------------------------------------------

  ghost predicate LeaseGood(e: Env, d: Disk, l: Lease)
    requires d.Bounded()
  {
    && l.generation < d.nextGeneration
    && (l.generation == 0 ==> l.state == LeaseClosed)
    && (MayPlan(d, l) ==> Torn(e, d, l))
  }

  /** The open lease of a torn stream that no repair has touched yet. */
  predicate MayPlan(d: Disk, l: Lease) {
    && Active(d, l.generation) && l.snapshot.status != Clean
    && (l.state == LeaseReady || d.phase == RepairTruncate)
  }

  /** While its lease is open an append capability belongs to a clean lease. */
  predicate AppendGood(leases: seq<Lease>, a: AppendHandle) {
    && a.lease < |leases|
    && var l := leases[a.lease];
       l.generation == 0 || (l.generation == a.capability.generation
                             && l.snapshot.status == Clean)
  }

  /** While its lease is open a repair capability holds the plan of its torn lease. */
  ghost predicate RepairGood(e: Env, leases: seq<Lease>, r: RepairHandle) {
    && r.lease < |leases|
    && var l := leases[r.lease];
       l.generation == 0 || (l.generation == r.capability.generation
                             && l.snapshot.status != Clean
                             && MakeRepairPlan(e, l) == Success(r.capability.plan))
  }

  ghost predicate Fenced(leases: seq<Lease>) {
    forall i, j | 0 <= i < j < |leases| ::
      leases[i].generation == 0 || leases[i].generation != leases[j].generation
  }

  ghost predicate Good(e: Env, s: Sys) {
    && Linked(s) && Sound(e, s.disk) && e.header != ZERO_DIGEST && Fenced(s.leases)
    && (forall i | 0 <= i < |s.leases| :: LeaseGood(e, s.disk, s.leases[i]))
    && (forall i | 0 <= i < |s.appends| :: AppendGood(s.leases, s.appends[i]))
    && (forall i | 0 <= i < |s.repairs| :: RepairGood(e, s.leases, s.repairs[i]))
  }

  lemma StartGood(e: Env, initial: Bytes, maximum: nat)
    requires Start(e, initial, maximum).Success?
    ensures var s := Start(e, initial, maximum).value;
            Good(e, s) && s.disk.Stream() == initial && Durable(s.disk) == WholeRecords(|initial|)
  {
    hide Recovered, WholeRecords, SnapshotSha;
    SnapshotMeans(e, initial, maximum);
    var s := Start(e, initial, maximum).value;
    assert s.disk.Stream() == initial;
    BoundaryOf(|initial|);
  }

  lemma AcquireGood(e: Env, s: Sys)
    requires Good(e, s)
    ensures Good(e, AcquireStep(e, s)) && Keeps(e, s.disk, AcquireStep(e, s).disk)
  {
    hide Recovered, ContentSnapshot, WholeRecords, MakeRepairPlan, LeaseSha;
    var after := AcquireStep(e, s);
    KeepsSame(e, s.disk, after.disk);
    assert after.disk.Stream() == s.disk.Stream();
    forall i | 0 <= i < |after.leases| ensures LeaseGood(e, after.disk, after.leases[i]) {
      if i < |s.leases| {
        assert LeaseGood(e, s.disk, s.leases[i]);
      }
    }
    forall i | 0 <= i < |s.leases| ensures s.leases[i].generation < s.disk.nextGeneration {
      assert LeaseGood(e, s.disk, s.leases[i]);
    }
    forall i | 0 <= i < |s.appends| ensures AppendGood(after.leases, after.appends[i]) {
      assert AppendGood(s.leases, s.appends[i]);
    }
    forall i | 0 <= i < |s.repairs| ensures RepairGood(e, after.leases, after.repairs[i]) {
      assert RepairGood(e, s.leases, s.repairs[i]);
    }
  }

  /** Replacing one lease is harmless when its new form keeps what the handles on it need. */
  lemma LeaseReplaced(e: Env, s: Sys, d: Disk, i: nat, l: Lease)
    requires Good(e, s) && i < |s.leases| && d.Bounded()
    requires l.generation == 0 || l.generation == s.leases[i].generation
    requires d.nextGeneration == s.disk.nextGeneration
    requires LeaseGood(e, d, l)
    requires forall k | 0 <= k < |s.leases| && k != i ::
               LeaseGood(e, d, s.leases[k])
    requires l.generation != 0 ==>
               || (l.snapshot == s.leases[i].snapshot && l.leaseSha == s.leases[i].leaseSha)
               || (s.leases[i].snapshot.status == Clean && l.snapshot.status == Clean)
    ensures Fenced(s.leases[i := l])
    ensures var leases := s.leases[i := l];
            forall k | 0 <= k < |leases| :: LeaseGood(e, d, leases[k])
    ensures forall k | 0 <= k < |s.appends| :: AppendGood(s.leases[i := l], s.appends[k])
    ensures forall k | 0 <= k < |s.repairs| :: RepairGood(e, s.leases[i := l], s.repairs[k])
  {
    hide Recovered, ContentSnapshot, WholeRecords, Sound;
    forall k | 0 <= k < |s.appends| ensures AppendGood(s.leases[i := l], s.appends[k]) {
      assert AppendGood(s.leases, s.appends[k]);
    }
    forall k | 0 <= k < |s.repairs| ensures RepairGood(e, s.leases[i := l], s.repairs[k]) {
      assert RepairGood(e, s.leases, s.repairs[k]);
    }
  }

  lemma ReleaseGood(e: Env, s: Sys, i: nat)
    requires Good(e, s) && i < |s.leases|
    ensures Good(e, ReleaseStep(s, i)) && Keeps(e, s.disk, ReleaseStep(s, i).disk)
  {
    hide Recovered, ContentSnapshot, WholeRecords, MakeRepairPlan;
    var after := ReleaseStep(s, i);
    KeepsSame(e, s.disk, after.disk);
    assert LeaseGood(e, s.disk, s.leases[i]);
    LeasesUnmoved(e, s.disk, after.disk, s.leases);
    LeaseReplaced(e, s, after.disk, i, after.leases[i]);
  }

  /** Leases stay good while none is active, or while the stream and the phase stay put. */
  lemma LeasesUnmoved(e: Env, d: Disk, after: Disk, leases: seq<Lease>)
    requires d.Bounded() && after.Bounded() && after.nextGeneration == d.nextGeneration
    requires forall i | 0 <= i < |leases| :: LeaseGood(e, d, leases[i])
    requires || after.activeGeneration == 0
             || (after.activeGeneration == d.activeGeneration && after.phase == d.phase
                 && after.Stream() == d.Stream() && |after.backing| == |d.backing|)
    ensures forall i | 0 <= i < |leases| :: LeaseGood(e, after, leases[i])
  {
    hide Recovered, ContentSnapshot;
    forall i | 0 <= i < |leases| ensures LeaseGood(e, after, leases[i]) {
      assert LeaseGood(e, d, leases[i]);
    }
  }

  lemma DiskOnlyGood(e: Env, s: Sys, after: Disk)
    requires Good(e, s) && Keeps(e, s.disk, after)
    requires after.nextGeneration == s.disk.nextGeneration
    requires || after.activeGeneration == 0
             || (after.activeGeneration == s.disk.activeGeneration
                 && after.phase == s.disk.phase && after.Stream() == s.disk.Stream()
                 && |after.backing| == |s.disk.backing|)
    ensures Good(e, s.(disk := after))
  {
    hide Recovered, ContentSnapshot, WholeRecords, MakeRepairPlan, LeaseGood;
    LeasesUnmoved(e, s.disk, after, s.leases);
  }

  lemma MintGood(e: Env, s: Sys, i: nat)
    requires Good(e, s) && i < |s.leases|
    ensures Good(e, MintStep(e, s, i)) && Keeps(e, s.disk, MintStep(e, s, i).disk)
  {
    hide Recovered, ContentSnapshot, WholeRecords, MakeRepairPlan, LeaseGood, SnapshotStill;
    KeepsSame(e, s.disk, MintDisk(e, s.disk, s.leases[i]));
    DiskOnlyGood(e, s, MintDisk(e, s.disk, s.leases[i]));
  }

  lemma ActiveIsFenced(e: Env, s: Sys, i: nat, k: nat)
    requires Good(e, s) && i < |s.leases| && k < |s.leases| && k != i
    requires Active(s.disk, s.leases[i].generation)
    ensures !Active(s.disk, s.leases[k].generation)
  {
    hide Recovered, ContentSnapshot, WholeRecords, MakeRepairPlan, LeaseGood, Sound;
  }

  lemma AppendGoodStep(e: Env, s: Sys, i: nat, encoded: Bytes)
    requires Good(e, s) && i < |s.writers|
    ensures Good(e, AppendStep(e, s, i, encoded))
    ensures Keeps(e, s.disk, AppendStep(e, s, i, encoded).disk)
  {
    hide Recovered, ContentSnapshot, WholeRecords, MakeRepairPlan, AppendRecord;
    var handle := s.appends[s.writers[i].append];
    var l, c, w := s.leases[handle.lease], handle.capability, s.writers[i].writer;
    assert AppendGood(s.leases, handle);
    assert LeaseGood(e, s.disk, l);
    AppendRecordKeeps(e, s.disk, l, c, w, encoded);
    AppendHandles(e, s.disk, l, c, w, encoded);
    var after := AppendStep(e, s, i, encoded);
    var r := AppendOutcome(e, s, i, encoded);
    if r.disk == s.disk && r.lease == l && r.capability == c {
      assert after.leases == s.leases && after.appends == s.appends;
    } else {
      forall k | 0 <= k < |s.leases| && k != handle.lease
        ensures LeaseGood(e, r.disk, s.leases[k])
      {
        ActiveIsFenced(e, s, handle.lease, k);
        assert LeaseGood(e, s.disk, s.leases[k]);
      }
      LeaseReplaced(e, s, r.disk, handle.lease, r.lease);
      forall k | 0 <= k < |s.appends| ensures AppendGood(after.leases, after.appends[k]) {
        assert AppendGood(after.leases, s.appends[k]);
      }
    }
  }

  /** What an append does to the handles: nothing, unless it holds the current authority. */
  lemma AppendHandles(e: Env, d: Disk, l: Lease, c: AppendCapability, w: Writer, encoded: Bytes)
    requires Sound(e, d)
    ensures var r := AppendRecord(e, d, l, c, w, encoded);
            && r.disk.Bounded()
            && r.lease.generation == l.generation && r.lease.state == l.state
            && (r.lease == l || r.lease.snapshot.status == Clean)
            && r.capability.generation == c.generation
            && r.disk.nextGeneration == d.nextGeneration
            && r.disk.activeGeneration == d.activeGeneration
            && ((r.disk == d && r.lease == l && r.capability == c)
                || (HasAuthority(d, c) && l.state == LeaseReady))
  {
    hide Recovered, Preflight, AppendCalls, ContentSnapshot, LeaseSha;
    if Preflight(e, d, l, c, w, encoded).Success? {
      PreflightMeans(e, d, l, c, w, encoded);
      AppendCallsLand(d, c, encoded[..RECORD_BODY_BYTES], encoded[RECORD_BODY_BYTES..]);
    }
  }

  lemma PrepareGood(e: Env, s: Sys, i: nat)
    requires Good(e, s) && i < |s.leases|
    ensures Good(e, PrepareStep(e, s, i)) && Keeps(e, s.disk, PrepareStep(e, s, i).disk)
  {
    hide Recovered, ContentSnapshot, WholeRecords;
    var l := s.leases[i];
    assert LeaseGood(e, s.disk, l);
    PrepareRepairKeeps(e, s.disk, l);
    if PrepareRepair(e, s.disk, l).Success? {
      var after := PrepareStep(e, s, i);
      var ready := l.(state := RepairReady);
      assert l.snapshot.status != Clean;
      forall k | 0 <= k < |s.leases| && k != i
        ensures LeaseGood(e, after.disk, s.leases[k])
      {
        ActiveIsFenced(e, s, i, k);
        assert LeaseGood(e, s.disk, s.leases[k]);
      }
      LeaseReplaced(e, s, after.disk, i, ready);
      forall k | 0 <= k < |after.repairs| ensures RepairGood(e, after.leases, after.repairs[k]) {
      }
    }
  }

  lemma RepairGoodStep(e: Env, s: Sys, i: nat)
    requires Good(e, s) && i < |s.repairers|
    ensures Good(e, RepairStep(e, s, i)) && Keeps(e, s.disk, RepairStep(e, s, i).disk)
  {
    hide Recovered, ContentSnapshot, WholeRecords, MakeRepairPlan, ApplyRepair;
    var handle := s.repairs[s.repairers[i].repair];
    var l, c := s.leases[handle.lease], handle.capability;
    assert RepairGood(e, s.leases, handle);
    assert LeaseGood(e, s.disk, l);
    ApplyRepairKeeps(e, s.disk, l, c, s.repairers[i].state);
    RepairHandles(e, s.disk, l, c, s.repairers[i].state);
    var after := RepairStep(e, s, i);
    var r := RepairOutcome(e, s, i);
    if r.disk == s.disk && r.lease == l {
      assert after.leases == s.leases;
    } else {
      forall k | 0 <= k < |s.leases| && k != handle.lease
        ensures LeaseGood(e, r.disk, s.leases[k])
      {
        ActiveIsFenced(e, s, handle.lease, k);
        assert LeaseGood(e, s.disk, s.leases[k]);
      }
      LeaseReplaced(e, s, r.disk, handle.lease, r.lease);
    }
  }

  lemma RepairHandles(e: Env, d: Disk, l: Lease, c: RepairCapability, repairer: HandleState)
    requires Sound(e, d)
    ensures var r := ApplyRepair(e, d, l, c, repairer);
            && r.disk.Bounded() && |r.disk.backing| == |d.backing|
            && r.lease.generation == l.generation && r.lease.snapshot == l.snapshot
            && r.lease.leaseSha == l.leaseSha
            && r.disk.nextGeneration == d.nextGeneration
            && r.disk.activeGeneration == d.activeGeneration
            && ((r.disk == d && r.lease == l)
                || (Active(d, c.generation) && l.state != LeaseClosed
                    && r.lease.state in {RepairReady, RepairActive, RepairComplete}))
            && (r.disk.phase == RepairTruncate ==> d.phase == RepairTruncate)
  {
    hide Recovered, ContentSnapshot, WholeRecords;
  }

  lemma StepGood(e: Env, s: Sys, a: Action)
    requires Good(e, s)
    ensures Good(e, Step(e, s, a)) && Keeps(e, s.disk, Step(e, s, a).disk)
  {
    hide Recovered, ContentSnapshot, WholeRecords, MakeRepairPlan, Sound, LeaseGood,
      AcquireStep, ReleaseStep, MintStep, AppendStep, PrepareStep, RepairStep, CrashPersist,
      Keeps, RepairGood, AppendGood;
    KeepsSelf(e, s.disk);
    match a
    case Acquire => AcquireGood(e, s);
    case Release(i) => if i < |s.leases| { ReleaseGood(e, s, i); }
    case Inject(fault) => InjectGood(e, s, fault);
    case Crash(p) => CrashGood(e, s, p);
    case Mint(i) => if i < |s.leases| { MintGood(e, s, i); }
    case OpenWriter(i, header) =>
    case Append(i, encoded) => if i < |s.writers| { AppendGoodStep(e, s, i, encoded); }
    case Prepare(i) => if i < |s.leases| { PrepareGood(e, s, i); }
    case OpenRepairer(i) =>
    case Repair(i) => if i < |s.repairers| { RepairGoodStep(e, s, i); }
  }

  lemma InjectGood(e: Env, s: Sys, fault: Option<Fault>)
    requires Good(e, s)
    ensures Good(e, s.(disk := SetFault(s.disk, fault)))
    ensures Keeps(e, s.disk, SetFault(s.disk, fault))
  {
    hide Recovered, ContentSnapshot, WholeRecords, MakeRepairPlan, LeaseGood;
    KeepsSame(e, s.disk, SetFault(s.disk, fault));
    DiskOnlyGood(e, s, SetFault(s.disk, fault));
  }

  lemma CrashGood(e: Env, s: Sys, p: nat)
    requires Good(e, s)
    ensures Good(e, s.(disk := CrashPersist(s.disk, p)))
    ensures Keeps(e, s.disk, CrashPersist(s.disk, p))
  {
    hide Recovered, ContentSnapshot, WholeRecords, MakeRepairPlan, LeaseGood;
    CrashKeeps(e, s.disk, p);
    DiskOnlyGood(e, s, CrashPersist(s.disk, p));
  }

  // ---------------------------------------------------------------------------------------
  // Theorems over whole runs
  // ---------------------------------------------------------------------------------------

  /** The state after a run; every prefix of a run from a good state is itself good. */
  ghost function Run(e: Env, s: Sys, actions: seq<Action>): (r: Sys)
    requires Good(e, s)
    ensures Good(e, r)
  {
    if actions == [] then s
    else
      var before := Run(e, s, actions[..|actions| - 1]);
      StepGood(e, before, actions[|actions| - 1]);
      Step(e, before, actions[|actions| - 1])
  }

  /**
   * Whole-run durability: over every run the records inside both the length and the sync
   * watermark never become fewer, and their bytes never change.
   */
  lemma {:induction false} DurableForever(e: Env, s: Sys, actions: seq<Action>)
    requires Good(e, s)
    ensures Durable(s.disk) <= Durable(Run(e, s, actions).disk)
    ensures DurableBytes(s.disk) <= DurableBytes(Run(e, s, actions).disk)
    ensures Keeps(e, s.disk, Run(e, s, actions).disk)
  {
    hide Sound, LeaseGood, AppendGood, RepairGood, Step, DurableBytes;
    KeepsSelf(e, s.disk);
    if actions != [] {
      var most := actions[..|actions| - 1];
      DurableForever(e, s, most);
      var before := Run(e, s, most);
      StepGood(e, before, actions[|actions| - 1]);
      KeepsTransitive(e, s.disk, before.disk, Run(e, s, actions).disk);
    }
    KeepsCounts(e, s.disk, Run(e, s, actions).disk);
  }

  lemma KeepsCounts(e: Env, d: Disk, after: Disk)
    requires Keeps(e, d, after)
    ensures Durable(d) <= Durable(after) && DurableBytes(d) <= DurableBytes(after)
  {
    hide Recovered;
    assert |DurableBytes(d)| == Boundary(Durable(d));
    assert |DurableBytes(after)| == Boundary(Durable(after));
  }

  /**
   * An append that returned is durable for ever: after any further run the encoded record is
   * still whole, synced and at the same place.
   */
  lemma AppendedForever(e: Env, s: Sys, before: seq<Action>, i: nat, encoded: Bytes,
    further: seq<Action>)
    requires Good(e, s) && i < |Run(e, s, before).writers|
    requires AppendOutcome(e, Run(e, s, before), i, encoded).error.None?
    ensures var end := Run(e, Run(e, s, before + [Append(i, encoded)]), further);
            HoldsRecord(end.disk, WholeRecords(Run(e, s, before).disk.length), encoded)
  {
    hide Good, Sound, Keeps, Step, AppendRecord, HoldsRecord, Run;
    var mid := Run(e, s, before);
    var done := Run(e, s, before + [Append(i, encoded)]);
    RunAppend(e, s, before, i, encoded);
    GoodMeans(e, mid);
    var handle := mid.appends[mid.writers[i].append];
    ReturnedBytes(e, mid.disk, mid.leases[handle.lease], handle.capability,
                  mid.writers[i].writer, encoded);
    DurableForever(e, done, further);
    HoldsStill(e, done.disk, Run(e, done, further).disk, WholeRecords(mid.disk.length), encoded);
  }

  lemma GoodMeans(e: Env, s: Sys)
    requires Good(e, s)
    ensures Linked(s) && Sound(e, s.disk) && HEADER_BYTES <= CrashLower(s.disk)
  {
  }

  lemma RunStep(e: Env, s: Sys, before: seq<Action>, a: Action)
    requires Good(e, s) && Good(e, Run(e, s, before)) && Linked(Run(e, s, before))
    ensures Run(e, s, before + [a]) == Step(e, Run(e, s, before), a)
  {
    hide Good, Step, Linked;
    assert (before + [a])[..|before|] == before;
  }

  lemma RunAppend(e: Env, s: Sys, before: seq<Action>, i: nat, encoded: Bytes)
    requires Good(e, s) && i < |Run(e, s, before).writers|
    ensures Linked(Run(e, s, before))
    ensures Run(e, s, before + [Append(i, encoded)])
            == AppendStep(e, Run(e, s, before), i, encoded)
  {
    hide Run, Good, Sound, AppendStep, AcquireStep, ReleaseStep, MintStep, PrepareStep,
      RepairStep, CrashPersist;
    GoodMeans(e, Run(e, s, before));
    RunStep(e, s, before, Append(i, encoded));
  }

  /** Record `n` is durable and its bytes are `encoded`. */
  ghost predicate HoldsRecord(d: Disk, n: nat, encoded: Bytes) {
    && d.Bounded() && HEADER_BYTES <= CrashLower(d)
    && n < Durable(d) && Boundary(n + 1) <= |DurableBytes(d)|
    && DurableBytes(d)[Boundary(n)..Boundary(n + 1)] == encoded
  }

  lemma HoldsStill(e: Env, d: Disk, after: Disk, n: nat, encoded: Bytes)
    requires Keeps(e, d, after) && HoldsRecord(d, n, encoded)
    ensures HoldsRecord(after, n, encoded)
  {
    hide Recovered, WholeRecords;
    KeepsCounts(e, d, after);
    var all, m := DurableBytes(after), |DurableBytes(d)|;
    assert all[..m] == DurableBytes(d);
    assert all[Boundary(n)..Boundary(n + 1)] == all[..m][Boundary(n)..Boundary(n + 1)];
  }

  lemma ReturnedBytes(e: Env, d: Disk, l: Lease, c: AppendCapability, w: Writer, encoded: Bytes)
    requires Sound(e, d) && AppendRecord(e, d, l, c, w, encoded).error.None?
    ensures var after := AppendRecord(e, d, l, c, w, encoded).disk;
            HoldsRecord(after, WholeRecords(d.length), encoded)
  {
    hide Recovered, Preflight, AppendRecord, ContentSnapshot;
    AppendReturns(e, d, l, c, w, encoded);
    PreflightOfReturned(e, d, l, c, w, encoded);
    PreflightMeans(e, d, l, c, w, encoded);
    var after := AppendRecord(e, d, l, c, w, encoded).disk;
    assert DurableBytes(after) == after.Stream() == d.Stream() + encoded;
  }

  lemma PreflightOfReturned(e: Env, d: Disk, l: Lease, c: AppendCapability, w: Writer,
    encoded: Bytes)
    requires d.Bounded() && AppendRecord(e, d, l, c, w, encoded).error.None?
    ensures Preflight(e, d, l, c, w, encoded).Success?
  {
    hide Preflight, AppendCalls, ContentSnapshot, LeaseSha;
  }

  /**
   * In no reachable state can a writer find the committed bytes changed or run out of capacity
   * midway, or a repairer find that it changed the committed prefix.
   */
  lemma PostChecksNeverFire(e: Env, s: Sys, actions: seq<Action>, i: nat, encoded: Bytes)
    requires Good(e, s)
    ensures var r := Run(e, s, actions);
            && (i < |r.writers| ==>
                  AppendOutcome(e, r, i, encoded).error
                    !in {Some(CommittedDiffers), Some(StorageFull)})
            && (i < |r.repairers| ==> RepairOutcome(e, r, i).error != Some(RepairChanged))
  {
    hide Recovered, ContentSnapshot, WholeRecords, MakeRepairPlan, AppendRecord, ApplyRepair,
      Preflight, LeaseSha;
    var r := Run(e, s, actions);
    if i < |r.writers| {
      var handle := r.appends[r.writers[i].append];
      AppendReturns(e, r.disk, r.leases[handle.lease], handle.capability, r.writers[i].writer,
                    encoded);
    }
    if i < |r.repairers| {
      var handle := r.repairs[r.repairers[i].repair];
      assert RepairGood(e, r.leases, handle);
      assert LeaseGood(e, r.disk, r.leases[handle.lease]);
      RepairReturns(e, r.disk, r.leases[handle.lease], handle.capability, r.repairers[i].state);
    }
  }
}
