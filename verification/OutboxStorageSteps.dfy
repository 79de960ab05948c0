/**
 * What every single storage operation keeps: the stream always recovers, and the whole records
 * below both the length and the sync watermark never change.
 */
module OutboxStorageSteps {
  import opened Bytes
  import opened Outbox
  import opened OutboxWire
  import opened OutboxRecovery
  import opened OutboxLaws
  import opened OutboxStorage

  /** The reachable shape of a disk, whatever its leases, faults and crashes have been. */
  ghost predicate Sound(e: Env, d: Disk) {
    && d.Bounded() && |d.backing| <= U64_MAX
    && HEADER_BYTES <= d.length && HEADER_BYTES <= d.synced
    && Recovered(e.sha, d.Stream(), e.header).Success?
    && d.synced < Boundary(WholeRecords(d.length) + 1)
    && d.activeGeneration < d.nextGeneration
    && (d.phase == RepairTruncate ==>
          d.authority.repairTarget == Boundary(WholeRecords(d.length)))
  }

  /** The number of records that survive every crash: whole, and below the watermark. */
  function Durable(d: Disk): nat
    requires HEADER_BYTES <= CrashLower(d)
  {
    WholeRecords(CrashLower(d))
  }

  function DurableBytes(d: Disk): Bytes
    requires d.Bounded() && HEADER_BYTES <= CrashLower(d)
  {
    d.backing[..Boundary(Durable(d))]
  }

  ghost predicate Keeps(e: Env, d: Disk, after: Disk) {
    Sound(e, d) && Sound(e, after) && DurableBytes(d) <= DurableBytes(after)
  }

  lemma KeepsBecause(e: Env, d: Disk, after: Disk)
    requires Sound(e, d) && Sound(e, after)
    requires Durable(d) <= Durable(after)
    requires d.backing[..Boundary(Durable(d))] == after.backing[..Boundary(Durable(d))]
    ensures Keeps(e, d, after)
  {
    hide Recovered;
    var n := Boundary(Durable(d));
    assert DurableBytes(after)[..n] == after.backing[..n];
  }

  lemma WholeRecordsMonotone(m: nat, n: nat)
    requires HEADER_BYTES <= m <= n
    ensures WholeRecords(m) <= WholeRecords(n)
  {
  }

  // ---------------------------------------------------------------------------------------
  // Appending
  // ---------------------------------------------------------------------------------------

  /**
   * How far an interrupted append of `body` and then `footer` may have come: some prefix of the
   * payload landed behind the old stream, nothing before it moved, and no byte of the footer
   * landed before the body was synced.
   */
  ghost predicate Landed(d: Disk, after: Disk, body: Bytes, footer: Bytes)
    requires d.Bounded()
  {
    && after.Bounded() && |after.backing| == |d.backing|
    && d.length <= after.length <= d.length + |body| + |footer|
    && after.Stream() == (d.Stream() + body + footer)[..after.length]
    && (after.length > d.length + |body| ==> after.synced >= d.length + |body|)
    && (after.synced == d.synced || d.length + |body| <= after.synced <= after.length)
    && after.activeGeneration == d.activeGeneration
    && after.nextGeneration == d.nextGeneration && after.authority == d.authority
    && (after.phase == d.phase || after.phase in {BodySync, FooterWrite, FooterSync})
  }

  lemma AppendIoLands(d: Disk, generation: nat, phase: IoPhase, next: IoPhase, payload: Bytes)
    requires d.Bounded()
    ensures var r := AppendIo(d, generation, phase, next, payload);
            && |r.disk.backing| == |d.backing| && r.disk.synced == d.synced
            && d.length <= r.disk.length <= d.length + |payload|
            && r.disk.Stream() == (d.Stream() + payload)[..r.disk.length]
            && r.disk.activeGeneration == d.activeGeneration
            && r.disk.nextGeneration == d.nextGeneration && r.disk.authority == d.authority
            && r.disk.phase in {d.phase, next}
            && (r.error.None? ==>
                  r.disk.Stream() == d.Stream() + payload && r.disk.phase == next
                  && d.phase == phase)
            && (d.phase != phase ==> r.disk == d)
  {
    var r := AppendIo(d, generation, phase, next, payload);
    var n := r.disk.length - d.length;
    if r.disk.backing != d.backing {
      assert r.disk.backing == Overwrite(d.backing, d.length, payload[..n]);
    }
    assert r.disk.Stream() == d.Stream() + payload[..n];
    assert d.Stream() + payload[..n] == (d.Stream() + payload)[..r.disk.length];
    assert n == |payload| ==> payload[..n] == payload;
  }

  /** Any outcome of the four calls, faulted or not. */
  lemma AppendCallsLand(d: Disk, c: AppendCapability, body: Bytes, footer: Bytes)
    requires d.Bounded()
    ensures var r := AppendCalls(d, c, body, footer);
            && Landed(d, r.disk, body, footer)
            && (r.error.None? ==>
                  && r.disk.Stream() == d.Stream() + body + footer
                  && r.disk.synced == r.disk.length && r.disk.phase == BodyWrite
                  && d.phase == BodyWrite && HasAuthority(r.disk, c))
            && (d.phase != BodyWrite ==> r.disk == d)
  {
    hide AppendIo;
    AppendIoLands(d, c.generation, BodyWrite, BodySync, body);
    var a := AppendIo(d, c.generation, BodyWrite, BodySync, body);
    if a.error.None? && HasAuthority(a.disk, c) {
      var b := SyncIo(a.disk, c.generation, BodySync, FooterWrite);
      assert b.disk.Stream() == d.Stream() + body;
      if b.error.None? && HasAuthority(b.disk, c) {
        AppendIoLands(b.disk, c.generation, FooterWrite, FooterSync, footer);
      } else {
        assert d.Stream() + body == (d.Stream() + body + footer)[..b.disk.length];
      }
    } else {
      assert (d.Stream() + body)[..a.disk.length]
             == (d.Stream() + body + footer)[..a.disk.length];
    }
  }

  /**
   * With authority, the body phase and room for the payload, the four calls fail only by an
   * injected fault: no phase, authority, capacity or target check can fire midway.
   */
  lemma AppendCallsFailOnlyByFault(d: Disk, c: AppendCapability, body: Bytes, footer: Bytes)
    requires d.Bounded() && HasAuthority(d, c) && d.phase == BodyWrite
    requires d.length + |body| + |footer| <= |d.backing|
    ensures var r := AppendCalls(d, c, body, footer);
            && (r.error.Some? ==> r.error.value in {Injected, InvalidFault})
            && (d.fault.None? ==> r.error.None?)
  {
  }

  /** What passing the preflight says about the stream before and after. */
  lemma PreflightMeans(e: Env, d: Disk, l: Lease, c: AppendCapability, w: Writer,
    encoded: Bytes)
    requires d.Bounded() && Preflight(e, d, l, c, w, encoded).Success?
    ensures HasAuthority(d, c) && l.state == LeaseReady && |encoded| == RECORD_BYTES
    ensures d.length >= HEADER_BYTES ==>
              && d.length == Boundary(WholeRecords(d.length))
              && d.length + RECORD_BYTES <= |d.backing|
    ensures Recovered(e.sha, d.Stream() + encoded, e.header).Success?
    ensures Preflight(e, d, l, c, w, encoded)
            == ContentSnapshot(e, d.Stream() + encoded, |d.backing|)
    ensures Preflight(e, d, l, c, w, encoded).value.status == Clean
  {
    hide DecodeRecord, DecodeHeader, Committed, Replay, StateSha, SnapshotSha;
    PreflightLength(e, d, l, c, w, encoded);
    SnapshotMeans(e, d.Stream() + encoded, |d.backing|);
  }

  lemma SnapshotMeans(e: Env, stream: Bytes, maximum: nat)
    requires ContentSnapshot(e, stream, maximum).Success?
    ensures HEADER_BYTES <= |stream| <= maximum <= U64_MAX
    ensures Recovered(e.sha, stream, e.header).Success?
    ensures var s := ContentSnapshot(e, stream, maximum).value;
            var r := Recovered(e.sha, stream, e.header).value;
            && s.observedBytes == |stream| && s.status == r.status
            && s.committedBytes == r.committedBytes == Boundary(WholeRecords(|stream|))
            && s.discardedTailBytes == |stream| - s.committedBytes
            && (s.status == Clean <==> s.discardedTailBytes == 0)
            && s.finalChain == r.finalChain && s.stateSha == r.stateSha
            && s.ledgerSha == LedgerSha(e.sha, r.ledger)
            && s.committedRecords == r.ledger.committedRecords
  {
    hide DecodeHeader, Committed, Replay, StateSha, SnapshotSha, Recovered;
    RecoveredExactly(e.sha, stream, e.header);
    var r := Recovered(e.sha, stream, e.header).value;
    ReportNames(e.sha, r.header, r.records, |stream|);
  }

  lemma LandedBounds(d: Disk, after: Disk, body: Bytes, footer: Bytes)
    requires d.Bounded() && Landed(d, after, body, footer)
    requires |body| == RECORD_BODY_BYTES && |footer| == COMMIT_FOOTER_BYTES
    requires HEADER_BYTES <= d.length && HEADER_BYTES <= d.synced
    requires d.length == Boundary(WholeRecords(d.length))
    requires d.synced < Boundary(WholeRecords(d.length) + 1)
    ensures HEADER_BYTES <= CrashLower(d) <= CrashLower(after)
    ensures after.synced < Boundary(WholeRecords(after.length) + 1)
    ensures Boundary(Durable(d)) <= d.length && Durable(d) <= Durable(after)
  {
    var n := WholeRecords(d.length);
    if after.length == Boundary(n + 1) {
      WholeRecordsUnique(after.length, n + 1);
    } else {
      WholeRecordsUnique(after.length, n);
    }
    WholeRecordsMonotone(CrashLower(d), CrashLower(after));
    BoundaryOf(CrashLower(d));
  }

  lemma AppendKeeps(e: Env, d: Disk, after: Disk, body: Bytes, footer: Bytes)
    requires Sound(e, d) && Landed(d, after, body, footer)
    requires |body| == RECORD_BODY_BYTES && |footer| == COMMIT_FOOTER_BYTES
    requires d.length == Boundary(WholeRecords(d.length))
    requires d.phase == BodyWrite
    requires Recovered(e.sha, d.Stream() + body + footer, e.header).Success?
    ensures Keeps(e, d, after)
  {
    hide Recovered, WholeRecords;
    var whole := d.Stream() + body + footer;
    LandedBounds(d, after, body, footer);
    PrefixRecovers(e.sha, whole, e.header, after.length);
    SamePrefix(d, after, whole, Boundary(Durable(d)));
    KeepsBecause(e, d, after);
  }

  /** Streams that extend one another agree below the shorter one. */
  lemma SamePrefix(d: Disk, after: Disk, whole: Bytes, k: nat)
    requires d.Bounded() && after.Bounded() && k <= d.length <= after.length <= |whole|
    requires d.Stream() == whole[..d.length] && after.Stream() == whole[..after.length]
    ensures d.backing[..k] == after.backing[..k]
  {
    assert d.backing[..k] == d.Stream()[..k] == whole[..k];
    assert after.backing[..k] == after.Stream()[..k] == whole[..k];
  }

  lemma KeepsSelf(e: Env, d: Disk)
    requires Sound(e, d)
    ensures Keeps(e, d, d)
  {
  }

  /** Only who may append changed: the stream and its bounds are the same. */
  lemma KeepsSame(e: Env, d: Disk, after: Disk)
    requires Sound(e, d)
    requires after.backing == d.backing && after.length == d.length && after.synced == d.synced
    requires after.activeGeneration < after.nextGeneration
    requires after.phase == RepairTruncate ==>
               after.authority.repairTarget == Boundary(WholeRecords(after.length))
    ensures Keeps(e, d, after)
  {
    hide Recovered;
  }

  lemma AppendRecordKeeps(e: Env, d: Disk, l: Lease, c: AppendCapability, w: Writer,
    encoded: Bytes)
    requires Sound(e, d)
    ensures Keeps(e, d, AppendRecord(e, d, l, c, w, encoded).disk)
  {
    hide Recovered, Preflight, AppendCalls, ContentSnapshot, LeaseSha;
    KeepsSelf(e, d);
    if Preflight(e, d, l, c, w, encoded).Success? {
      PreflightMeans(e, d, l, c, w, encoded);
      var body, footer := encoded[..RECORD_BODY_BYTES], encoded[RECORD_BODY_BYTES..];
      assert d.Stream() + encoded == d.Stream() + body + footer;
      AppendCallsLand(d, c, body, footer);
      var io := AppendCalls(d, c, body, footer).disk;
      if d.phase == BodyWrite {
        AppendKeeps(e, d, io, body, footer);
        if io.phase != RepairTruncate {
          var after := AppendRecord(e, d, l, c, w, encoded).disk;
          KeepsSame(e, io, after);
        }
      }
    }
  }

  /**
   * An append that returns has put exactly the encoded record behind the old stream and synced
   * it; its two last checks cannot fail for any other reason than a digest that is zero.
   */
  lemma AppendReturns(e: Env, d: Disk, l: Lease, c: AppendCapability, w: Writer, encoded: Bytes)
    requires Sound(e, d)
    ensures var r := AppendRecord(e, d, l, c, w, encoded);
            && (r.error.None? ==>
                  && r.disk.Stream() == d.Stream() + encoded
                  && r.disk.synced == r.disk.length == Boundary(WholeRecords(d.length) + 1)
                  && Durable(r.disk) == WholeRecords(d.length) + 1
                  && r.writer.state == HandleReady && r.lease.snapshot.status == Clean
                  && Snapshotted(e, r.disk) == Success(r.lease.snapshot)
                  && r.capability.snapshotSha == r.lease.snapshot.snapshotSha
                  && HasAuthority(r.disk, r.capability))
            && (r.error.Some? ==>
                  && r.error.value != CommittedDiffers && r.error.value != StorageFull
                  && r.capability == c)
            && (Preflight(e, d, l, c, w, encoded).Success? ==>
                  (r.writer.state == Poisoned <==> r.error.Some?))
    ensures (&& Preflight(e, d, l, c, w, encoded).Success? && d.phase == BodyWrite
             && d.fault.None? && l.generation == c.generation
             && LeaseSha(e, Preflight(e, d, l, c, w, encoded).value, l.generation).Success?)
            ==> AppendRecord(e, d, l, c, w, encoded).error.None?
  {
    hide Recovered, Preflight, AppendCalls, ContentSnapshot, LeaseSha;
    PreflightErrors(e, d, l, c, w, encoded);
    if Preflight(e, d, l, c, w, encoded).Success? {
      PreflightMeans(e, d, l, c, w, encoded);
      var body, footer := encoded[..RECORD_BODY_BYTES], encoded[RECORD_BODY_BYTES..];
      assert d.Stream() + encoded == d.Stream() + body + footer;
      AppendCallsLand(d, c, body, footer);
      AppendCallsErrors(d, c, body, footer);
      var io := AppendCalls(d, c, body, footer);
      LeaseShaErrors(e, Preflight(e, d, l, c, w, encoded).value, l.generation);
      if io.error.None? {
        WholeRecordsUnique(d.length + RECORD_BYTES, WholeRecords(d.length) + 1);
        assert Snapshotted(e, io.disk) == Preflight(e, d, l, c, w, encoded);
        var r := AppendRecord(e, d, l, c, w, encoded);
        if r.error.None? {
          assert r.disk.Stream() == io.disk.Stream();
        }
      }
    }
  }

  lemma PreflightErrors(e: Env, d: Disk, l: Lease, c: AppendCapability, w: Writer,
    encoded: Bytes)
    requires d.Bounded()
    ensures var p := Preflight(e, d, l, c, w, encoded);
            p.Failure? ==> p.error != CommittedDiffers && p.error != StorageFull
  {
    hide DecodeRecord, Recovered, SnapshotSha;
  }

  lemma LeaseShaErrors(e: Env, s: Snapshot, generation: nat)
    ensures var r := LeaseSha(e, s, generation);
            r.Failure? ==> r.error == InvalidBinding
  {
  }

  lemma AppendCallsErrors(d: Disk, c: AppendCapability, body: Bytes, footer: Bytes)
    requires d.Bounded() && HasAuthority(d, c)
    requires d.length + |body| + |footer| <= |d.backing|
    ensures var r := AppendCalls(d, c, body, footer);
            && (r.error.Some? ==> r.error.value in {Injected, InvalidFault, InvalidPhase})
            && (d.phase == BodyWrite && d.fault.None? ==> r.error.None?)
  {
    if d.phase == BodyWrite {
      AppendCallsFailOnlyByFault(d, c, body, footer);
    }
  }

  // ---------------------------------------------------------------------------------------
  // Repairing
  // ---------------------------------------------------------------------------------------

  lemma TruncateKeeps(e: Env, d: Disk, generation: nat, target: nat)
    requires Sound(e, d)
    ensures var r := TruncateIo(d, generation, target);
            && Keeps(e, d, r.disk) && r.disk.authority == d.authority
            && r.disk.activeGeneration == d.activeGeneration
            && r.disk.nextGeneration == d.nextGeneration
            && (r.error.None? ==>
                  && r.disk.phase == RepairSync && target == Boundary(WholeRecords(d.length))
                  && target < d.length && r.disk.Stream() == d.Stream()[..target])
            && (r.disk.phase == RepairTruncate ==> r.disk.Stream() == d.Stream())
  {
    hide Recovered, WholeRecords;
    var after := TruncateIo(d, generation, target).disk;
    if after.length == d.length {
      KeepsSame(e, d, after);
    } else {
      TruncatedKeeps(e, d, after);
    }
  }

  /** A disk cut back to its last whole record. */
  lemma TruncatedKeeps(e: Env, d: Disk, after: Disk)
    requires Sound(e, d) && after.backing == d.backing && after.synced == d.synced
    requires after.length == Boundary(WholeRecords(d.length)) < d.length
    requires after.activeGeneration < after.nextGeneration && after.phase == RepairSync
    ensures Keeps(e, d, after)
  {
    hide Recovered, WholeRecords, Keeps;
    var n := WholeRecords(d.length);
    BoundaryOf(d.length);
    WholeRecordsUnique(after.length, n);
    PrefixRecovers(e.sha, d.Stream(), e.header, after.length);
    assert d.Stream()[..after.length] == after.Stream();
    BoundaryOf(CrashLower(d));
    TailDurable(d, after);
    KeepsBecause(e, d, after);
  }

  /** Dropping the torn tail keeps the count of durable records. */
  lemma TailDurable(d: Disk, after: Disk)
    requires HEADER_BYTES <= d.length && HEADER_BYTES <= d.synced && after.synced == d.synced
    requires after.length == Boundary(WholeRecords(d.length)) <= d.length
    ensures HEADER_BYTES <= CrashLower(after)
    ensures Durable(after) == Durable(d) <= WholeRecords(d.length)
  {
    WholeRecordsUnique(after.length, WholeRecords(d.length));
    WholeRecordsMonotone(CrashLower(after), CrashLower(d));
    WholeRecordsMonotone(CrashLower(d), d.length);
  }

  lemma SyncKeeps(e: Env, d: Disk, generation: nat, phase: IoPhase, next: IoPhase)
    requires Sound(e, d) && next != RepairTruncate
    ensures var r := SyncIo(d, generation, phase, next);
            && Keeps(e, d, r.disk) && r.disk.authority == d.authority
            && r.disk.activeGeneration == d.activeGeneration
            && r.disk.nextGeneration == d.nextGeneration
            && r.disk.backing == d.backing && r.disk.length == d.length
            && r.disk.phase in {d.phase, next}
            && (r.error.None? ==> r.disk.synced == r.disk.length && r.disk.phase == next)
  {
    hide Recovered, WholeRecords;
    var after := SyncIo(d, generation, phase, next).disk;
    if after.synced == d.synced {
      KeepsSame(e, d, after);
    } else {
      BoundaryOf(d.length);
      WholeRecordsMonotone(CrashLower(d), d.length);
      KeepsBecause(e, d, after);
    }
  }

  lemma KeepsTransitive(e: Env, a: Disk, b: Disk, c: Disk)
    requires Keeps(e, a, b) && Keeps(e, b, c)
    ensures Keeps(e, a, c)
  {
    hide Sound;
  }

  lemma ApplyRepairKeeps(e: Env, d: Disk, l: Lease, c: RepairCapability, repairer: HandleState)
    requires Sound(e, d)
    ensures Keeps(e, d, ApplyRepair(e, d, l, c, repairer).disk)
    ensures ApplyRepair(e, d, l, c, repairer).disk.phase == RepairTruncate ==>
              ApplyRepair(e, d, l, c, repairer).disk.Stream() == d.Stream()
  {
    hide Recovered, TruncateIo, SyncIo, Snapshotted, SnapshotStill, Keeps, Sound;
    KeepsSelf(e, d);
    var t := TruncateIo(d, c.generation, c.plan.committedBytes).disk;
    TruncateKeeps(e, d, c.generation, c.plan.committedBytes);
    KeepsSound(e, d, t);
    SyncKeeps(e, t, c.generation, RepairSync, BodyWrite);
    KeepsTransitive(e, d, t, SyncIo(t, c.generation, RepairSync, BodyWrite).disk);
    KeepsSound(e, d, SyncIo(t, c.generation, RepairSync, BodyWrite).disk);
  }

  lemma KeepsSound(e: Env, d: Disk, after: Disk)
    requires Keeps(e, d, after)
    ensures Sound(e, d) && Sound(e, after) && d.Bounded() && after.Bounded()
  {
  }

  /** A torn stream that still shows the lease's snapshot is the one its repair plan names. */
  ghost predicate Torn(e: Env, d: Disk, l: Lease)
    requires d.Bounded()
  {
    && Snapshotted(e, d) == Success(l.snapshot) && l.snapshot.status != Clean
  }

  lemma TornTail(e: Env, d: Disk, l: Lease)
    requires Sound(e, d) && Torn(e, d, l)
    ensures l.snapshot.committedBytes == Boundary(WholeRecords(d.length)) < d.length
    ensures l.snapshot.discardedTailBytes > 0
    ensures SnapshotStill(e, d, l.snapshot.snapshotSha)
  {
    hide Recovered, ContentSnapshot;
    SnapshotMeans(e, d.Stream(), |d.backing|);
  }

  lemma PrepareRepairKeeps(e: Env, d: Disk, l: Lease)
    requires Sound(e, d)
    requires Active(d, l.generation) && l.state == LeaseReady && l.snapshot.status != Clean ==>
               Torn(e, d, l)
    ensures Keeps(e, d, PrepareRepairDisk(e, d, l))
    ensures PrepareRepairDisk(e, d, l).Stream() == d.Stream()
  {
    hide Recovered, Snapshotted, SnapshotStill;
    if PrepareRepair(e, d, l).Success? {
      TornTail(e, d, l);
    }
    KeepsSame(e, d, PrepareRepairDisk(e, d, l));
  }

  /** Dropping the torn tail leaves the same chain, states and ledger behind. */
  lemma TruncatedMatches(e: Env, d: Disk, l: Lease, after: Disk, p: Plan)
    requires Sound(e, d) && Torn(e, d, l) && MakeRepairPlan(e, l) == Success(p)
    requires after.Bounded() && |after.backing| == |d.backing|
    requires after.Stream() == d.Stream()[..l.snapshot.committedBytes]
    ensures Snapshotted(e, after).Success? ==> MatchesPlan(Snapshotted(e, after).value, p)
  {
    hide Recovered, ContentSnapshot, WholeRecords, MakeRepairPlan;
    PlanNames(e, l);
    SnapshotMeans(e, d.Stream(), |d.backing|);
    TornTailDropped(e.sha, d.Stream(), e.header);
    if Snapshotted(e, after).Success? {
      SnapshotMeans(e, after.Stream(), |d.backing|);
    }
  }

  lemma PlanNames(e: Env, l: Lease)
    requires MakeRepairPlan(e, l).Success?
    ensures var p := MakeRepairPlan(e, l).value;
            && p.committedBytes == l.snapshot.committedBytes && p.leaseSha == l.leaseSha
            && p.finalChain == l.snapshot.finalChain && p.stateSha == l.snapshot.stateSha
            && p.ledgerSha == l.snapshot.ledgerSha
  {
  }

  /** A repair that may start was planned by its lease for the torn stream still there. */
  ghost predicate Planned(e: Env, d: Disk, l: Lease, c: RepairCapability) {
    d.phase == RepairTruncate && MayRepair(d, l, c) ==>
      d.Bounded() && Torn(e, d, l) && MakeRepairPlan(e, l) == Success(c.plan)
  }

  /** The result of a repair that ran to its end. */
  ghost predicate TailDropped(d: Disk, r: Repaired) {
    && d.Bounded() && r.disk.Bounded() && HEADER_BYTES <= d.length
    && r.disk.length == r.disk.synced == Boundary(WholeRecords(d.length)) < d.length
    && r.disk.Stream() == d.Stream()[..r.disk.length]
    && r.disk.phase == BodyWrite && r.lease.state == RepairComplete && r.repairer == Complete
  }

  /**
   * The repairer's last check cannot fail: what a repair leaves is clean and has the planned
   * chain, states and ledger, and a repair that returns has dropped and synced the torn tail.
   */
  lemma RepairReturns(e: Env, d: Disk, l: Lease, c: RepairCapability, repairer: HandleState)
    requires Sound(e, d) && Planned(e, d, l, c)
    ensures var r := ApplyRepair(e, d, l, c, repairer);
            r.error != Some(RepairChanged) && (r.error.None? ==> TailDropped(d, r))
  {
    hide Recovered, ContentSnapshot, WholeRecords, MakeRepairPlan, TruncateIo, SyncIo;
    var r := ApplyRepair(e, d, l, c, repairer);
    var t := TruncateIo(d, c.generation, c.plan.committedBytes);
    TruncatePhase(d, c.generation, c.plan.committedBytes);
    TruncateKeeps(e, d, c.generation, c.plan.committedBytes);
    if repairer == HandleReady && MayRepair(d, l, c) && t.error.None? {
      var s := SyncIo(t.disk, c.generation, RepairSync, BodyWrite);
      SyncKeeps(e, t.disk, c.generation, RepairSync, BodyWrite);
      SyncErrors(t.disk, c.generation, RepairSync, BodyWrite);
      PlanNames(e, l);
      assert s.disk.Stream() == d.Stream()[..l.snapshot.committedBytes];
      TruncatedMatches(e, d, l, s.disk, c.plan);
      SnapshotErrors(e, s.disk);
    }
  }

  lemma SnapshotErrors(e: Env, d: Disk)
    requires d.Bounded()
    ensures Snapshotted(e, d).Failure? ==> Snapshotted(e, d).error == InvalidContent
  {
    hide Recovered, SnapshotSha;
  }

  lemma SyncErrors(d: Disk, generation: nat, phase: IoPhase, next: IoPhase)
    ensures SyncIo(d, generation, phase, next).error != Some(RepairChanged)
    ensures d.fault.None? && d.phase == phase && Active(d, generation) ==>
              SyncIo(d, generation, phase, next).error.None?
  {
  }

  lemma TruncatePhase(d: Disk, generation: nat, target: nat)
    ensures var r := TruncateIo(d, generation, target);
            && (r.error.None? ==> d.phase == RepairTruncate)
            && r.error != Some(RepairChanged)
            && |r.disk.backing| == |d.backing|
            && r.disk.fault == d.fault
    ensures d.fault.None? && d.phase == RepairTruncate && Active(d, generation)
            && d.authority.repairGeneration == generation
            && d.authority.repairTarget == target && HEADER_BYTES <= target < d.length ==>
              TruncateIo(d, generation, target).error.None?
  {
  }

  // ---------------------------------------------------------------------------------------
  // Crashing
  // ---------------------------------------------------------------------------------------

  /**
   * Every persistence point within the bounds leaves an accepted stream: the records that are
   * whole in it are among those that were whole before, and none of the durable ones is lost.
   */
  lemma CrashKeeps(e: Env, d: Disk, p: nat)
    requires Sound(e, d)
    ensures Keeps(e, d, CrashPersist(d, p))
    ensures CrashLower(d) <= p <= CrashUpper(d) ==>
              var after := CrashPersist(d, p);
              var before := Recovered(e.sha, d.Stream(), e.header).value;
              var left := Recovered(e.sha, after.Stream(), e.header).value;
              && after.length == after.synced == p && after.activeGeneration == 0
              && Durable(d) <= WholeRecords(p) <= |before.records|
              && left.records == before.records[..WholeRecords(p)]
  {
    hide Recovered, WholeRecords;
    KeepsSelf(e, d);
    if CrashLower(d) <= p <= CrashUpper(d) {
      CrashStream(e, d, p);
      CrashWhole(d, p);
      KeepsBecause(e, d, CrashPersist(d, p));
    }
  }

  lemma CrashWhole(d: Disk, p: nat)
    requires HEADER_BYTES <= CrashLower(d) <= p <= CrashUpper(d)
    ensures Durable(d) <= WholeRecords(p)
  {
  }

  lemma CrashStream(e: Env, d: Disk, p: nat)
    requires Sound(e, d) && CrashLower(d) <= p <= CrashUpper(d)
    ensures var before := Recovered(e.sha, d.Stream(), e.header).value;
            var left := Recovered(e.sha, d.backing[..p], e.header);
            && left.Success? && WholeRecords(p) <= |before.records|
            && left.value.records == before.records[..WholeRecords(p)]
            && p < Boundary(WholeRecords(p) + 1)
  {
    hide Recovered, WholeRecords, Replay, Committed;
    BoundaryOf(p);
    var b := d.Stream();
    if p <= d.length {
      assert d.backing[..p] == b[..p];
      PrefixRecovers(e.sha, b, e.header, p);
    } else {
      var c := d.backing[..p];
      var n := WholeRecords(d.length);
      BoundaryOf(d.length);
      WholeRecordsUnique(p, n);
      assert b[..Boundary(n)] == c[..Boundary(n)];
      SameCommittedBytes(e.sha, b, c, e.header);
      RecordsCounted(e, b);
      var before := Recovered(e.sha, b, e.header).value;
      assert before.records[..n] == before.records;
    }
  }

  lemma RecordsCounted(e: Env, b: Bytes)
    requires Recovered(e.sha, b, e.header).Success?
    ensures |Recovered(e.sha, b, e.header).value.records| == WholeRecords(|b|)
  {
    hide Recovered, Replay, NextRecord;
    RecoveredExactly(e.sha, b, e.header);
  }
}
