/**
 * A run from a fresh start to a journal whose last record is visible and not durable: an
 * append whose footer sync faults, a release without a crash, and the storage opened again.
 */
module OutboxUnsynced {
  import opened Bytes
  import opened Outbox
  import opened OutboxLedger
  import opened OutboxWire
  import opened OutboxRecovery
  import opened OutboxLaws
  import opened OutboxPrinted
  import opened OutboxStorage
  import opened OutboxStorageSteps
  import opened OutboxStorageRuns
  import opened OutboxStorageProgress

  // ---------------------------------------------------------------------------------------
  // Snapshots of printed journals
  // ---------------------------------------------------------------------------------------

  /** A hash without zero digests and a journal under its pinned header. */
  ghost predicate Writable(e: Env, h: Header, records: seq<Record>, maximum: nat) {
    && NeverZero(e.sha) && e.epoch != 0 && e.header == h.headerSha
    && Journals(e.sha, h, records) && Boundary(|records|) <= maximum <= U64_MAX
  }

  lemma ReportCounts(sha: Sha, h: Header, records: seq<Record>, bytes: nat)
    requires Boundary(|records|) <= bytes < Boundary(|records| + 1)
    requires Replay(sha, h, records).Success? && Report(sha, h, records, bytes).Success?
    ensures Report(sha, h, records, bytes).value.ledger.committedRecords == |records|
  {
    hide StateSha, Conserved, ApplyNext;
    ReplayConserves(sha, h, records);
  }

  lemma ChainNonZero(sha: Sha, h: Header, records: seq<Record>)
    requires Journals(sha, h, records)
    ensures FinalChain(h, records) != ZERO_DIGEST && h.headerSha != ZERO_DIGEST
  {
    hide ValidRecord, HeaderPreimage, Replay;
    if records != [] {
      LastRecord(sha, h, records);
      RecordPinned(sha, h, records[|records| - 1]);
    }
  }

  /** The snapshot of a printed journal. */
  lemma PrintedSnapshot(e: Env, h: Header, records: seq<Record>, maximum: nat)
    requires Writable(e, h, records, maximum)
    ensures var s := ContentSnapshot(e, Printed(h, records), maximum);
            && s.Success? && s.value.status == Clean && s.value.committedRecords == |records|
            && s.value.finalChain == FinalChain(h, records)
            && Nameable(e, Printed(h, records), maximum)
  {
    hide ValidHeader, Journals, Replay, Recovered, Printed, WholeRecords, StateSha, LedgerSha,
      SnapshotSha, Report, Committed, DecodeHeader;
    var b := Printed(h, records);
    assert b[..|b|] == b;
    PrintedRecovers(e.sha, h, records, b);
    RecoveredExactly(e.sha, b, e.header);
    WholeRecordsUnique(|b|, |records|);
    JournalReplays(e.sha, h, records);
    ReportCounts(e.sha, h, records, |b|);
    ChainNonZero(e.sha, h, records);
    NonZeroRoots(e, b, maximum, Recovered(e.sha, b, e.header).value);
    NameableSnapshot(e, b, maximum);
    SnapshotMeans(e, b, maximum);
  }

  lemma JournalReplays(sha: Sha, h: Header, records: seq<Record>)
    requires Journals(sha, h, records)
    ensures Replay(sha, h, records).Success?
  {
  }

  lemma NonZeroRoots(e: Env, b: Bytes, maximum: nat, r: Recovery)
    requires NeverZero(e.sha) && Recovered(e.sha, b, e.header) == Success(r)
    requires |b| <= maximum <= U64_MAX && r.finalChain != ZERO_DIGEST
    ensures Nameable(e, b, maximum)
  {
    hide LE64, LE8, StatesParts, PackWords, Committed, DecodeHeader;
    RecoveredExactly(e.sha, b, e.header);
    StateNonZero(e.sha, r.header, r.records, |b|);
  }

  lemma StateNonZero(sha: Sha, h: Header, records: seq<Record>, bytes: nat)
    requires NeverZero(sha)
    requires Boundary(|records|) <= bytes < Boundary(|records| + 1)
    requires Replay(sha, h, records).Success?
    ensures Report(sha, h, records, bytes).Success? ==>
              Report(sha, h, records, bytes).value.stateSha != ZERO_DIGEST
  {
    hide Replay, StatesParts, PackWords, LE64;
  }

  // ---------------------------------------------------------------------------------------
  // Opening a writer
  // ---------------------------------------------------------------------------------------

  /** A free disk that holds exactly this journal. */
  ghost predicate Unleased(e: Env, d: Disk, h: Header, records: seq<Record>) {
    && Sound(e, d) && d.Stream() == Printed(h, records) && d.activeGeneration == 0
    && 0 < d.nextGeneration <= U64_MAX && Writable(e, h, records, |d.backing|)
  }

  /** A lease, an append capability and a writer stand ready behind this journal. */
  ghost predicate Poised(e: Env, d: Disk, l: Lease, c: AppendCapability, w: Writer, h: Header,
    records: seq<Record>)
  {
    && Sound(e, d) && d.Stream() == Printed(h, records)
    && Writable(e, h, records, |d.backing|)
    && d.phase == BodyWrite
    && l.state == LeaseReady && l.generation == c.generation <= U64_MAX
    && Snapshotted(e, d) == Success(l.snapshot) && c.snapshotSha == l.snapshot.snapshotSha
    && HasAuthority(d, c) && w == Writer(h, HandleReady)
  }

  lemma LeaseNamed(e: Env, s: Snapshot, generation: nat)
    requires NeverZero(e.sha) && e.epoch != 0 && 0 < generation <= U64_MAX
    ensures LeaseSha(e, s, generation).Success?
    ensures LeaseDigest(e, s, generation) != ZERO_DIGEST
  {
    hide LE64;
  }

  /** Acquiring succeeds and observes the clean journal. */
  lemma Acquires(e: Env, d: Disk, h: Header, records: seq<Record>)
    requires Unleased(e, d, h, records)
    ensures AcquireLease(e, d).Success?
    ensures var l, after := AcquireLease(e, d).value, AcquireDisk(d);
            && after.Bounded() && Sound(e, after) && after.Stream() == d.Stream()
            && after.fault.None? && after.synced == d.synced && after.phase == BodyWrite
            && l.generation == d.nextGeneration && l.state == LeaseReady
            && l.snapshot.status == Clean && Snapshotted(e, after) == Success(l.snapshot)
            && Active(after, l.generation) && MayMint(e, after, l)
  {
    hide Sound, ContentSnapshot, Journals, Printed, LeaseSha, LeaseDigest, Nameable, Replay,
      Recovered, PlanNonZero;
    BoundedSound(e, d);
    PrintedSnapshot(e, h, records, |d.backing|);
    ChainNonZero(e.sha, h, records);
    LeaseNamed(e, Snapshotted(e, d).value, d.nextGeneration);
    AcquireSucceeds(e, d);
  }

  lemma BoundedSound(e: Env, d: Disk)
    requires Sound(e, d)
    ensures d.Bounded()
  {
  }

  /** Acquire, mint and open. */
  function Opening(h: Header): seq<Action> {
    [Acquire, Mint(0), OpenWriter(0, h)]
  }

  /** The only lease, capability and writer of a system are ready behind this journal. */
  ghost predicate OneWriter(e: Env, s: Sys, h: Header, records: seq<Record>) {
    && Good(e, s) && |s.leases| == 1 && |s.appends| == 1 && |s.writers| == 1
    && s.appends[0].lease == 0 && s.writers[0].append == 0
    && Poised(e, s.disk, s.leases[0], s.appends[0].capability, s.writers[0].writer, h, records)
  }

  lemma OpensWriter(e: Env, s: Sys, h: Header, records: seq<Record>)
    requires Good(e, s) && Unleased(e, s.disk, h, records)
    requires s.leases == [] && s.appends == [] && s.writers == []
    ensures Linked(s) && Linked(Step(e, s, Acquire))
    ensures Linked(Step(e, Step(e, s, Acquire), Mint(0)))
    ensures var after := Step(e, Step(e, Step(e, s, Acquire), Mint(0)), OpenWriter(0, h));
            && OneWriter(e, after, h, records) && after.disk.fault.None?
            && |after.disk.backing| == |s.disk.backing| && after.disk.synced == s.disk.synced
            && after.disk.nextGeneration == s.disk.nextGeneration + 1
  {
    hide Good, Sound, ContentSnapshot, Printed, AcquireLease, MayMint, Writable, Snapshotted,
      Linked;
    GoodMeans(e, s);
    StepGood(e, s, Acquire);
    Acquires(e, s.disk, h, records);
    var one := Step(e, s, Acquire);
    GoodMeans(e, one);
    AcquireOnly(e, s);
    StepGood(e, one, Mint(0));
    var two := Step(e, one, Mint(0));
    GoodMeans(e, two);
    MintOnly(e, one);
    StepGood(e, two, OpenWriter(0, h));
    var three := Step(e, two, OpenWriter(0, h));
    GoodMeans(e, three);
    StillSnapshot(e, one.disk, two.disk);
  }

  lemma AcquireOnly(e: Env, s: Sys)
    requires Linked(s) && s.leases == [] && AcquireLease(e, s.disk).Success?
    requires s.disk.activeGeneration == 0 && s.disk.nextGeneration <= U64_MAX
    ensures var after := Step(e, s, Acquire);
            && after.leases == [AcquireLease(e, s.disk).value] && after.disk == AcquireDisk(s.disk)
            && after.appends == s.appends && after.writers == s.writers
            && after.disk.backing == s.disk.backing && after.disk.length == s.disk.length
            && after.disk.nextGeneration == s.disk.nextGeneration + 1
  {
    hide AcquireLease;
  }

  lemma MintOnly(e: Env, s: Sys)
    requires Linked(s) && |s.leases| == 1 && s.appends == [] && MayMint(e, s.disk, s.leases[0])
    ensures var after := Step(e, s, Mint(0));
            var l := s.leases[0];
            && after.leases == s.leases && after.writers == s.writers
            && after.appends
               == [AppendHandle(0, AppendCapability(l.generation, l.snapshot.snapshotSha))]
            && after.disk.backing == s.disk.backing && after.disk.length == s.disk.length
            && after.disk.synced == s.disk.synced && after.disk.phase == s.disk.phase
            && after.disk.fault == s.disk.fault
            && after.disk.nextGeneration == s.disk.nextGeneration
            && HasAuthority(after.disk, after.appends[0].capability)
  {
    hide SnapshotStill;
  }

  lemma StillSnapshot(e: Env, d: Disk, after: Disk)
    requires d.Bounded() && after.Bounded()
    requires after.backing == d.backing && after.length == d.length
    ensures Snapshotted(e, after) == Snapshotted(e, d) && after.Stream() == d.Stream()
  {
    hide ContentSnapshot;
  }

  // ---------------------------------------------------------------------------------------
  // Appending
  // ---------------------------------------------------------------------------------------

  /** The print of `r` is read back as the record after `records`. */
  predicate ReadsNext(sha: Sha, h: Header, records: seq<Record>, r: Record) {
    && |records| < U64_MAX
    && DecodeRecord(sha, h, |records| + 1, FinalChain(h, records), RecordPrint(r)) == Success(r)
  }

  lemma PrintedMore(sha: Sha, h: Header, records: seq<Record>, r: Record)
    requires Journals(sha, h, records + [r])
    ensures Printed(h, records + [r]) == Printed(h, records) + RecordPrint(r)
    ensures ReadsNext(sha, h, records, r)
  {
    hide DecodeRecord, ValidHeader, ValidRecord, Replay, RecordPrint, HeaderPrint, FinalChain;
    var all := records + [r];
    assert all[..|records|] == records && all[|records|] == r;
    LastRecord(sha, h, all);
    PrintDecodes(sha, h, r);
    assert all[|records|].previousJournal == FinalChain(h, records);
  }

  lemma PoisedMeans(e: Env, d: Disk, l: Lease, c: AppendCapability, w: Writer, h: Header,
    records: seq<Record>)
    requires Poised(e, d, l, c, w, h, records)
    ensures d.Bounded() && MayAppend(e, d, l, c) && d.length == Boundary(|records|)
    ensures l.snapshot.committedRecords == |records|
    ensures l.snapshot.finalChain == FinalChain(h, records)
  {
    hide ContentSnapshot, Printed, Journals, Recovered;
    PrintedSnapshot(e, h, records, |d.backing|);
    assert |d.Stream()| == d.length;
  }

  /** The next record of the journal passes the preflight. */
  lemma PreflightPasses(e: Env, d: Disk, l: Lease, c: AppendCapability, w: Writer, h: Header,
    records: seq<Record>, r: Record)
    requires Poised(e, d, l, c, w, h, records) && Writable(e, h, records + [r], |d.backing|)
    ensures d.Bounded() && d.Stream() + RecordPrint(r) == Printed(h, records + [r])
    ensures var p := Preflight(e, d, l, c, w, RecordPrint(r));
            p.Success? && p == ContentSnapshot(e, Printed(h, records + [r]), |d.backing|)
  {
    hide ContentSnapshot, Printed, Journals, DecodeRecord, MayAppend, RecordPrint, FinalChain,
      Recovered, Snapshotted, Sound;
    PoisedMeans(e, d, l, c, w, h, records);
    PrintedMore(e.sha, h, records, r);
    PrintedSnapshot(e, h, records + [r], |d.backing|);
  }

  /** What a returned append leaves as it was. */
  lemma ReturnedFrame(e: Env, d: Disk, l: Lease, c: AppendCapability, w: Writer, encoded: Bytes)
    requires d.Bounded() && AppendRecord(e, d, l, c, w, encoded).error.None?
    ensures var r := AppendRecord(e, d, l, c, w, encoded);
            && r.lease.generation == l.generation && r.lease.state == l.state
            && r.capability.generation == c.generation && r.writer.header == w.header
            && r.disk.phase == BodyWrite && r.disk.nextGeneration == d.nextGeneration
            && |r.disk.backing| == |d.backing|
  {
    hide Preflight, AppendCalls, ContentSnapshot, LeaseSha;
    PreflightLength(e, d, l, c, w, encoded);
    AppendCallsLand(d, c, encoded[..RECORD_BODY_BYTES], encoded[RECORD_BODY_BYTES..]);
  }

  lemma AppendsMore(e: Env, d: Disk, l: Lease, c: AppendCapability, w: Writer, h: Header,
    records: seq<Record>, r: Record)
    requires Poised(e, d, l, c, w, h, records) && d.fault.None?
    requires Writable(e, h, records + [r], |d.backing|)
    ensures d.Bounded()
    ensures var a := AppendRecord(e, d, l, c, w, RecordPrint(r));
            && a.error.None? && a.disk.synced == a.disk.length
            && a.disk.nextGeneration == d.nextGeneration && |a.disk.backing| == |d.backing|
            && Poised(e, a.disk, a.lease, a.capability, a.writer, h, records + [r])
  {
    hide ContentSnapshot, Printed, Journals, AppendRecord, RecordPrint, Preflight, Recovered,
      LeaseSha, WholeRecords;
    PreflightPasses(e, d, l, c, w, h, records, r);
    LeaseNamed(e, Preflight(e, d, l, c, w, RecordPrint(r)).value, l.generation);
    AppendReturns(e, d, l, c, w, RecordPrint(r));
    ReturnedFrame(e, d, l, c, w, RecordPrint(r));
    AppendRecordKeeps(e, d, l, c, w, RecordPrint(r));
    KeepsSound(e, d, AppendRecord(e, d, l, c, w, RecordPrint(r)).disk);
  }

  const FOOTER_SYNC_FAULT := Some(Fault(3, true, None))

  /** The four calls when the last one faults before it syncs. */
  lemma FooterSyncFaults(d: Disk, c: AppendCapability, body: Bytes, footer: Bytes)
    requires d.Bounded() && HasAuthority(d, c) && d.phase == BodyWrite
    requires d.fault == FOOTER_SYNC_FAULT && d.callIndex == 0
    requires d.length + |body| + |footer| <= |d.backing|
    ensures var r := AppendCalls(d, c, body, footer);
            && r.error == Some(Injected) && r.disk.length == d.length + |body| + |footer|
            && r.disk.synced == d.length + |body|
  {
  }

  /** The record is visible and not durable when the footer sync faults. */
  lemma AppendsUnsynced(e: Env, d: Disk, l: Lease, c: AppendCapability, w: Writer, h: Header,
    records: seq<Record>, r: Record)
    requires Poised(e, d, l, c, w, h, records)
    requires d.fault == FOOTER_SYNC_FAULT && d.callIndex == 0
    requires Writable(e, h, records + [r], |d.backing|)
    ensures d.Bounded()
    ensures var a := AppendRecord(e, d, l, c, w, RecordPrint(r));
            && a.error == Some(Injected) && a.disk.Stream() == Printed(h, records + [r])
            && a.disk.synced == Boundary(|records|) + RECORD_BODY_BYTES
            && a.disk.nextGeneration == d.nextGeneration
            && a.disk.activeGeneration == d.activeGeneration
            && |a.disk.backing| == |d.backing| && a.lease == l
  {
    hide ContentSnapshot, Printed, Journals, RecordPrint, Preflight, Recovered, AppendCalls,
      WholeRecords;
    PreflightPasses(e, d, l, c, w, h, records, r);
    PoisedMeans(e, d, l, c, w, h, records);
    var encoded := RecordPrint(r);
    var body, footer := encoded[..RECORD_BODY_BYTES], encoded[RECORD_BODY_BYTES..];
    FooterSyncFaults(d, c, body, footer);
    AppendCallsLand(d, c, body, footer);
    assert d.Stream() + body + footer == d.Stream() + encoded;
    assert (d.Stream() + encoded)[..|d.Stream() + encoded|] == d.Stream() + encoded;
  }
}
