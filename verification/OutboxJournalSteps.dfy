/**
 * What a storage action does to the journal that recovery reads back: it appends one whole
 * record, keeps the records, or loses some that were not durable.
 */
module OutboxJournalSteps {
  import opened Bytes
  import opened Outbox
  import opened OutboxWire
  import opened OutboxRecovery
  import opened OutboxLaws
  import opened OutboxStorage
  import opened OutboxStorageSteps
  import opened OutboxStorageRuns

  /** The journal that recovery reads from the visible stream. */
  function Journal(e: Env, d: Disk): Recovery
    requires d.Bounded() && Recovered(e.sha, d.Stream(), e.header).Success?
  {
    Recovered(e.sha, d.Stream(), e.header).value
  }

  ghost predicate Readable(e: Env, d: Disk) {
    d.Bounded() && Recovered(e.sha, d.Stream(), e.header).Success?
  }

  /** The records after are the first of those before, and no durable one is missing. */
  ghost predicate JournalCut(e: Env, d: Disk, after: Disk) {
    && Readable(e, d) && Readable(e, after)
    && HEADER_BYTES <= CrashLower(d) && HEADER_BYTES <= CrashLower(after)
    && Journal(e, after).header == Journal(e, d).header
    && Durable(d) <= Durable(after) <= |Journal(e, after).records| <= |Journal(e, d).records|
    && Journal(e, after).records == Journal(e, d).records[..|Journal(e, after).records|]
  }

  /** Exactly the record that `encoded` decodes to came behind the old ones. */
  ghost predicate JournalGrown(e: Env, d: Disk, after: Disk, encoded: Bytes) {
    && Readable(e, d) && Readable(e, after)
    && HEADER_BYTES <= CrashLower(d) && HEADER_BYTES <= CrashLower(after)
    && Journal(e, after).header == Journal(e, d).header
    && Durable(d) <= Durable(after) <= |Journal(e, after).records|
    && var next := NextRecord(e.sha, Journal(e, d).header, Journal(e, d).records, encoded);
       next.Success? && Journal(e, after).records == Journal(e, d).records + [next.value]
  }

  lemma DurableCounted(e: Env, d: Disk)
    requires Sound(e, d)
    ensures Readable(e, d) && HEADER_BYTES <= CrashLower(d)
    ensures Durable(d) <= WholeRecords(d.length) == |Journal(e, d).records|
  {
    hide Recovered, WholeRecords;
    RecordsCounted(e, d.Stream());
    WholeRecordsMonotone(CrashLower(d), d.length);
  }

  lemma WholeOf(e: Env, b: Bytes)
    requires Recovered(e.sha, b, e.header).Success?
    ensures HEADER_BYTES <= |b|
    ensures |Recovered(e.sha, b, e.header).value.records| == WholeRecords(|b|)
  {
    hide Recovered, WholeRecords;
    RecordsCounted(e, b);
  }

  /** Keeping all whole records of the stream cuts nothing from the journal. */
  lemma CutStream(e: Env, d: Disk, after: Disk)
    requires Keeps(e, d, after)
    requires HEADER_BYTES <= after.length <= d.length
    requires after.Stream() == d.Stream()[..after.length]
    ensures JournalCut(e, d, after)
  {
    hide Recovered, WholeRecords, Sound;
    KeepsSound(e, d, after);
    KeepsCounts(e, d, after);
    DurableCounted(e, d);
    DurableCounted(e, after);
    PrefixRecovers(e.sha, d.Stream(), e.header, after.length);
  }

  lemma SameStream(e: Env, d: Disk, after: Disk)
    requires Keeps(e, d, after)
    requires after.Stream() == d.Stream()
    ensures JournalCut(e, d, after)
  {
    hide Recovered, WholeRecords;
    assert d.Stream()[..after.length] == d.Stream();
    CutStream(e, d, after);
  }

  /** The stream of `n` whole records followed by one more accepted frame. */
  lemma AppendedJournal(e: Env, b: Bytes, encoded: Bytes)
    requires Recovered(e.sha, b, e.header).Success?
    requires HEADER_BYTES <= |b| == Boundary(WholeRecords(|b|)) && |encoded| == RECORD_BYTES
    requires Recovered(e.sha, b + encoded, e.header).Success?
    ensures var before := Recovered(e.sha, b, e.header).value;
            var after := Recovered(e.sha, b + encoded, e.header).value;
            var next := NextRecord(e.sha, before.header, before.records, encoded);
            && after.header == before.header
            && next.Success? && after.records == before.records + [next.value]
  {
    hide Recovered, NextRecord, Replay, DecodeHeader;
    var all := b + encoded;
    var n := WholeRecords(|b|);
    WholeRecordsUnique(|all|, n + 1);
    assert all[..HEADER_BYTES] == b[..HEADER_BYTES];
    RecoveredExactly(e.sha, b, e.header);
    RecoveredExactly(e.sha, all, e.header);
    var h := Recovered(e.sha, b, e.header).value.header;
    assert all[..Boundary(n)] == b[..Boundary(n)];
    CommittedTake(e.sha, h, all, n + 1, n);
    CommittedAgree(e.sha, h, all, b, n);
    assert all[Boundary(n)..Boundary(n + 1)] == encoded;
  }

  /** Some prefix of `encoded` landed behind the old stream. */
  ghost predicate LandedBytes(d: Disk, after: Disk, encoded: Bytes)
    requires d.Bounded()
  {
    && after.Bounded() && d.length <= after.length <= d.length + |encoded|
    && after.Stream() == (d.Stream() + encoded)[..after.length]
  }

  /** A landed append leaves the old journal, or the old journal and the new record. */
  lemma LandedJournal(e: Env, d: Disk, after: Disk, encoded: Bytes)
    requires Keeps(e, d, after) && LandedBytes(d, after, encoded)
    requires |encoded| == RECORD_BYTES && d.length == Boundary(WholeRecords(d.length))
    requires Recovered(e.sha, d.Stream() + encoded, e.header).Success?
    ensures JournalCut(e, d, after) || JournalGrown(e, d, after, encoded)
  {
    hide Recovered, NextRecord, Sound, Keeps;
    KeepsSound(e, d, after);
    KeepsCounts(e, d, after);
    DurableCounted(e, d);
    DurableCounted(e, after);
    var whole := d.Stream() + encoded;
    AppendedJournal(e, d.Stream(), encoded);
    PrefixRecovers(e.sha, whole, e.header, after.length);
    var n := WholeRecords(d.length);
    WholeOf(e, whole);
    WholeRecordsUnique(|whole|, n + 1);
    var records := Recovered(e.sha, whole, e.header).value.records;
    if after.length == |whole| {
      assert records[..n + 1] == records;
    } else {
      WholeRecordsUnique(after.length, n);
      assert records[..n] == Journal(e, d).records;
    }
  }

  lemma AppendJournal(e: Env, d: Disk, l: Lease, c: AppendCapability, w: Writer, encoded: Bytes)
    requires Sound(e, d)
    ensures var after := AppendRecord(e, d, l, c, w, encoded).disk;
            JournalCut(e, d, after) || JournalGrown(e, d, after, encoded)
  {
    hide Recovered, Preflight, AppendCalls, ContentSnapshot, LeaseSha, Sound, JournalCut,
      JournalGrown, WholeRecords, Keeps, Landed;
    SoundLength(e, d);
    AppendRecordKeeps(e, d, l, c, w, encoded);
    var after := AppendRecord(e, d, l, c, w, encoded).disk;
    KeepsSound(e, d, after);
    if Preflight(e, d, l, c, w, encoded).Success? {
      PreflightMeans(e, d, l, c, w, encoded);
      var body, footer := encoded[..RECORD_BODY_BYTES], encoded[RECORD_BODY_BYTES..];
      assert encoded == body + footer;
      AppendCallsLand(d, c, body, footer);
      AppendRecordIo(e, d, l, c, w, encoded);
      SoundLength(e, d);
      LandedSame(d, AppendCalls(d, c, body, footer).disk, after, body, footer);
      LandedJournal(e, d, after, encoded);
    } else {
      SameStream(e, d, after);
    }
  }

  lemma SoundLength(e: Env, d: Disk)
    requires Sound(e, d)
    ensures d.Bounded() && HEADER_BYTES <= d.length
  {
  }

  /** After the four calls only the append snapshot changes. */
  lemma AppendRecordIo(e: Env, d: Disk, l: Lease, c: AppendCapability, w: Writer, encoded: Bytes)
    requires d.Bounded() && Preflight(e, d, l, c, w, encoded).Success?
    requires |encoded| == RECORD_BYTES
    ensures var io := AppendCalls(d, c, encoded[..RECORD_BODY_BYTES],
                                  encoded[RECORD_BODY_BYTES..]).disk;
            var after := AppendRecord(e, d, l, c, w, encoded).disk;
            && after.backing == io.backing && after.length == io.length
            && after.synced == io.synced && after.activeGeneration == io.activeGeneration
            && after.nextGeneration == io.nextGeneration && after.phase == io.phase
  {
    hide Preflight, AppendCalls, ContentSnapshot, LeaseSha;
  }

  lemma LandedSame(d: Disk, io: Disk, after: Disk, body: Bytes, footer: Bytes)
    requires d.Bounded() && Landed(d, io, body, footer)
    requires after.backing == io.backing && after.length == io.length
    requires after.synced == io.synced
    ensures LandedBytes(d, after, body + footer)
  {
    assert d.Stream() + (body + footer) == d.Stream() + body + footer;
    assert after.Stream() == io.Stream();
  }

  /** A repair drops at most the torn tail. */
  lemma RepairJournal(e: Env, d: Disk, l: Lease, c: RepairCapability, repairer: HandleState)
    requires Sound(e, d)
    ensures JournalCut(e, d, ApplyRepair(e, d, l, c, repairer).disk)
  {
    hide Recovered, ContentSnapshot, Sound, Keeps, JournalCut, WholeRecords;
    SoundLength(e, d);
    ApplyRepairKeeps(e, d, l, c, repairer);
    var after := ApplyRepair(e, d, l, c, repairer).disk;
    KeepsSound(e, d, after);
    SoundLength(e, after);
    assert after.backing == d.backing && after.length <= d.length;
    assert after.Stream() == d.Stream()[..after.length];
    CutStream(e, d, after);
  }

  lemma CrashJournal(e: Env, d: Disk, p: nat)
    requires Sound(e, d)
    ensures JournalCut(e, d, CrashPersist(d, p))
    ensures CrashLower(d) <= p <= CrashUpper(d) ==>
              Durable(CrashPersist(d, p)) == |Journal(e, CrashPersist(d, p)).records|
  {
    hide Recovered, Sound, Keeps, WholeRecords;
    CrashKeeps(e, d, p);
    var after := CrashPersist(d, p);
    KeepsSound(e, d, after);
    KeepsCounts(e, d, after);
    DurableCounted(e, d);
    DurableCounted(e, after);
    if CrashLower(d) <= p <= CrashUpper(d) {
      CrashHeader(e, d, p);
    } else {
      SameStream(e, d, after);
    }
  }

  /** Every crash point keeps the header bytes. */
  lemma CrashHeader(e: Env, d: Disk, p: nat)
    requires Sound(e, d) && CrashLower(d) <= p <= CrashUpper(d)
    requires Readable(e, CrashPersist(d, p))
    ensures Journal(e, CrashPersist(d, p)).header == Journal(e, d).header
  {
    hide Recovered, DecodeHeader, Committed, WholeRecords;
    var after := CrashPersist(d, p);
    assert after.Stream()[..HEADER_BYTES] == d.Stream()[..HEADER_BYTES];
    RecoveredExactly(e.sha, d.Stream(), e.header);
    RecoveredExactly(e.sha, after.Stream(), e.header);
  }

  /** What each storage action does to the journal. */
  lemma ActionJournal(e: Env, s: Sys, a: Action)
    requires Good(e, s)
    ensures var after := Step(e, s, a).disk;
            if a.Append? then
              JournalCut(e, s.disk, after) || JournalGrown(e, s.disk, after, a.encoded)
            else JournalCut(e, s.disk, after)
  {
    hide Recovered, ContentSnapshot, WholeRecords, MakeRepairPlan, Sound, LeaseGood, Keeps,
      JournalCut, JournalGrown, AppendRecord, ApplyRepair, CrashPersist, RepairGood, AppendGood;
    StepGood(e, s, a);
    var after := Step(e, s, a).disk;
    KeepsSound(e, s.disk, after);
    if a.Append? {
      if a.writer < |s.writers| {
        var handle := s.appends[s.writers[a.writer].append];
        AppendJournal(e, s.disk, s.leases[handle.lease], handle.capability,
                      s.writers[a.writer].writer, a.encoded);
      } else {
        SameStream(e, s.disk, after);
      }
    } else if a.Repair? && a.repairer < |s.repairers| {
      var handle := s.repairs[s.repairers[a.repairer].repair];
      RepairJournal(e, s.disk, s.leases[handle.lease], handle.capability,
                    s.repairers[a.repairer].state);
    } else if a.Crash? {
      CrashJournal(e, s.disk, a.persisted);
    } else {
      QuietStep(e, s, a);
      SameStream(e, s.disk, after);
    }
  }

  lemma QuietStep(e: Env, s: Sys, a: Action)
    requires Good(e, s) && !a.Append? && !a.Crash?
    requires a.Repair? ==> a.repairer >= |s.repairers|
    ensures Step(e, s, a).disk.backing == s.disk.backing
    ensures Step(e, s, a).disk.length == s.disk.length
  {
    hide Recovered, ContentSnapshot, WholeRecords, MakeRepairPlan, Sound, LeaseGood,
      SnapshotStill, RepairGood, AppendGood, Good;
    GoodMeans(e, s);
  }
}
