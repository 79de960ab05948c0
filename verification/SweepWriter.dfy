/**
 * Appending sweep records to crash storage and repairing torn tails
 * (bench/continuation_object_sweep_writer.py). The fault model is the one of OutboxStorage:
 * one faulted call, possibly after a partial write, and any persisted length in the bounds.
 */
module SweepWriter {
  import opened Bytes
  import opened Outbox
  import opened ObjectStore
  import opened SweepRecord
  import opened SweepRecovery
  import D = OutboxStorage
  import Steps = OutboxStorageSteps

  const WRITER_SNAPSHOT_DOMAIN := Ascii("glacier-continuation-sweep-writer-snapshot-v1\0")
  const WRITER_ABI: u64 := 0x4743_5357_0000_0001

  datatype WriterError =
    | StaleCapability | WrongPhase | IncompleteTail | CorruptStream | NotRecognised
    | MustReopen | SequenceExhausted | NotARecord | WrongPosition | StreamFull
    | RepairNotRequired | RepairNotBound | Io(error: D.StoreError)

  datatype Handle = Idle | Poisoned | Complete

  /** What a lease observed: enough to recognise the same bytes again. */
  datatype Observed = Observed(
    generation: nat, bytes: nat, maximum: nat, streamSha: Digest, snapshotSha: Digest)

  /** The disk and the length that a repair was prepared for. */
  datatype Session = Session(disk: D.Disk, repairExpected: nat)

  datatype Writer = Writer(
    capability: Observed, epoch: u64, position: Position, committedBytes: nat,
    exhausted: bool, state: Handle)

  function Observe(cfg: Config, epoch: u64, generation: nat, stream: Bytes, maximum: nat)
    : Observed
  {
    var root := cfg.sha(stream);
    Observed(generation, |stream|, maximum, root,
             cfg.sha(WRITER_SNAPSHOT_DOMAIN + LE64(WRITER_ABI) + LE64(epoch) + Word(generation)
                     + Word(|stream|) + Word(maximum) + root))
  }

  /** The stream is, as far as its digest tells, the one that was observed. */
  predicate Recognises(cfg: Config, epoch: u64, o: Observed, stream: Bytes) {
    && epoch != 0 && o.generation != 0 && |stream| <= o.maximum
    && Observe(cfg, epoch, o.generation, stream, o.maximum) == o
  }

  predicate HoldsAppend(d: D.Disk, o: Observed, bytes: nat) {
    && D.Active(d, o.generation) && d.authority.appendGeneration == o.generation
    && d.authority.appendSnapshot == o.snapshotSha && d.length == bytes
  }

  /** A writer at the end of a clean stream. */
  function OpenClean(cfg: Config, storageEpoch: u64, d: D.Disk, o: Observed, stream: Bytes,
    a: Anchor): Result<Writer, WriterError>
  {
    if !HoldsAppend(d, o, o.bytes) then Failure(StaleCapability)
    else if !Recognises(cfg, storageEpoch, o, stream) || !ValidAnchor(a) then Failure(NotRecognised)
    else
      var v := Classify(cfg, a.epoch, stream, Origin(a));
      if v.status == CorruptRecord then Failure(CorruptStream)
      else if v.status != StreamClean then Failure(IncompleteTail)
      else
        Success(Writer(o, a.epoch, v.next, v.CommittedBytes(),
                       v.records != 0 && v.next.sequence > U64_MAX, Idle))
  }

  /** The checks before any byte is written. */
  function Accept(cfg: Config, d: D.Disk, w: Writer, encoded: Bytes): Result<Decoded, WriterError>
  {
    if w.state != Idle then Failure(MustReopen)
    else if !HoldsAppend(d, w.capability, w.committedBytes) then Failure(StaleCapability)
    else if w.exhausted then Failure(SequenceExhausted)
    else
      var r := Decode(cfg, encoded);
      if r.Failure? then Failure(NotARecord)
      else if !MatchesAt(r.value, w.epoch, w.position) then Failure(WrongPosition)
      else if w.committedBytes + |encoded| > w.capability.maximum then Failure(StreamFull)
      else Success(r.value)
  }

  /** Body, sync, footer, sync, stopping at the first call that raises. */
  function AppendCalls(d: D.Disk, generation: nat, body: Bytes, footer: Bytes): (r: D.Effect)
    requires d.Bounded()
    ensures r.disk.Bounded()
  {
    var a := D.AppendIo(d, generation, D.BodyWrite, D.BodySync, body);
    if a.error.Some? then a
    else
      var b := D.SyncIo(a.disk, generation, D.BodySync, D.FooterWrite);
      if b.error.Some? then b
      else
        var f := D.AppendIo(b.disk, generation, D.FooterWrite, D.FooterSync, footer);
        if f.error.Some? then f
        else D.SyncIo(f.disk, generation, D.FooterSync, D.BodyWrite)
  }

  datatype Appended = Appended(disk: D.Disk, writer: Writer, reply: Result<Decoded, WriterError>)

  function AppendRecord(cfg: Config, d: D.Disk, w: Writer, encoded: Bytes): (r: Appended)
    requires d.Bounded()
    ensures r.disk.Bounded()
  {
    var accepted := Accept(cfg, d, w, encoded);
    if accepted.Failure? then Appended(d, w, Failure(accepted.error))
    else
      var io := AppendCalls(d, w.capability.generation, encoded[..BODY_BYTES],
                            encoded[BODY_BYTES..]);
      if io.error.Some? then
        Appended(io.disk, w.(state := Poisoned), Failure(Io(io.error.value)))
      else
        var next := Following(accepted.value);
        Appended(io.disk,
                 w.(position := next, committedBytes := w.committedBytes + |encoded|,
                    exhausted := next.sequence > U64_MAX),
                 Success(accepted.value))
  }

  // ---------------------------------------------------------------------------------------
  // Appending
  // ---------------------------------------------------------------------------------------

  /** A settled disk holds a clean stream, all of it synced. */
  predicate Settled(cfg: Config, d: D.Disk, a: Anchor) {
    && d.Bounded() && d.synced == d.length
    && Classify(cfg, a.epoch, d.Stream(), Origin(a)).status == StreamClean
  }

  /** The writer stands at the end of the settled stream. */
  predicate AtEnd(cfg: Config, d: D.Disk, w: Writer, a: Anchor)
    requires d.Bounded()
  {
    var v := Classify(cfg, a.epoch, d.Stream(), Origin(a));
    && w.epoch == a.epoch && w.position == v.next && w.committedBytes == d.length
    && (!w.exhausted ==> v.next.sequence <= U64_MAX)
    && w.capability.maximum == |d.backing|
  }

  /** `s` is the base stream followed by some prefix of one record. */
  predicate Partial(base: Bytes, record: Bytes, s: Bytes) {
    |base| <= |s| <= |base| + |record| && s == (base + record)[..|s|]
  }

  lemma OpenedAtEnd(cfg: Config, storageEpoch: u64, d: D.Disk, o: Observed, a: Anchor)
    requires Settled(cfg, d, a) && o.maximum == |d.backing|
    requires OpenClean(cfg, storageEpoch, d, o, d.Stream(), a).Success?
    ensures AtEnd(cfg, d, OpenClean(cfg, storageEpoch, d, o, d.Stream(), a).value, a)
  {
    hide Decode;
    CleanLength(cfg, a.epoch, d.Stream(), Origin(a));
    var v := Classify(cfg, a.epoch, d.Stream(), Origin(a));
    if v.records == 0 {
      NoRecords(cfg, a.epoch, d.Stream(), Origin(a));
    }
  }

  lemma NoRecords(cfg: Config, epoch: u64, stream: Bytes, at: Position)
    requires Classify(cfg, epoch, stream, at).records == 0
    ensures Classify(cfg, epoch, stream, at).next == at
  {
    hide Decode, TailStatus;
  }

  /** Where the four calls may have left a disk without residue, whatever the fault was. */
  lemma CallsLand(d: D.Disk, generation: nat, body: Bytes, footer: Bytes)
    requires d.Bounded() && d.synced <= d.length
    ensures var r := AppendCalls(d, generation, body, footer);
            && |r.disk.backing| == |d.backing|
            && d.synced <= r.disk.synced <= r.disk.length
            && Partial(d.Stream(), body + footer, r.disk.Stream())
            && (r.error.None? ==>
                  && r.disk.Stream() == d.Stream() + (body + footer)
                  && r.disk.synced == r.disk.length && r.disk.phase == D.BodyWrite
                  && r.disk.activeGeneration == d.activeGeneration
                  && r.disk.authority == d.authority)
  {
    hide D.AppendIo;
    var base := d.Stream();
    assert base + body + footer == base + (body + footer);
    Steps.AppendIoLands(d, generation, D.BodyWrite, D.BodySync, body);
    var a := D.AppendIo(d, generation, D.BodyWrite, D.BodySync, body);
    if a.error.None? {
      var b := D.SyncIo(a.disk, generation, D.BodySync, D.FooterWrite);
      assert b.disk.Stream() == base + body;
      if b.error.None? {
        Steps.AppendIoLands(b.disk, generation, D.FooterWrite, D.FooterSync, footer);
      } else {
        assert base + body == (base + (body + footer))[..b.disk.length];
      }
    } else {
      assert (base + body)[..a.disk.length] == (base + (body + footer))[..a.disk.length];
    }
  }

  /** The committed part of a classified stream is exactly `expected`. */
  predicate Commits(s: Bytes, v: Verdict, expected: Bytes) {
    v.CommittedBytes() <= |s| && s[..v.CommittedBytes()] == expected
  }

  /**
   * What survives of a clean base stream and one more record: never corrupt, the old records
   * or one more, one more only when all of it is there, and nothing else committed.
   */
  ghost predicate Survives(cfg: Config, a: Anchor, base: Bytes, record: Bytes, s: Bytes) {
    var n := Classify(cfg, a.epoch, base, Origin(a)).records;
    var v := Classify(cfg, a.epoch, s, Origin(a));
    && Partial(base, record, s) && v.status != CorruptRecord
    && (v.records == n || v.records == n + 1)
    && (v.records == n + 1 <==> |s| == |base| + ENCODED_BYTES)
    && (v.records == n + 1 ==> v.status == StreamClean && Commits(s, v, base + record))
    && (v.records == n ==> Commits(s, v, base) && (v.status == StreamClean <==> s == base))
  }

  /** `record` is one that may come next behind the clean stream `base`. */
  predicate Follows(cfg: Config, a: Anchor, base: Bytes, record: Bytes) {
    var v := Classify(cfg, a.epoch, base, Origin(a));
    && v.status == StreamClean
    && Decode(cfg, record).Success? && MatchesAt(Decode(cfg, record).value, a.epoch, v.next)
  }

  /** What a stream with a partial last record is classified as. */
  lemma PartialVerdict(cfg: Config, a: Anchor, base: Bytes, record: Bytes, s: Bytes)
    requires Follows(cfg, a, base, record)
    requires Partial(base, record, s)
    ensures Survives(cfg, a, base, record, s)
    ensures s == base + record ==>
              Classify(cfg, a.epoch, s, Origin(a)).next == Following(Decode(cfg, record).value)
  {
    hide Decode, Classify, TailStatus;
    var k := |s| - |base|;
    var more := record[..k];
    assert s == base + more;
    var before := Classify(cfg, a.epoch, base, Origin(a));
    CleanLength(cfg, a.epoch, base, Origin(a));
    PrefixStatus(cfg, a.epoch, record, before.next, k);
    ClassifyAppend(cfg, a.epoch, base, Origin(a), more);
    if k == ENCODED_BYTES {
      assert more == record && s == s[..|s|];
    } else {
      assert s[..|base|] == base;
      assert |s| < |base + record|;
    }
  }

  /**
   * Crash-safe append. From a settled disk, whatever record the writer accepts, whichever call
   * faults and however much of a write it lets through, the stream that survives a crash at any
   * persistence point is never corrupt; it holds the old records, or one more, and one more
   * only when the whole record survives; what is committed in it is exactly the old stream or
   * the old stream with the record. An append that returned always survives.
   */
  lemma CrashSafeAppend(cfg: Config, d: D.Disk, w: Writer, encoded: Bytes, a: Anchor, p: nat)
    requires Settled(cfg, d, a) && AtEnd(cfg, d, w, a)
    requires Accept(cfg, d, w, encoded).Success?
    requires var after := AppendRecord(cfg, d, w, encoded).disk;
             D.CrashLower(after) <= p <= D.CrashUpper(after)
    ensures var r := AppendRecord(cfg, d, w, encoded);
            && Survives(cfg, a, d.Stream(), encoded, D.CrashPersist(r.disk, p).Stream())
            && (r.reply.Success? ==>
                  D.CrashPersist(r.disk, p).Stream() == d.Stream() + encoded)
  {
    hide Decode, Classify, AppendCalls;
    var body, footer := encoded[..BODY_BYTES], encoded[BODY_BYTES..];
    assert body + footer == encoded;
    var g := w.capability.generation;
    CallsLand(d, g, body, footer);
    var after := AppendCalls(d, g, body, footer).disk;
    var r := AppendRecord(cfg, d, w, encoded);
    var s := after.backing[..p];
    assert s == D.CrashPersist(r.disk, p).Stream();
    assert s == after.Stream()[..p];
    assert (d.Stream() + encoded)[..after.length][..p] == (d.Stream() + encoded)[..p];
    PartialVerdict(cfg, a, d.Stream(), encoded, s);
    if r.reply.Success? {
      assert s == after.Stream();
    }
  }

  /** An append that returns leaves a settled disk with the writer at its end, ready for more. */
  lemma AppendStaysSettled(cfg: Config, d: D.Disk, w: Writer, encoded: Bytes, a: Anchor)
    requires Settled(cfg, d, a) && AtEnd(cfg, d, w, a)
    requires AppendRecord(cfg, d, w, encoded).reply.Success?
    ensures var r := AppendRecord(cfg, d, w, encoded);
            && Settled(cfg, r.disk, a) && AtEnd(cfg, r.disk, r.writer, a)
            && r.disk.Stream() == d.Stream() + encoded && r.writer.state == Idle
  {
    hide Decode, Classify, AppendCalls;
    var body, footer := encoded[..BODY_BYTES], encoded[BODY_BYTES..];
    assert body + footer == encoded;
    CallsLand(d, w.capability.generation, body, footer);
    assert d.Stream() + encoded == (d.Stream() + encoded)[..|d.Stream() + encoded|];
    PartialVerdict(cfg, a, d.Stream(), encoded, d.Stream() + encoded);
  }

  /** With room on the disk the calls fail only by the injected fault. */
  lemma AppendFailsOnlyByFault(cfg: Config, d: D.Disk, w: Writer, encoded: Bytes)
    requires d.Bounded() && d.phase == D.BodyWrite && w.capability.maximum == |d.backing|
    requires Accept(cfg, d, w, encoded).Success? && d.fault.None?
    ensures AppendRecord(cfg, d, w, encoded).reply.Success?
  {
    hide Decode;
  }

  // ---------------------------------------------------------------------------------------
  // Repairing
  // ---------------------------------------------------------------------------------------

  datatype RepairCapability = RepairCapability(generation: nat, snapshotSha: Digest)

  function PrepareRepair(cfg: Config, storageEpoch: u64, s: Session, o: Observed, stream: Bytes,
    a: Anchor): Result<Session, WriterError>
  {
    if !D.Active(s.disk, o.generation) then Failure(StaleCapability)
    else if s.disk.phase != D.BodyWrite then Failure(WrongPhase)
    else if !Recognises(cfg, storageEpoch, o, stream) || !ValidAnchor(a) then Failure(NotRecognised)
    else
      var v := Classify(cfg, a.epoch, stream, Origin(a));
      if v.status == StreamClean then Failure(RepairNotRequired)
      else if v.status == CorruptRecord then Failure(CorruptStream)
      else
        Success(Session(
          s.disk.(phase := D.RepairTruncate,
                  authority := D.Authority(0, ZERO_DIGEST, o.generation, o.snapshotSha,
                                           v.CommittedBytes())),
          o.bytes))
  }

  function Truncate(s: Session, c: RepairCapability): D.Effect {
    var d := s.disk;
    if d.authority.repairGeneration != c.generation
       || d.authority.repairSnapshot != c.snapshotSha then D.Effect(d, Some(D.StaleAuthority))
    else
      var entry := D.BeginEntry(d, c.generation, D.RepairTruncate, false);
      var begun := D.BeginDisk(d, c.generation, D.RepairTruncate);
      if entry.Refused? then D.Effect(begun, Some(entry.error))
      else if d.length != s.repairExpected || d.authority.repairTarget > s.repairExpected then
        D.Effect(begun, Some(D.RepairTargetChanged))
      else
        D.Effect(begun.(length := d.authority.repairTarget, phase := D.RepairSync),
                 if entry.fault.Some? then Some(D.Injected) else None)
  }

  datatype Repaired = Repaired(disk: D.Disk, repairer: Handle, error: Option<WriterError>)

  function ApplyRepair(s: Session, c: RepairCapability, repairer: Handle): Repaired {
    if repairer != Idle then Repaired(s.disk, repairer, Some(MustReopen))
    else if !D.Active(s.disk, c.generation) then
      Repaired(s.disk, repairer, Some(StaleCapability))
    else
      var t := Truncate(s, c);
      if t.error.Some? then Repaired(t.disk, Poisoned, Some(Io(t.error.value)))
      else
        var y := D.SyncIo(t.disk, c.generation, D.RepairSync, D.BodyWrite);
        if y.error.Some? then Repaired(y.disk, Poisoned, Some(Io(y.error.value)))
        else Repaired(y.disk, Complete, None)
  }

  /**
   * Repair gives the original stream back. On a settled disk whose stream ends in part of a
   * record, a prepared repair that returns leaves exactly the base stream, settled again; and
   * if it faults and the storage crashes instead, what survives still is the base stream with
   * a shorter part of the same record, ready to be repaired once more.
   */
  lemma RepairRestores(cfg: Config, storageEpoch: u64, s: Session, o: Observed, a: Anchor,
    base: Bytes, record: Bytes, repairer: Handle, p: nat)
    requires s.disk.Bounded() && s.disk.synced == s.disk.length
    requires Follows(cfg, a, base, record)
    requires Partial(base, record, s.disk.Stream())
    requires PrepareRepair(cfg, storageEpoch, s, o, s.disk.Stream(), a).Success?
    ensures var prepared := PrepareRepair(cfg, storageEpoch, s, o, s.disk.Stream(), a).value;
            var r := ApplyRepair(prepared, RepairCapability(o.generation, o.snapshotSha), repairer);
            && r.disk.Bounded()
            && (r.error.None? ==>
                  r.disk.Stream() == base && Settled(cfg, r.disk, a) && r.repairer == Complete)
            && (D.CrashLower(r.disk) <= p <= D.CrashUpper(r.disk) ==>
                  Partial(base, record, D.CrashPersist(r.disk, p).Stream()))
            && (repairer == Idle && s.disk.fault.None? ==> r.error.None?)
  {
    hide Decode, Classify, TailStatus;
    var stream := s.disk.Stream();
    PartialVerdict(cfg, a, base, record, stream);
    CleanLength(cfg, a.epoch, base, Origin(a));
    var prepared := PrepareRepair(cfg, storageEpoch, s, o, stream, a).value;
    var c := RepairCapability(o.generation, o.snapshotSha);
    var r := ApplyRepair(prepared, c, repairer);
    assert o.bytes == |stream|;
    assert prepared.disk.authority.repairTarget == |base|;
    assert r.disk.backing == s.disk.backing && |base| <= r.disk.length <= |stream|;
    assert r.disk.Stream() == stream[..r.disk.length];
    if D.CrashLower(r.disk) <= p <= D.CrashUpper(r.disk) {
      assert s.disk.backing[..p] == stream[..p];
      assert (base + record)[..|stream|][..p] == (base + record)[..p];
    }
  }
}
