/**
 * A run that leaves a watermark above the stream and then loses the stream: a repair whose
 * sync faults, the storage reopened without a crash, and an append cut short before a crash.
 */
module SweepResidue {
  import opened Bytes
  import opened ObjectStore
  import opened ObjectStoreReclaim
  import opened ObjectSweep
  import opened SweepRecord
  import opened SweepRecovery
  import opened SweepWriter
  import opened SweepCrash
  import D = OutboxStorage

  // ---------------------------------------------------------------------------------------
  // Leases of the sweep storage
  // ---------------------------------------------------------------------------------------

  /** What acquiring the storage observes. */
  function Opening(cfg: Config, storageEpoch: u64, d: D.Disk): Observed
    requires d.Bounded()
  {
    Observe(cfg, storageEpoch, d.nextGeneration, d.Stream(), |d.backing|)
  }

  /** Releasing a lease leaves everything but the active generation. */
  function Released(d: D.Disk): D.Disk {
    d.(activeGeneration := 0)
  }

  /** The append authority that a lease on unchanged content may take. */
  function Minted(d: D.Disk, o: Observed): D.Disk {
    if !D.Active(d, o.generation) || d.phase != D.BodyWrite || d.length != o.bytes
       || d.authority.appendGeneration != 0 then d
    else
      d.(authority := d.authority.(appendGeneration := o.generation,
                                   appendSnapshot := o.snapshotSha))
  }

  // ---------------------------------------------------------------------------------------
  // The run
  // ---------------------------------------------------------------------------------------

  const SYNC_FAULT := Some(D.Fault(1, true, None))

  /** A new storage whose stream ends in the body of `record`. */
  function TornDisk(base: Bytes, record: Bytes, maximum: nat): (d: D.Disk)
    requires |record| == ENCODED_BYTES && |base| + ENCODED_BYTES <= maximum
    ensures d.Bounded()
  {
    D.NewDisk(base + record[..BODY_BYTES], maximum)
  }

  /** The repair of its tail, faulted before the sync. */
  function FaultedRepair(cfg: Config, storageEpoch: u64, torn: D.Disk, a: Anchor): (r: Repaired)
    requires torn.Bounded()
  {
    var o := Opening(cfg, storageEpoch, torn);
    var d := D.AcquireDisk(torn);
    var prepared := PrepareRepair(cfg, storageEpoch, Session(d, 0), o, torn.Stream(), a);
    if prepared.Failure? then Repaired(d, Idle, Some(prepared.error))
    else
      ApplyRepair(prepared.value.(disk := D.SetFault(prepared.value.disk, SYNC_FAULT)),
                  RepairCapability(o.generation, o.snapshotSha), Idle)
  }

  /** The storage released and acquired again, with append authority. */
  function Reopened(cfg: Config, storageEpoch: u64, d: D.Disk): D.Disk
    requires d.Bounded()
  {
    Minted(D.AcquireDisk(Released(d)), Opening(cfg, storageEpoch, Released(d)))
  }

  lemma TornStream(base: Bytes, record: Bytes, maximum: nat)
    requires |record| == ENCODED_BYTES && |base| + ENCODED_BYTES <= maximum
    ensures var d := TornDisk(base, record, maximum);
            && d.Stream() == base + record[..BODY_BYTES] && |d.backing| == maximum
            && d.length == d.synced == |base| + BODY_BYTES && d.activeGeneration == 0
            && d.nextGeneration == 1
            && d.backing[..|base|] == base
            && d.backing[|base|..|base| + BODY_BYTES] == record[..BODY_BYTES]
  {
    var d := TornDisk(base, record, maximum);
    var s := d.Stream();
    assert s[..|base|] == base && s[|base|..] == record[..BODY_BYTES];
    assert d.backing[..|base|] == s[..|base|];
    assert d.backing[|base|..|base| + BODY_BYTES] == s[|base|..];
  }

  /** The faulted repair cut the stream and left the watermark where it was. */
  lemma RepairFaults(cfg: Config, storageEpoch: u64, a: Anchor, base: Bytes, record: Bytes,
    maximum: nat)
    requires storageEpoch != 0 && ValidAnchor(a) && Follows(cfg, a, base, record)
    requires |record| == ENCODED_BYTES && |base| + ENCODED_BYTES <= maximum
    ensures var torn := TornDisk(base, record, maximum);
            var r := FaultedRepair(cfg, storageEpoch, torn, a);
            && r.error == Some(Io(D.Injected)) && r.repairer == Poisoned
            && r.disk.backing == torn.backing && r.disk.length == |base|
            && r.disk.synced == |base| + BODY_BYTES && r.disk.nextGeneration == 2
  {
    hide Decode, Classify, Observe, TornDisk;
    var torn := TornDisk(base, record, maximum);
    TornStream(base, record, maximum);
    var s := torn.Stream();
    assert (base + record)[..|s|] == s;
    TornVerdict(cfg, a, base, record, s);
    ObserveShape(cfg, storageEpoch, 1, s, maximum);
  }

  lemma ObserveShape(cfg: Config, epoch: u64, generation: nat, stream: Bytes, maximum: nat)
    ensures var o := Observe(cfg, epoch, generation, stream, maximum);
            o.generation == generation && o.bytes == |stream| && o.maximum == maximum
  {
  }

  lemma TornVerdict(cfg: Config, a: Anchor, base: Bytes, record: Bytes, s: Bytes)
    requires Follows(cfg, a, base, record) && |record| == ENCODED_BYTES
    requires s == base + record[..BODY_BYTES]
    ensures var v := Classify(cfg, a.epoch, s, Origin(a));
            v.status == BodyOnly && v.CommittedBytes() == |base|
  {
    hide Decode, Classify, TailStatus;
    var before := Classify(cfg, a.epoch, base, Origin(a));
    CleanLength(cfg, a.epoch, base, Origin(a));
    PrefixStatus(cfg, a.epoch, record, before.next, BODY_BYTES);
    ClassifyAppend(cfg, a.epoch, base, Origin(a), record[..BODY_BYTES]);
  }

  /** Opened again, the clean stream has the body of the lost record as residue. */
  lemma ReopenedResidue(cfg: Config, storageEpoch: u64, a: Anchor, base: Bytes, record: Bytes,
    other: Bytes, maximum: nat)
    requires storageEpoch != 0 && ValidAnchor(a)
    requires Follows(cfg, a, base, record) && Follows(cfg, a, base, other)
    requires |record| == ENCODED_BYTES && |base| + ENCODED_BYTES <= maximum
    requires Classify(cfg, a.epoch, base, Origin(a)).next.sequence <= U64_MAX
    ensures var r := FaultedRepair(cfg, storageEpoch, TornDisk(base, record, maximum), a);
            r.disk.Bounded()
            && var d := Reopened(cfg, storageEpoch, r.disk);
               var o := Opening(cfg, storageEpoch, Released(r.disk));
               && d.Bounded() && d.Stream() == base && Residue(d) == record[..BODY_BYTES]
               && d.phase == D.BodyWrite
               && var w := OpenClean(cfg, storageEpoch, d, o, base, a);
                  w.Success? && Appendable(cfg, d, w.value, other, a)
  {
    hide Decode, Classify, Observe, TornDisk, FaultedRepair;
    TornStream(base, record, maximum);
    RepairFaults(cfg, storageEpoch, a, base, record, maximum);
    var r := FaultedRepair(cfg, storageEpoch, TornDisk(base, record, maximum), a);
    ObserveShape(cfg, storageEpoch, 2, base, maximum);
    CleanLength(cfg, a.epoch, base, Origin(a));
  }

  /**
   * The repair of the torn `record` faults, the storage is opened again on the clean stream,
   * `other` is accepted, its write is cut short, and a crash at the watermark is not sound.
   */
  ghost predicate Loses(cfg: Config, storageEpoch: u64, a: Anchor, base: Bytes, record: Bytes,
    other: Bytes, maximum: nat)
    requires |record| == ENCODED_BYTES && |base| + ENCODED_BYTES <= maximum
  {
    var r := FaultedRepair(cfg, storageEpoch, TornDisk(base, record, maximum), a);
    r.error == Some(Io(D.Injected)) && r.disk.Bounded()
    && var d := Reopened(cfg, storageEpoch, r.disk);
       var o := Opening(cfg, storageEpoch, Released(r.disk));
       && d.Bounded() && d.Stream() == base
       && var w := OpenClean(cfg, storageEpoch, d, o, base, a);
          && w.Success? && Appendable(cfg, d, w.value, other, a)
          && CrashPoint(cfg, D.SetFault(d, WITHIN_BODY), w.value, other, d.synced)
          && !Sound(cfg, d, w.value, other, a, WITHIN_BODY, d.synced)
  }

  /**
   * The stream is lost. After the faulted repair and the reopening, another record is accepted,
   * and when its write is cut short and the disk crashes at the old watermark, what survives
   * is corrupt.
   */
  lemma ResidueCorrupts(cfg: Config, storageEpoch: u64, a: Anchor, base: Bytes, record: Bytes,
    other: Bytes, maximum: nat)
    requires storageEpoch != 0 && ValidAnchor(a)
    requires Follows(cfg, a, base, record) && Follows(cfg, a, base, other)
    requires |record| == ENCODED_BYTES && |base| + ENCODED_BYTES <= maximum
    requires Classify(cfg, a.epoch, base, Origin(a)).next.sequence <= U64_MAX
    requires record[..BODY_PREFIX_BYTES] != other[..BODY_PREFIX_BYTES]
    requires BodiesApart(cfg, record[..BODY_BYTES], other)
    ensures Loses(cfg, storageEpoch, a, base, record, other, maximum)
  {
    hide Decode, Classify, FaultedRepair, Reopened, OpenClean, Appendable, Residue, Crashed,
      CrashPoint, ResidueFits, BodiesApart;
    ReopenedResidue(cfg, storageEpoch, a, base, record, other, maximum);
    RepairFaults(cfg, storageEpoch, a, base, record, maximum);
    var r := FaultedRepair(cfg, storageEpoch, TornDisk(base, record, maximum), a);
    var d := Reopened(cfg, storageEpoch, r.disk);
    var o := Opening(cfg, storageEpoch, Released(r.disk));
    var w := OpenClean(cfg, storageEpoch, d, o, base, a).value;
    var t := Residue(d);
    ResidueLength(d);
    AppendableMeans(cfg, d, w, other, a);
    ShownResidue(cfg, d, w, other, a);
    SequenceLeft(cfg, d, w, other, a);
    var at := Classify(cfg, a.epoch, base, Origin(a)).next;
    PrefixStatus(cfg, a.epoch, record, at, BODY_BYTES);
    var mixed := other[..BODY_PREFIX_BYTES] + t[BODY_PREFIX_BYTES..];
    TailDecides(cfg, a, base, mixed);
    if Sound(cfg, d, w, other, a, WITHIN_BODY, d.synced) {
      RootsMeet(cfg, t, other, a, at);
      FitsMeans(cfg, record, other, a);
    }
  }

  lemma ResidueLength(d: D.Disk)
    requires d.Bounded() && Residue(d) != []
    ensures d.length + |Residue(d)| == d.synced
  {
  }

  lemma AppendableMeans(cfg: Config, d: D.Disk, w: Writer, encoded: Bytes, a: Anchor)
    requires Appendable(cfg, d, w, encoded, a)
    ensures Decode(cfg, encoded).Success? && |encoded| == ENCODED_BYTES
  {
    hide Decode, Classify;
  }

  lemma FitsMeans(cfg: Config, record: Bytes, other: Bytes, a: Anchor)
    requires |record| == ENCODED_BYTES && Decode(cfg, other).Success?
    requires ResidueFits(cfg, record[..BODY_BYTES], other, a)
    ensures record[..BODY_PREFIX_BYTES] == other[..BODY_PREFIX_BYTES]
  {
    hide Decode;
    assert record[..BODY_PREFIX_BYTES] == record[..BODY_BYTES][..BODY_PREFIX_BYTES];
    assert other[..BODY_PREFIX_BYTES] == other[..BODY_BYTES][..BODY_PREFIX_BYTES];
  }

  // ---------------------------------------------------------------------------------------
  // Two records
  // ---------------------------------------------------------------------------------------

  function SampleGrant(): CommitGrant {
    CommitGrant(1, Repeated(1), Repeated(2), Repeated(3), Repeated(4), Repeated(5), Repeated(6),
                Repeated(7), 1, 1, Repeated(8))
  }

  /** The receipt of a commit that removed the only object, of one byte. */
  function SampleCommit(cfg: Config): CommitReceipt {
    var r := CommitReceipt(CommitGrantRoot(cfg, SampleGrant()), Repeated(9), Repeated(6),
                           Repeated(10), Accounting(1, 0, 0, 1, 1, INDEX_ENTRY_BYTES, 0, 0, 0),
                           Accounting(0, 0, 0, 0, 0, 0, 0, 0, 0), 1, 1, INDEX_ENTRY_BYTES, 0, 1,
                           ZERO_DIGEST);
    r.(commitSha := CommitRoot(cfg, r))
  }

  function SampleReceipt(cfg: Config): SweepReceipt {
    var s := SampleCommit(cfg);
    var r := SweepReceipt(CommitGrantRoot(cfg, SampleGrant()), Repeated(4), Repeated(5),
                          Repeated(7), s.targets, s.snapshotBefore, s.snapshotAfter, s.commitSha,
                          1, 1, INDEX_ENTRY_BYTES, 0, 1, ZERO_DIGEST);
    r.(commitSha := SweepCommitRoot(cfg, r))
  }

  /** A first record under the challenge that repeats `x`. */
  function Sample(cfg: Config, x: Byte): Input {
    Input(1, 1, ZERO_DIGEST, Repeated(x), SampleGrant(), SampleReceipt(cfg), SampleCommit(cfg))
  }

  lemma SampleEncodes(cfg: Config, x: Byte)
    requires NeverZero(cfg.sha) && x != 0
    ensures Encode(cfg, Sample(cfg, x)).Success?
  {
    hide ValidInput, LayoutOf, PrefixOf, SampleReceipt, SampleCommit, SampleGrant, Repeated;
    SampleReceiptValid(cfg);
    SampleCommitVerified(cfg);
    SampleValid(cfg, x);
  }

  lemma SampleValid(cfg: Config, x: Byte)
    requires VerifiedCommit(cfg, SampleGrant(), SampleReceipt(cfg), SampleCommit(cfg)) && x != 0
    ensures ValidInput(cfg, Sample(cfg, x))
  {
    hide VerifiedCommit, SampleGrant, SampleReceipt, SampleCommit, Repeated;
    RepeatedAt(x);
  }

  lemma SampleCommitVerified(cfg: Config)
    requires VerifiedReceipt(cfg, SampleCommit(cfg))
    requires SampleCommit(cfg).commitSha == CommitRoot(cfg, SampleCommit(cfg))
    requires SampleReceipt(cfg).commitSha == SweepCommitRoot(cfg, SampleReceipt(cfg))
    ensures VerifiedCommit(cfg, SampleGrant(), SampleReceipt(cfg), SampleCommit(cfg))
  {
    hide VerifiedReceipt, CommitGrantRoot, CommitRoot, SweepCommitRoot, Repeated;
    SampleGrantValid();
  }

  lemma SampleGrantValid()
    ensures ValidCommitGrant(SampleGrant())
  {
    hide Repeated;
    forall y: Byte ensures Repeated(y)[0] == y && (y != 0 ==> Repeated(y) != ZERO_DIGEST) {
      RepeatedAt(y);
    }
  }

  lemma SampleReceiptValid(cfg: Config)
    requires NeverZero(cfg.sha)
    ensures VerifiedReceipt(cfg, SampleCommit(cfg))
    ensures SampleCommit(cfg).commitSha == CommitRoot(cfg, SampleCommit(cfg))
    ensures SampleReceipt(cfg).commitSha == SweepCommitRoot(cfg, SampleReceipt(cfg))
    ensures SampleReceipt(cfg).commitSha != ZERO_DIGEST
  {
    hide LE64, Word, AccountingBytes, Repeated;
    forall y: Byte ensures Repeated(y)[0] == y && (y != 0 ==> Repeated(y) != ZERO_DIGEST) {
      RepeatedAt(y);
    }
  }

  // ---------------------------------------------------------------------------------------
  // An instance
  // ---------------------------------------------------------------------------------------

  const CHALLENGE_OFFSET := 80
  const FIRST_ANCHOR := Anchor(1, 1, ZERO_DIGEST)

  /** The challenge stands 80 bytes into a record. */
  lemma ChallengeAt(r: Input)
    requires Fits(CountList(r))
    ensures PrefixOf(LayoutOf(r))[CHALLENGE_OFFSET] == r.challenge[0]
  {
    hide PackWords;
    var f := LayoutOf(r);
    var p := LayoutParts(f);
    var b := PrefixOf(f);
    assert f.chain == [r.previous, r.challenge];
    assert Concat(p) == p[0] + Concat(p[1..]) && Concat(p[1..]) == p[1] + Concat(p[2..]);
    assert Concat(p[2..]) == p[2] + Concat(p[3..]);
    assert b[48..112] == JoinDigests(f.chain);
    assert f.chain[1..] == [r.challenge];
    assert JoinDigests(f.chain) == r.previous + (r.challenge + JoinDigests([]));
    assert b[48..112][32] == r.challenge[0];
  }

  lemma SampleFollows(cfg: Config, x: Byte)
    requires NeverZero(cfg.sha) && x != 0
    ensures var e := Encode(cfg, Sample(cfg, x));
            && e.Success? && |e.value| == ENCODED_BYTES
            && Follows(cfg, FIRST_ANCHOR, [], e.value)
            && e.value[CHALLENGE_OFFSET] == x
  {
    hide ValidInput, LayoutOf, PrefixOf, SampleReceipt, SampleCommit, SampleGrant, Decode,
      Repeated;
    SampleEncodes(cfg, x);
    DecodeEncode(cfg, Sample(cfg, x));
    EmptyVerdict(cfg, 1, Origin(FIRST_ANCHOR));
    InputFits(cfg, Sample(cfg, x));
    ChallengeAt(Sample(cfg, x));
    RepeatedAt(x);
  }

  /** Two first records under different challenges and a hash that tells them apart. */
  lemma WatermarkAboveLoses(cfg: Config)
    requires cfg.sha == PickHash(|SWEEP_RECORD_DOMAIN| + CHALLENGE_OFFSET)
    ensures var one, two := Encode(cfg, Sample(cfg, 1)), Encode(cfg, Sample(cfg, 2));
            && one.Success? && two.Success?
            && Loses(cfg, 1, FIRST_ANCHOR, [], one.value, two.value, ENCODED_BYTES)
  {
    hide Encode, Sample, Follows, Loses;
    PickHashNeverZero(|SWEEP_RECORD_DOMAIN| + CHALLENGE_OFFSET);
    SampleFollows(cfg, 1);
    SampleFollows(cfg, 2);
    var one, two := Encode(cfg, Sample(cfg, 1)).value, Encode(cfg, Sample(cfg, 2)).value;
    EmptyVerdict(cfg, 1, Origin(FIRST_ANCHOR));
    PickApart(cfg, one[..BODY_BYTES], two);
    assert one[..BODY_PREFIX_BYTES][CHALLENGE_OFFSET] != two[..BODY_PREFIX_BYTES][CHALLENGE_OFFSET];
    ResidueCorrupts(cfg, 1, FIRST_ANCHOR, [], one, two, ENCODED_BYTES);
  }

  lemma PickApart(cfg: Config, t: Bytes, encoded: Bytes)
    requires cfg.sha == PickHash(|SWEEP_RECORD_DOMAIN| + CHALLENGE_OFFSET)
    requires |t| == BODY_BYTES && |encoded| == ENCODED_BYTES
    requires t[CHALLENGE_OFFSET] != encoded[CHALLENGE_OFFSET]
    ensures BodiesApart(cfg, t, encoded)
  {
    var n := |SWEEP_RECORD_DOMAIN|;
    var x, y := SWEEP_RECORD_DOMAIN + t[..BODY_PREFIX_BYTES],
                SWEEP_RECORD_DOMAIN + encoded[..BODY_PREFIX_BYTES];
    assert x[n + CHALLENGE_OFFSET] == t[CHALLENGE_OFFSET];
    assert y[n + CHALLENGE_OFFSET] == encoded[CHALLENGE_OFFSET];
    assert cfg.sha(x)[1] == x[n + CHALLENGE_OFFSET] && cfg.sha(y)[1] == y[n + CHALLENGE_OFFSET];
  }
}
