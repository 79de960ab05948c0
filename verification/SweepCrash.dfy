/**
 * When appending sweep records is safe against crashes on disks that are not settled: what a
 * sync watermark below the stream keeps, and what bytes above it may do.
 */
module SweepCrash {
  import opened Bytes
  import opened ObjectStore
  import opened SweepRecord
  import opened SweepRecovery
  import opened SweepWriter
  import D = OutboxStorage
  import Steps = OutboxStorageSteps

  // ---------------------------------------------------------------------------------------
  // Prefixes of accepted streams
  // ---------------------------------------------------------------------------------------

  /** Every prefix of a stream that is not corrupt is not corrupt, and keeps its whole records. */
  lemma {:induction false} PrefixVerdict(cfg: Config, epoch: u64, stream: Bytes, at: Position,
    p: nat)
    requires p <= |stream| && Classify(cfg, epoch, stream, at).status != CorruptRecord
    ensures var v := Classify(cfg, epoch, stream[..p], at);
            v.status != CorruptRecord && v.records == p / ENCODED_BYTES
    decreases |stream|
  {
    hide Decode, ExpectedFooter, Classify, TailStatus;
    var part := stream[..p];
    assert stream[0..] == stream && part[0..] == part;
    ClassifyAt(cfg, epoch, stream, 0, at);
    ClassifyAt(cfg, epoch, part, 0, at);
    if |stream| < ENCODED_BYTES {
      TailPrefix(cfg, epoch, stream, at, p);
    } else {
      var record := stream[..ENCODED_BYTES];
      if p < ENCODED_BYTES {
        PrefixStatus(cfg, epoch, record, at, p);
        assert part == record[..p];
      } else {
        assert part[..ENCODED_BYTES] == record;
        var next := Following(Decode(cfg, record).value);
        PrefixVerdict(cfg, epoch, stream[ENCODED_BYTES..], next, p - ENCODED_BYTES);
        assert part[ENCODED_BYTES..] == stream[ENCODED_BYTES..][..p - ENCODED_BYTES];
      }
    }
  }

  lemma TailPrefix(cfg: Config, epoch: u64, tail: Bytes, at: Position, p: nat)
    requires p <= |tail| < ENCODED_BYTES
    requires TailStatus(cfg, epoch, tail, at) != CorruptRecord
    ensures TailStatus(cfg, epoch, tail[..p], at) != CorruptRecord
  {
    hide Decode, ExpectedFooter;
    if p >= BODY_BYTES {
      assert tail[..p][..BODY_BYTES] == tail[..BODY_BYTES];
      assert tail[..p][BODY_BYTES..] == tail[BODY_BYTES..][..p - BODY_BYTES];
    }
  }

  // ---------------------------------------------------------------------------------------
  // Without residue
  // ---------------------------------------------------------------------------------------

  /** The disk holds a clean stream with the writer at its end. */
  predicate Appendable(cfg: Config, d: D.Disk, w: Writer, encoded: Bytes, a: Anchor) {
    && d.Bounded() && AtEnd(cfg, d, w, a) && Accept(cfg, d, w, encoded).Success?
    && Classify(cfg, a.epoch, d.Stream(), Origin(a)).status == StreamClean
  }

  /** What an append that may fault leaves when the disk crashes at `p`. */
  function Crashed(cfg: Config, d: D.Disk, w: Writer, encoded: Bytes, p: nat): D.Disk
    requires d.Bounded()
  {
    D.CrashPersist(AppendRecord(cfg, d, w, encoded).disk, p)
  }

  predicate CrashPoint(cfg: Config, d: D.Disk, w: Writer, encoded: Bytes, p: nat)
    requires d.Bounded()
  {
    var after := AppendRecord(cfg, d, w, encoded).disk;
    D.CrashLower(after) <= p <= D.CrashUpper(after)
  }

  /**
   * Whatever record is appended and whatever faults, on a disk whose watermark is not above
   * its length the stream that survives a crash is the old stream and the record up to the
   * crash point: it is never corrupt, holds every record that is whole in it, and so every
   * record that was whole below the watermark.
   */
  lemma CrashKeepsDurable(cfg: Config, d: D.Disk, w: Writer, encoded: Bytes, a: Anchor, p: nat)
    requires Appendable(cfg, d, w, encoded, a) && d.synced <= d.length
    requires CrashPoint(cfg, d, w, encoded, p)
    ensures var s := Crashed(cfg, d, w, encoded, p);
            var all := d.Stream() + encoded;
            && s.Bounded() && d.synced <= p <= |all| && s.Stream() == all[..p]
            && (AppendRecord(cfg, d, w, encoded).reply.Success? ==> p == |all|)
            && var v := Classify(cfg, a.epoch, s.Stream(), Origin(a));
               && v.status != CorruptRecord && v.records == p / ENCODED_BYTES
               && d.synced / ENCODED_BYTES <= v.records
  {
    hide Decode, Classify, AppendCalls;
    var body, footer := encoded[..BODY_BYTES], encoded[BODY_BYTES..];
    assert body + footer == encoded;
    CallsLand(d, w.capability.generation, body, footer);
    var after := AppendRecord(cfg, d, w, encoded).disk;
    var all := d.Stream() + encoded;
    assert after.backing[..p] == after.Stream()[..p];
    assert all[..after.length][..p] == all[..p];
    assert all == all[..|all|];
    PartialVerdict(cfg, a, d.Stream(), encoded, all);
    PrefixVerdict(cfg, a.epoch, all, Origin(a), p);
  }

  // ---------------------------------------------------------------------------------------
  // With residue
  // ---------------------------------------------------------------------------------------

  /** The bytes between the end of the stream and a watermark above it. */
  function Residue(d: D.Disk): Bytes
    requires d.Bounded()
  {
    if d.synced <= d.length then [] else d.backing[d.length..d.synced]
  }

  /** The first `j` bytes behind the stream when the record overwrote the first `k`. */
  function Mixed(encoded: Bytes, t: Bytes, k: nat, j: nat): Bytes
    requires k <= |encoded| && (j <= k || j <= |t|)
  {
    if j <= k then encoded[..j] else encoded[..k] + t[k..j]
  }

  /** One write, faulted or not, overwrites from the end of the stream. */
  lemma Written(d: D.Disk, generation: nat, phase: D.IoPhase, next: D.IoPhase, payload: Bytes)
    requires d.Bounded()
    ensures var r := D.AppendIo(d, generation, phase, next, payload);
            var k := r.disk.length - d.length;
            && 0 <= k <= |payload| && d.length + k <= |d.backing| && r.disk.synced == d.synced
            && r.disk.backing == D.Overwrite(d.backing, d.length, payload[..k])
            && (r.error.None? ==> k == |payload|)
  {
    var r := D.AppendIo(d, generation, phase, next, payload);
    if r.disk.length == d.length {
      assert D.Overwrite(d.backing, d.length, []) == d.backing;
    }
  }

  lemma OverwriteMixes(backing: Bytes, length: nat, synced: nat, record: Bytes, k: nat, j: nat)
    requires k <= |record| && length + k <= |backing| && synced <= |backing|
    requires j <= k || length + j <= synced
    ensures var t := if synced <= length then [] else backing[length..synced];
            D.Overwrite(backing, length, record[..k])[..length + j]
            == backing[..length] + Mixed(record, t, k, j)
  {
    if j > k {
      SliceOfSlice(backing, length, synced, k, j);
    }
  }

  lemma SliceOfSlice(b: Bytes, from: nat, to: nat, k: nat, j: nat)
    requires k <= j && from + j <= to <= |b|
    ensures b[from..to][k..j] == b[from + k..from + j]
  {
    forall i | 0 <= i < j - k ensures b[from..to][k..j][i] == b[from + k..from + j][i] {
      assert b[from..to][k..j][i] == b[from..to][k + i];
    }
  }

  /** The calls behind a synced body add a prefix of the footer and sync no less. */
  lemma BehindBody(d: D.Disk, generation: nat, footer: Bytes, after: D.Disk)
    requires d.Bounded() && d.synced == d.length
    requires var f := D.AppendIo(d, generation, D.FooterWrite, D.FooterSync, footer);
             after == if f.error.Some? then f.disk
                      else D.SyncIo(f.disk, generation, D.FooterSync, D.BodyWrite).disk
    ensures after.Bounded() && d.length <= after.synced <= after.length <= d.length + |footer|
    ensures after.Stream() == (d.Stream() + footer)[..after.length]
  {
    hide D.AppendIo;
    Steps.AppendIoLands(d, generation, D.FooterWrite, D.FooterSync, footer);
  }

  /** How far an append overwrote what lay behind the stream. */
  function Reach(d: D.Disk, generation: nat, body: Bytes, footer: Bytes): nat
    requires d.Bounded()
  {
    var a := D.AppendIo(d, generation, D.BodyWrite, D.BodySync, body);
    if a.error.None? && D.SyncIo(a.disk, generation, D.BodySync, D.FooterWrite).error.None? then
      |body| + |footer|
    else if a.disk.length < d.length then 0
    else a.disk.length - d.length
  }

  /** A write of the first `k` bytes of the body, whatever was synced of it. */
  lemma BodyMixes(d: D.Disk, body: Bytes, footer: Bytes, k: nat, p: nat)
    requires d.Bounded() && d.length <= d.synced && k <= |body| && d.length + k <= |d.backing|
    requires d.length <= p && (p <= d.length + k || p <= d.synced)
    ensures var j := p - d.length;
            && (j <= k || j <= |Residue(d)|)
            && D.Overwrite(d.backing, d.length, body[..k])[..p]
               == d.Stream() + Mixed(body + footer, Residue(d), k, j)
  {
    var record := body + footer;
    assert record[..k] == body[..k];
    OverwriteMixes(d.backing, d.length, d.synced, record, k, p - d.length);
  }

  /**
   * What the four calls and a crash leave: the record up to some byte `k`, then the residue,
   * which is only ever seen behind part of the body.
   */
  lemma CallsMix(d: D.Disk, generation: nat, body: Bytes, footer: Bytes, p: nat)
    requires d.Bounded() && d.length <= d.synced
    requires var after := AppendCalls(d, generation, body, footer).disk;
             D.CrashLower(after) <= p <= D.CrashUpper(after)
    ensures var k := Reach(d, generation, body, footer);
            var j := p - d.length;
            && 0 <= j && k <= |body + footer|
            && (j <= k || (k <= |body| && j <= |Residue(d)|))
            && AppendCalls(d, generation, body, footer).disk.backing[..p]
               == d.Stream() + Mixed(body + footer, Residue(d), k, j)
  {
    hide D.AppendIo, D.Overwrite, Mixed, Residue;
    var a := D.AppendIo(d, generation, D.BodyWrite, D.BodySync, body);
    Written(d, generation, D.BodyWrite, D.BodySync, body);
    Steps.AppendIoLands(d, generation, D.BodyWrite, D.BodySync, body);
    var k := Reach(d, generation, body, footer);
    if k == |body| + |footer| && a.error.None?
       && D.SyncIo(a.disk, generation, D.BodySync, D.FooterWrite).error.None? {
      var b := D.SyncIo(a.disk, generation, D.BodySync, D.FooterWrite);
      var after := AppendCalls(d, generation, body, footer).disk;
      BehindBody(b.disk, generation, footer, after);
      WholeMixes(d, body, footer, after, p);
    } else {
      BodyMixes(d, body, footer, k, p);
    }
  }

  /** Once the body is synced only the record is seen. */
  lemma WholeMixes(d: D.Disk, body: Bytes, footer: Bytes, after: D.Disk, p: nat)
    requires d.Bounded() && after.Bounded() && |body + footer| == |body| + |footer|
    requires d.length + |body| <= after.synced <= p <= after.length
    requires after.length <= d.length + |body| + |footer|
    requires after.Stream() == (d.Stream() + body + footer)[..after.length]
    ensures var j := p - d.length;
            var record := body + footer;
            && 0 <= j <= |record|
            && after.backing[..p] == d.Stream() + Mixed(record, Residue(d), |record|, j)
  {
    var record := body + footer;
    assert d.Stream() + body + footer == d.Stream() + record;
    assert after.backing[..p] == after.Stream()[..p];
    assert (d.Stream() + record)[..p] == d.Stream() + record[..p - d.length];
  }

  // ---------------------------------------------------------------------------------------
  // The exact condition
  // ---------------------------------------------------------------------------------------

  /** However the append faults and wherever the disk crashes, the stream is not corrupt. */
  ghost predicate NeverCorrupts(cfg: Config, d: D.Disk, w: Writer, encoded: Bytes, a: Anchor)
    requires d.Bounded()
  {
    forall f: Option<D.Fault>, p: nat ::
      CrashPoint(cfg, D.SetFault(d, f), w, encoded, p) ==> Sound(cfg, d, w, encoded, a, f, p)
  }

  predicate Sound(cfg: Config, d: D.Disk, w: Writer, encoded: Bytes, a: Anchor,
    f: Option<D.Fault>, p: nat)
    requires d.Bounded()
  {
    var s := Crashed(cfg, D.SetFault(d, f), w, encoded, p);
    s.Bounded() && Classify(cfg, a.epoch, s.Stream(), Origin(a)).status != CorruptRecord
  }

  /**
   * Too little residue to reach past a record body, or residue that begins with the very bytes
   * of the record and goes on, if it is longer, with what may follow the record.
   */
  predicate ResidueFits(cfg: Config, t: Bytes, encoded: Bytes, a: Anchor)
    requires Decode(cfg, encoded).Success?
  {
    |t| < BODY_BYTES
    || (if |t| <= ENCODED_BYTES then t == encoded[..|t|]
        else
          && t[..ENCODED_BYTES] == encoded
          && Classify(cfg, a.epoch, t[ENCODED_BYTES..],
                      Following(Decode(cfg, encoded).value)).status != CorruptRecord)
  }

  /** Residue that fits is itself an acceptable continuation of the stream. */
  lemma FittingContinues(cfg: Config, t: Bytes, encoded: Bytes, a: Anchor, at: Position)
    requires Decode(cfg, encoded).Success? && MatchesAt(Decode(cfg, encoded).value, a.epoch, at)
    requires at.sequence <= U64_MAX && |t| >= BODY_BYTES && ResidueFits(cfg, t, encoded, a)
    ensures Classify(cfg, a.epoch, t, at).status != CorruptRecord
  {
    hide Decode, Classify, TailStatus;
    if |t| <= ENCODED_BYTES {
      PrefixStatus(cfg, a.epoch, encoded, at, |t|);
    } else {
      assert t[0..] == t;
      ClassifyAt(cfg, a.epoch, t, 0, at);
    }
  }

  /** Part of a record followed by residue that fits is never corrupt. */
  lemma MixedFits(cfg: Config, t: Bytes, encoded: Bytes, a: Anchor, at: Position, k: nat, j: nat)
    requires Decode(cfg, encoded).Success? && MatchesAt(Decode(cfg, encoded).value, a.epoch, at)
    requires at.sequence <= U64_MAX && ResidueFits(cfg, t, encoded, a)
    requires k <= |encoded| && (j <= k || (k <= BODY_BYTES && j <= |t|))
    ensures Classify(cfg, a.epoch, Mixed(encoded, t, k, j), at).status != CorruptRecord
  {
    hide Decode, Classify, TailStatus;
    if j <= k {
      PrefixStatus(cfg, a.epoch, encoded, at, j);
    } else if j < BODY_BYTES {
      ShortIsFine(cfg, a.epoch, Mixed(encoded, t, k, j), at);
    } else {
      assert t[..k] == encoded[..k];
      assert Mixed(encoded, t, k, j) == t[..j];
      FittingContinues(cfg, t, encoded, a, at);
      PrefixVerdict(cfg, a.epoch, t, at, j);
    }
  }

  lemma ShortIsFine(cfg: Config, epoch: u64, tail: Bytes, at: Position)
    requires |tail| < BODY_BYTES && at.sequence <= U64_MAX
    ensures Classify(cfg, epoch, tail, at).status != CorruptRecord
  {
  }

  /** What may follow the clean stream decides whether the whole is corrupt. */
  lemma TailDecides(cfg: Config, a: Anchor, base: Bytes, more: Bytes)
    requires var v := Classify(cfg, a.epoch, base, Origin(a));
             v.status == StreamClean && v.next.sequence <= U64_MAX
    ensures var at := Classify(cfg, a.epoch, base, Origin(a)).next;
            Classify(cfg, a.epoch, base + more, Origin(a)).status
            == Classify(cfg, a.epoch, more, at).status
  {
    hide Decode, Classify;
    ClassifyAppend(cfg, a.epoch, base, Origin(a), more);
  }

  lemma FitsIsSound(cfg: Config, d: D.Disk, w: Writer, encoded: Bytes, a: Anchor,
    f: Option<D.Fault>, p: nat)
    requires Appendable(cfg, d, w, encoded, a) && d.length <= d.synced
    requires ResidueFits(cfg, Residue(d), encoded, a)
    requires CrashPoint(cfg, D.SetFault(d, f), w, encoded, p)
    ensures Sound(cfg, d, w, encoded, a, f, p)
  {
    hide Decode, Classify, AppendCalls, ResidueFits, Mixed, MatchesAt, Residue;
    var body, footer := encoded[..BODY_BYTES], encoded[BODY_BYTES..];
    assert body + footer == encoded;
    var g := w.capability.generation;
    var faulted := D.SetFault(d, f);
    SameResidue(d, f);
    CallsMix(faulted, g, body, footer, p);
    var k, j := Reach(faulted, g, body, footer), p - d.length;
    var at := Classify(cfg, a.epoch, d.Stream(), Origin(a)).next;
    SequenceLeft(cfg, d, w, encoded, a);
    MixedFits(cfg, Residue(d), encoded, a, at, k, j);
    TailDecides(cfg, a, d.Stream(), Mixed(encoded, Residue(d), k, j));
  }

  lemma SameResidue(d: D.Disk, f: Option<D.Fault>)
    requires d.Bounded()
    ensures Residue(D.SetFault(d, f)) == Residue(d)
    ensures D.SetFault(d, f).Stream() == d.Stream()
  {
  }

  lemma SequenceLeft(cfg: Config, d: D.Disk, w: Writer, encoded: Bytes, a: Anchor)
    requires Appendable(cfg, d, w, encoded, a)
    ensures var at := Classify(cfg, a.epoch, d.Stream(), Origin(a)).next;
            at.sequence <= U64_MAX && MatchesAt(Decode(cfg, encoded).value, a.epoch, at)
  {
    hide Decode, Classify;
  }

  /** The prefixes that two bodies are rooted in do not collide. */
  ghost predicate BodiesApart(cfg: Config, t: Bytes, encoded: Bytes) {
    |t| >= BODY_BYTES && |encoded| >= BODY_BYTES ==>
      NoCollision(cfg.sha, iset{SWEEP_RECORD_DOMAIN + t[..BODY_PREFIX_BYTES],
                                SWEEP_RECORD_DOMAIN + encoded[..BODY_PREFIX_BYTES]})
  }

  /** A continuation with a whole body carries the root of its prefix. */
  lemma BodyRooted(cfg: Config, epoch: u64, t: Bytes, at: Position)
    requires |t| >= BODY_BYTES && Classify(cfg, epoch, t, at).status != CorruptRecord
    ensures t[BODY_PREFIX_BYTES..BODY_BYTES] == RecordRoot(cfg, t[..BODY_PREFIX_BYTES])
  {
    hide ParsePrefix, RecordRoot, InputFrom, FromLE64, MatchesAt, ValidInput, Classify;
    assert t[0..] == t;
    ClassifyAt(cfg, epoch, t, 0, at);
    if |t| < ENCODED_BYTES {
      var b := t[..BODY_BYTES] + ExpectedFooter(t[..BODY_BYTES]);
      assert Decode(cfg, b).Success?;
      assert b[..BODY_PREFIX_BYTES] == t[..BODY_PREFIX_BYTES];
      assert b[BODY_PREFIX_BYTES..BODY_BYTES] == t[BODY_PREFIX_BYTES..BODY_BYTES];
    } else {
      var b := t[..ENCODED_BYTES];
      assert Decode(cfg, b).Success?;
      assert b[..BODY_PREFIX_BYTES] == t[..BODY_PREFIX_BYTES];
      assert b[BODY_PREFIX_BYTES..BODY_BYTES] == t[BODY_PREFIX_BYTES..BODY_BYTES];
    }
  }

  /** A continuation that shares the body of a record shares the record. */
  lemma SameBodyFits(cfg: Config, t: Bytes, encoded: Bytes, a: Anchor, at: Position)
    requires Decode(cfg, encoded).Success? && MatchesAt(Decode(cfg, encoded).value, a.epoch, at)
    requires |t| >= BODY_BYTES && t[..BODY_BYTES] == encoded[..BODY_BYTES]
    requires Classify(cfg, a.epoch, t, at).status != CorruptRecord
    ensures ResidueFits(cfg, t, encoded, a)
  {
    hide Decode, MatchesAt, Classify, ExpectedFooter;
    assert t[0..] == t;
    ClassifyAt(cfg, a.epoch, t, 0, at);
    FooterDetermined(cfg, encoded);
    var footer := ExpectedFooter(t[..BODY_BYTES]);
    if |t| < ENCODED_BYTES {
      assert |t| > BODY_BYTES ==> t[BODY_BYTES..] <= footer;
      assert t == t[..BODY_BYTES] + t[BODY_BYTES..];
    } else {
      var b := t[..ENCODED_BYTES];
      FooterDetermined(cfg, b);
      assert b[..BODY_BYTES] == t[..BODY_BYTES];
      assert b == encoded;
    }
  }

  const BEFORE_BODY := Some(D.Fault(0, true, None))
  const WITHIN_BODY := Some(D.Fault(0, false, Some(BODY_PREFIX_BYTES)))

  /** The calls of an append that the fault stops before its first write. */
  lemma StoppedBefore(d: D.Disk, generation: nat, body: Bytes, footer: Bytes)
    requires d.Bounded() && d.phase == D.BodyWrite && D.Active(d, generation)
    ensures var after := AppendCalls(D.SetFault(d, BEFORE_BODY), generation, body, footer).disk;
            after.backing == d.backing && after.length == d.length && after.synced == d.synced
  {
  }

  /** The calls of an append that the fault stops within its first write. */
  lemma StoppedWithin(d: D.Disk, generation: nat, body: Bytes, footer: Bytes)
    requires d.Bounded() && d.phase == D.BodyWrite && D.Active(d, generation)
    requires |body| == BODY_BYTES && d.length + BODY_BYTES <= |d.backing|
    ensures var after := AppendCalls(D.SetFault(d, WITHIN_BODY), generation, body, footer).disk;
            && after.backing == D.Overwrite(d.backing, d.length, body[..BODY_PREFIX_BYTES])
            && after.length == d.length + BODY_PREFIX_BYTES && after.synced == d.synced
  {
  }

  /** What an accepted append writes, on whatever disk. */
  lemma AppendIsCalls(cfg: Config, d: D.Disk, f: Option<D.Fault>, w: Writer, encoded: Bytes)
    requires d.Bounded() && Accept(cfg, d, w, encoded).Success?
    ensures D.Active(d, w.capability.generation) && |encoded| == ENCODED_BYTES
    ensures AppendRecord(cfg, D.SetFault(d, f), w, encoded).disk
            == AppendCalls(D.SetFault(d, f), w.capability.generation, encoded[..BODY_BYTES],
                           encoded[BODY_BYTES..]).disk
  {
    hide Decode, AppendCalls;
  }

  /** Two faults that show residue: one before the first write, one that cuts it short. */
  lemma ShownResidue(cfg: Config, d: D.Disk, w: Writer, encoded: Bytes, a: Anchor)
    requires Appendable(cfg, d, w, encoded, a) && d.phase == D.BodyWrite
    requires d.length + BODY_BYTES <= d.synced
    ensures CrashPoint(cfg, D.SetFault(d, BEFORE_BODY), w, encoded, d.synced)
    ensures Crashed(cfg, D.SetFault(d, BEFORE_BODY), w, encoded, d.synced).Stream()
            == d.Stream() + Residue(d)
    ensures CrashPoint(cfg, D.SetFault(d, WITHIN_BODY), w, encoded, d.synced)
    ensures Crashed(cfg, D.SetFault(d, WITHIN_BODY), w, encoded, d.synced).Stream()
            == d.Stream() + (encoded[..BODY_PREFIX_BYTES] + Residue(d)[BODY_PREFIX_BYTES..])
  {
    hide Decode, Classify, AppendRecord, AppendCalls, D.Overwrite, AtEnd, Accept;
    var t, g := Residue(d), w.capability.generation;
    AppendIsCalls(cfg, d, BEFORE_BODY, w, encoded);
    AppendIsCalls(cfg, d, WITHIN_BODY, w, encoded);
    var body := encoded[..BODY_BYTES];
    StoppedBefore(d, g, body, encoded[BODY_BYTES..]);
    StoppedWithin(d, g, body, encoded[BODY_BYTES..]);
    assert body[..BODY_PREFIX_BYTES] == encoded[..BODY_PREFIX_BYTES];
    assert d.backing[..d.synced] == d.Stream() + t;
    OverwriteMixes(d.backing, d.length, d.synced, encoded, BODY_PREFIX_BYTES, |t|);
  }

  /** What the residue is like when neither it nor the record cut into it is corrupt. */
  lemma RootsMeet(cfg: Config, t: Bytes, encoded: Bytes, a: Anchor, at: Position)
    requires Decode(cfg, encoded).Success? && MatchesAt(Decode(cfg, encoded).value, a.epoch, at)
    requires |t| >= BODY_BYTES && |encoded| == ENCODED_BYTES && BodiesApart(cfg, t, encoded)
    requires Classify(cfg, a.epoch, t, at).status != CorruptRecord
    requires Classify(cfg, a.epoch, encoded[..BODY_PREFIX_BYTES] + t[BODY_PREFIX_BYTES..], at)
               .status != CorruptRecord
    ensures ResidueFits(cfg, t, encoded, a)
  {
    hide Decode, Classify, MatchesAt, ResidueFits;
    var mixed := encoded[..BODY_PREFIX_BYTES] + t[BODY_PREFIX_BYTES..];
    BodyRooted(cfg, a.epoch, t, at);
    BodyRooted(cfg, a.epoch, mixed, at);
    assert mixed[..BODY_PREFIX_BYTES] == encoded[..BODY_PREFIX_BYTES];
    assert mixed[BODY_PREFIX_BYTES..BODY_BYTES] == t[BODY_PREFIX_BYTES..BODY_BYTES];
    var x, y := SWEEP_RECORD_DOMAIN + t[..BODY_PREFIX_BYTES],
                SWEEP_RECORD_DOMAIN + encoded[..BODY_PREFIX_BYTES];
    assert cfg.sha(x) == cfg.sha(y) && x == y;
    assert x[|SWEEP_RECORD_DOMAIN|..] == t[..BODY_PREFIX_BYTES];
    assert y[|SWEEP_RECORD_DOMAIN|..] == encoded[..BODY_PREFIX_BYTES];
    EncodedRooted(cfg, encoded);
    SameBody(t, encoded);
    SameBodyFits(cfg, t, encoded, a, at);
  }

  lemma EncodedRooted(cfg: Config, encoded: Bytes)
    requires Decode(cfg, encoded).Success?
    ensures encoded[BODY_PREFIX_BYTES..BODY_BYTES]
            == RecordRoot(cfg, encoded[..BODY_PREFIX_BYTES])
  {
    hide ParsePrefix, RecordRoot, InputFrom, FromLE64, ValidInput;
  }

  lemma NeverCorruptsFits(cfg: Config, d: D.Disk, w: Writer, encoded: Bytes, a: Anchor)
    requires Appendable(cfg, d, w, encoded, a) && d.phase == D.BodyWrite
    requires BodiesApart(cfg, Residue(d), encoded) && NeverCorrupts(cfg, d, w, encoded, a)
    ensures Decode(cfg, encoded).Success? && ResidueFits(cfg, Residue(d), encoded, a)
  {
    hide Decode, Classify, Crashed, CrashPoint, Residue, ResidueFits, AtEnd, Accept, MatchesAt,
      BodiesApart;
    var t := Residue(d);
    DecodesRecord(cfg, d, w, encoded);
    if |t| >= BODY_BYTES {
      LongResidue(d);
      ShownResidue(cfg, d, w, encoded, a);
      SequenceLeft(cfg, d, w, encoded, a);
      var at := Classify(cfg, a.epoch, d.Stream(), Origin(a)).next;
      assert Sound(cfg, d, w, encoded, a, BEFORE_BODY, d.synced);
      assert Sound(cfg, d, w, encoded, a, WITHIN_BODY, d.synced);
      TailDecides(cfg, a, d.Stream(), t);
      TailDecides(cfg, a, d.Stream(), encoded[..BODY_PREFIX_BYTES] + t[BODY_PREFIX_BYTES..]);
      RootsMeet(cfg, t, encoded, a, at);
    } else {
      ShortFits(cfg, t, encoded, a);
    }
  }

  lemma ShortFits(cfg: Config, t: Bytes, encoded: Bytes, a: Anchor)
    requires |t| < BODY_BYTES && Decode(cfg, encoded).Success?
    ensures ResidueFits(cfg, t, encoded, a)
  {
  }

  lemma LongResidue(d: D.Disk)
    requires d.Bounded() && |Residue(d)| >= BODY_BYTES
    ensures d.length + BODY_BYTES <= d.synced
  {
  }

  lemma DecodesRecord(cfg: Config, d: D.Disk, w: Writer, encoded: Bytes)
    requires Accept(cfg, d, w, encoded).Success?
    ensures Decode(cfg, encoded).Success? && |encoded| == ENCODED_BYTES
  {
    hide Decode;
  }

  lemma SameBody(t: Bytes, encoded: Bytes)
    requires |t| >= BODY_BYTES && |encoded| >= BODY_BYTES
    requires t[..BODY_PREFIX_BYTES] == encoded[..BODY_PREFIX_BYTES]
    requires t[BODY_PREFIX_BYTES..BODY_BYTES] == encoded[BODY_PREFIX_BYTES..BODY_BYTES]
    ensures t[..BODY_BYTES] == encoded[..BODY_BYTES]
  {
    assert t[..BODY_BYTES] == t[..BODY_PREFIX_BYTES] + t[BODY_PREFIX_BYTES..BODY_BYTES];
    assert encoded[..BODY_BYTES]
        == encoded[..BODY_PREFIX_BYTES] + encoded[BODY_PREFIX_BYTES..BODY_BYTES];
  }

  /**
   * When appending is safe. On a disk with a clean stream and the writer at its end no fault
   * and no crash of an append ever corrupts the stream if and only if the bytes between the
   * stream and the sync watermark fit the record, collisions aside. There are no such bytes
   * when the watermark is not above the length.
   */
  lemma NeverCorruptsExactly(cfg: Config, d: D.Disk, w: Writer, encoded: Bytes, a: Anchor)
    requires Appendable(cfg, d, w, encoded, a) && d.phase == D.BodyWrite
    requires BodiesApart(cfg, Residue(d), encoded)
    ensures Decode(cfg, encoded).Success?
    ensures NeverCorrupts(cfg, d, w, encoded, a) <==> ResidueFits(cfg, Residue(d), encoded, a)
  {
    hide Decode, Classify, Crashed, CrashPoint, Residue, ResidueFits, AtEnd, Sound;
    if ResidueFits(cfg, Residue(d), encoded, a) {
      forall f: Option<D.Fault>, p: nat | CrashPoint(cfg, D.SetFault(d, f), w, encoded, p)
        ensures Sound(cfg, d, w, encoded, a, f, p)
      {
        if d.length <= d.synced {
          FitsIsSound(cfg, d, w, encoded, a, f, p);
        } else {
          BelowIsSound(cfg, d, w, encoded, a, f, p);
        }
      }
    }
    if NeverCorrupts(cfg, d, w, encoded, a) {
      NeverCorruptsFits(cfg, d, w, encoded, a);
    }
  }

  lemma BelowIsSound(cfg: Config, d: D.Disk, w: Writer, encoded: Bytes, a: Anchor,
    f: Option<D.Fault>, p: nat)
    requires Appendable(cfg, d, w, encoded, a) && d.synced <= d.length
    requires CrashPoint(cfg, D.SetFault(d, f), w, encoded, p)
    ensures Sound(cfg, d, w, encoded, a, f, p)
  {
    hide Decode, Classify, AppendCalls;
    SameResidue(d, f);
    CrashKeepsDurable(cfg, D.SetFault(d, f), w, encoded, a, p);
  }
}
