/**
 * Write-ahead publication of a sweep commit (publish_then_commit and recover_published_commit
 * in bench/continuation_object_sweep_file.py): the record is durable before the store changes.
 */
module SweepPublish {
  import opened Bytes
  import opened ObjectStore
  import opened ObjectStoreReclaim
  import opened ObjectStoreClass
  import opened ObjectCollection
  import opened ObjectSweep
  import opened SweepRecord
  import opened SweepRecovery
  import W = SweepWriter
  import D = OutboxStorage
  import opened SweepWriterClass

  /** The prepared record says exactly what the preview says. */
  predicate PreparedMatches(cfg: Config, v: SweepPreview, bytes: Bytes, root: Digest) {
    var d := Decode(cfg, bytes);
    && d.Success? && d.value.root == root
    && d.value.input.grant == v.commitGrant && d.value.input.receipt == v.receipt
    && d.value.input.store == v.storeReceipt
  }

  datatype Published = Published(
    disk: D.Disk, writer: W.Writer, content: Content, reply: Result<SweepReceipt, SweepError>)

  function PublishThenCommit(cfg: Config, d: D.Disk, w: W.Writer, st: Content, v: SweepPreview,
    bytes: Bytes, root: Digest): Published
    requires d.Bounded()
  {
    if !PreparedMatches(cfg, v, bytes, root) then
      Published(d, w, st, Failure(SweepPreviewMismatch))
    else
      var p := W.AppendRecord(cfg, d, w, bytes);
      if p.reply.Failure? then Published(p.disk, p.writer, st, Failure(StoreRefused))
      else
        var done := CommitPreview(cfg, st, v);
        Published(p.disk, p.writer, done.content, done.reply)
  }

  function RecoverPublished(cfg: Config, st: Content, v: SweepPreview, bytes: Bytes, root: Digest,
    stream: Bytes, a: Anchor): ObjectSweep.Recovery
  {
    if !PreparedMatches(cfg, v, bytes, root) || !ValidAnchor(a) then
      ObjectSweep.Recovery(st, Failure(SweepPreviewMismatch))
    else
      var c := Classify(cfg, a.epoch, stream, Origin(a));
      if c.status != StreamClean || c.CommittedBytes() != |stream| || c.next.previous != root then
        ObjectSweep.Recovery(st, Failure(SweepPreviewMismatch))
      else RecoverCommit(cfg, st, v)
  }

  /**
   * How recovery finds things after a crash: with the record in the surviving stream the store
   * ends up reclaimed, and stays so; without it the store was never changed, and the stream
   * holds the old records and at most a torn tail.
   */
  ghost predicate Recoverable(cfg: Config, a: Anchor, base: Bytes, bytes: Bytes, root: Digest,
    s: Bytes, before: Content, now: Content, v: SweepPreview)
  {
    var reclaimed := before.(slots := WithoutRetired(before.slots));
    && W.Survives(cfg, a, base, bytes, s)
    && (s == base + bytes ==>
          && RecoverPublished(cfg, now, v, bytes, root, s, a).content == reclaimed
          && RecoverPublished(cfg, reclaimed, v, bytes, root, s, a)
             == ObjectSweep.Recovery(reclaimed, Success(AlreadyApplied)))
    && (s != base + bytes ==> now == before)
  }

  /** A preview made on this store, whose digests are usable. */
  ghost predicate Previewed(cfg: Config, st: Content, v: SweepPreview, g: SweepGrant,
    c: CommitGrant, cg: CollectionGrant, roots: seq<BlobRef>, leases: seq<LeaseReceipt>,
    j: Journal)
  {
    && StoreGood(cfg, st.slots)
    && PreviewCommit(cfg, st, g, c, cg, roots, leases, j) == Success(v)
    && PreviewNameable(cfg, st, v.targets, v.storeReceipt)
  }

  /**
   * Write-ahead. Publish and commit on a settled stream with any fault, then crash at any
   * persistence point: recovery from what survives always converges, whether the crash found
   * the store committed or came after the append and before the commit.
   */
  lemma WriteAhead(cfg: Config, d: D.Disk, w: W.Writer, st: Content, v: SweepPreview,
    bytes: Bytes, root: Digest, a: Anchor, p: nat, g: SweepGrant, c: CommitGrant,
    cg: CollectionGrant, roots: seq<BlobRef>, leases: seq<LeaseReceipt>, j: Journal)
    requires W.Settled(cfg, d, a) && W.AtEnd(cfg, d, w, a) && ValidAnchor(a)
    requires Previewed(cfg, st, v, g, c, cg, roots, leases, j)
    requires PreparedMatches(cfg, v, bytes, root) && W.Accept(cfg, d, w, bytes).Success?
    requires var after := PublishThenCommit(cfg, d, w, st, v, bytes, root).disk;
             D.CrashLower(after) <= p <= D.CrashUpper(after)
    ensures var r := PublishThenCommit(cfg, d, w, st, v, bytes, root);
            && r.disk.Bounded()
            && Recoverable(cfg, a, d.Stream(), bytes, root, D.CrashPersist(r.disk, p).Stream(),
                           st, r.content, v)
            && Recoverable(cfg, a, d.Stream(), bytes, root, D.CrashPersist(r.disk, p).Stream(),
                           st, st, v)
  {
    hide Classify, Decode, StoreGood, PreviewCommit, PreviewNameable, CommitPreview,
      RecoverCommit, W.AppendRecord, W.Accept, WithoutRetired, W.Survives;
    var r := PublishThenCommit(cfg, d, w, st, v, bytes, root);
    W.CrashSafeAppend(cfg, d, w, bytes, a, p);
    SweepReclaimsExactly(cfg, st, g, c, cg, roots, leases, j);
    RecoveryConverges(cfg, st, g, c, cg, roots, leases, j);
    var s := D.CrashPersist(r.disk, p).Stream();
    if s == d.Stream() + bytes {
      Whole(cfg, d, w, bytes, a);
    }
  }

  /** The stream with the whole record is clean and ends in the record's root. */
  lemma Whole(cfg: Config, d: D.Disk, w: W.Writer, bytes: Bytes, a: Anchor)
    requires W.Settled(cfg, d, a) && W.AtEnd(cfg, d, w, a) && W.Accept(cfg, d, w, bytes).Success?
    ensures var s := d.Stream() + bytes;
            var c := Classify(cfg, a.epoch, s, Origin(a));
            && c.status == StreamClean && c.CommittedBytes() == |s|
            && Decode(cfg, bytes).Success? && c.next.previous == Decode(cfg, bytes).value.root
  {
    hide Classify, Decode;
    var s := d.Stream() + bytes;
    assert s == s[..|s|];
    W.PartialVerdict(cfg, a, d.Stream(), bytes, s);
    CleanLength(cfg, a.epoch, s, Origin(a));
  }

  // ---------------------------------------------------------------------------------------
  // On the mutable store
  // ---------------------------------------------------------------------------------------

  method CommitPreviewNow(store: Store, v: SweepPreview)
    returns (reply: Result<SweepReceipt, SweepError>)
    requires store.Valid()
    modifies store
    ensures store.Valid()
    ensures Committed(store.View(), reply) == CommitPreview(store.cfg, old(store.View()), v)
  {
    hide VerifiedCommit, CommitRetired, TargetsRoot, StoreGood;
    if !VerifiedCommit(store.cfg, v.commitGrant, v.receipt, v.storeReceipt) {
      return Failure(SweepPreviewMismatch);
    }
    if v.targets == [] || TargetsRoot(store.cfg, v.targets) != v.receipt.targets {
      return Failure(SweepPreviewMismatch);
    }
    var done := store.CommitRetiredPreview(v.permit, v.targets, v.storeReceipt);
    if done.Failure? {
      return Failure(SweepPreviewMismatch);
    }
    return Success(v.receipt);
  }

  method PublishNow(store: Store, writer: Appender, v: SweepPreview, bytes: Bytes, root: Digest)
    returns (reply: Result<SweepReceipt, SweepError>)
    requires store.Valid() && writer.cfg == store.cfg && writer.storage.Valid()
    modifies store, writer, writer.storage`callIndex, writer.storage`length,
      writer.storage`syncedLength, writer.storage`expectedPhase, writer.storage.backing
    ensures store.Valid() && writer.storage.Valid()
    ensures Published(writer.storage.View(), writer.View(), store.View(), reply)
            == PublishThenCommit(store.cfg, old(writer.storage.View()), old(writer.View()),
                                 old(store.View()), v, bytes, root)
  {
    hide PreparedMatches, W.AppendRecord, CommitPreview, StoreGood;
    if !PreparedMatches(store.cfg, v, bytes, root) {
      return Failure(SweepPreviewMismatch);
    }
    var published := writer.AppendNow(bytes);
    if published.Failure? {
      return Failure(StoreRefused);
    }
    reply := CommitPreviewNow(store, v);
  }

  method RecoverNow(store: Store, v: SweepPreview, bytes: Bytes, root: Digest, stream: Bytes,
    a: Anchor) returns (reply: Result<Disposition, SweepError>)
    requires store.Valid()
    modifies store
    ensures store.Valid()
    ensures ObjectSweep.Recovery(store.View(), reply)
            == RecoverPublished(store.cfg, old(store.View()), v, bytes, root, stream, a)
  {
    hide PreparedMatches, Classify, CommitPreview, Audit, StoreGood;
    if !PreparedMatches(store.cfg, v, bytes, root) {
      return Failure(SweepPreviewMismatch);
    }
    var c := ClassifyRecovery(store.cfg, stream, a);
    if c.None? || c.value.status != StreamClean || c.value.CommittedBytes() != |stream|
       || c.value.next.previous != root {
      return Failure(SweepPreviewMismatch);
    }
    var audit := store.AuditSnapshot();
    if audit.Failure? {
      return Failure(StoreRefused);
    }
    if audit.value == v.receipt.snapshotBefore {
      var done := CommitPreviewNow(store, v);
      if done.Failure? {
        return Failure(done.error);
      }
      return Success(AppliedNow);
    }
    if audit.value == v.receipt.snapshotAfter {
      return Success(AlreadyApplied);
    }
    return Failure(SweepSnapshotMismatch);
  }
}
