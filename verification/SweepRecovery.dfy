/** Classifying a stream of sweep records, whose torn tail is inspected byte by byte. */
module SweepRecovery {
  import opened Bytes
  import opened ObjectStore
  import opened SweepRecord

  datatype Anchor = Anchor(epoch: u64, nextSequence: u64, previous: Digest)

  datatype StreamStatus =
    | StreamClean | ShortBody | BodyOnly | PartialFooter | CorruptRecord

  /** The sequence and predecessor that the next record must have. */
  datatype Position = Position(sequence: nat, previous: Digest)

  datatype Verdict = Verdict(status: StreamStatus, records: nat, next: Position)
  {
    function CommittedBytes(): nat {
      ENCODED_BYTES * records
    }
  }

  predicate ValidAnchor(a: Anchor) {
    a.epoch != 0 && a.nextSequence != 0 && (a.nextSequence == 1 <==> a.previous == ZERO_DIGEST)
  }

  function Origin(a: Anchor): Position {
    Position(a.nextSequence, a.previous)
  }

  predicate MatchesAt(d: Decoded, epoch: u64, at: Position) {
    && d.input.epoch == epoch && d.input.sequence == at.sequence
    && d.input.previous == at.previous
  }

  function Following(d: Decoded): Position {
    Position(d.input.sequence + 1, d.root)
  }

  /** An incomplete last record: its shape, or corrupt if its bytes cannot be a prefix of one. */
  function TailStatus(cfg: Config, epoch: u64, tail: Bytes, at: Position): StreamStatus
    requires |tail| < ENCODED_BYTES
  {
    if tail == [] then StreamClean
    else if |tail| < BODY_BYTES then ShortBody
    else
      var body := tail[..BODY_BYTES];
      var d := Decode(cfg, body + ExpectedFooter(body));
      if d.Failure? || !MatchesAt(d.value, epoch, at) then CorruptRecord
      else if |tail| == BODY_BYTES then BodyOnly
      else if tail[BODY_BYTES..] <= ExpectedFooter(body) then PartialFooter
      else CorruptRecord
  }

  /** The classification of `rest` when the next record must be at `at`. */
  function Classify(cfg: Config, epoch: u64, rest: Bytes, at: Position): Verdict
    decreases |rest|
  {
    if rest != [] && at.sequence > U64_MAX then Verdict(CorruptRecord, 0, at)
    else if |rest| < ENCODED_BYTES then Verdict(TailStatus(cfg, epoch, rest, at), 0, at)
    else
      var d := Decode(cfg, rest[..ENCODED_BYTES]);
      if d.Failure? || !MatchesAt(d.value, epoch, at) then Verdict(CorruptRecord, 0, at)
      else
        var v := Classify(cfg, epoch, rest[ENCODED_BYTES..], Following(d.value));
        v.(records := v.records + 1)
  }

  /** One step of the classification at an offset of the stream. */
  lemma ClassifyAt(cfg: Config, epoch: u64, stream: Bytes, offset: nat, at: Position)
    requires offset <= |stream|
    ensures var v := Classify(cfg, epoch, stream[offset..], at);
            if offset < |stream| && at.sequence > U64_MAX then v == Verdict(CorruptRecord, 0, at)
            else if |stream| - offset < ENCODED_BYTES then
              v == Verdict(TailStatus(cfg, epoch, stream[offset..], at), 0, at)
            else
              var d := Decode(cfg, stream[offset..offset + ENCODED_BYTES]);
              if d.Failure? || !MatchesAt(d.value, epoch, at) then
                v == Verdict(CorruptRecord, 0, at)
              else
                var rest :=
                  Classify(cfg, epoch, stream[offset + ENCODED_BYTES..], Following(d.value));
                v == rest.(records := rest.records + 1)
  {
    hide Decode, TailStatus;
    var rest := stream[offset..];
    if |rest| >= ENCODED_BYTES {
      assert rest[..ENCODED_BYTES] == stream[offset..offset + ENCODED_BYTES];
      assert rest[ENCODED_BYTES..] == stream[offset + ENCODED_BYTES..];
    }
  }

  /** The recovery loop classifies every stream as the specification does. */
  method ClassifyRecovery(cfg: Config, stream: Bytes, a: Anchor) returns (v: Option<Verdict>)
    ensures v == if ValidAnchor(a) then Some(Classify(cfg, a.epoch, stream, Origin(a))) else None
  {
    hide Decode, TailStatus, Classify;
    if !ValidAnchor(a) {
      return None;
    }
    var offset, count := 0, 0;
    var at := Origin(a);
    while |stream| - offset >= ENCODED_BYTES
      invariant 0 <= offset <= |stream|
      invariant offset < |stream| ==> at.sequence <= U64_MAX
      invariant var rest := Classify(cfg, a.epoch, stream[offset..], at);
                Classify(cfg, a.epoch, stream, Origin(a))
                == rest.(records := rest.records + count)
      decreases |stream| - offset
    {
      ClassifyAt(cfg, a.epoch, stream, offset, at);
      var d := Decode(cfg, stream[offset..offset + ENCODED_BYTES]);
      if d.Failure? || !MatchesAt(d.value, a.epoch, at) {
        return Some(Verdict(CorruptRecord, count, at));
      }
      offset, count := offset + ENCODED_BYTES, count + 1;
      at := Following(d.value);
      ClassifyAt(cfg, a.epoch, stream, offset, at);
      if offset < |stream| && d.value.input.sequence == U64_MAX {
        return Some(Verdict(CorruptRecord, count, at));
      }
    }
    ClassifyAt(cfg, a.epoch, stream, offset, at);
    return Some(Verdict(TailStatus(cfg, a.epoch, stream[offset..], at), count, at));
  }

  // ---------------------------------------------------------------------------------------
  // Laws
  // ---------------------------------------------------------------------------------------

  /** A clean stream is exactly its records. */
  lemma {:induction false} CleanLength(cfg: Config, epoch: u64, stream: Bytes, at: Position)
    requires Classify(cfg, epoch, stream, at).status == StreamClean
    ensures |stream| == Classify(cfg, epoch, stream, at).CommittedBytes()
    decreases |stream|
  {
    hide Decode;
    if |stream| >= ENCODED_BYTES {
      var d := Decode(cfg, stream[..ENCODED_BYTES]).value;
      CleanLength(cfg, epoch, stream[ENCODED_BYTES..], Following(d));
    }
  }

  /** What follows a clean stream is classified as if it stood alone after its last record. */
  lemma {:induction false} ClassifyAppend(cfg: Config, epoch: u64, stream: Bytes, at: Position,
    more: Bytes)
    requires Classify(cfg, epoch, stream, at).status == StreamClean
    requires more != [] ==> Classify(cfg, epoch, stream, at).next.sequence <= U64_MAX
    ensures var clean := Classify(cfg, epoch, stream, at);
            var rest := Classify(cfg, epoch, more, clean.next);
            Classify(cfg, epoch, stream + more, at)
            == rest.(records := clean.records + rest.records)
    decreases |stream|
  {
    hide Decode, TailStatus, Classify, MatchesAt;
    var all := stream + more;
    if |stream| < ENCODED_BYTES {
      EmptyIfClean(cfg, epoch, stream, at);
      EmptyVerdict(cfg, epoch, at);
      assert all == more;
    } else {
      CleanHead(cfg, epoch, stream, at, all);
      assert all[ENCODED_BYTES..] == stream[ENCODED_BYTES..] + more;
      var d := Decode(cfg, stream[..ENCODED_BYTES]).value;
      ClassifyAppend(cfg, epoch, stream[ENCODED_BYTES..], Following(d), more);
    }
  }

  /** A clean stream starts with a matching record, and so does whatever extends it. */
  lemma CleanHead(cfg: Config, epoch: u64, stream: Bytes, at: Position, all: Bytes)
    requires Classify(cfg, epoch, stream, at).status == StreamClean
    requires ENCODED_BYTES <= |stream| <= |all|
    requires all[..ENCODED_BYTES] == stream[..ENCODED_BYTES]
    ensures var d := Decode(cfg, stream[..ENCODED_BYTES]);
            && d.Success?
            && var rest := Classify(cfg, epoch, stream[ENCODED_BYTES..], Following(d.value));
               var more := Classify(cfg, epoch, all[ENCODED_BYTES..], Following(d.value));
               && Classify(cfg, epoch, stream, at) == rest.(records := rest.records + 1)
               && Classify(cfg, epoch, all, at) == more.(records := more.records + 1)
  {
    hide Decode, TailStatus, Classify, MatchesAt;
    assert stream[0..] == stream && all[0..] == all;
    ClassifyAt(cfg, epoch, stream, 0, at);
    ClassifyAt(cfg, epoch, all, 0, at);
  }

  lemma EmptyVerdict(cfg: Config, epoch: u64, at: Position)
    ensures Classify(cfg, epoch, [], at) == Verdict(StreamClean, 0, at)
  {
    hide Decode;
  }

  lemma EmptyIfClean(cfg: Config, epoch: u64, stream: Bytes, at: Position)
    requires |stream| < ENCODED_BYTES
    requires Classify(cfg, epoch, stream, at).status == StreamClean
    ensures stream == []
  {
    hide Decode;
  }

  /**
   * Any prefix of an accepted record is a proper torn tail, never corrupt: clean when nothing
   * or everything of it is there, and otherwise of the shape that its length says.
   */
  lemma PrefixStatus(cfg: Config, epoch: u64, record: Bytes, at: Position, k: nat)
    requires Decode(cfg, record).Success? && k <= |record|
    requires MatchesAt(Decode(cfg, record).value, epoch, at)
    ensures var v := Classify(cfg, epoch, record[..k], at);
            v == if k == ENCODED_BYTES then
                   Verdict(StreamClean, 1, Following(Decode(cfg, record).value))
                 else if k == 0 then Verdict(StreamClean, 0, at)
                 else if k < BODY_BYTES then Verdict(ShortBody, 0, at)
                 else if k == BODY_BYTES then Verdict(BodyOnly, 0, at)
                 else Verdict(PartialFooter, 0, at)
  {
    hide Decode, ExpectedFooter;
    EmptyVerdict(cfg, epoch, Following(Decode(cfg, record).value));
    var part := record[..k];
    if k == ENCODED_BYTES {
      assert part == record && part[..ENCODED_BYTES] == record && part[ENCODED_BYTES..] == [];
    } else if k >= BODY_BYTES {
      FooterDetermined(cfg, record);
      var body := record[..BODY_BYTES];
      assert part[..BODY_BYTES] == body;
      assert part[BODY_BYTES..] == ExpectedFooter(body)[..k - BODY_BYTES];
    }
  }
}
