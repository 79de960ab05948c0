/** The fixed-width wire form of headers and records, and its two-way inverse laws. */
module OutboxWire {
  import opened Bytes
  import opened Outbox

  const HEADER_BYTES := 320
  const RECORD_BODY_BYTES := 704
  const COMMIT_FOOTER_BYTES := 48
  const RECORD_BYTES := 752

  const HEADER_MAGIC := Ascii("GTAOBXH1")
  const RECORD_MAGIC := Ascii("GTAOBXR1")
  const COMMIT_MAGIC := Ascii("GTAOBCM1")

  // ---------------------------------------------------------------------------------------
  // Frames: magic, words, eight reserved bytes, digests, reserved tail
  // ---------------------------------------------------------------------------------------

  function Frame(magic: Bytes, words: seq<u64>, digests: seq<Digest>, tail: nat): (b: Bytes)
    requires |magic| == 8
    ensures |b| == 16 + 8 * |words| + 32 * |digests| + tail
  {
    magic + PackWords(words) + Zeros(8) + JoinDigests(digests) + Zeros(tail)
  }

  datatype Fields = Fields(words: seq<u64>, digests: seq<Digest>)

  /** The fields of a frame with `words` words and `digests` digests, if it is one. */
  function ParseFrame(b: Bytes, magic: Bytes, words: nat, digests: nat, tail: nat)
    : (r: Option<Fields>)
    requires |b| == 16 + 8 * words + 32 * digests + tail
    ensures r.Some? ==> |r.value.words| == words && |r.value.digests| == digests
  {
    var w := 8 + 8 * words;
    var d := w + 8 + 32 * digests;
    if b[..8] != magic || b[w..w + 8] != Zeros(8) || b[d..] != Zeros(tail) then None
    else Some(Fields(UnpackWords(b[8..w]), SplitDigests(b[w + 8..d])))
  }

  lemma ParseFrameInverts(magic: Bytes, words: seq<u64>, digests: seq<Digest>, tail: nat)
    requires |magic| == 8
    ensures ParseFrame(Frame(magic, words, digests, tail), magic, |words|, |digests|, tail)
            == Some(Fields(words, digests))
  {
    var b := Frame(magic, words, digests, tail);
    var w := 8 + 8 * |words|;
    var d := w + 8 + 32 * |digests|;
    assert b[..8] == magic;
    assert b[8..w] == PackWords(words);
    assert b[w..w + 8] == Zeros(8);
    assert b[w + 8..d] == JoinDigests(digests);
    assert b[d..] == Zeros(tail);
    UnpackPack(words);
    SplitJoin(digests);
  }

  lemma FrameInverts(b: Bytes, magic: Bytes, words: nat, digests: nat, tail: nat)
    requires |magic| == 8 && |b| == 16 + 8 * words + 32 * digests + tail
    requires ParseFrame(b, magic, words, digests, tail).Some?
    ensures var f := ParseFrame(b, magic, words, digests, tail).value;
            Frame(magic, f.words, f.digests, tail) == b
  {
    var w := 8 + 8 * words;
    var d := w + 8 + 32 * digests;
    PackUnpack(b[8..w]);
    JoinSplit(b[w + 8..d]);
    assert b == b[..8] + b[8..w] + b[w..w + 8] + b[w + 8..d] + b[d..];
  }

  // ---------------------------------------------------------------------------------------
  // Headers
  // ---------------------------------------------------------------------------------------

  function HeaderFields(h: Header): (f: Fields)
    ensures |f.words| == 10 && |f.digests| == 4
  {
    Fields([h.abi, HEADER_BYTES] + HeaderWords(h)[1..], HeaderDigests(h) + [h.headerSha])
  }

  function HeaderOf(f: Fields): Header
    requires |f.words| == 10 && |f.digests| == 4
  {
    var w, d := f.words, f.digests;
    Header(w[0], w[2], w[3], w[4], w[5], w[6], w[7], w[8], w[9], d[0], d[1], d[2], d[3])
  }

  function EncodeHeader(sha: Sha, h: Header): (r: Result<Bytes, OutboxError>)
    ensures r.Success? ==> |r.value| == HEADER_BYTES
  {
    if !ValidHeader(sha, h) then Failure(InvalidHeader)
    else Success(Frame(HEADER_MAGIC, HeaderFields(h).words, HeaderFields(h).digests, 96))
  }

  function DecodeHeader(sha: Sha, b: Bytes, expected: Digest): Result<Header, OutboxError> {
    if expected == ZERO_DIGEST then Failure(Unpinned)
    else if |b| != HEADER_BYTES then Failure(Incomplete)
    else
      var f := ParseFrame(b, HEADER_MAGIC, 10, 4, 96);
      if f.None? || f.value.words[1] != HEADER_BYTES then Failure(InvalidFraming)
      else if !ValidHeader(sha, HeaderOf(f.value)) then Failure(InvalidHeader)
      else if HeaderOf(f.value).headerSha != expected then Failure(Unpinned)
      else Success(HeaderOf(f.value))
  }

  lemma HeaderFieldsInverse(h: Header)
    ensures HeaderOf(HeaderFields(h)) == h
  {
  }

  lemma HeaderOfInverse(f: Fields)
    requires |f.words| == 10 && |f.digests| == 4 && f.words[1] == HEADER_BYTES
    ensures HeaderFields(HeaderOf(f)) == f
  {
    assert HeaderFields(HeaderOf(f)).words == f.words;
    assert HeaderFields(HeaderOf(f)).digests == f.digests;
  }

  /** Decoding what was encoded gives the header back, pinned to its own root. */
  lemma DecodeEncodeHeader(sha: Sha, h: Header)
    requires ValidHeader(sha, h)
    ensures EncodeHeader(sha, h).Success?
    ensures DecodeHeader(sha, EncodeHeader(sha, h).value, h.headerSha) == Success(h)
  {
    hide ParseFrame, Frame;
    assert h.headerSha != ZERO_DIGEST;
    ParseFrameInverts(HEADER_MAGIC, HeaderFields(h).words, HeaderFields(h).digests, 96);
    HeaderFieldsInverse(h);
  }

  /** An accepted header has exactly one wire form: the one that was accepted. */
  lemma EncodeDecodeHeader(sha: Sha, b: Bytes, expected: Digest)
    requires DecodeHeader(sha, b, expected).Success?
    ensures var h := DecodeHeader(sha, b, expected).value;
            && ValidHeader(sha, h) && h.headerSha == expected
            && EncodeHeader(sha, h) == Success(b)
  {
    hide ParseFrame, Frame, ValidHeader;
    FrameInverts(b, HEADER_MAGIC, 10, 4, 96);
    HeaderOfInverse(ParseFrame(b, HEADER_MAGIC, 10, 4, 96).value);
  }

  // ---------------------------------------------------------------------------------------
  // Records
  // ---------------------------------------------------------------------------------------

  function RecordFields(r: Record): (f: Fields)
    ensures |f.words| == 8 && |f.digests| == 18
  {
    Fields([r.abi, RECORD_BODY_BYTES, r.sequence, r.kind, r.attemptGeneration,
            r.identity.purpose, r.identity.actionOrdinal, r.identity.payloadBytes],
           IdentityDigests(r.identity) + RecordDigests(r))
  }

  function RecordOf(f: Fields): Record
    requires |f.words| == 8 && |f.digests| == 18
  {
    var w, d := f.words, f.digests;
    var id := Identity(IDENTITY_ABI, w[5], w[6], w[7], d[0], d[1], d[2], d[3], d[4], d[5], d[6],
                       d[7], d[8], d[9], d[10], d[11]);
    Record(w[0], w[2], w[3], w[4], id, d[12], d[13], d[14], d[15], d[16], d[17])
  }

  function RecordBody(r: Record): (b: Bytes)
    ensures |b| == RECORD_BODY_BYTES
  {
    Frame(RECORD_MAGIC, RecordFields(r).words, RecordFields(r).digests, 48)
  }

  function RecordFooter(r: Record): (b: Bytes)
    ensures |b| == COMMIT_FOOTER_BYTES
  {
    COMMIT_MAGIC + LE64(r.sequence) + r.recordSha
  }

  function EncodeRecord(sha: Sha, h: Header, r: Record): (e: Result<Bytes, OutboxError>)
    ensures e.Success? ==> |e.value| == RECORD_BYTES
  {
    if !ValidHeader(sha, h) then Failure(InvalidHeader)
    else if !ValidRecord(sha, h, r) then Failure(InvalidRecord)
    else Success(RecordBody(r) + RecordFooter(r))
  }

  function DecodeRecord(sha: Sha, h: Header, sequence: u64, previous: Digest, b: Bytes)
    : Result<Record, OutboxError>
  {
    if !ValidHeader(sha, h) then Failure(InvalidHeader)
    else if previous == ZERO_DIGEST || |b| != RECORD_BYTES then Failure(InvalidFraming)
    else
      var f := ParseFrame(b[..RECORD_BODY_BYTES], RECORD_MAGIC, 8, 18, 48);
      if f.None? || f.value.words[1] != RECORD_BODY_BYTES then Failure(InvalidFraming)
      else
        var r := RecordOf(f.value);
        if b[RECORD_BODY_BYTES..RECORD_BODY_BYTES + 8] != COMMIT_MAGIC then Failure(InvalidFraming)
        else if !ValidRecord(sha, h, r) then Failure(InvalidRecord)
        else if r.sequence != sequence || r.previousJournal != previous
                || FromLE64(b[RECORD_BODY_BYTES + 8..RECORD_BODY_BYTES + 16]) != r.sequence
                || b[RECORD_BODY_BYTES + 16..] != r.recordSha
        then Failure(ChainMismatch)
        else Success(r)
  }

  lemma RecordFieldsInverse(r: Record)
    requires r.identity.abi == IDENTITY_ABI
    ensures RecordOf(RecordFields(r)) == r
  {
    var d := RecordFields(r).digests;
    assert forall i :: 0 <= i < 10 ==> d[i] == ActionDigests(r.identity)[i];
    assert d[10] == r.identity.action && d[11] == r.identity.stableRequest;
    assert forall i :: 0 <= i < 6 ==> d[12 + i] == RecordDigests(r)[i];
  }

  lemma RecordOfInverse(f: Fields)
    requires |f.words| == 8 && |f.digests| == 18 && f.words[1] == RECORD_BODY_BYTES
    ensures RecordFields(RecordOf(f)) == f
  {
    var g := RecordFields(RecordOf(f));
    assert g.words == f.words;
    assert g.digests == f.digests;
  }

  lemma FooterSplits(r: Record)
    ensures var b := RecordBody(r) + RecordFooter(r);
            && b[..RECORD_BODY_BYTES] == RecordBody(r)
            && b[RECORD_BODY_BYTES..RECORD_BODY_BYTES + 8] == COMMIT_MAGIC
            && FromLE64(b[RECORD_BODY_BYTES + 8..RECORD_BODY_BYTES + 16]) == r.sequence
            && b[RECORD_BODY_BYTES + 16..] == r.recordSha
  {
    hide Frame, RecordFields, LE64;
    var b := RecordBody(r) + RecordFooter(r);
    assert b[RECORD_BODY_BYTES + 8..RECORD_BODY_BYTES + 16] == LE64(r.sequence);
    LE64Inverse(r.sequence);
  }

  lemma DecodeEncodeRecord(sha: Sha, h: Header, r: Record)
    requires ValidHeader(sha, h) && ValidRecord(sha, h, r)
    ensures EncodeRecord(sha, h, r).Success?
    ensures DecodeRecord(sha, h, r.sequence, r.previousJournal, EncodeRecord(sha, h, r).value)
            == Success(r)
  {
    RecordPinned(sha, h, r);
    hide ParseFrame, Frame, ValidHeader, ValidRecord, RecordFooter, FromLE64;
    FooterSplits(r);
    ParseFrameInverts(RECORD_MAGIC, RecordFields(r).words, RecordFields(r).digests, 48);
    RecordFieldsInverse(r);
  }

  lemma RecordPinned(sha: Sha, h: Header, r: Record)
    requires ValidRecord(sha, h, r)
    ensures r.identity.abi == IDENTITY_ABI
    ensures r.previousJournal != ZERO_DIGEST && r.recordSha != ZERO_DIGEST
  {
  }

  lemma FooterRebuilds(b: Bytes, r: Record)
    requires |b| == RECORD_BYTES && b[..RECORD_BODY_BYTES] == RecordBody(r)
    requires b[RECORD_BODY_BYTES..RECORD_BODY_BYTES + 8] == COMMIT_MAGIC
    requires FromLE64(b[RECORD_BODY_BYTES + 8..RECORD_BODY_BYTES + 16]) == r.sequence
    requires b[RECORD_BODY_BYTES + 16..] == r.recordSha
    ensures RecordBody(r) + RecordFooter(r) == b
  {
    hide Frame, RecordFields, FromLE64, LE64;
    FromLE64Inverse(b[RECORD_BODY_BYTES + 8..RECORD_BODY_BYTES + 16]);
    assert b == b[..RECORD_BODY_BYTES] + b[RECORD_BODY_BYTES..RECORD_BODY_BYTES + 8]
                + b[RECORD_BODY_BYTES + 8..RECORD_BODY_BYTES + 16] + b[RECORD_BODY_BYTES + 16..];
  }

  lemma EncodeDecodeRecord(sha: Sha, h: Header, sequence: u64, previous: Digest, b: Bytes)
    requires DecodeRecord(sha, h, sequence, previous, b).Success?
    ensures var r := DecodeRecord(sha, h, sequence, previous, b).value;
            && ValidHeader(sha, h) && ValidRecord(sha, h, r)
            && r.sequence == sequence && r.previousJournal == previous
            && EncodeRecord(sha, h, r) == Success(b)
  {
    hide ParseFrame, Frame, ValidHeader, ValidRecord, RecordFooter, RecordFields, FromLE64;
    var body := b[..RECORD_BODY_BYTES];
    FrameInverts(body, RECORD_MAGIC, 8, 18, 48);
    var f := ParseFrame(body, RECORD_MAGIC, 8, 18, 48).value;
    RecordOfInverse(f);
    FooterRebuilds(b, RecordOf(f));
  }
}
