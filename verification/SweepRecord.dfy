/**
 * The fixed-width record of one sweep commit and the recovery classification of a stream of
 * them (bench/continuation_object_sweep_record.py).
 */
module SweepRecord {
  import opened Bytes
  import opened Outbox
  import opened ObjectStore
  import opened ObjectStoreReclaim
  import opened ObjectSweep

  const BODY_PREFIX_BYTES := 704
  const BODY_BYTES := 736
  const FOOTER_BYTES := 48
  const ENCODED_BYTES := 784
  const SEQUENCE_OFFSET := 40
  const SWEEP_RECORD_ABI: u64 := 0x4743_5352_0000_0001

  const BODY_MAGIC := Ascii("GCSWRB01")
  const FOOTER_MAGIC := Ascii("GCSWRF01")
  const SWEEP_RECORD_DOMAIN := Ascii("glacier-continuation-sweep-record-body-v1\0")

  datatype RecordError = WrongLength | WrongFraming | BodyRootMismatch | FooterMismatch
    | InvalidEvidence

  /** One record before it is sealed. */
  datatype Input = Input(
    epoch: u64, sequence: u64, previous: Digest, challenge: Digest, grant: CommitGrant,
    receipt: SweepReceipt, store: CommitReceipt)

  datatype Decoded = Decoded(input: Input, root: Digest)

  predicate ValidInput(cfg: Config, r: Input) {
    && r.challenge != ZERO_DIGEST && r.epoch != 0 && r.sequence != 0
    && (r.sequence == 1 <==> r.previous == ZERO_DIGEST)
    && VerifiedCommit(cfg, r.grant, r.receipt, r.store)
  }

  // ---------------------------------------------------------------------------------------
  // Splitting bytes into parts of given widths
  // ---------------------------------------------------------------------------------------

  function Total(ws: seq<nat>): nat {
    if ws == [] then 0 else ws[0] + Total(ws[1..])
  }

  function Split(b: Bytes, ws: seq<nat>): (parts: seq<Bytes>)
    requires |b| == Total(ws)
    ensures |parts| == |ws| && forall i | 0 <= i < |ws| :: |parts[i]| == ws[i]
  {
    if ws == [] then [] else [b[..ws[0]]] + Split(b[ws[0]..], ws[1..])
  }

  lemma {:induction false} SplitConcat(b: Bytes, ws: seq<nat>)
    requires |b| == Total(ws)
    ensures Concat(Split(b, ws)) == b
  {
    if ws != [] {
      SplitConcat(b[ws[0]..], ws[1..]);
      assert Split(b, ws)[1..] == Split(b[ws[0]..], ws[1..]);
      assert b == b[..ws[0]] + b[ws[0]..];
    }
  }

  lemma {:induction false} ConcatSplit(parts: seq<Bytes>, ws: seq<nat>)
    requires |ws| == |parts| && forall i | 0 <= i < |ws| :: ws[i] == |parts[i]|
    ensures |Concat(parts)| == Total(ws) && Split(Concat(parts), ws) == parts
  {
    if parts != [] {
      ConcatSplit(parts[1..], ws[1..]);
      var b := Concat(parts);
      assert b[..ws[0]] == parts[0] && b[ws[0]..] == Concat(parts[1..]);
      assert parts == [parts[0]] + parts[1..];
    }
  }

  // ---------------------------------------------------------------------------------------
  // The layout
  // ---------------------------------------------------------------------------------------

  /** The fields of a record body in wire order, grouped by kind. */
  datatype Layout = Layout(
    head: seq<u64>, chain: seq<Digest>, epoch: seq<u64>, roots: seq<Digest>, budgets: seq<u64>,
    ends: seq<Digest>, counts: seq<u64>, commits: seq<Digest>)
  {
    predicate Shaped() {
      && |head| == 5 && |chain| == 2 && |epoch| == 1 && |roots| == 7 && |budgets| == 2
      && |ends| == 3 && |counts| == 23 && |commits| == 2
    }
  }

  const BODY_WIDTHS: seq<nat> := [8, 40, 64, 8, 224, 16, 96, 184, 64]

  function LayoutParts(f: Layout): (parts: seq<Bytes>)
    requires f.Shaped()
    ensures |parts| == 9
    ensures forall i | 0 <= i < 9 :: |parts[i]| == BODY_WIDTHS[i]
  {
    [BODY_MAGIC, PackWords(f.head), JoinDigests(f.chain), PackWords(f.epoch),
     JoinDigests(f.roots), PackWords(f.budgets), JoinDigests(f.ends), PackWords(f.counts),
     JoinDigests(f.commits)]
  }

  lemma BodyTotal()
    ensures Total(BODY_WIDTHS) == BODY_PREFIX_BYTES
  {
    assert Total([64]) == 64;
    assert BODY_WIDTHS[1..][1..][1..][1..][1..][1..][1..] == [184, 64];
  }

  function PrefixOf(f: Layout): (b: Bytes)
    requires f.Shaped()
    ensures |b| == BODY_PREFIX_BYTES
  {
    BodyTotal();
    ConcatSplit(LayoutParts(f), BODY_WIDTHS);
    Concat(LayoutParts(f))
  }

  function WordsIn(b: Bytes, n: nat): (ws: seq<u64>)
    requires |b| == 8 * n
    ensures |ws| == n
  {
    UnpackWords(b)
  }

  function DigestsIn(b: Bytes, n: nat): (ds: seq<Digest>)
    requires |b| == 32 * n
    ensures |ds| == n
  {
    SplitDigests(b)
  }

  function ParsePrefix(b: Bytes): (f: Option<Layout>)
    requires |b| == BODY_PREFIX_BYTES
    ensures f.Some? ==> f.value.Shaped()
  {
    BodyTotal();
    var p := Split(b, BODY_WIDTHS);
    if p[0] != BODY_MAGIC then None
    else
      Some(Layout(WordsIn(p[1], 5), DigestsIn(p[2], 2), WordsIn(p[3], 1), DigestsIn(p[4], 7),
                  WordsIn(p[5], 2), DigestsIn(p[6], 3), WordsIn(p[7], 23), DigestsIn(p[8], 2)))
  }

  lemma ParsePrefixInverts(f: Layout)
    requires f.Shaped()
    ensures ParsePrefix(PrefixOf(f)) == Some(f)
  {
    BodyTotal();
    ConcatSplit(LayoutParts(f), BODY_WIDTHS);
    UnpackPack(f.head);
    UnpackPack(f.epoch);
    UnpackPack(f.budgets);
    UnpackPack(f.counts);
    SplitJoin(f.chain);
    SplitJoin(f.roots);
    SplitJoin(f.ends);
    SplitJoin(f.commits);
  }

  lemma PrefixInverts(b: Bytes)
    requires |b| == BODY_PREFIX_BYTES && ParsePrefix(b).Some?
    ensures PrefixOf(ParsePrefix(b).value) == b
  {
    BodyTotal();
    var p := Split(b, BODY_WIDTHS);
    PackUnpack(p[1]);
    PackUnpack(p[3]);
    PackUnpack(p[5]);
    PackUnpack(p[7]);
    JoinSplit(p[2]);
    JoinSplit(p[4]);
    JoinSplit(p[6]);
    JoinSplit(p[8]);
    assert LayoutParts(ParsePrefix(b).value) == p;
    SplitConcat(b, BODY_WIDTHS);
  }

  // ---------------------------------------------------------------------------------------
  // Records and layouts
  // ---------------------------------------------------------------------------------------

  function AccountingList(a: Accounting): (ns: seq<nat>)
    ensures |ns| == 9
  {
    [a.entries, a.live, a.quarantined, a.retired, a.payload, a.index, a.references, a.leases,
     a.repairs]
  }

  function AccountingFrom(ns: seq<u64>): Accounting
    requires |ns| == 9
  {
    Accounting(ns[0], ns[1], ns[2], ns[3], ns[4], ns[5], ns[6], ns[7], ns[8])
  }

  function CountList(r: Input): (ns: seq<nat>)
    ensures |ns| == 23
  {
    AccountingList(r.store.before) + AccountingList(r.store.after)
    + [r.receipt.freedEntries, r.receipt.freedPayload, r.receipt.freedIndex,
       r.receipt.freedRepairs, r.receipt.deallocations]
  }

  predicate Fits(ns: seq<nat>) {
    forall i | 0 <= i < |ns| :: ns[i] <= U64_MAX
  }

  function Narrow(ns: seq<nat>): (ws: seq<u64>)
    requires Fits(ns)
    ensures |ws| == |ns| && forall i | 0 <= i < |ns| :: ws[i] == ns[i]
  {
    seq(|ns|, i requires 0 <= i < |ns| => ns[i])
  }

  function LayoutOf(r: Input): (f: Layout)
    requires Fits(CountList(r))
    ensures f.Shaped()
  {
    var g := r.grant;
    Layout([SWEEP_RECORD_ABI, ENCODED_BYTES, 0, r.epoch, r.sequence], [r.previous, r.challenge],
           [g.epoch],
           [g.tenant, g.bundle, g.storeGrant, g.sweepGrant, g.prepare, g.expectedSnapshot,
            g.plan],
           [g.maxFreedEntries, g.maxFreedBytes],
           [g.challenge, r.receipt.targets, r.receipt.snapshotAfter], Narrow(CountList(r)),
           [r.store.commitSha, r.receipt.commitSha])
  }

  function GrantFrom(f: Layout): CommitGrant
    requires f.Shaped()
  {
    CommitGrant(f.epoch[0], f.roots[0], f.roots[1], f.roots[2], f.roots[3], f.roots[4],
                f.roots[5], f.roots[6], f.budgets[0], f.budgets[1], f.ends[0])
  }

  /** The input that a layout describes; the redundant fields are derived from the grant. */
  function InputFrom(cfg: Config, f: Layout): Input
    requires f.Shaped()
  {
    var g := GrantFrom(f);
    var root := CommitGrantRoot(cfg, g);
    var c := f.counts;
    var store := CommitReceipt(root, f.ends[1], g.expectedSnapshot, f.ends[2],
                               AccountingFrom(c[..9]), AccountingFrom(c[9..18]), c[18], c[19],
                               c[20], c[21], c[22], f.commits[0]);
    var receipt := SweepReceipt(root, g.sweepGrant, g.prepare, g.plan, f.ends[1],
                                g.expectedSnapshot, f.ends[2], f.commits[0], c[18], c[19],
                                c[20], c[21], c[22], f.commits[1]);
    Input(f.head[3], f.head[4], f.chain[0], f.chain[1], g, receipt, store)
  }

  lemma AccountingFits(a: Accounting)
    requires ValidAccounting(a)
    ensures Fits(AccountingList(a))
  {
  }

  lemma InputFits(cfg: Config, r: Input)
    requires ValidInput(cfg, r)
    ensures Fits(CountList(r))
  {
    hide ValidAccounting, CommitRoot, CommitGrantRoot, SweepCommitRoot, AccountingList;
    AccountingFits(r.store.before);
    AccountingFits(r.store.after);
    EntriesFit(r.store.before);
    var a, b := AccountingList(r.store.before), AccountingList(r.store.after);
    forall i | 0 <= i < 23 ensures CountList(r)[i] <= U64_MAX {
      if i < 9 {
        assert CountList(r)[i] == a[i];
      } else if i < 18 {
        assert CountList(r)[i] == b[i - 9];
      }
    }
  }

  lemma EntriesFit(a: Accounting)
    requires ValidAccounting(a)
    ensures a.entries <= U64_MAX && a.payload <= U64_MAX && a.index <= U64_MAX
    ensures a.repairs <= U64_MAX
  {
  }

  /** On verified evidence the layout loses nothing. */
  lemma InputOfLayout(cfg: Config, r: Input)
    requires ValidInput(cfg, r) && Fits(CountList(r))
    ensures InputFrom(cfg, LayoutOf(r)) == r
  {
    hide ValidAccounting, CommitRoot, CommitGrantRoot, SweepCommitRoot;
    var c := Narrow(CountList(r));
    AccountingBack(c[..9], r.store.before);
    AccountingBack(c[9..18], r.store.after);
    assert c[18] == CountList(r)[18] && c[19] == CountList(r)[19] && c[20] == CountList(r)[20];
    assert c[21] == CountList(r)[21] && c[22] == CountList(r)[22];
    assert GrantFrom(LayoutOf(r)) == r.grant;
  }

  lemma AccountingBack(ns: seq<u64>, a: Accounting)
    requires |ns| == 9 && forall i | 0 <= i < 9 :: ns[i] == AccountingList(a)[i]
    ensures AccountingFrom(ns) == a
  {
    assert ns[0] == AccountingList(a)[0] && ns[1] == AccountingList(a)[1];
    assert ns[2] == AccountingList(a)[2] && ns[3] == AccountingList(a)[3];
    assert ns[4] == AccountingList(a)[4] && ns[5] == AccountingList(a)[5];
    assert ns[6] == AccountingList(a)[6] && ns[7] == AccountingList(a)[7];
    assert ns[8] == AccountingList(a)[8];
  }

  lemma LayoutOfInput(cfg: Config, f: Layout)
    requires f.Shaped() && f.head[0] == SWEEP_RECORD_ABI && f.head[1] == ENCODED_BYTES
    requires f.head[2] == 0
    ensures Fits(CountList(InputFrom(cfg, f))) && LayoutOf(InputFrom(cfg, f)) == f
  {
    hide CommitGrantRoot;
    var r := InputFrom(cfg, f);
    var ns := CountList(r);
    AccountingForth(f.counts[..9]);
    AccountingForth(f.counts[9..18]);
    forall i | 0 <= i < 23 ensures ns[i] == f.counts[i] {
      if i < 9 {
        assert ns[i] == AccountingList(r.store.before)[i];
      } else if i < 18 {
        assert ns[i] == AccountingList(r.store.after)[i - 9];
      }
    }
    var g := LayoutOf(r);
    assert g.head == f.head && g.chain == f.chain && g.epoch == f.epoch;
    assert g.roots == f.roots && g.budgets == f.budgets && g.ends == f.ends;
    assert g.counts == f.counts && g.commits == f.commits;
  }

  lemma AccountingForth(ns: seq<u64>)
    requires |ns| == 9
    ensures AccountingList(AccountingFrom(ns)) == ns
  {
  }

  // ---------------------------------------------------------------------------------------
  // Encoding and decoding
  // ---------------------------------------------------------------------------------------

  function RecordRoot(cfg: Config, prefix: Bytes): Digest {
    cfg.sha(SWEEP_RECORD_DOMAIN + prefix)
  }

  function Encode(cfg: Config, r: Input): (e: Result<Bytes, RecordError>)
    ensures e.Success? ==> |e.value| == ENCODED_BYTES
  {
    if !ValidInput(cfg, r) || r.receipt.commitSha == ZERO_DIGEST then Failure(InvalidEvidence)
    else
      InputFits(cfg, r);
      var prefix := PrefixOf(LayoutOf(r));
      var root := RecordRoot(cfg, prefix);
      Success(prefix + root + FOOTER_MAGIC + LE64(r.sequence) + root)
  }

  predicate FramedBody(f: Layout) {
    f.Shaped() && f.head[0] == SWEEP_RECORD_ABI && f.head[1] == ENCODED_BYTES && f.head[2] == 0
  }

  function Decode(cfg: Config, b: Bytes): (d: Result<Decoded, RecordError>)
    ensures d.Success? ==> |b| == ENCODED_BYTES && ValidInput(cfg, d.value.input)
  {
    if |b| != ENCODED_BYTES then Failure(WrongLength)
    else
      var f := ParsePrefix(b[..BODY_PREFIX_BYTES]);
      var root := b[BODY_PREFIX_BYTES..BODY_BYTES];
      if f.None? || !FramedBody(f.value) then Failure(WrongFraming)
      else if root != RecordRoot(cfg, b[..BODY_PREFIX_BYTES]) then Failure(BodyRootMismatch)
      else if b[BODY_BYTES..BODY_BYTES + 8] != FOOTER_MAGIC
              || FromLE64(b[BODY_BYTES + 8..BODY_BYTES + 16]) != f.value.head[4]
              || b[BODY_BYTES + 16..] != root then Failure(FooterMismatch)
      else
        var r := InputFrom(cfg, f.value);
        if !ValidInput(cfg, r) then Failure(InvalidEvidence) else Success(Decoded(r, root))
  }

  /** Decoding an encoded record gives it back with its root. */
  lemma DecodeEncode(cfg: Config, r: Input)
    requires Encode(cfg, r).Success?
    ensures var b := Encode(cfg, r).value;
            Decode(cfg, b) == Success(Decoded(r, b[BODY_PREFIX_BYTES..BODY_BYTES]))
  {
    hide ValidInput, CommitGrantRoot, ParsePrefix, PrefixOf, RecordRoot, InputFrom, CountList,
      FromLE64;
    InputFits(cfg, r);
    InputOfLayout(cfg, r);
    ParsePrefixInverts(LayoutOf(r));
    LE64Inverse(r.sequence);
    var prefix := PrefixOf(LayoutOf(r));
    EncodedSlices(prefix, RecordRoot(cfg, prefix), r.sequence);
  }

  lemma EncodedSlices(prefix: Bytes, root: Digest, sequence: u64)
    requires |prefix| == BODY_PREFIX_BYTES
    ensures var b := prefix + root + FOOTER_MAGIC + LE64(sequence) + root;
            && |b| == ENCODED_BYTES
            && b[..BODY_PREFIX_BYTES] == prefix && b[BODY_PREFIX_BYTES..BODY_BYTES] == root
            && b[BODY_BYTES..BODY_BYTES + 8] == FOOTER_MAGIC
            && b[BODY_BYTES + 8..BODY_BYTES + 16] == LE64(sequence)
            && b[BODY_BYTES + 16..] == root
  {
    hide LE64;
  }

  /**
   * An accepted byte string is the encoding of what it decodes to, unless its sweep commit
   * digest is zero: the encoder refuses that one digest, which the decoder lets pass.
   */
  lemma EncodeDecode(cfg: Config, b: Bytes)
    requires Decode(cfg, b).Success?
    ensures var r := Decode(cfg, b).value.input;
            && (Encode(cfg, r) == Success(b) <==> r.receipt.commitSha != ZERO_DIGEST)
            && (Encode(cfg, r).Failure? <==> r.receipt.commitSha == ZERO_DIGEST)
  {
    hide ValidInput, CommitGrantRoot, ParsePrefix, PrefixOf, RecordRoot, CountList, FromLE64,
      LayoutOf;
    var f := ParsePrefix(b[..BODY_PREFIX_BYTES]).value;
    PrefixInverts(b[..BODY_PREFIX_BYTES]);
    LayoutOfInput(cfg, f);
    FromLE64Inverse(b[BODY_BYTES + 8..BODY_BYTES + 16]);
    InputFits(cfg, InputFrom(cfg, f));
    SlicesEncoded(b);
  }

  lemma SlicesEncoded(b: Bytes)
    requires |b| == ENCODED_BYTES
    ensures b == b[..BODY_PREFIX_BYTES] + b[BODY_PREFIX_BYTES..BODY_BYTES]
                 + b[BODY_BYTES..BODY_BYTES + 8] + b[BODY_BYTES + 8..BODY_BYTES + 16]
                 + b[BODY_BYTES + 16..]
  {
  }

  /** The footer that a complete body determines. */
  function ExpectedFooter(body: Bytes): (f: Bytes)
    requires |body| == BODY_BYTES
    ensures |f| == FOOTER_BYTES
  {
    FOOTER_MAGIC + body[SEQUENCE_OFFSET..SEQUENCE_OFFSET + 8] + body[BODY_PREFIX_BYTES..BODY_BYTES]
  }

  lemma SequenceInHead(b: Bytes)
    requires |b| == BODY_PREFIX_BYTES && ParsePrefix(b).Some?
    ensures b[SEQUENCE_OFFSET..SEQUENCE_OFFSET + 8] == LE64(ParsePrefix(b).value.head[4])
  {
    hide LE64;
    var f := ParsePrefix(b).value;
    PrefixInverts(b);
    var p := LayoutParts(f);
    assert Concat(p) == p[0] + Concat(p[1..]) && Concat(p[1..]) == p[1] + Concat(p[2..]);
    assert b[8..48] == PackWords(f.head);
    LastWord(f.head);
    assert b[8..48][32..] == b[40..48];
  }

  lemma LastWord(ws: seq<u64>)
    requires |ws| == 5
    ensures PackWords(ws)[32..] == LE64(ws[4])
  {
    hide LE64;
    PackTail(ws, 0);
    PackTail(ws, 1);
    PackTail(ws, 2);
    PackTail(ws, 3);
    PackTail(ws, 4);
    assert PackWords(ws[5..]) == [];
  }

  lemma PackTail(ws: seq<u64>, k: nat)
    requires k < |ws|
    ensures |PackWords(ws[k..])| >= 8 && PackWords(ws[k..])[8..] == PackWords(ws[k + 1..])
    ensures PackWords(ws[k..])[..8] == LE64(ws[k])
  {
    assert ws[k..][1..] == ws[k + 1..];
  }

  /** An accepted record ends in exactly the footer that its body determines. */
  lemma FooterDetermined(cfg: Config, b: Bytes)
    requires Decode(cfg, b).Success?
    ensures b == b[..BODY_BYTES] + ExpectedFooter(b[..BODY_BYTES])
  {
    hide ValidInput, ParsePrefix, InputFrom, RecordRoot, FromLE64, LE64;
    var prefix := b[..BODY_PREFIX_BYTES];
    SequenceInHead(prefix);
    FromLE64Inverse(b[BODY_BYTES + 8..BODY_BYTES + 16]);
    var body := b[..BODY_BYTES];
    assert body[SEQUENCE_OFFSET..SEQUENCE_OFFSET + 8]
           == prefix[SEQUENCE_OFFSET..SEQUENCE_OFFSET + 8];
    assert body[BODY_PREFIX_BYTES..BODY_BYTES] == b[BODY_PREFIX_BYTES..BODY_BYTES];
    SlicesEncoded(b);
    assert b == body + (b[BODY_BYTES..BODY_BYTES + 8] + b[BODY_BYTES + 8..BODY_BYTES + 16]
                        + b[BODY_BYTES + 16..]);
  }
}
