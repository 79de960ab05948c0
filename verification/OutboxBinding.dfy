/** The final chain root of a clean journal binds every byte of it, collisions aside. */
module OutboxBinding {
  import opened Bytes
  import opened Outbox
  import opened OutboxWire
  import opened OutboxRecovery
  import opened OutboxLaws

  lemma ScalarsInjective(a: Identity, b: Identity)
    requires IdentityScalars(a) == IdentityScalars(b)
    requires a.purpose < 256 && b.purpose < 256
    ensures a.abi == b.abi && a.purpose == b.purpose && a.actionOrdinal == b.actionOrdinal
            && a.payloadBytes == b.payloadBytes
  {
    hide LE64;
    var x, y := IdentityScalars(a), IdentityScalars(b);
    assert x[..8] == LE64(a.abi) && y[..8] == LE64(b.abi);
    assert x[8] == a.purpose && y[8] == b.purpose;
    assert x[9..17] == LE64(a.actionOrdinal) && y[9..17] == LE64(b.actionOrdinal);
    assert x[17..] == LE64(a.payloadBytes) && y[17..] == LE64(b.payloadBytes);
    LE64Injective(a.abi, b.abi);
    LE64Injective(a.actionOrdinal, b.actionOrdinal);
    LE64Injective(a.payloadBytes, b.payloadBytes);
  }

  lemma IdentityDigestsInjective(a: Identity, b: Identity)
    requires IdentityDigests(a) == IdentityDigests(b)
    requires a.abi == b.abi && a.purpose == b.purpose && a.actionOrdinal == b.actionOrdinal
             && a.payloadBytes == b.payloadBytes
    ensures a == b
  {
    var x, y := IdentityDigests(a), IdentityDigests(b);
    assert forall i :: 0 <= i < 10 ==> ActionDigests(a)[i] == x[i] && ActionDigests(b)[i] == y[i];
    assert x[10] == a.action && y[10] == b.action;
    assert x[11] == a.stableRequest && y[11] == b.stableRequest;
    assert a.parentAction == ActionDigests(a)[0] && b.parentAction == ActionDigests(b)[0];
    assert a.descriptor == ActionDigests(a)[1] && b.descriptor == ActionDigests(b)[1];
    assert a.arguments == ActionDigests(a)[2] && b.arguments == ActionDigests(b)[2];
    assert a.proposal == ActionDigests(a)[3] && b.proposal == ActionDigests(b)[3];
    assert a.policy == ActionDigests(a)[4] && b.policy == ActionDigests(b)[4];
    assert a.authorization == ActionDigests(a)[5] && b.authorization == ActionDigests(b)[5];
    assert a.idempotencyKey == ActionDigests(a)[6] && b.idempotencyKey == ActionDigests(b)[6];
    assert a.serviceEvent == ActionDigests(a)[7] && b.serviceEvent == ActionDigests(b)[7];
    assert a.payloadLocator == ActionDigests(a)[8] && b.payloadLocator == ActionDigests(b)[8];
    assert a.payload == ActionDigests(a)[9] && b.payload == ActionDigests(b)[9];
  }

  lemma IdentityPartsInjective(a: Identity, b: Identity)
    requires IdentityParts(a) == IdentityParts(b)
    requires a.purpose < 256 && b.purpose < 256
    ensures a == b
  {
    hide IdentityScalars, IdentityDigests, JoinDigests;
    ScalarsLength(a);
    ScalarsLength(b);
    var x, y := IdentityParts(a), IdentityParts(b);
    assert x[..25] == IdentityScalars(a) && y[..25] == IdentityScalars(b);
    assert x[25..] == JoinDigests(IdentityDigests(a)) && y[25..] == JoinDigests(IdentityDigests(b));
    ScalarsInjective(a, b);
    JoinDigestsInjective(IdentityDigests(a), IdentityDigests(b));
    IdentityDigestsInjective(a, b);
  }

  lemma ScalarsLength(id: Identity)
    ensures |IdentityScalars(id)| == 25
    ensures |IdentityParts(id)| == 409
  {
    hide LE64, IdentityDigests, JoinDigests;
  }

  /** A record's preimage determines every field its root covers. */
  lemma RecordPreimageInjective(h: Header, a: Record, b: Record)
    requires RecordPreimage(h, a) == RecordPreimage(h, b)
    requires a.kind < 256 && b.kind < 256
    requires a.identity.purpose < 256 && b.identity.purpose < 256
    requires a.recordSha == b.recordSha
    ensures a == b
  {
    hide LE64, IdentityParts, JoinDigests, Concat;
    var p, q := RecordPreimageParts(h, a), RecordPreimageParts(h, b);
    ScalarsLength(a.identity);
    ScalarsLength(b.identity);
    ConcatInjective(p, q);
    assert p[2] == LE64(a.abi) && q[2] == LE64(b.abi);
    assert p[3] == LE64(a.sequence) && q[3] == LE64(b.sequence);
    assert p[4] == LE8(a.kind) && q[4] == LE8(b.kind);
    assert p[5] == LE64(a.attemptGeneration) && q[5] == LE64(b.attemptGeneration);
    LE64Injective(a.abi, b.abi);
    LE64Injective(a.sequence, b.sequence);
    LE64Injective(a.attemptGeneration, b.attemptGeneration);
    assert LE8(a.kind)[0] == a.kind && LE8(b.kind)[0] == b.kind;
    assert p[6] == IdentityParts(a.identity) && q[6] == IdentityParts(b.identity);
    IdentityPartsInjective(a.identity, b.identity);
    assert p[7] == JoinDigests(RecordDigests(a)[..5]) && q[7] == JoinDigests(RecordDigests(b)[..5]);
    JoinDigestsInjective(RecordDigests(a)[..5], RecordDigests(b)[..5]);
    var x, y := RecordDigests(a)[..5], RecordDigests(b)[..5];
    assert x[0] == a.previousActionEvent && y[0] == b.previousActionEvent;
    assert x[1] == a.previousJournal && y[1] == b.previousJournal;
    assert x[2] == a.dispatchRequest && y[2] == b.dispatchRequest;
    assert x[3] == a.observation && y[3] == b.observation;
    assert x[4] == a.result && y[4] == b.result;
  }

  lemma HeaderPreimageInjective(a: Header, b: Header)
    requires HeaderPreimage(a) == HeaderPreimage(b) && a.headerSha == b.headerSha
    ensures a == b
  {
    hide PackWords, JoinDigests;
    var n := |HEADER_DOMAIN|;
    var x, y := HeaderPreimage(a), HeaderPreimage(b);
    assert x[n..n + 72] == PackWords(HeaderWords(a)) && y[n..n + 72] == PackWords(HeaderWords(b));
    assert x[n + 72..] == JoinDigests(HeaderDigests(a)) && y[n + 72..] == JoinDigests(HeaderDigests(b));
    PackWordsInjective(HeaderWords(a), HeaderWords(b));
    JoinDigestsInjective(HeaderDigests(a), HeaderDigests(b));
    var v, w := HeaderWords(a), HeaderWords(b);
    assert v[0] == w[0] && v[1] == w[1] && v[2] == w[2] && v[3] == w[3] && v[4] == w[4];
    assert v[5] == w[5] && v[6] == w[6] && v[7] == w[7] && v[8] == w[8];
    var d, e := HeaderDigests(a), HeaderDigests(b);
    assert d[0] == e[0] && d[1] == e[1] && d[2] == e[2];
  }

  lemma {:induction false} ConcatHolds(parts: seq<Bytes>, i: nat)
    requires i < |parts|
    ensures |Concat(parts)| >= |parts[i]|
  {
    if i > 0 {
      ConcatHolds(parts[1..], i - 1);
    }
  }

  /** Header and record preimages differ in length, so neither can pose as the other. */
  lemma HeaderIsNoRecord(g: Header, h: Header, r: Record)
    ensures |HeaderPreimage(g)| < |RecordPreimage(h, r)|
  {
    hide LE64, IdentityParts, JoinDigests, Concat, PackWords;
    ScalarsLength(r.identity);
    ConcatHolds(RecordPreimageParts(h, r), 6);
  }

  /** Everything a recovered journal hashed into its chain. */
  ghost function ChainPreimages(h: Header, records: seq<Record>): iset<Bytes> {
    iset{HeaderPreimage(h)} + (iset r | r in records :: RecordPreimage(h, r))
  }

  /** The stream that a header and records encode to. */
  function Journal(h: Header, records: seq<Record>): Bytes {
    if records == [] then Frame(HEADER_MAGIC, HeaderFields(h).words, HeaderFields(h).digests, 96)
    else
      var n := |records| - 1;
      Journal(h, records[..n]) + RecordBody(records[n]) + RecordFooter(records[n])
  }

  /** Record `k` is valid, numbered `k + 1`, and names its predecessor's root. */
  predicate Chained(sha: Sha, h: Header, records: seq<Record>, k: nat)
    requires k < |records|
  {
    && ValidRecord(sha, h, records[k]) && records[k].sequence == k + 1
    && records[k].previousJournal == FinalChain(h, records[..k])
  }

  lemma ChainedPrefix(sha: Sha, h: Header, records: seq<Record>, n: nat)
    requires n <= |records| && forall k :: 0 <= k < |records| ==> Chained(sha, h, records, k)
    ensures forall k :: 0 <= k < n ==> Chained(sha, h, records[..n], k)
  {
    hide ValidRecord;
    forall k | 0 <= k < n ensures Chained(sha, h, records[..n], k) {
      assert records[..n][..k] == records[..k];
      assert Chained(sha, h, records, k);
    }
  }

  lemma ChainedExtend(sha: Sha, h: Header, records: seq<Record>, r: Record)
    requires forall k :: 0 <= k < |records| ==> Chained(sha, h, records, k)
    requires ValidRecord(sha, h, r) && r.sequence == |records| + 1
    requires r.previousJournal == FinalChain(h, records)
    ensures forall k :: 0 <= k <= |records| ==> Chained(sha, h, records + [r], k)
  {
    hide ValidRecord;
    forall k | 0 <= k <= |records| ensures Chained(sha, h, records + [r], k) {
      assert (records + [r])[..k] == records[..k];
      assert records[..|records|] == records;
      assert k < |records| ==> Chained(sha, h, records, k);
    }
  }

  /** What `Committed` establishes about the records it accepts, and about their bytes. */
  lemma {:induction false} CommittedChains(sha: Sha, h: Header, b: Bytes, n: nat)
    requires Boundary(n) <= |b| && Committed(sha, h, b, n).Success?
    requires EncodeHeader(sha, h) == Success(b[..HEADER_BYTES])
    ensures var records := Committed(sha, h, b, n).value;
            && (forall k :: 0 <= k < n ==> Chained(sha, h, records, k))
            && Journal(h, records) == b[..Boundary(n)]
  {
    hide ValidHeader, ValidRecord, DecodeRecord, Replay, Frame, RecordBody, RecordFooter,
         Chained;
    if n > 0 {
      CommittedChains(sha, h, b, n - 1);
      var before := Committed(sha, h, b, n - 1).value;
      var frame := b[Boundary(n - 1)..Boundary(n)];
      EncodeDecodeRecord(sha, h, n, FinalChain(h, before), frame);
      var r := DecodeRecord(sha, h, n, FinalChain(h, before), frame).value;
      ChainedExtend(sha, h, before, r);
      JournalExtend(h, before, r);
      assert b[..Boundary(n)] == b[..Boundary(n - 1)] + frame;
    }
  }

  lemma JournalExtend(h: Header, records: seq<Record>, r: Record)
    ensures Journal(h, records + [r]) == Journal(h, records) + (RecordBody(r) + RecordFooter(r))
  {
    hide Frame, RecordBody, RecordFooter;
    var all := records + [r];
    assert all[..|all| - 1] == records;
    assert Journal(h, records) + RecordBody(r) + RecordFooter(r)
           == Journal(h, records) + (RecordBody(r) + RecordFooter(r));
  }

  lemma ChainedRecord(sha: Sha, h: Header, records: seq<Record>)
    requires records != [] && Chained(sha, h, records, |records| - 1)
    ensures var n := |records| - 1;
            && records[n].kind < 256 && records[n].identity.purpose < 256
            && FinalChain(h, records) == records[n].recordSha
            && records[n].recordSha == sha(RecordPreimage(h, records[n]))
            && records[n].previousJournal == FinalChain(h, records[..n])
            && RecordPreimage(h, records[n]) in ChainPreimages(h, records)
  {
    hide RecordPreimage, HeaderPreimage;
  }

  lemma FewerPreimages(sha: Sha, h: Header, a: seq<Record>, b: seq<Record>)
    requires a != [] && b != []
    requires NoCollision(sha, ChainPreimages(h, a) + ChainPreimages(h, b))
    ensures NoCollision(sha, ChainPreimages(h, a[..|a| - 1]) + ChainPreimages(h, b[..|b| - 1]))
  {
    hide RecordPreimage, HeaderPreimage;
    assert ChainPreimages(h, a[..|a| - 1]) <= ChainPreimages(h, a);
    assert ChainPreimages(h, b[..|b| - 1]) <= ChainPreimages(h, b);
  }

  lemma OneRecordIsNotNone(sha: Sha, h: Header, records: seq<Record>)
    requires records != [] && Chained(sha, h, records, |records| - 1) && ValidHeader(sha, h)
    requires NoCollision(sha, ChainPreimages(h, records))
    ensures FinalChain(h, records) != h.headerSha
  {
    ChainedRecord(sha, h, records);
    HeaderRoot(sha, h);
    hide RecordPreimage, HeaderPreimage, ValidHeader;
    HeaderIsNoRecord(h, h, records[|records| - 1]);
    assert HeaderPreimage(h) in ChainPreimages(h, records);
  }

  /** Two chains of valid records with the same last root are the same chain. */
  lemma {:induction false} ChainsAgree(sha: Sha, h: Header, a: seq<Record>, b: seq<Record>)
    requires ValidHeader(sha, h)
    requires forall k :: 0 <= k < |a| ==> Chained(sha, h, a, k)
    requires forall k :: 0 <= k < |b| ==> Chained(sha, h, b, k)
    requires NoCollision(sha, ChainPreimages(h, a) + ChainPreimages(h, b))
    requires FinalChain(h, a) == FinalChain(h, b)
    ensures a == b
    decreases |a|
  {
    hide ValidHeader, Chained, RecordPreimage, ChainPreimages;
    if a != [] && b != [] {
      var m, n := |a| - 1, |b| - 1;
      ChainedRecord(sha, h, a);
      ChainedRecord(sha, h, b);
      assert RecordPreimage(h, a[m]) == RecordPreimage(h, b[n]);
      RecordPreimageInjective(h, a[m], b[n]);
      ChainedPrefix(sha, h, a, m);
      ChainedPrefix(sha, h, b, n);
      FewerPreimages(sha, h, a, b);
      ChainsAgree(sha, h, a[..m], b[..n]);
      assert a == a[..m] + [a[m]] && b == b[..n] + [b[n]];
    } else if a != [] {
      NoCollisionLess(sha, ChainPreimages(h, a), ChainPreimages(h, b));
      OneRecordIsNotNone(sha, h, a);
    } else if b != [] {
      NoCollisionLess(sha, ChainPreimages(h, b), ChainPreimages(h, a));
      OneRecordIsNotNone(sha, h, b);
    }
  }

  lemma NoCollisionLess(sha: Sha, p: iset<Bytes>, q: iset<Bytes>)
    requires NoCollision(sha, p + q)
    ensures NoCollision(sha, p)
  {
  }

  /**
   * Journal binding: two clean journals accepted under the same pinned header root that end in
   * the same chain root are the same bytes, unless two of the byte strings they hashed collide.
   */
  lemma JournalBinding(sha: Sha, b: Bytes, c: Bytes, expected: Digest)
    requires Recovered(sha, b, expected).Success? && Recovered(sha, c, expected).Success?
    requires var r, s := Recovered(sha, b, expected).value, Recovered(sha, c, expected).value;
             && r.status == Clean && s.status == Clean
             && r.finalChain == s.finalChain
             && NoCollision(sha, ChainPreimages(r.header, r.records)
                                 + ChainPreimages(s.header, s.records))
    ensures b == c
  {
    hide DecodeHeader, NextRecord, Replay, Committed, Recovered, StateSha, ValidRecord,
         ValidHeader, HeaderPreimage, RecordPreimage, Journal, Report, EncodeHeader, Chained;
    RecoveredExactly(sha, b, expected);
    RecoveredExactly(sha, c, expected);
    var r, s := Recovered(sha, b, expected).value, Recovered(sha, c, expected).value;
    var m, n := WholeRecords(|b|), WholeRecords(|c|);
    ReportNames(sha, r.header, r.records, |b|);
    ReportNames(sha, s.header, s.records, |c|);
    EncodeDecodeHeader(sha, b[..HEADER_BYTES], expected);
    EncodeDecodeHeader(sha, c[..HEADER_BYTES], expected);
    assert HeaderPreimage(r.header) in ChainPreimages(r.header, r.records);
    assert HeaderPreimage(s.header) in ChainPreimages(s.header, s.records);
    HeaderRoot(sha, r.header);
    HeaderRoot(sha, s.header);
    HeaderPreimageInjective(r.header, s.header);
    CommittedChains(sha, r.header, b, m);
    CommittedChains(sha, s.header, c, n);
    ChainsAgree(sha, r.header, r.records, s.records);
    CleanIsWhole(|b|);
    CleanIsWhole(|c|);
    assert b[..Boundary(m)] == b && c[..Boundary(n)] == c;
  }

  lemma HeaderRoot(sha: Sha, h: Header)
    requires ValidHeader(sha, h)
    ensures h.headerSha == sha(HeaderPreimage(h))
  {
  }

  lemma CleanIsWhole(bytes: nat)
    requires HEADER_BYTES <= bytes && StatusOf(bytes - Boundary(WholeRecords(bytes))) == Clean
    ensures Boundary(WholeRecords(bytes)) == bytes
  {
  }
}
