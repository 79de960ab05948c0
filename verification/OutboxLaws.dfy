/** Laws of recovered journals: prefixes recover to prefixes, and roots bind whole streams. */
module OutboxLaws {
  import opened Bytes
  import opened Outbox
  import opened OutboxLedger
  import opened OutboxWire
  import opened OutboxRecovery

  /** Whole records depend only on the bytes they occupy. */
  lemma {:induction false} CommittedAgree(sha: Sha, h: Header, b: Bytes, c: Bytes, n: nat)
    requires Boundary(n) <= |b| && Boundary(n) <= |c|
    requires b[..Boundary(n)] == c[..Boundary(n)]
    ensures Committed(sha, h, b, n) == Committed(sha, h, c, n)
  {
    hide NextRecord;
    if n > 0 {
      var lo, hi := Boundary(n - 1), Boundary(n);
      assert b[..lo] == b[..hi][..lo] && c[..lo] == c[..hi][..lo];
      assert b[lo..hi] == b[..hi][lo..] && c[lo..hi] == c[..hi][lo..];
      CommittedAgree(sha, h, b, c, n - 1);
    }
  }

  lemma {:induction false} CommittedTake(sha: Sha, h: Header, b: Bytes, n: nat, k: nat)
    requires k <= n && Boundary(n) <= |b|
    requires Committed(sha, h, b, n).Success?
    ensures Committed(sha, h, b, k) == Success(Committed(sha, h, b, n).value[..k])
  {
    hide NextRecord, Replay;
    if k == n {
      assert Committed(sha, h, b, n).value[..k] == Committed(sha, h, b, n).value;
    } else {
      CommittedTake(sha, h, b, n - 1, k);
      var before := Committed(sha, h, b, n - 1).value;
      assert Committed(sha, h, b, n).value[..n - 1] == before;
      assert Committed(sha, h, b, n).value[..k] == before[..k];
    }
  }

  lemma ReportSucceeds(sha: Sha, h: Header, records: seq<Record>, bytes: nat)
    requires Boundary(|records|) <= bytes < Boundary(|records| + 1)
    requires Replay(sha, h, records).Success?
    ensures Report(sha, h, records, bytes).Success?
  {
    hide ApplyRecord, ApplyNext, Conserved, StateSha;
    LedgerConservation(sha, h, records);
  }

  /**
   * Recovery in terms of what it must establish: it succeeds exactly on a pinned header
   * followed by whole records that decode, chain and replay, whatever the torn tail holds.
   */
  lemma RecoveredExactly(sha: Sha, b: Bytes, expected: Digest)
    requires |b| >= HEADER_BYTES
    ensures var h := DecodeHeader(sha, b[..HEADER_BYTES], expected);
            Recovered(sha, b, expected).Success?
            <==> h.Success? && Committed(sha, h.value, b, WholeRecords(|b|)).Success?
    ensures Recovered(sha, b, expected).Success? ==>
              var r := Recovered(sha, b, expected).value;
              var h := DecodeHeader(sha, b[..HEADER_BYTES], expected);
              && h == Success(r.header)
              && Committed(sha, r.header, b, WholeRecords(|b|)) == Success(r.records)
              && Report(sha, r.header, r.records, |b|) == Success(r)
  {
    hide DecodeHeader, NextRecord, Replay, Report, Committed;
    var h := DecodeHeader(sha, b[..HEADER_BYTES], expected);
    if h.Success? && Committed(sha, h.value, b, WholeRecords(|b|)).Success? {
      var records := Committed(sha, h.value, b, WholeRecords(|b|)).value;
      ReportSucceeds(sha, h.value, records, |b|);
      ReportNames(sha, h.value, records, |b|);
    }
  }

  lemma ReportNames(sha: Sha, h: Header, records: seq<Record>, bytes: nat)
    requires Boundary(|records|) <= bytes < Boundary(|records| + 1)
    requires Replay(sha, h, records).Success?
    ensures Report(sha, h, records, bytes).Success? ==>
              var r := Report(sha, h, records, bytes).value;
              && r.header == h && r.records == records
              && r.states == Replay(sha, h, records).value.states
              && r.finalChain == FinalChain(h, records)
              && r.committedBytes == Boundary(|records|)
              && r.discardedTailBytes == bytes - Boundary(|records|)
              && r.status == StatusOf(r.discardedTailBytes)
  {
    hide Replay, StateSha;
  }

  /**
   * Prefix recovery: every cut of an accepted stream at or past the header is accepted, and
   * yields exactly the records that are whole in the cut, with the states they replay to and
   * the status that the remainder fixes.
   */
  lemma PrefixRecovers(sha: Sha, b: Bytes, expected: Digest, cut: nat)
    requires Recovered(sha, b, expected).Success?
    requires HEADER_BYTES <= cut <= |b|
    ensures var whole := Recovered(sha, b, expected).value;
            var part := Recovered(sha, b[..cut], expected);
            var k := WholeRecords(cut);
            && part.Success?
            && part.value.header == whole.header
            && k <= |whole.records| && part.value.records == whole.records[..k]
            && Replay(sha, whole.header, whole.records[..k]).Success?
            && part.value.states == Replay(sha, whole.header, whole.records[..k]).value.states
            && part.value.committedBytes == Boundary(k)
            && part.value.status == StatusOf(cut - Boundary(k))
  {
    hide DecodeHeader, NextRecord, Replay, Report, Committed, Recovered;
    var c := b[..cut];
    assert c[..HEADER_BYTES] == b[..HEADER_BYTES];
    RecoveredExactly(sha, b, expected);
    RecoveredExactly(sha, c, expected);
    var whole := Recovered(sha, b, expected).value;
    var n, k := WholeRecords(|b|), WholeRecords(cut);
    CommittedTake(sha, whole.header, b, n, k);
    assert b[..Boundary(k)] == c[..Boundary(k)];
    CommittedAgree(sha, whole.header, b, c, k);
    ReplayPrefix(sha, whole.header, whole.records, k);
    ReportNames(sha, whole.header, whole.records[..k], cut);
  }

  /** Dropping the torn tail changes nothing but the status: all the roots stay the same. */
  lemma TornTailDropped(sha: Sha, b: Bytes, expected: Digest)
    requires Recovered(sha, b, expected).Success?
    ensures var r := Recovered(sha, b, expected).value;
            && HEADER_BYTES <= r.committedBytes <= |b|
            && Recovered(sha, b[..r.committedBytes], expected)
               == Success(r.(status := Clean, discardedTailBytes := 0))
  {
    hide DecodeHeader, NextRecord, Replay, Committed, Recovered, StateSha;
    RecoveredExactly(sha, b, expected);
    var r := Recovered(sha, b, expected).value;
    ReportNames(sha, r.header, r.records, |b|);
    var c := b[..r.committedBytes];
    PrefixRecovers(sha, b, expected, r.committedBytes);
    RecoveredExactly(sha, c, expected);
    assert r.records[..|r.records|] == r.records;
  }

  /** Streams with the same whole records recover to the same journal, up to the torn tail. */
  lemma SameCommittedBytes(sha: Sha, b: Bytes, c: Bytes, expected: Digest)
    requires Recovered(sha, b, expected).Success?
    requires |c| >= HEADER_BYTES && WholeRecords(|c|) == WholeRecords(|b|)
    requires var n := Boundary(WholeRecords(|b|)); b[..n] == c[..n]
    ensures var r := Recovered(sha, b, expected).value;
            var tail := |c| - Boundary(WholeRecords(|c|));
            Recovered(sha, c, expected)
            == Success(r.(status := StatusOf(tail), discardedTailBytes := tail))
  {
    hide DecodeHeader, NextRecord, Replay, Committed, Recovered, StateSha;
    var n := WholeRecords(|b|);
    assert b[..HEADER_BYTES] == b[..Boundary(n)][..HEADER_BYTES];
    assert c[..HEADER_BYTES] == c[..Boundary(n)][..HEADER_BYTES];
    RecoveredExactly(sha, b, expected);
    RecoveredExactly(sha, c, expected);
    var r := Recovered(sha, b, expected).value;
    CommittedAgree(sha, r.header, b, c, n);
    ReportNames(sha, r.header, r.records, |b|);
  }
}
