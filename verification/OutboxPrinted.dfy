/** Recovered journals are the printed ones: a header, its records in order, and a torn tail. */
module OutboxPrinted {
  import opened Bytes
  import opened Outbox
  import opened OutboxLedger
  import opened OutboxWire
  import opened OutboxRecovery
  import opened OutboxLaws

  function HeaderPrint(h: Header): (b: Bytes)
    ensures |b| == HEADER_BYTES
  {
    Frame(HEADER_MAGIC, HeaderFields(h).words, HeaderFields(h).digests, 96)
  }

  function RecordPrint(r: Record): (b: Bytes)
    ensures |b| == RECORD_BYTES
  {
    RecordBody(r) + RecordFooter(r)
  }

  /** The bytes of a journal: its header and its records one after another. */
  function Printed(h: Header, records: seq<Record>): (b: Bytes)
    ensures |b| == Boundary(|records|)
  {
    if records == [] then HeaderPrint(h)
    else Printed(h, records[..|records| - 1]) + RecordPrint(records[|records| - 1])
  }

  /** Each record names the root before it. */
  predicate Chained(h: Header, records: seq<Record>) {
    forall k | 0 <= k < |records| :: records[k].previousJournal == FinalChain(h, records[..k])
  }

  /** A journal that may be written: a valid header and chained records that replay. */
  predicate Journals(sha: Sha, h: Header, records: seq<Record>) {
    ValidHeader(sha, h) && Chained(h, records) && Replay(sha, h, records).Success?
  }

  /** `b` prints this journal, followed by less than one record. */
  predicate Prints(h: Header, records: seq<Record>, b: Bytes) {
    |Printed(h, records)| <= |b| < |Printed(h, records)| + RECORD_BYTES
    && b[..|Printed(h, records)|] == Printed(h, records)
  }

  lemma JournalPrefix(sha: Sha, h: Header, records: seq<Record>)
    requires Journals(sha, h, records) && records != []
    ensures Journals(sha, h, records[..|records| - 1])
  {
    hide ValidHeader, Replay;
    var n := |records| - 1;
    ReplayPrefix(sha, h, records, n);
    assert forall k | 0 <= k < n :: records[..n][..k] == records[..k];
  }

  /** What the replay of one more record says about it. */
  lemma LastRecord(sha: Sha, h: Header, records: seq<Record>)
    requires Replay(sha, h, records).Success? && records != []
    ensures var n := |records| - 1;
            ValidRecord(sha, h, records[n]) && records[n].sequence == |records| <= h.maximumRecords
  {
    hide ApplyRecord, ValidHeader, ValidRecord, Conserved;
    var n := |records| - 1;
    var before := Replay(sha, h, records[..n]).value;
    ReplayConserves(sha, h, records);
    ReplayConserves(sha, h, records[..n]);
    var i := ApplyRecordInversion(sha, h, records[n], before.states, before.ledger);
  }

  /** A journal's last record is the next one after the others. */
  lemma LastIsNext(sha: Sha, h: Header, records: seq<Record>)
    requires Journals(sha, h, records) && records != []
    ensures var n := |records| - 1;
            NextRecord(sha, h, records[..n], RecordPrint(records[n])) == Success(records[n])
  {
    hide DecodeRecord, ValidHeader, ValidRecord, Replay, RecordPrint, FinalChain;
    var n := |records| - 1;
    LastRecord(sha, h, records);
    PrintDecodes(sha, h, records[n]);
    assert records == records[..n] + [records[n]];
    assert records[n].previousJournal == FinalChain(h, records[..n]);
  }

  lemma PrintedFrame(h: Header, records: seq<Record>, b: Bytes)
    requires records != [] && |Printed(h, records)| <= |b|
    requires b[..|Printed(h, records)|] == Printed(h, records)
    ensures var n := |records| - 1;
            && b[..|Printed(h, records[..n])|] == Printed(h, records[..n])
            && b[Boundary(n)..Boundary(n + 1)] == RecordPrint(records[n])
  {
    hide RecordPrint, HeaderPrint;
    var n := |records| - 1;
    var lo, hi := Boundary(n), Boundary(n + 1);
    var p := Printed(h, records);
    assert p[..lo] == Printed(h, records[..n]) && p[lo..] == RecordPrint(records[n]);
    assert b[..lo] == b[..hi][..lo] && b[lo..hi] == b[..hi][lo..];
  }

  /** Printed records are read back as they are. */
  lemma {:induction false} PrintedCommits(sha: Sha, h: Header, records: seq<Record>, b: Bytes)
    requires Journals(sha, h, records) && |Printed(h, records)| <= |b|
    requires b[..|Printed(h, records)|] == Printed(h, records)
    ensures Committed(sha, h, b, |records|) == Success(records)
  {
    hide Journals, NextRecord, RecordPrint, Committed, Printed, Replay, WholeRecords, HeaderPrint;
    if records == [] {
      EmptyReplay(sha, h, b);
    } else {
      var n := |records| - 1;
      JournalPrefix(sha, h, records);
      PrintedFrame(h, records, b);
      PrintedCommits(sha, h, records[..n], b);
      LastIsNext(sha, h, records);
      CommittedStep(sha, h, b, records[..n]);
      assert records == records[..n] + [records[n]];
    }
  }

  lemma PrintDecodes(sha: Sha, h: Header, r: Record)
    requires ValidHeader(sha, h) && ValidRecord(sha, h, r)
    ensures EncodeRecord(sha, h, r) == Success(RecordPrint(r))
    ensures DecodeRecord(sha, h, r.sequence, r.previousJournal, RecordPrint(r)) == Success(r)
  {
    hide DecodeRecord, ValidHeader, ValidRecord, RecordBody, RecordFooter;
    DecodeEncodeRecord(sha, h, r);
  }

  /** A journal with the record that a frame decodes to. */
  lemma NextJournals(sha: Sha, h: Header, records: seq<Record>, frame: Bytes)
    requires Journals(sha, h, records) && NextRecord(sha, h, records, frame).Success?
    ensures var r := NextRecord(sha, h, records, frame).value;
            && Journals(sha, h, records + [r]) && frame == RecordPrint(r)
            && Printed(h, records + [r]) == Printed(h, records) + frame
  {
    hide DecodeRecord, ValidHeader, ValidRecord, Replay, RecordPrint, FinalChain;
    var r := NextRecord(sha, h, records, frame).value;
    FramePrints(sha, h, |records| + 1, FinalChain(h, records), frame);
    var all := records + [r];
    assert all[..|records|] == records;
    assert forall k | 0 <= k < |records| :: all[..k] == records[..k];
  }

  /** Records that are read are printed in the stream. */
  lemma {:induction false} CommitsPrinted(sha: Sha, h: Header, b: Bytes, n: nat)
    requires Boundary(n) <= |b| && Committed(sha, h, b, n).Success? && ValidHeader(sha, h)
    requires b[..HEADER_BYTES] == HeaderPrint(h)
    ensures var records := Committed(sha, h, b, n).value;
            Journals(sha, h, records) && b[..Boundary(n)] == Printed(h, records)
  {
    hide NextRecord, ValidHeader, RecordPrint, HeaderPrint, Journals, Replay;
    if n == 0 {
      EmptyJournals(sha, h);
    } else {
      CommitsPrinted(sha, h, b, n - 1);
      var before := Committed(sha, h, b, n - 1).value;
      NextJournals(sha, h, before, b[Boundary(n - 1)..Boundary(n)]);
      assert b[..Boundary(n)] == b[..Boundary(n - 1)] + b[Boundary(n - 1)..Boundary(n)];
    }
  }

  lemma EmptyJournals(sha: Sha, h: Header)
    requires ValidHeader(sha, h)
    ensures Journals(sha, h, []) && Printed(h, []) == HeaderPrint(h)
  {
  }

  lemma FramePrints(sha: Sha, h: Header, sequence: u64, previous: Digest, frame: Bytes)
    requires DecodeRecord(sha, h, sequence, previous, frame).Success?
    ensures var r := DecodeRecord(sha, h, sequence, previous, frame).value;
            frame == RecordPrint(r) && r.previousJournal == previous
  {
    hide DecodeRecord, ValidHeader, ValidRecord, RecordBody, RecordFooter;
    EncodeDecodeRecord(sha, h, sequence, previous, frame);
  }

  lemma HeaderPrints(sha: Sha, h: Header)
    requires ValidHeader(sha, h)
    ensures DecodeHeader(sha, HeaderPrint(h), h.headerSha) == Success(h)
  {
    hide DecodeHeader, Frame, HeaderFields;
    DecodeEncodeHeader(sha, h);
  }

  lemma HeaderPrinted(sha: Sha, b: Bytes, expected: Digest)
    requires DecodeHeader(sha, b, expected).Success?
    ensures var h := DecodeHeader(sha, b, expected).value;
            b == HeaderPrint(h) && ValidHeader(sha, h) && h.headerSha == expected
  {
    hide DecodeHeader, Frame, HeaderFields, ValidHeader;
    EncodeDecodeHeader(sha, b, expected);
  }

  lemma PrintedHeader(h: Header, records: seq<Record>)
    ensures Printed(h, records)[..HEADER_BYTES] == HeaderPrint(h)
  {
    hide RecordPrint, HeaderPrint;
    if records != [] {
      PrintedHeader(h, records[..|records| - 1]);
    }
  }

  /** A printed journal with a torn tail recovers to itself. */
  lemma PrintedRecovers(sha: Sha, h: Header, records: seq<Record>, b: Bytes)
    requires Journals(sha, h, records) && Prints(h, records, b)
    ensures var r := Recovered(sha, b, h.headerSha);
            && r.Success? && r.value.header == h && r.value.records == records
            && r.value.states == Replay(sha, h, records).value.states
            && r.value.finalChain == FinalChain(h, records)
            && r.value.status == StatusOf(|b| - Boundary(|records|))
  {
    hide DecodeHeader, ValidHeader, Replay, Report, Committed, Recovered, HeaderPrint, Printed;
    PrintedHeader(h, records);
    assert b[..HEADER_BYTES] == b[..|Printed(h, records)|][..HEADER_BYTES];
    HeaderPrints(sha, h);
    PrintedCommits(sha, h, records, b);
    WholeRecordsUnique(|b|, |records|);
    RecoveredExactly(sha, b, h.headerSha);
    ReportNames(sha, h, records, |b|);
  }

  /** What recovers is a printed journal with a torn tail. */
  lemma RecoveredPrinted(sha: Sha, b: Bytes, expected: Digest)
    requires Recovered(sha, b, expected).Success?
    ensures var r := Recovered(sha, b, expected).value;
            && r.header.headerSha == expected
            && Journals(sha, r.header, r.records) && Prints(r.header, r.records, b)
  {
    hide DecodeHeader, ValidHeader, Replay, Report, Committed, Recovered, HeaderPrint, Printed,
      WholeRecords;
    RecoveredExactly(sha, b, expected);
    var r := Recovered(sha, b, expected).value;
    HeaderPrinted(sha, b[..HEADER_BYTES], expected);
    BoundaryOf(|b|);
    CommitsPrinted(sha, r.header, b, WholeRecords(|b|));
  }

  /**
   * What recovery accepts. A stream recovers to a header and records exactly when it is the
   * print of that journal (a valid header under the expected root, and records that chain and
   * replay), followed by less than one record of anything.
   */
  lemma RecoversExactlyPrinted(sha: Sha, b: Bytes, expected: Digest, h: Header,
    records: seq<Record>)
    ensures (&& Recovered(sha, b, expected).Success?
             && Recovered(sha, b, expected).value.header == h
             && Recovered(sha, b, expected).value.records == records)
            <==> h.headerSha == expected && Journals(sha, h, records) && Prints(h, records, b)
  {
    hide Recovered, Journals, Prints;
    if Recovered(sha, b, expected).Success? {
      RecoveredPrinted(sha, b, expected);
    }
    if h.headerSha == expected && Journals(sha, h, records) && Prints(h, records, b) {
      PrintedRecovers(sha, h, records, b);
    }
  }
}
