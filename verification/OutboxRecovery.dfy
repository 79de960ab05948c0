/** Recovery of a journal whose tail may be torn: the loop, its specification and its laws. */
module OutboxRecovery {
  import opened Bytes
  import opened Outbox
  import opened OutboxWire

  datatype Status = Clean | ShortBodyTail | BodyWithoutFooter | PartialFooterTail

  datatype Recovery = Recovery(
    header: Header, records: seq<Record>, states: seq<State>, status: Status,
    committedBytes: nat, discardedTailBytes: nat, finalChain: Digest, stateSha: Digest,
    ledger: Ledger)

  /** How many whole records fit in a stream of `bytes` bytes. */
  function WholeRecords(bytes: nat): nat
    requires HEADER_BYTES <= bytes
  {
    (bytes - HEADER_BYTES) / RECORD_BYTES
  }

  /** Where record `n` ends. */
  function Boundary(n: nat): nat {
    HEADER_BYTES + n * RECORD_BYTES
  }

  lemma BoundaryOf(bytes: nat)
    requires HEADER_BYTES <= bytes
    ensures Boundary(WholeRecords(bytes)) <= bytes < Boundary(WholeRecords(bytes) + 1)
  {
  }

  lemma WholeRecordsUnique(bytes: nat, n: nat)
    requires Boundary(n) <= bytes < Boundary(n + 1)
    ensures WholeRecords(bytes) == n
  {
  }

  function StatusOf(tail: nat): Status
    requires tail < RECORD_BYTES
  {
    if tail == 0 then Clean
    else if tail < RECORD_BODY_BYTES then ShortBodyTail
    else if tail == RECORD_BODY_BYTES then BodyWithoutFooter
    else PartialFooterTail
  }

  /** The chain root that the next record must name as its predecessor. */
  function FinalChain(h: Header, records: seq<Record>): Digest {
    if records == [] then h.headerSha else records[|records| - 1].recordSha
  }

  /** One step of recovery: decode the frame after `records` and replay it. */
  function NextRecord(sha: Sha, h: Header, records: seq<Record>, frame: Bytes)
    : (r: Result<Record, OutboxError>)
    ensures r.Success? ==> |records| < h.maximumRecords
    ensures r.Success? ==> Replay(sha, h, records + [r.value]).Success?
  {
    if |records| >= h.maximumRecords then Failure(CapacityExceeded)
    else
      var r := DecodeRecord(sha, h, |records| + 1, FinalChain(h, records), frame);
      if r.Failure? then r
      else
        var replayed := Replay(sha, h, records + [r.value]);
        if replayed.Failure? then Failure(replayed.error) else r
  }

  /** The first `n` records of the stream, if they decode, chain and replay. */
  function Committed(sha: Sha, h: Header, b: Bytes, n: nat): (r: Result<seq<Record>, OutboxError>)
    requires Boundary(n) <= |b|
    ensures r.Success? ==> |r.value| == n && Replay(sha, h, r.value).Success?
  {
    if n == 0 then Success([])
    else
      var before := Committed(sha, h, b, n - 1);
      if before.Failure? then before
      else
        var next := NextRecord(sha, h, before.value, b[Boundary(n - 1)..Boundary(n)]);
        if next.Failure? then Failure(next.error) else Success(before.value + [next.value])
  }

  /** The recovery report of a stream whose whole records are `records`. */
  function Report(sha: Sha, h: Header, records: seq<Record>, bytes: nat)
    : Result<Recovery, OutboxError>
    requires Boundary(|records|) <= bytes < Boundary(|records| + 1)
    requires Replay(sha, h, records).Success?
  {
    var after := Replay(sha, h, records).value;
    var ledger := FinalizeLedger(after.states, after.ledger);
    if ledger.Failure? then Failure(ledger.error)
    else
      var tail := bytes - Boundary(|records|);
      Success(Recovery(h, records, after.states, StatusOf(tail), Boundary(|records|), tail,
                       FinalChain(h, records), StateSha(sha, h, after.states, ledger.value),
                       ledger.value))
  }

  function Recovered(sha: Sha, b: Bytes, expected: Digest): (r: Result<Recovery, OutboxError>)
    ensures r.Success? ==> HEADER_BYTES <= |b|
  {
    if |b| < HEADER_BYTES then Failure(Incomplete)
    else
      var h := DecodeHeader(sha, b[..HEADER_BYTES], expected);
      if h.Failure? then Failure(h.error)
      else
        var records := Committed(sha, h.value, b, WholeRecords(|b|));
        if records.Failure? then Failure(records.error)
        else Report(sha, h.value, records.value, |b|)
  }

  lemma {:induction false} CommittedFails(sha: Sha, h: Header, b: Bytes, k: nat, n: nat)
    requires k <= n && Boundary(n) <= |b|
    requires Committed(sha, h, b, k).Failure?
    ensures Committed(sha, h, b, n) == Committed(sha, h, b, k)
  {
    hide NextRecord;
    if k < n {
      CommittedFails(sha, h, b, k, n - 1);
    }
  }

  lemma CommittedStep(sha: Sha, h: Header, b: Bytes, records: seq<Record>)
    requires Boundary(|records| + 1) <= |b|
    requires Committed(sha, h, b, |records|) == Success(records)
    ensures var next := NextRecord(sha, h, records, b[Boundary(|records|)..Boundary(|records| + 1)]);
            && (next.Success? ==>
                  Committed(sha, h, b, |records| + 1) == Success(records + [next.value]))
            && (next.Failure? ==>
                  Committed(sha, h, b, WholeRecords(|b|)) == Failure(next.error))
  {
    hide NextRecord;
    var frame := b[Boundary(|records|)..Boundary(|records| + 1)];
    if NextRecord(sha, h, records, frame).Failure? {
      CommittedFails(sha, h, b, |records| + 1, WholeRecords(|b|));
    }
  }

  lemma NextRecordApplies(sha: Sha, h: Header, records: seq<Record>, before: Replayed,
    frame: Bytes)
    requires |records| < h.maximumRecords <= MAXIMUM_SUPPORTED_RECORDS
    requires Replay(sha, h, records) == Success(before)
    ensures var decoded := DecodeRecord(sha, h, |records| + 1, FinalChain(h, records), frame);
            var next := NextRecord(sha, h, records, frame);
            if decoded.Failure? then next == decoded
            else
              var applied := ApplyRecord(sha, h, decoded.value, before.states, before.ledger);
              && Replay(sha, h, records + [decoded.value]) == applied
              && next == if applied.Failure? then Failure(applied.error) else decoded
  {
    hide DecodeRecord, ApplyRecord;
    var decoded := DecodeRecord(sha, h, |records| + 1, FinalChain(h, records), frame);
    if decoded.Success? {
      ReplayAppend(sha, h, records, decoded.value);
    }
  }

  lemma HeaderBounded(sha: Sha, b: Bytes, expected: Digest)
    requires DecodeHeader(sha, b, expected).Success?
    ensures DecodeHeader(sha, b, expected).value.maximumRecords <= MAXIMUM_SUPPORTED_RECORDS
  {
  }

  /** The recovery loop: it accepts, rejects and reports exactly as the specification does. */
  method Recover(sha: Sha, b: Bytes, expected: Digest) returns (r: Result<Recovery, OutboxError>)
    ensures r == Recovered(sha, b, expected)
  {
    hide DecodeHeader, DecodeRecord, ApplyRecord, Replay, Committed, NextRecord, StateSha;
    if |b| < HEADER_BYTES {
      return Failure(Incomplete);
    }
    var h := DecodeHeader(sha, b[..HEADER_BYTES], expected);
    if h.Failure? {
      return Failure(h.error);
    }
    HeaderBounded(sha, b[..HEADER_BYTES], expected);
    EmptyReplay(sha, h.value, b);
    var header := h.value;
    var records: seq<Record>, states: seq<State>, ledger := [], [], EMPTY_LEDGER;
    var finalChain := header.headerSha;
    var offset := HEADER_BYTES;
    var status := Clean;
    while offset < |b|
      invariant offset == Boundary(|records|) <= |b|
      invariant Committed(sha, header, b, |records|) == Success(records)
      invariant Replay(sha, header, records) == Success(Replayed(states, ledger))
      invariant finalChain == FinalChain(header, records)
      invariant status == Clean
    {
      var remaining := |b| - offset;
      if remaining < RECORD_BODY_BYTES {
        status := ShortBodyTail;
        break;
      }
      if remaining == RECORD_BODY_BYTES {
        status := BodyWithoutFooter;
        break;
      }
      if remaining < RECORD_BYTES {
        status := PartialFooterTail;
        break;
      }
      CommittedStep(sha, header, b, records);
      if |records| >= header.maximumRecords {
        NextRecordFull(sha, header, records, b[offset..offset + RECORD_BYTES]);
        return Failure(CapacityExceeded);
      }
      NextRecordApplies(sha, header, records, Replayed(states, ledger),
                        b[offset..offset + RECORD_BYTES]);
      var record := DecodeRecord(sha, header, |records| + 1, finalChain,
                                 b[offset..offset + RECORD_BYTES]);
      if record.Failure? {
        return Failure(record.error);
      }
      var applied := ApplyRecord(sha, header, record.value, states, ledger);
      if applied.Failure? {
        return Failure(applied.error);
      }
      records := records + [record.value];
      states, ledger := applied.value.states, applied.value.ledger;
      finalChain := record.value.recordSha;
      offset := offset + RECORD_BYTES;
    }
    WholeRecordsUnique(|b|, |records|);
    var closed := FinalizeLedger(states, ledger);
    if closed.Failure? {
      return Failure(closed.error);
    }
    FinalizeBounded(states, ledger);
    return Success(Recovery(header, records, states, status, offset, |b| - offset, finalChain,
                            StateSha(sha, header, states, closed.value), closed.value));
  }

  lemma EmptyReplay(sha: Sha, h: Header, b: Bytes)
    requires HEADER_BYTES <= |b|
    ensures Committed(sha, h, b, 0) == Success([])
    ensures Replay(sha, h, []) == Success(Replayed([], EMPTY_LEDGER))
  {
  }

  lemma NextRecordFull(sha: Sha, h: Header, records: seq<Record>, frame: Bytes)
    requires |records| >= h.maximumRecords
    ensures NextRecord(sha, h, records, frame) == Failure(CapacityExceeded)
  {
  }

  lemma FinalizeBounded(states: seq<State>, l: Ledger)
    ensures FinalizeLedger(states, l).Success? ==> |states| <= U64_MAX
  {
  }
}
