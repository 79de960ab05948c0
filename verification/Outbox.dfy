/**
 * The ActionOutbox journal: headers, action identities, chained records and the replay state
 * machine (bench/action_outbox_conformance.py). Python's exceptions are `Failure` results.
 */
module Outbox {
  import opened Bytes

  const HEADER_ABI: u64 := 0x4754_4F48_0000_0001
  const IDENTITY_ABI: u64 := 0x4754_4F49_0000_0001
  const RECORD_ABI: u64 := 0x4754_4F52_0000_0001

  const MAXIMUM_SUPPORTED_ACTIONS := 64
  const MAXIMUM_SUPPORTED_RECORDS := 256
  const REQUIRED_CAPABILITIES: u64 := 3

  const PURPOSE_PRIMARY: u64 := 1
  const PURPOSE_COMPENSATION: u64 := 2

  const EVENT_ENQUEUED: u64 := 1
  const EVENT_DISPATCH_INTENT: u64 := 2
  const EVENT_AMBIGUITY_OBSERVED: u64 := 3
  const EVENT_ACKNOWLEDGED_SUCCESS: u64 := 4
  const EVENT_ACKNOWLEDGED_FAILURE: u64 := 5
  const EVENT_RECONCILED_NOT_APPLIED: u64 := 6
  const EVENT_RECONCILED_SUCCESS: u64 := 7
  const EVENT_RECONCILED_FAILURE: u64 := 8

  datatype OutboxError =
    | InvalidHeader | InvalidIdentity | InvalidRecord | InvalidState | InvalidTransition
    | InvalidFraming | Unpinned | Incomplete | ChainMismatch | NoncontiguousSequence
    | CapacityExceeded | DuplicateAction | BadParent | NotEnqueued | ActionChainDrift
    | UnsafeDispatch | StaleObservation | Overflow | LedgerNotClosed

  datatype Header = Header(
    abi: u64, flags: u64, outboxEpoch: u64, outboxId: u64, tenantKey: u64, maximumActions: u64,
    maximumRecords: u64, maximumPayloadBytes: u64, capabilityBits: u64,
    adapterDescriptor: Digest, payloadStoreDescriptor: Digest, challenge: Digest,
    headerSha: Digest)

  datatype Identity = Identity(
    abi: u64, purpose: u64, actionOrdinal: u64, payloadBytes: u64,
    parentAction: Digest, descriptor: Digest, arguments: Digest, proposal: Digest,
    policy: Digest, authorization: Digest, idempotencyKey: Digest, serviceEvent: Digest,
    payloadLocator: Digest, payload: Digest, action: Digest, stableRequest: Digest)

  datatype Record = Record(
    abi: u64, sequence: u64, kind: u64, attemptGeneration: u64, identity: Identity,
    previousActionEvent: Digest, previousJournal: Digest, dispatchRequest: Digest,
    observation: Digest, result: Digest, recordSha: Digest)

  /** The phases of an occupied action; an unoccupied slot is simply not in the sequence. */
  datatype Phase = Ready | Uncertain | Succeeded | Failed

  datatype State = State(
    identity: Identity, phase: Phase, attemptGeneration: u64, dispatchRequest: Digest,
    observation: Digest, result: Digest, lastEvent: Digest)

  datatype PhaseCounts = PhaseCounts(ready: u64, uncertain: u64, succeeded: u64, failed: u64)

  const NO_PHASES := PhaseCounts(0, 0, 0, 0)

  /** One counter per event kind; kind `k` counts in position `k - 1`. */
  type EventCounts = s: seq<u64> | |s| == 8 witness NoEvents(8)

  function NoEvents(n: nat): (r: seq<u64>)
    ensures |r| == n
  {
    seq(n, _ => 0)
  }

  datatype Ledger = Ledger(
    committedRecords: u64, primaryActions: u64, compensationActions: u64,
    safeRetryDispatches: u64, events: EventCounts, phases: PhaseCounts)
  {
    /** How many records of this kind were committed. */
    function Events(kind: u64): u64
      requires EVENT_ENQUEUED <= kind <= EVENT_RECONCILED_FAILURE
    {
      events[kind - 1]
    }
  }

  const EMPTY_LEDGER := Ledger(0, 0, 0, 0, NoEvents(8), NO_PHASES)

  datatype Replayed = Replayed(states: seq<State>, ledger: Ledger)

  // ---------------------------------------------------------------------------------------
  // Hash preimages
  // ---------------------------------------------------------------------------------------

  function Ascii(s: string): (r: Bytes)
    ensures |r| == |s|
  {
    seq(|s|, i requires 0 <= i < |s| => s[i] as int % 256)
  }

  const HEADER_DOMAIN := Ascii("glacier-tool-action-outbox-header-v1\0")
  const ACTION_DOMAIN := Ascii("glacier-tool-action-outbox-identity-v1\0")
  const REMOTE_REQUEST_DOMAIN := Ascii("glacier-tool-action-outbox-remote-request-v1\0")
  const DISPATCH_REQUEST_DOMAIN := Ascii("glacier-tool-action-outbox-dispatch-request-v1\0")
  const RECORD_DOMAIN := Ascii("glacier-tool-action-outbox-record-v1\0")
  const STATE_DOMAIN := Ascii("glacier-tool-action-outbox-state-v1\0")
  const LEDGER_DOMAIN := Ascii("glacier-tool-action-outbox-ledger-v1\0")

  function LE8(x: u64): (r: Bytes)
    ensures |r| == 1
  {
    [x % 256]
  }

  /** The nine integers of a header, in wire order. */
  function HeaderWords(h: Header): (ws: seq<u64>)
    ensures |ws| == 9
  {
    [h.abi, h.flags, h.outboxEpoch, h.outboxId, h.tenantKey, h.maximumActions,
     h.maximumRecords, h.maximumPayloadBytes, h.capabilityBits]
  }

  /** The digests a header's own root covers. */
  function HeaderDigests(h: Header): (ds: seq<Digest>)
    ensures |ds| == 3
  {
    [h.adapterDescriptor, h.payloadStoreDescriptor, h.challenge]
  }

  function HeaderPreimage(h: Header): Bytes {
    HEADER_DOMAIN + PackWords(HeaderWords(h)) + JoinDigests(HeaderDigests(h))
  }

  /** The ten digests an action root covers. */
  function ActionDigests(id: Identity): (ds: seq<Digest>)
    ensures |ds| == 10
  {
    [id.parentAction, id.descriptor, id.arguments, id.proposal, id.policy, id.authorization,
     id.idempotencyKey, id.serviceEvent, id.payloadLocator, id.payload]
  }

  /** All twelve digests of an identity, in wire order. */
  function IdentityDigests(id: Identity): (ds: seq<Digest>)
    ensures |ds| == 12
  {
    ActionDigests(id) + [id.action, id.stableRequest]
  }

  function IdentityScalars(id: Identity): Bytes {
    LE64(id.abi) + LE8(id.purpose) + LE64(id.actionOrdinal) + LE64(id.payloadBytes)
  }

  function IdentityParts(id: Identity): Bytes {
    IdentityScalars(id) + JoinDigests(IdentityDigests(id))
  }

  function ActionPreimage(h: Header, id: Identity): Bytes {
    ACTION_DOMAIN + h.headerSha + IdentityScalars(id) + JoinDigests(ActionDigests(id))
  }

  function StableRequestPreimage(h: Header, id: Identity): Bytes {
    REMOTE_REQUEST_DOMAIN + h.headerSha + h.adapterDescriptor + id.action + id.idempotencyKey
  }

  function DispatchRequestSha(sha: Sha, h: Header, id: Identity, generation: u64): Digest {
    sha(DISPATCH_REQUEST_DOMAIN + h.headerSha + id.stableRequest + LE64(generation))
  }

  /** The six digests that end a record body, in wire order. */
  function RecordDigests(r: Record): (ds: seq<Digest>)
    ensures |ds| == 6
  {
    [r.previousActionEvent, r.previousJournal, r.dispatchRequest, r.observation, r.result,
     r.recordSha]
  }

  function RecordPreimageParts(h: Header, r: Record): (parts: seq<Bytes>)
    ensures |parts| == 8
  {
    [RECORD_DOMAIN, h.headerSha, LE64(r.abi), LE64(r.sequence), LE8(r.kind),
     LE64(r.attemptGeneration), IdentityParts(r.identity), JoinDigests(RecordDigests(r)[..5])]
  }

  function RecordPreimage(h: Header, r: Record): Bytes {
    Concat(RecordPreimageParts(h, r))
  }

  function RecordSha(sha: Sha, h: Header, r: Record): Digest {
    sha(RecordPreimage(h, r))
  }

  // ---------------------------------------------------------------------------------------
  // Validation
  // ---------------------------------------------------------------------------------------

  predicate ValidHeader(sha: Sha, h: Header) {
    && h.adapterDescriptor != ZERO_DIGEST && h.payloadStoreDescriptor != ZERO_DIGEST
    && h.challenge != ZERO_DIGEST && h.headerSha != ZERO_DIGEST
    && h.abi == HEADER_ABI && h.flags == 0
    && h.outboxEpoch != 0 && h.outboxId != 0 && h.tenantKey != 0
    && 0 < h.maximumActions <= MAXIMUM_SUPPORTED_ACTIONS
    && 0 < h.maximumRecords <= MAXIMUM_SUPPORTED_RECORDS
    && h.maximumActions <= h.maximumRecords
    && h.maximumPayloadBytes != 0
    && h.capabilityBits == REQUIRED_CAPABILITIES
    && h.headerSha == sha(HeaderPreimage(h))
  }

  predicate ValidIdentity(sha: Sha, h: Header, id: Identity) {
    && (id.purpose == PURPOSE_PRIMARY || id.purpose == PURPOSE_COMPENSATION)
    && (forall i :: 1 <= i < 12 ==> IdentityDigests(id)[i] != ZERO_DIGEST)
    && id.abi == IDENTITY_ABI && id.actionOrdinal != 0
    && 0 < id.payloadBytes <= h.maximumPayloadBytes
    && (id.purpose == PURPOSE_PRIMARY <==> id.parentAction == ZERO_DIGEST)
    && id.action == sha(ActionPreimage(h, id))
    && id.stableRequest == sha(StableRequestPreimage(h, id))
  }

  /** Which digests a record of each kind carries and which it leaves zero. */
  predicate FieldsMatchKind(r: Record) {
    if r.kind == EVENT_ENQUEUED then
      && r.attemptGeneration == 0 && r.previousActionEvent == ZERO_DIGEST
      && r.dispatchRequest == ZERO_DIGEST && r.observation == ZERO_DIGEST
      && r.result == ZERO_DIGEST
    else
      && r.attemptGeneration != 0 && r.previousActionEvent != ZERO_DIGEST
      && r.dispatchRequest != ZERO_DIGEST
      && (r.kind == EVENT_DISPATCH_INTENT) == (r.observation == ZERO_DIGEST)
      && IsTerminalKind(r.kind) == (r.result != ZERO_DIGEST)
  }

  predicate IsTerminalKind(kind: u64) {
    IsSuccessKind(kind) || IsFailureKind(kind)
  }

  predicate IsSuccessKind(kind: u64) {
    kind == EVENT_ACKNOWLEDGED_SUCCESS || kind == EVENT_RECONCILED_SUCCESS
  }

  predicate IsFailureKind(kind: u64) {
    kind == EVENT_ACKNOWLEDGED_FAILURE || kind == EVENT_RECONCILED_FAILURE
  }

  predicate ValidRecord(sha: Sha, h: Header, r: Record) {
    && EVENT_ENQUEUED <= r.kind <= EVENT_RECONCILED_FAILURE
    && ValidIdentity(sha, h, r.identity)
    && r.previousJournal != ZERO_DIGEST && r.recordSha != ZERO_DIGEST
    && r.abi == RECORD_ABI && r.sequence != 0
    && r.recordSha == RecordSha(sha, h, r)
    && FieldsMatchKind(r)
  }

  // ---------------------------------------------------------------------------------------
  // Record construction
  // ---------------------------------------------------------------------------------------

  /** The record with its root filled in, if it is a valid record. */
  function Sealed(sha: Sha, h: Header, r: Record): Result<Record, OutboxError> {
    var sealed := r.(recordSha := RecordSha(sha, h, r));
    if ValidRecord(sha, h, sealed) then Success(sealed) else Failure(InvalidRecord)
  }

  function MakeEnqueuedRecord(sha: Sha, h: Header, sequence: u64, previousJournal: Digest,
    id: Identity): Result<Record, OutboxError>
  {
    if !ValidHeader(sha, h) then Failure(InvalidHeader)
    else if !ValidIdentity(sha, h, id) then Failure(InvalidIdentity)
    else
      Sealed(sha, h, Record(RECORD_ABI, sequence, EVENT_ENQUEUED, 0, id, ZERO_DIGEST,
                            previousJournal, ZERO_DIGEST, ZERO_DIGEST, ZERO_DIGEST, ZERO_DIGEST))
  }

  function MakeTransitionRecord(sha: Sha, h: Header, sequence: u64, previousJournal: Digest,
    s: State, kind: u64, generation: u64, observation: Digest, result: Digest)
    : Result<Record, OutboxError>
  {
    if !ValidHeader(sha, h) then Failure(InvalidHeader)
    else if !ValidIdentity(sha, h, s.identity) then Failure(InvalidState)
    else if !(EVENT_DISPATCH_INTENT <= kind <= EVENT_RECONCILED_FAILURE) then
      Failure(InvalidTransition)
    else if kind == EVENT_DISPATCH_INTENT
            && !(s.phase == Ready && generation == s.attemptGeneration + 1
                 && observation == ZERO_DIGEST && result == ZERO_DIGEST) then
      Failure(InvalidTransition)
    else if kind != EVENT_DISPATCH_INTENT
            && !(s.phase == Uncertain && generation == s.attemptGeneration
                 && s.dispatchRequest != ZERO_DIGEST && observation != ZERO_DIGEST
                 && IsTerminalKind(kind) == (result != ZERO_DIGEST)) then
      Failure(InvalidTransition)
    else
      var dispatch := if kind == EVENT_DISPATCH_INTENT
                      then DispatchRequestSha(sha, h, s.identity, generation)
                      else s.dispatchRequest;
      Sealed(sha, h, Record(RECORD_ABI, sequence, kind, generation, s.identity, s.lastEvent,
                            previousJournal, dispatch, observation, result, ZERO_DIGEST))
  }

  // ---------------------------------------------------------------------------------------
  // The replay state machine
  // ---------------------------------------------------------------------------------------

  /** The first state holding `action`, if any. */
  function FindState(states: seq<State>, action: Digest): (r: Option<nat>)
    ensures r.Some? ==> r.value < |states| && states[r.value].identity.action == action
    ensures r.Some? ==> forall i :: 0 <= i < r.value ==> states[i].identity.action != action
    ensures r.None? ==> forall i :: 0 <= i < |states| ==> states[i].identity.action != action
  {
    if states == [] then None
    else if states[0].identity.action == action then Some(0)
    else match FindState(states[1..], action)
      case None => None
      case Some(i) => Some(i + 1)
  }

  function ClearPhaseCounts(l: Ledger): Ledger {
    l.(phases := NO_PHASES)
  }

  /** The ledger with one more event of `kind`. */
  function CountEvent(l: Ledger, kind: u64): Ledger
    requires EVENT_ENQUEUED <= kind <= EVENT_RECONCILED_FAILURE && l.Events(kind) < U64_MAX
  {
    l.(events := l.events[kind - 1 := l.events[kind - 1] + 1])
  }

  /** Whether an enqueued identity collides with one already in the outbox. */
  predicate Conflicts(existing: Identity, id: Identity) {
    || existing.action == id.action
    || existing.idempotencyKey == id.idempotencyKey
    || existing.stableRequest == id.stableRequest
    || (id.purpose == PURPOSE_COMPENSATION && existing.purpose == PURPOSE_COMPENSATION
        && existing.parentAction == id.parentAction)
  }

  function MakeState(r: Record): State {
    State(r.identity, Ready, 0, ZERO_DIGEST, ZERO_DIGEST, ZERO_DIGEST, r.recordSha)
  }

  /** Whether `id` may be a compensation now: its parent is a primary that has succeeded. */
  predicate ParentSucceeded(states: seq<State>, id: Identity) {
    var parent := FindState(states, id.parentAction);
    && parent.Some?
    && states[parent.value].identity.purpose == PURPOSE_PRIMARY
    && states[parent.value].phase == Succeeded
  }

  predicate EnqueueFits(id: Identity, l: Ledger) {
    && l.Events(EVENT_ENQUEUED) < U64_MAX
    && (if id.purpose == PURPOSE_COMPENSATION then l.compensationActions < U64_MAX
        else l.primaryActions < U64_MAX)
  }

  function CountEnqueued(id: Identity, l: Ledger): Ledger
    requires EnqueueFits(id, l)
  {
    var counted := CountEvent(l, EVENT_ENQUEUED);
    if id.purpose == PURPOSE_COMPENSATION
    then counted.(compensationActions := l.compensationActions + 1)
    else counted.(primaryActions := l.primaryActions + 1)
  }

  function ApplyEnqueued(h: Header, r: Record, states: seq<State>, l: Ledger)
    : Result<Replayed, OutboxError>
  {
    var id := r.identity;
    if exists i :: 0 <= i < |states| && Conflicts(states[i].identity, id) then
      Failure(DuplicateAction)
    else if |states| >= h.maximumActions then Failure(CapacityExceeded)
    else if id.purpose == PURPOSE_COMPENSATION && !ParentSucceeded(states, id) then
      Failure(BadParent)
    else if !EnqueueFits(id, l) then Failure(Overflow)
    else Success(Replayed(states + [MakeState(r)], CountEnqueued(id, l)))
  }

  /** The state after a transition record that its current state accepts. */
  function NextState(s: State, r: Record): State {
    if r.kind == EVENT_DISPATCH_INTENT then
      s.(phase := Uncertain, attemptGeneration := r.attemptGeneration,
         dispatchRequest := r.dispatchRequest, observation := ZERO_DIGEST,
         result := ZERO_DIGEST, lastEvent := r.recordSha)
    else
      var phase := if r.kind == EVENT_AMBIGUITY_OBSERVED then s.phase
                   else if r.kind == EVENT_RECONCILED_NOT_APPLIED then Ready
                   else if IsSuccessKind(r.kind) then Succeeded
                   else Failed;
      var dispatch := if r.kind == EVENT_RECONCILED_NOT_APPLIED then ZERO_DIGEST
                      else s.dispatchRequest;
      s.(phase := phase, dispatchRequest := dispatch, observation := r.observation,
         result := r.result, lastEvent := r.recordSha)
  }

  /** Whether the current state of an action accepts a dispatch or observation record. */
  function CheckTransition(sha: Sha, h: Header, s: State, r: Record): Option<OutboxError> {
    if s.identity != r.identity || s.lastEvent != r.previousActionEvent then
      Some(ActionChainDrift)
    else if r.kind == EVENT_DISPATCH_INTENT then
      if s.phase == Ready && r.attemptGeneration == s.attemptGeneration + 1
         && r.dispatchRequest == DispatchRequestSha(sha, h, r.identity, r.attemptGeneration)
      then None
      else Some(UnsafeDispatch)
    else if s.phase == Uncertain && r.attemptGeneration == s.attemptGeneration
            && r.dispatchRequest == s.dispatchRequest
    then None
    else Some(StaleObservation)
  }

  /** The ledger after a transition record accepted in state `s`. */
  function CountTransition(s: State, r: Record, l: Ledger): Result<Ledger, OutboxError>
    requires EVENT_DISPATCH_INTENT <= r.kind <= EVENT_RECONCILED_FAILURE
  {
    var retry := r.kind == EVENT_DISPATCH_INTENT && s.attemptGeneration != 0;
    if l.Events(r.kind) == U64_MAX || (retry && l.safeRetryDispatches == U64_MAX) then
      Failure(Overflow)
    else
      var counted := CountEvent(l, r.kind);
      Success(if retry then counted.(safeRetryDispatches := l.safeRetryDispatches + 1)
              else counted)
  }

  function ApplyTransition(sha: Sha, h: Header, r: Record, states: seq<State>, l: Ledger)
    : Result<Replayed, OutboxError>
    requires EVENT_DISPATCH_INTENT <= r.kind <= EVENT_RECONCILED_FAILURE
  {
    match FindState(states, r.identity.action)
    case None => Failure(NotEnqueued)
    case Some(i) =>
      match CheckTransition(sha, h, states[i], r)
      case Some(error) => Failure(error)
      case None =>
        match CountTransition(states[i], r, l)
        case Failure(error) => Failure(error)
        case Success(ledger) =>
          Success(Replayed(states[i := NextState(states[i], r)], ledger))
  }

  function ApplyRecord(sha: Sha, h: Header, r: Record, states: seq<State>, ledger: Ledger)
    : Result<Replayed, OutboxError>
  {
    if !ValidHeader(sha, h) then Failure(InvalidHeader)
    else if !ValidRecord(sha, h, r) then Failure(InvalidRecord)
    else if exists i :: 0 <= i < |states| && !ValidIdentity(sha, h, states[i].identity) then
      Failure(InvalidState)
    else if ledger.committedRecords == U64_MAX then Failure(Overflow)
    else if r.sequence != ledger.committedRecords + 1 then Failure(NoncontiguousSequence)
    else if r.sequence > h.maximumRecords then Failure(CapacityExceeded)
    else
      var l := ClearPhaseCounts(ledger).(committedRecords := r.sequence);
      if r.kind == EVENT_ENQUEUED then ApplyEnqueued(h, r, states, l)
      else ApplyTransition(sha, h, r, states, l)
  }

  /** The ledger a record is counted in: one more committed record, phase counts cleared. */
  function Opened(l: Ledger): Ledger
    requires l.committedRecords < U64_MAX
  {
    ClearPhaseCounts(l).(committedRecords := l.committedRecords + 1)
  }

  /** The conditions under which an enqueued record is accepted. */
  predicate AcceptsEnqueued(h: Header, r: Record, states: seq<State>) {
    && r.kind == EVENT_ENQUEUED
    && (forall i :: 0 <= i < |states| ==> !Conflicts(states[i].identity, r.identity))
    && |states| < h.maximumActions
    && (r.identity.purpose == PURPOSE_COMPENSATION ==> ParentSucceeded(states, r.identity))
  }

  /** The conditions under which the state at `i` accepts a later record of its action. */
  predicate AcceptsTransition(sha: Sha, h: Header, r: Record, states: seq<State>, i: nat) {
    && EVENT_DISPATCH_INTENT <= r.kind <= EVENT_RECONCILED_FAILURE
    && FindState(states, r.identity.action) == Some(i)
    && i < |states|
    && CheckTransition(sha, h, states[i], r) == None
  }

  lemma KindKnown(sha: Sha, h: Header, r: Record)
    ensures ValidRecord(sha, h, r) ==> EVENT_ENQUEUED <= r.kind <= EVENT_RECONCILED_FAILURE
  {
  }

  /** Everything an accepted record establishes, and the exact states it leads to. */
  lemma ApplyRecordInversion(sha: Sha, h: Header, r: Record, states: seq<State>, l: Ledger)
    returns (i: nat)
    requires ApplyRecord(sha, h, r, states, l).Success?
    ensures ValidHeader(sha, h) && ValidRecord(sha, h, r)
    ensures l.committedRecords < U64_MAX && r.sequence == l.committedRecords + 1
    ensures r.sequence <= h.maximumRecords
    ensures r.kind == EVENT_ENQUEUED ==>
              && AcceptsEnqueued(h, r, states)
              && EnqueueFits(r.identity, Opened(l))
              && ApplyRecord(sha, h, r, states, l)
                 == Success(Replayed(states + [MakeState(r)], CountEnqueued(r.identity, Opened(l))))
    ensures r.kind != EVENT_ENQUEUED ==>
              && AcceptsTransition(sha, h, r, states, i)
              && CountTransition(states[i], r, Opened(l)).Success?
              && ApplyRecord(sha, h, r, states, l)
                 == Success(Replayed(states[i := NextState(states[i], r)],
                                     CountTransition(states[i], r, Opened(l)).value))
  {
    hide ValidRecord, ValidHeader, ValidIdentity, DispatchRequestSha;
    KindKnown(sha, h, r);
    i := 0;
    if r.kind != EVENT_ENQUEUED {
      i := FindState(states, r.identity.action).value;
    }
  }

  /** How many states are in `phase`. */
  function CountPhase(states: seq<State>, phase: Phase): nat {
    if states == [] then 0
    else (if states[0].phase == phase then 1 else 0) + CountPhase(states[1..], phase)
  }

  /** The ledger with its phase counts filled in, if its action counts close. */
  function FinalizeLedger(states: seq<State>, ledger: Ledger): Result<Ledger, OutboxError> {
    if |states| > U64_MAX then Failure(Overflow)
    else
      CountPhasesBounded(states);
      var phases := PhaseCounts(CountPhase(states, Ready), CountPhase(states, Uncertain),
                                CountPhase(states, Succeeded), CountPhase(states, Failed));
      var enqueued := ledger.Events(EVENT_ENQUEUED);
      if ledger.primaryActions + ledger.compensationActions > U64_MAX then Failure(Overflow)
      else if enqueued != ledger.primaryActions + ledger.compensationActions
              || enqueued != phases.ready + phases.uncertain + phases.succeeded + phases.failed
      then Failure(LedgerNotClosed)
      else Success(ledger.(phases := phases))
  }

  lemma {:induction false} CountPhasesBounded(states: seq<State>)
    ensures CountPhase(states, Ready) + CountPhase(states, Uncertain)
            + CountPhase(states, Succeeded) + CountPhase(states, Failed) == |states|
  {
    if states != [] {
      CountPhasesBounded(states[1..]);
    }
  }

  function ApplyNext(sha: Sha, h: Header, before: Result<Replayed, OutboxError>, r: Record)
    : Result<Replayed, OutboxError>
  {
    if before.Failure? then before
    else ApplyRecord(sha, h, r, before.value.states, before.value.ledger)
  }

  /** The state machine over a whole record sequence, from the empty outbox. */
  function Replay(sha: Sha, h: Header, records: seq<Record>): Result<Replayed, OutboxError> {
    if records == [] then Success(Replayed([], EMPTY_LEDGER))
    else
      var n := |records| - 1;
      ApplyNext(sha, h, Replay(sha, h, records[..n]), records[n])
  }

  lemma {:induction false} ReplayPrefix(sha: Sha, h: Header, records: seq<Record>, k: nat)
    requires k <= |records|
    requires Replay(sha, h, records).Success?
    ensures Replay(sha, h, records[..k]).Success?
  {
    hide ApplyRecord;
    if k == |records| {
      assert records[..k] == records;
    } else {
      var n := |records| - 1;
      ReplayPrefix(sha, h, records[..n], k);
      assert records[..n][..k] == records[..k];
    }
  }

  lemma ReplayAppend(sha: Sha, h: Header, records: seq<Record>, r: Record)
    ensures Replay(sha, h, records + [r]) == ApplyNext(sha, h, Replay(sha, h, records), r)
  {
    var all := records + [r];
    assert all[..|all| - 1] == records && all[|all| - 1] == r;
  }

  /** Every identity in a replayed outbox is valid under its header. */
  lemma {:induction false} ReplayIdentitiesValid(sha: Sha, h: Header, records: seq<Record>)
    requires Replay(sha, h, records).Success?
    ensures forall s :: s in Replay(sha, h, records).value.states
              ==> ValidIdentity(sha, h, s.identity)
  {
    hide ValidHeader, ValidIdentity, CheckTransition, DispatchRequestSha, ApplyRecord;
    if records != [] {
      var n := |records| - 1;
      ReplayIdentitiesValid(sha, h, records[..n]);
      var before := Replay(sha, h, records[..n]).value;
      var i := ApplyRecordInversion(sha, h, records[n], before.states, before.ledger);
    }
  }

  // ---------------------------------------------------------------------------------------
  // State and ledger roots
  // ---------------------------------------------------------------------------------------

  function PhaseCode(phase: Phase): u64 {
    match phase
    case Ready => 1
    case Uncertain => 2
    case Succeeded => 3
    case Failed => 4
  }

  function LedgerWords(l: Ledger): (ws: seq<u64>)
    ensures |ws| == 16
  {
    var e, p := l.events, l.phases;
    [l.committedRecords, e[0], l.primaryActions, l.compensationActions,
     e[1], l.safeRetryDispatches, e[2], e[3], e[4], e[5], e[6], e[7],
     p.ready, p.uncertain, p.succeeded, p.failed]
  }

  function StateParts(s: State): Bytes {
    LE8(1) + IdentityParts(s.identity) + LE8(PhaseCode(s.phase)) + LE64(s.attemptGeneration)
    + s.dispatchRequest + s.observation + s.result + s.lastEvent
  }

  function StatesParts(states: seq<State>): Bytes {
    if states == [] then [] else StateParts(states[0]) + StatesParts(states[1..])
  }

  function StateSha(sha: Sha, h: Header, states: seq<State>, l: Ledger): Digest
    requires |states| <= U64_MAX
  {
    sha(STATE_DOMAIN + h.headerSha + LE64(|states|) + StatesParts(states)
        + PackWords(LedgerWords(l)))
  }

  function LedgerSha(sha: Sha, l: Ledger): Digest {
    sha(LEDGER_DOMAIN + PackWords(LedgerWords(l)))
  }
}
