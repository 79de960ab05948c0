/**
 * Requests, evidence and the transitions they justify: the portable part of the adapter
 * between the outbox and a remote service (bench/action_outbox_adapter_conformance.py).
 */
module Adapter {
  import opened Bytes
  import opened Outbox

  const DESCRIPTOR_ABI: u64 := 0x4754_4144_0000_0001
  const DISPATCH_REQUEST_ABI: u64 := 0x4754_4451_0000_0001
  const DISPATCH_EVIDENCE_ABI: u64 := 0x4754_4445_0000_0001
  const STATUS_REQUEST_ABI: u64 := 0x4754_5351_0000_0001
  const STATUS_EVIDENCE_ABI: u64 := 0x4754_5345_0000_0001
  const ADAPTER_CAPABILITIES: u64 := 15

  const DESCRIPTOR_DOMAIN := Ascii("glacier-action-outbox-adapter-descriptor-v1\0")
  const DISPATCH_DOMAIN := Ascii("glacier-action-outbox-adapter-dispatch-request-v1\0")
  const DISPATCH_EVIDENCE_DOMAIN := Ascii("glacier-action-outbox-adapter-dispatch-evidence-v1\0")
  const STATUS_DOMAIN := Ascii("glacier-action-outbox-adapter-status-request-v1\0")
  const STATUS_EVIDENCE_DOMAIN := Ascii("glacier-action-outbox-adapter-status-evidence-v1\0")

  datatype AdapterError =
    | InvalidDescriptor | NotHeaderPinned | InvalidDispatchRequest | NotAnIntent
    | InvalidStatusRequest | NotUncertain | InvalidEvidence | AdapterMismatch
    | CredentialRejected | RequestRejected | AuthorityFull | RevisionOverflow

  datatype Descriptor = Descriptor(
    abi: u64, adapterAbi: u64, epoch: u64, capabilityBits: u64, namespace: Digest,
    requestSchema: Digest, resultSchema: Digest, descriptorSha: Digest)

  datatype Payload = Payload(locator: Digest, bytes: u64, sha: Digest)

  /** Who a request is for: the identity that the service binds on first sight. */
  datatype Target = Target(header: Digest, action: Digest, stable: Digest, idempotency: Digest)

  datatype DispatchRequest = DispatchRequest(
    abi: u64, adapter: Digest, target: Target, outboxRequest: Digest, generation: u64,
    intent: Digest, payload: Payload, requestSha: Digest)

  datatype StatusRequest = StatusRequest(
    abi: u64, adapter: Digest, target: Target, outboxRequest: Digest, generation: u64,
    currentEvent: Digest, ordinal: u64, requestSha: Digest)

  datatype DispatchDisposition =
    | DispatchSucceeded | DispatchTerminalFailure | DispatchIndeterminate | DispatchRejectedStale

  datatype StatusDisposition =
    | StatusPending | StatusUnknown | StatusNotAppliedFenced | StatusSucceeded | StatusFailed

  datatype DispatchEvidence = DispatchEvidence(
    abi: u64, request: Digest, adapter: Digest, epoch: u64, revision: u64,
    disposition: DispatchDisposition, event: Digest, result: Digest, evidenceSha: Digest)

  datatype StatusEvidence = StatusEvidence(
    abi: u64, request: Digest, adapter: Digest, epoch: u64, revision: u64,
    disposition: StatusDisposition, fence: u64, event: Digest, result: Digest,
    evidenceSha: Digest)

  /** A journal transition that evidence justifies. */
  datatype Transition = Transition(
    kind: u64, generation: u64, observation: Digest, result: Digest)

  function DispatchCode(d: DispatchDisposition): u64 {
    match d
    case DispatchSucceeded => 1
    case DispatchTerminalFailure => 2
    case DispatchIndeterminate => 3
    case DispatchRejectedStale => 4
  }

  function StatusDispositionCode(d: StatusDisposition): u64 {
    match d
    case StatusPending => 1
    case StatusUnknown => 2
    case StatusNotAppliedFenced => 3
    case StatusSucceeded => 4
    case StatusFailed => 5
  }

  // ---------------------------------------------------------------------------------------
  // Descriptors
  // ---------------------------------------------------------------------------------------

  function DescriptorSha(sha: Sha, d: Descriptor): Digest {
    sha(DESCRIPTOR_DOMAIN + PackWords([d.abi, d.adapterAbi, d.epoch, d.capabilityBits])
        + d.namespace + d.requestSchema + d.resultSchema)
  }

  predicate ValidDescriptor(sha: Sha, d: Descriptor) {
    && d.namespace != ZERO_DIGEST && d.requestSchema != ZERO_DIGEST
    && d.resultSchema != ZERO_DIGEST && d.descriptorSha != ZERO_DIGEST
    && d.abi == DESCRIPTOR_ABI && d.adapterAbi != 0 && d.epoch != 0
    && d.capabilityBits == ADAPTER_CAPABILITIES
    && d.descriptorSha == DescriptorSha(sha, d)
  }

  predicate HeaderPins(sha: Sha, d: Descriptor, h: Header) {
    ValidDescriptor(sha, d) && ValidHeader(sha, h) && d.descriptorSha == h.adapterDescriptor
  }

  // ---------------------------------------------------------------------------------------
  // Dispatch requests
  // ---------------------------------------------------------------------------------------

  function DispatchParts(r: DispatchRequest): (parts: seq<Bytes>)
    ensures |parts| == 13
  {
    [DISPATCH_DOMAIN, LE64(r.abi), r.target.header, r.adapter, r.target.action, r.target.stable,
     r.target.idempotency, r.outboxRequest, LE64(r.generation), r.intent, r.payload.locator,
     LE64(r.payload.bytes), r.payload.sha]
  }

  function DispatchPreimage(r: DispatchRequest): Bytes {
    Concat(DispatchParts(r))
  }

  predicate TargetNonZero(t: Target) {
    && t.header != ZERO_DIGEST && t.action != ZERO_DIGEST && t.stable != ZERO_DIGEST
    && t.idempotency != ZERO_DIGEST
  }

  predicate ValidDispatchRequest(sha: Sha, r: DispatchRequest) {
    && TargetNonZero(r.target) && r.adapter != ZERO_DIGEST && r.outboxRequest != ZERO_DIGEST
    && r.intent != ZERO_DIGEST && r.payload.locator != ZERO_DIGEST
    && r.payload.sha != ZERO_DIGEST && r.requestSha != ZERO_DIGEST
    && r.abi == DISPATCH_REQUEST_ABI && r.generation != 0 && r.payload.bytes != 0
    && r.requestSha == sha(DispatchPreimage(r))
  }

  function TargetOf(h: Header, id: Identity): Target {
    Target(h.headerSha, id.action, id.stableRequest, id.idempotencyKey)
  }

  /** The request that dispatches one journalled intent. */
  function MakeDispatchRequest(sha: Sha, d: Descriptor, h: Header, intent: Record)
    : (r: Result<DispatchRequest, AdapterError>)
    ensures r.Success? ==>
              && ValidDispatchRequest(sha, r.value) && r.value.adapter == d.descriptorSha
              && r.value.target == TargetOf(h, intent.identity)
              && r.value.generation == intent.attemptGeneration
              && intent.kind == EVENT_DISPATCH_INTENT && r.value.intent == intent.recordSha
  {
    if !HeaderPins(sha, d, h) then Failure(NotHeaderPinned)
    else if !ValidRecord(sha, h, intent) || intent.kind != EVENT_DISPATCH_INTENT then
      Failure(NotAnIntent)
    else
      var id := intent.identity;
      var r := DispatchRequest(
        DISPATCH_REQUEST_ABI, d.descriptorSha, TargetOf(h, id), intent.dispatchRequest,
        intent.attemptGeneration, intent.recordSha,
        Payload(id.payloadLocator, id.payloadBytes, id.payload), ZERO_DIGEST);
      var sealed := r.(requestSha := sha(DispatchPreimage(r)));
      if ValidDispatchRequest(sha, sealed) then Success(sealed)
      else Failure(InvalidDispatchRequest)
  }

  // ---------------------------------------------------------------------------------------
  // Status requests
  // ---------------------------------------------------------------------------------------

  function StatusParts(r: StatusRequest): (parts: seq<Bytes>)
    ensures |parts| == 11
  {
    [STATUS_DOMAIN, LE64(r.abi), r.target.header, r.adapter, r.target.action, r.target.stable,
     r.target.idempotency, r.outboxRequest, LE64(r.generation), r.currentEvent, LE64(r.ordinal)]
  }

  function StatusPreimage(r: StatusRequest): Bytes {
    Concat(StatusParts(r))
  }

  predicate ValidStatusRequest(sha: Sha, r: StatusRequest) {
    && TargetNonZero(r.target) && r.adapter != ZERO_DIGEST && r.outboxRequest != ZERO_DIGEST
    && r.currentEvent != ZERO_DIGEST && r.requestSha != ZERO_DIGEST
    && r.abi == STATUS_REQUEST_ABI && r.generation != 0 && r.ordinal != 0
    && r.requestSha == sha(StatusPreimage(r))
  }

  /** The query about one uncertain action. */
  function MakeStatusRequest(sha: Sha, d: Descriptor, h: Header, s: State, ordinal: u64)
    : (r: Result<StatusRequest, AdapterError>)
    ensures r.Success? ==>
              && ValidStatusRequest(sha, r.value) && r.value.adapter == d.descriptorSha
              && r.value.target == TargetOf(h, s.identity)
              && r.value.generation == s.attemptGeneration && s.phase == Uncertain
              && r.value.currentEvent == s.lastEvent
  {
    if !HeaderPins(sha, d, h) then Failure(NotHeaderPinned)
    else if s.phase != Uncertain || s.attemptGeneration == 0 then Failure(NotUncertain)
    else if ordinal == 0 then Failure(InvalidStatusRequest)
    else
      var r := StatusRequest(
        STATUS_REQUEST_ABI, d.descriptorSha, TargetOf(h, s.identity), s.dispatchRequest,
        s.attemptGeneration, s.lastEvent, ordinal, ZERO_DIGEST);
      var sealed := r.(requestSha := sha(StatusPreimage(r)));
      if ValidStatusRequest(sha, sealed) then Success(sealed) else Failure(InvalidStatusRequest)
  }

  // ---------------------------------------------------------------------------------------
  // Evidence
  // ---------------------------------------------------------------------------------------

  function DispatchEvidenceSha(sha: Sha, e: DispatchEvidence): Digest {
    sha(DISPATCH_EVIDENCE_DOMAIN + LE64(e.abi) + e.request + e.adapter + LE64(e.epoch)
        + LE64(e.revision) + LE8(DispatchCode(e.disposition)) + e.event + e.result)
  }

  predicate TerminalDispatch(d: DispatchDisposition) {
    d == DispatchSucceeded || d == DispatchTerminalFailure
  }

  predicate ValidDispatchEvidence(sha: Sha, d: Descriptor, r: DispatchRequest,
    e: DispatchEvidence)
  {
    && ValidDescriptor(sha, d) && ValidDispatchRequest(sha, r)
    && e.request != ZERO_DIGEST && e.adapter != ZERO_DIGEST && e.event != ZERO_DIGEST
    && e.evidenceSha != ZERO_DIGEST
    && e.abi == DISPATCH_EVIDENCE_ABI && e.epoch == d.epoch && e.revision != 0
    && TerminalDispatch(e.disposition) == (e.result != ZERO_DIGEST)
    && e.request == r.requestSha && r.adapter == d.descriptorSha
    && e.adapter == d.descriptorSha
    && e.evidenceSha == DispatchEvidenceSha(sha, e)
  }

  function MakeDispatchEvidence(sha: Sha, d: Descriptor, r: DispatchRequest, revision: u64,
    disposition: DispatchDisposition, event: Digest, result: Digest)
    : (e: Result<DispatchEvidence, AdapterError>)
    ensures e.Success? ==>
              && ValidDispatchEvidence(sha, d, r, e.value) && e.value.request == r.requestSha
              && e.value.disposition == disposition && e.value.result == result
  {
    if !ValidDescriptor(sha, d) || !ValidDispatchRequest(sha, r)
       || d.descriptorSha != r.adapter then Failure(AdapterMismatch)
    else
      var e := DispatchEvidence(DISPATCH_EVIDENCE_ABI, r.requestSha, d.descriptorSha, d.epoch,
                                revision, disposition, event, result, ZERO_DIGEST);
      var sealed := e.(evidenceSha := DispatchEvidenceSha(sha, e));
      if ValidDispatchEvidence(sha, d, r, sealed) then Success(sealed)
      else Failure(InvalidEvidence)
  }

  function StatusEvidenceSha(sha: Sha, e: StatusEvidence): Digest {
    sha(STATUS_EVIDENCE_DOMAIN + LE64(e.abi) + e.request + e.adapter + LE64(e.epoch)
        + LE64(e.revision) + LE8(StatusDispositionCode(e.disposition)) + LE64(e.fence)
        + e.event + e.result)
  }

  predicate TerminalStatus(d: StatusDisposition) {
    d == StatusSucceeded || d == StatusFailed
  }

  predicate ValidStatusEvidence(sha: Sha, d: Descriptor, r: StatusRequest, e: StatusEvidence) {
    && ValidDescriptor(sha, d) && ValidStatusRequest(sha, r)
    && e.request != ZERO_DIGEST && e.adapter != ZERO_DIGEST && e.event != ZERO_DIGEST
    && e.evidenceSha != ZERO_DIGEST
    && e.abi == STATUS_EVIDENCE_ABI && e.epoch == d.epoch && e.revision != 0
    && TerminalStatus(e.disposition) == (e.result != ZERO_DIGEST)
    && e.fence == (if e.disposition == StatusNotAppliedFenced then r.generation else 0)
    && e.request == r.requestSha && r.adapter == d.descriptorSha
    && e.adapter == d.descriptorSha
    && e.evidenceSha == StatusEvidenceSha(sha, e)
  }

  function MakeStatusEvidence(sha: Sha, d: Descriptor, r: StatusRequest, revision: u64,
    disposition: StatusDisposition, fence: u64, event: Digest, result: Digest)
    : (e: Result<StatusEvidence, AdapterError>)
    ensures e.Success? ==>
              && ValidStatusEvidence(sha, d, r, e.value) && e.value.request == r.requestSha
              && e.value.disposition == disposition && e.value.result == result
              && e.value.fence == fence
  {
    if !ValidDescriptor(sha, d) || !ValidStatusRequest(sha, r)
       || d.descriptorSha != r.adapter then Failure(AdapterMismatch)
    else
      var e := StatusEvidence(STATUS_EVIDENCE_ABI, r.requestSha, d.descriptorSha, d.epoch,
                              revision, disposition, fence, event, result, ZERO_DIGEST);
      var sealed := e.(evidenceSha := StatusEvidenceSha(sha, e));
      if ValidStatusEvidence(sha, d, r, sealed) then Success(sealed) else Failure(InvalidEvidence)
  }

  // ---------------------------------------------------------------------------------------
  // Transitions
  // ---------------------------------------------------------------------------------------

  function TransitionFromDispatch(sha: Sha, d: Descriptor, r: DispatchRequest,
    e: DispatchEvidence): Result<Transition, AdapterError>
  {
    if !ValidDispatchEvidence(sha, d, r, e) then Failure(InvalidEvidence)
    else
      var kind := match e.disposition
                  case DispatchSucceeded => EVENT_ACKNOWLEDGED_SUCCESS
                  case DispatchTerminalFailure => EVENT_ACKNOWLEDGED_FAILURE
                  case _ => EVENT_AMBIGUITY_OBSERVED;
      Success(Transition(kind, r.generation, e.evidenceSha, e.result))
  }

  /** Pending and unknown answers justify no transition at all. */
  function TransitionFromStatus(sha: Sha, d: Descriptor, r: StatusRequest, e: StatusEvidence)
    : Result<Option<Transition>, AdapterError>
  {
    if !ValidStatusEvidence(sha, d, r, e) then Failure(InvalidEvidence)
    else
      match e.disposition
      case StatusNotAppliedFenced =>
        Success(Some(Transition(EVENT_RECONCILED_NOT_APPLIED, r.generation, e.evidenceSha,
                                ZERO_DIGEST)))
      case StatusSucceeded =>
        Success(Some(Transition(EVENT_RECONCILED_SUCCESS, r.generation, e.evidenceSha,
                                e.result)))
      case StatusFailed =>
        Success(Some(Transition(EVENT_RECONCILED_FAILURE, r.generation, e.evidenceSha,
                                e.result)))
      case _ => Success(None)
  }

  // ---------------------------------------------------------------------------------------
  // Request roots identify requests
  // ---------------------------------------------------------------------------------------

  lemma DispatchPreimageInjective(a: DispatchRequest, b: DispatchRequest)
    requires DispatchPreimage(a) == DispatchPreimage(b) && a.requestSha == b.requestSha
    ensures a == b
  {
    hide LE64, Concat;
    var p, q := DispatchParts(a), DispatchParts(b);
    ConcatInjective(p, q);
    assert p[1] == q[1] && p[2] == q[2] && p[3] == q[3] && p[4] == q[4] && p[5] == q[5];
    assert p[6] == q[6] && p[7] == q[7] && p[8] == q[8] && p[9] == q[9] && p[10] == q[10];
    assert p[11] == q[11] && p[12] == q[12];
    LE64Injective(a.abi, b.abi);
    LE64Injective(a.generation, b.generation);
    LE64Injective(a.payload.bytes, b.payload.bytes);
  }

  lemma StatusPreimageInjective(a: StatusRequest, b: StatusRequest)
    requires StatusPreimage(a) == StatusPreimage(b) && a.requestSha == b.requestSha
    ensures a == b
  {
    hide LE64, Concat;
    var p, q := StatusParts(a), StatusParts(b);
    ConcatInjective(p, q);
    assert p[1] == q[1] && p[2] == q[2] && p[3] == q[3] && p[4] == q[4] && p[5] == q[5];
    assert p[6] == q[6] && p[7] == q[7] && p[8] == q[8] && p[9] == q[9] && p[10] == q[10];
    LE64Injective(a.abi, b.abi);
    LE64Injective(a.generation, b.generation);
    LE64Injective(a.ordinal, b.ordinal);
  }

  ghost function DispatchPreimages(sent: set<DispatchRequest>): iset<Bytes> {
    iset r | r in sent :: DispatchPreimage(r)
  }

  ghost function StatusPreimages(sent: set<StatusRequest>): iset<Bytes> {
    iset r | r in sent :: StatusPreimage(r)
  }

  /** Among valid requests whose preimages do not collide, a root names one request. */
  lemma DispatchRootNames(sha: Sha, sent: set<DispatchRequest>, a: DispatchRequest,
    b: DispatchRequest)
    requires NoCollision(sha, DispatchPreimages(sent)) && a in sent && b in sent
    requires ValidDispatchRequest(sha, a) && ValidDispatchRequest(sha, b)
    requires a.requestSha == b.requestSha
    ensures a == b
  {
    hide DispatchPreimage;
    assert DispatchPreimage(a) in DispatchPreimages(sent);
    assert DispatchPreimage(b) in DispatchPreimages(sent);
    DispatchPreimageInjective(a, b);
  }

  lemma StatusRootNames(sha: Sha, sent: set<StatusRequest>, a: StatusRequest, b: StatusRequest)
    requires NoCollision(sha, StatusPreimages(sent)) && a in sent && b in sent
    requires ValidStatusRequest(sha, a) && ValidStatusRequest(sha, b)
    requires a.requestSha == b.requestSha
    ensures a == b
  {
    hide StatusPreimage;
    assert StatusPreimage(a) in StatusPreimages(sent);
    assert StatusPreimage(b) in StatusPreimages(sent);
    StatusPreimageInjective(a, b);
  }
}
