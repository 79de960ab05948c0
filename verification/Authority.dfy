/**
 * The generation-fenced remote service (FakeAuthority in
 * bench/action_outbox_adapter_conformance.py) on values. Operations that raise after changing
 * an entry return the changed authority beside the error.
 */
module Authority {
  import opened Bytes
  import opened Outbox
  import opened Adapter

  const FAKE_EVENT_DOMAIN := Ascii("glacier-action-outbox-fake-authority-event-v1\0")
  const FAKE_RESULT_DOMAIN := Ascii("glacier-action-outbox-fake-authority-result-v1\0")

  datatype Fence = Fence(through: u64, revision: u64, event: Digest)

  datatype Inflight = Inflight(generation: u64, revision: u64, request: Digest, event: Digest)

  datatype Terminal = Terminal(
    disposition: DispatchDisposition, generation: u64, request: Digest, revision: u64,
    event: Digest, result: Digest)

  /** What the service remembers about one stable request. */
  datatype Entry = Entry(
    header: Digest, action: Digest, idempotency: Digest, payload: Option<Payload>,
    fence: Fence, inflight: Option<Inflight>, terminal: Option<Terminal>)

  datatype Registry = Registry(
    entries: map<Digest, Entry>, plans: map<Digest, DispatchDisposition>,
    overrides: map<Digest, StatusDisposition>, revision: u64)

  /** What is fixed for one service. */
  datatype Service = Service(sha: Sha, descriptor: Descriptor, maximumEntries: nat)

  datatype Answer<+T> = Answer(registry: Registry, reply: Result<T, AdapterError>)

  const EMPTY_REGISTRY := Registry(map[], map[], map[], 1)
  const NO_FENCE := Fence(0, 0, ZERO_DIGEST)

  function FakeEvent(v: Service, stable: Digest, code: u64, generation: u64, revision: u64)
    : Digest
  {
    v.sha(FAKE_EVENT_DOMAIN + v.descriptor.descriptorSha + stable + LE8(code) + LE64(generation)
          + LE64(revision))
  }

  function FakeResult(v: Service, stable: Digest, d: DispatchDisposition): Digest {
    v.sha(FAKE_RESULT_DOMAIN + v.descriptor.descriptorSha + stable + LE8(DispatchCode(d)))
  }

  // ---------------------------------------------------------------------------------------
  // Entries
  // ---------------------------------------------------------------------------------------

  predicate SameIdentity(e: Entry, t: Target) {
    e.header == t.header && e.action == t.action && e.idempotency == t.idempotency
  }

  predicate IdentityTaken(a: Registry, t: Target) {
    exists k :: k in a.entries
                && (a.entries[k].action == t.action || a.entries[k].idempotency == t.idempotency)
  }

  /** The entry a request addresses; `payload` is absent in status requests. */
  function Lookup(a: Registry, t: Target, payload: Option<Payload>)
    : (r: Result<Option<Entry>, AdapterError>)
    ensures r.Success? && r.value.Some? ==>
              t.stable in a.entries && r.value.value == a.entries[t.stable]
    ensures r.Success? && r.value.None? ==> t.stable !in a.entries
  {
    if t.stable !in a.entries then
      if IdentityTaken(a, t) then Failure(RequestRejected) else Success(None)
    else
      var e := a.entries[t.stable];
      if !SameIdentity(e, t) then Failure(RequestRejected)
      else if payload.Some? && e.payload.Some? && e.payload != payload then
        Failure(RequestRejected)
      else Success(Some(e))
  }

  function NewEntry(t: Target, payload: Option<Payload>): Entry {
    Entry(t.header, t.action, t.idempotency, payload, NO_FENCE, None, None)
  }

  function BindPayload(e: Entry, p: Payload): Entry {
    if e.payload.Some? then e else e.(payload := Some(p))
  }

  function Put(a: Registry, stable: Digest, e: Entry): Registry {
    a.(entries := a.entries[stable := e])
  }

  /** The authority with an entry for `t`, creating one if there is room. */
  function WithEntry(v: Service, a: Registry, t: Target, payload: Option<Payload>)
    : (r: Result<Registry, AdapterError>)
    ensures r.Success? ==> t.stable in r.value.entries
  {
    if t.stable in a.entries then Success(a)
    else if |a.entries| >= v.maximumEntries then Failure(AuthorityFull)
    else Success(Put(a, t.stable, NewEntry(t, payload)))
  }

  // ---------------------------------------------------------------------------------------
  // Dispatch
  // ---------------------------------------------------------------------------------------

  function TerminalEvidence(v: Service, r: DispatchRequest, t: Terminal)
    : Result<DispatchEvidence, AdapterError>
  {
    MakeDispatchEvidence(v.sha, v.descriptor, r, t.revision, t.disposition, t.event, t.result)
  }

  function InflightEvidence(v: Service, r: DispatchRequest, i: Inflight)
    : Result<DispatchEvidence, AdapterError>
  {
    MakeDispatchEvidence(v.sha, v.descriptor, r, i.revision, DispatchIndeterminate, i.event,
                         ZERO_DIGEST)
  }

  function StaleEvidence(v: Service, a: Registry, r: DispatchRequest, f: Fence)
    : Result<DispatchEvidence, AdapterError>
  {
    var revision := if f.revision != 0 then f.revision else a.revision;
    var event := FakeEvent(v, r.target.stable, DispatchCode(DispatchRejectedStale), r.generation,
                           revision);
    MakeDispatchEvidence(v.sha, v.descriptor, r, revision, DispatchRejectedStale, event,
                         ZERO_DIGEST)
  }

  /** Requests refused before any entry is looked at. */
  function Refusal(v: Service, r: DispatchRequest, authentic: bool): Option<AdapterError> {
    if !ValidDispatchRequest(v.sha, r) then Some(InvalidDispatchRequest)
    else if !authentic then Some(CredentialRejected)
    else if r.adapter != v.descriptor.descriptorSha then Some(RequestRejected)
    else None
  }

  function MakeInflight(v: Service, r: DispatchRequest, revision: u64): Inflight {
    Inflight(r.generation, revision, r.requestSha,
             FakeEvent(v, r.target.stable, DispatchCode(DispatchIndeterminate), r.generation,
                       revision))
  }

  function MakeTerminal(v: Service, r: DispatchRequest, d: DispatchDisposition, revision: u64)
    : Terminal
  {
    Terminal(d, r.generation, r.requestSha, revision,
             FakeEvent(v, r.target.stable, DispatchCode(d), r.generation, revision),
             FakeResult(v, r.target.stable, d))
  }

  /** The disposition planned for a stable request; an unplanned dispatch succeeds. */
  function Planned(a: Registry, stable: Digest): DispatchDisposition {
    if stable in a.plans then a.plans[stable] else DispatchSucceeded
  }

  /** A first attempt in its generation: spend the plan, then go in flight or terminate. */
  function Attempt(v: Service, a: Registry, r: DispatchRequest): Answer<DispatchEvidence> {
    var stable := r.target.stable;
    var planned := Planned(a, stable);
    var spent := a.(plans := a.plans - {stable});
    var room := WithEntry(v, spent, r.target, Some(r.payload));
    if room.Failure? then Answer(spent, Failure(room.error))
    else if a.revision == U64_MAX then Answer(room.value, Failure(RevisionOverflow))
    else
      var revision := a.revision + 1;
      var e := room.value.entries[stable];
      var advanced := room.value.(revision := revision);
      if planned == DispatchIndeterminate then
        var i := MakeInflight(v, r, revision);
        Answer(Put(advanced, stable, e.(inflight := Some(i))), InflightEvidence(v, r, i))
      else
        var t := MakeTerminal(v, r, planned, revision);
        Answer(Put(advanced, stable, e.(terminal := Some(t))), TerminalEvidence(v, r, t))
  }

  /** A dispatch above the fence of a known entry. */
  function DispatchKnown(v: Service, a: Registry, r: DispatchRequest, e: Entry)
    : Answer<DispatchEvidence>
  {
    if e.terminal.Some? then
      var t := e.terminal.value;
      if r.generation == t.generation && r.requestSha != t.request then
        Answer(a, Failure(RequestRejected))
      else Answer(a, TerminalEvidence(v, r, t))
    else if e.inflight.Some? then
      var i := e.inflight.value;
      if r.generation != i.generation || r.requestSha != i.request then
        Answer(a, Failure(RequestRejected))
      else Answer(a, InflightEvidence(v, r, i))
    else if e.fence.through != 0 && r.generation != e.fence.through + 1 then
      Answer(a, Failure(RequestRejected))
    else Attempt(v, Put(a, r.target.stable, BindPayload(e, r.payload)), r)
  }

  function Dispatch(v: Service, a: Registry, r: DispatchRequest, authentic: bool)
    : Answer<DispatchEvidence>
  {
    var refusal := Refusal(v, r, authentic);
    if refusal.Some? then Answer(a, Failure(refusal.value))
    else
      var found := Lookup(a, r.target, Some(r.payload));
      if found.Failure? then Answer(a, Failure(found.error))
      else if found.value.None? then
        if r.generation != 1 then Answer(a, Failure(RequestRejected)) else Attempt(v, a, r)
      else
        var e := found.value.value;
        if r.generation <= e.fence.through then Answer(a, StaleEvidence(v, a, r, e.fence))
        else DispatchKnown(v, a, r, e)
  }

  // ---------------------------------------------------------------------------------------
  // Attempts in flight
  // ---------------------------------------------------------------------------------------

  /** The generation is entered before the revision advances, so an overflow leaves it there. */
  function EnterInflight(v: Service, a: Registry, r: DispatchRequest, e: Entry): Answer<()> {
    if r.generation <= e.fence.through || e.terminal.Some? || e.inflight.Some? then
      Answer(a, Failure(RequestRejected))
    else
      var bound := BindPayload(e, r.payload);
      if a.revision == U64_MAX then
        var half := Inflight(r.generation, 0, ZERO_DIGEST, ZERO_DIGEST);
        Answer(Put(a, r.target.stable, bound.(inflight := Some(half))),
               Failure(RevisionOverflow))
      else
        var i := MakeInflight(v, r, a.revision + 1);
        Answer(Put(a.(revision := a.revision + 1), r.target.stable,
                   bound.(inflight := Some(i))), Success(()))
  }

  function BeginInflight(v: Service, a: Registry, r: DispatchRequest, authentic: bool)
    : Answer<()>
  {
    var refusal := Refusal(v, r, authentic);
    if refusal.Some? then Answer(a, Failure(refusal.value))
    else
      var found := Lookup(a, r.target, Some(r.payload));
      if found.Failure? then Answer(a, Failure(found.error))
      else if found.value.None? then
        if r.generation != 1 then Answer(a, Failure(RequestRejected))
        else
          var room := WithEntry(v, a, r.target, Some(r.payload));
          if room.Failure? then Answer(a, Failure(room.error))
          else EnterInflight(v, room.value, r, room.value.entries[r.target.stable])
      else
        var e := found.value.value;
        if (e.fence.through == 0 && r.generation != 1)
           || (e.fence.through != 0 && r.generation != e.fence.through + 1) then
          Answer(a, Failure(RequestRejected))
        else EnterInflight(v, a, r, e)
  }

  /** The attempt in flight is cleared before the revision advances. */
  function SettleInflight(v: Service, a: Registry, r: DispatchRequest, e: Entry,
    d: DispatchDisposition): Answer<DispatchEvidence>
  {
    var stable := r.target.stable;
    if d == DispatchIndeterminate then
      if a.revision == U64_MAX then Answer(a, Failure(RevisionOverflow))
      else
        var i := MakeInflight(v, r, a.revision + 1);
        Answer(Put(a.(revision := a.revision + 1), stable, e.(inflight := Some(i))),
               InflightEvidence(v, r, i))
    else
      var cleared := e.(inflight := None);
      if a.revision == U64_MAX then Answer(Put(a, stable, cleared), Failure(RevisionOverflow))
      else
        var t := MakeTerminal(v, r, d, a.revision + 1);
        Answer(Put(a.(revision := a.revision + 1), stable, cleared.(terminal := Some(t))),
               TerminalEvidence(v, r, t))
  }

  function FinishInflight(v: Service, a: Registry, r: DispatchRequest, authentic: bool,
    d: DispatchDisposition): Answer<DispatchEvidence>
  {
    var refusal := Refusal(v, r, authentic);
    if refusal.Some? then Answer(a, Failure(refusal.value))
    else if d == DispatchRejectedStale then Answer(a, Failure(RequestRejected))
    else
      var found := Lookup(a, r.target, Some(r.payload));
      if found.Failure? then Answer(a, Failure(found.error))
      else if found.value.None? || found.value.value.inflight.None?
              || found.value.value.inflight.value.generation != r.generation
              || found.value.value.inflight.value.request != r.requestSha then
        Answer(a, Failure(RequestRejected))
      else SettleInflight(v, a, r, found.value.value, d)
  }

  // ---------------------------------------------------------------------------------------
  // Status queries
  // ---------------------------------------------------------------------------------------

  function FencedEvidence(v: Service, r: StatusRequest, revision: u64)
    : Result<StatusEvidence, AdapterError>
  {
    var event := FakeEvent(v, r.target.stable, StatusDispositionCode(StatusNotAppliedFenced),
                           r.generation, revision);
    MakeStatusEvidence(v.sha, v.descriptor, r, revision, StatusNotAppliedFenced, r.generation,
                       event, ZERO_DIGEST)
  }

  function OverrideEvidence(v: Service, a: Registry, r: StatusRequest, d: StatusDisposition)
    : Result<StatusEvidence, AdapterError>
  {
    var event := FakeEvent(v, r.target.stable, StatusDispositionCode(d), r.generation,
                           a.revision);
    MakeStatusEvidence(v.sha, v.descriptor, r, a.revision, d, 0, event, ZERO_DIGEST)
  }

  function TerminalStatusEvidence(v: Service, r: StatusRequest, t: Terminal)
    : Result<StatusEvidence, AdapterError>
  {
    MakeStatusEvidence(v.sha, v.descriptor, r, t.revision,
                       if t.disposition == DispatchSucceeded then StatusSucceeded
                       else StatusFailed,
                       0, t.event, t.result)
  }

  function InflightStatus(v: Service, a: Registry, r: StatusRequest, e: Entry, i: Inflight)
    : Result<StatusEvidence, AdapterError>
  {
    if r.generation <= e.fence.through then
      FencedEvidence(v, r, if e.fence.revision != 0 then e.fence.revision else a.revision)
    else if r.generation != i.generation then Failure(RequestRejected)
    else
      MakeStatusEvidence(v.sha, v.descriptor, r, i.revision, StatusPending, 0, i.event,
                         ZERO_DIGEST)
  }

  /** Nothing applied and nothing in flight: fence the queried generation for ever. */
  function FenceOff(v: Service, a: Registry, r: StatusRequest): Answer<StatusEvidence>
    requires r.target.stable in a.entries
  {
    var stable := r.target.stable;
    var e := a.entries[stable];
    if e.fence.through >= r.generation then Answer(a, FencedEvidence(v, r, e.fence.revision))
    else if e.fence.through != 0 && r.generation != e.fence.through + 1 then
      Answer(a, Failure(RequestRejected))
    else if a.revision == U64_MAX then Answer(a, Failure(RevisionOverflow))
    else
      var revision := a.revision + 1;
      var event := FakeEvent(v, stable, StatusDispositionCode(StatusNotAppliedFenced),
                             r.generation, revision);
      var fence := Fence(r.generation, revision, event);
      Answer(Put(a.(revision := revision), stable, e.(fence := fence)),
             FencedEvidence(v, r, revision))
  }

  function Status(v: Service, a: Registry, r: StatusRequest, authentic: bool)
    : Answer<StatusEvidence>
  {
    var stable := r.target.stable;
    if !ValidStatusRequest(v.sha, r) then Answer(a, Failure(InvalidStatusRequest))
    else if !authentic then Answer(a, Failure(CredentialRejected))
    else if r.adapter != v.descriptor.descriptorSha then Answer(a, Failure(RequestRejected))
    else
      var found := Lookup(a, r.target, None);
      if found.Failure? then Answer(a, Failure(found.error))
      else if stable in a.overrides then
        Answer(a, OverrideEvidence(v, a, r, a.overrides[stable]))
      else if found.value.Some? && found.value.value.terminal.Some? then
        Answer(a, TerminalStatusEvidence(v, r, found.value.value.terminal.value))
      else if found.value.Some? && found.value.value.inflight.Some? then
        Answer(a, InflightStatus(v, a, r, found.value.value, found.value.value.inflight.value))
      else
        var room := WithEntry(v, a, r.target, None);
        if room.Failure? then Answer(a, Failure(room.error)) else FenceOff(v, room.value, r)
  }

  // ---------------------------------------------------------------------------------------
  // Scripted behaviour of the service
  // ---------------------------------------------------------------------------------------

  function PlanDispatch(v: Service, a: Registry, stable: Digest, d: DispatchDisposition)
    : Answer<()>
  {
    if stable == ZERO_DIGEST || d == DispatchRejectedStale then
      Answer(a, Failure(RequestRejected))
    else if stable !in a.plans && |a.plans| >= v.maximumEntries then
      Answer(a, Failure(AuthorityFull))
    else Answer(a.(plans := a.plans[stable := d]), Success(()))
  }

  function OverrideStatus(v: Service, a: Registry, stable: Digest,
    d: Option<StatusDisposition>): Answer<()>
  {
    if stable == ZERO_DIGEST then Answer(a, Failure(RequestRejected))
    else if d.None? then Answer(a.(overrides := a.overrides - {stable}), Success(()))
    else if d.value != StatusPending && d.value != StatusUnknown then
      Answer(a, Failure(RequestRejected))
    else if stable !in a.overrides && |a.overrides| >= v.maximumEntries then
      Answer(a, Failure(AuthorityFull))
    else Answer(a.(overrides := a.overrides[stable := d.value]), Success(()))
  }

  /** One call on the service, by anyone, with any request. */
  datatype Call =
    | DispatchCall(dispatch: DispatchRequest, authentic: bool)
    | BeginCall(dispatch: DispatchRequest, authentic: bool)
    | FinishCall(dispatch: DispatchRequest, authentic: bool, disposition: DispatchDisposition)
    | StatusCall(status: StatusRequest, authentic: bool)
    | PlanCall(stable: Digest, planned: DispatchDisposition)
    | OverrideCall(stable: Digest, override: Option<StatusDisposition>)

  function After(v: Service, a: Registry, c: Call): Registry {
    match c
    case DispatchCall(r, authentic) => Dispatch(v, a, r, authentic).registry
    case BeginCall(r, authentic) => BeginInflight(v, a, r, authentic).registry
    case FinishCall(r, authentic, d) => FinishInflight(v, a, r, authentic, d).registry
    case StatusCall(r, authentic) => Status(v, a, r, authentic).registry
    case PlanCall(stable, d) => PlanDispatch(v, a, stable, d).registry
    case OverrideCall(stable, d) => OverrideStatus(v, a, stable, d).registry
  }
}
