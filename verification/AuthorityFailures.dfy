/** Exactly which failing calls leave the service changed, and a run into each of them. */
module AuthorityFailures {
  import opened Bytes
  import opened Adapter
  import opened Authority
  import opened AuthorityFence

  predicate ReplyFails(v: Service, a: Registry, c: Call) {
    match c
    case DispatchCall(r, authentic) => Dispatch(v, a, r, authentic).reply.Failure?
    case BeginCall(r, authentic) => BeginInflight(v, a, r, authentic).reply.Failure?
    case FinishCall(r, authentic, d) => FinishInflight(v, a, r, authentic, d).reply.Failure?
    case StatusCall(r, authentic) => Status(v, a, r, authentic).reply.Failure?
    case PlanCall(stable, d) => PlanDispatch(v, a, stable, d).reply.Failure?
    case OverrideCall(stable, d) => OverrideStatus(v, a, stable, d).reply.Failure?
  }

  // ---------------------------------------------------------------------------------------
  // The guards
  // ---------------------------------------------------------------------------------------

  predicate HasRoom(v: Service, a: Registry, stable: Digest) {
    stable in a.entries || |a.entries| < v.maximumEntries
  }

  /** A request that is let through to a first attempt in its generation. */
  predicate Attempts(v: Service, a: Registry, r: DispatchRequest, authentic: bool) {
    var found := Lookup(a, r.target, Some(r.payload));
    && Refusal(v, r, authentic).None? && found.Success?
    && if found.value.None? then r.generation == 1 else Idling(found.value.value, r.generation)
  }

  /** Nothing terminal or in flight, and `g` is the generation to come next. */
  predicate Idling(e: Entry, g: u64) {
    && e.terminal.None? && e.inflight.None? && e.fence.through < g
    && (e.fence.through == 0 || g == e.fence.through + 1)
  }

  /** A digest that the evidence would carry is zero, or the descriptor is not valid. */
  predicate Unanswerable(v: Service, r: DispatchRequest, revision: u64, d: DispatchDisposition) {
    var event := FakeEvent(v, r.target.stable, DispatchCode(d), r.generation, revision);
    var result := if TerminalDispatch(d) then FakeResult(v, r.target.stable, d) else ZERO_DIGEST;
    || !ValidDescriptor(v.sha, v.descriptor) || event == ZERO_DIGEST
    || (TerminalDispatch(d) && result == ZERO_DIGEST)
    || DispatchEvidenceSha(
         v.sha, DispatchEvidence(DISPATCH_EVIDENCE_ABI, r.requestSha, v.descriptor.descriptorSha,
                                 v.descriptor.epoch, revision, d, event, result, ZERO_DIGEST))
       == ZERO_DIGEST
  }

  /** The full registry refuses the entry after the plan was spent. */
  predicate SpendsPlan(v: Service, a: Registry, r: DispatchRequest, authentic: bool) {
    Attempts(v, a, r, authentic) && !HasRoom(v, a, r.target.stable) && r.target.stable in a.plans
  }

  /** The revision overflows after an entry was made, a payload bound or a plan spent. */
  predicate DispatchOverflows(v: Service, a: Registry, r: DispatchRequest, authentic: bool) {
    var stable := r.target.stable;
    && Attempts(v, a, r, authentic) && HasRoom(v, a, stable) && a.revision == U64_MAX
    && (stable !in a.entries || a.entries[stable].payload.None? || stable in a.plans)
  }

  /** The attempt is recorded, and then no evidence can be made of it. */
  predicate DispatchUnanswered(v: Service, a: Registry, r: DispatchRequest, authentic: bool) {
    && Attempts(v, a, r, authentic) && HasRoom(v, a, r.target.stable) && a.revision < U64_MAX
    && Unanswerable(v, r, a.revision + 1, Planned(a, r.target.stable))
  }

  /** The generation is entered, and then the revision overflows. */
  predicate BeginOverflows(v: Service, a: Registry, r: DispatchRequest, authentic: bool) {
    var stable := r.target.stable;
    && Attempts(v, a, r, authentic) && HasRoom(v, a, stable) && a.revision == U64_MAX
    && (stable in a.entries ==> r.generation == a.entries[stable].fence.through + 1)
  }

  /** A request that settles the attempt in flight. */
  predicate Settles(v: Service, a: Registry, r: DispatchRequest, authentic: bool,
    d: DispatchDisposition)
  {
    var found := Lookup(a, r.target, Some(r.payload));
    && Refusal(v, r, authentic).None? && d != DispatchRejectedStale
    && found.Success? && found.value.Some? && found.value.value.inflight.Some?
    && found.value.value.inflight.value.generation == r.generation
    && found.value.value.inflight.value.request == r.requestSha
  }

  /** The attempt in flight is cleared, and then the revision overflows. */
  predicate FinishOverflows(v: Service, a: Registry, r: DispatchRequest, authentic: bool,
    d: DispatchDisposition)
  {
    Settles(v, a, r, authentic, d) && d != DispatchIndeterminate && a.revision == U64_MAX
  }

  predicate FinishUnanswered(v: Service, a: Registry, r: DispatchRequest, authentic: bool,
    d: DispatchDisposition)
  {
    && Settles(v, a, r, authentic, d) && a.revision < U64_MAX
    && Unanswerable(v, r, a.revision + 1, d)
  }

  /** A query about something neither applied nor in flight nor overridden. */
  predicate Queries(v: Service, a: Registry, r: StatusRequest, authentic: bool) {
    var found := Lookup(a, r.target, None);
    && ValidStatusRequest(v.sha, r) && authentic && r.adapter == v.descriptor.descriptorSha
    && found.Success? && r.target.stable !in a.overrides && HasRoom(v, a, r.target.stable)
    && (found.value.Some? ==> found.value.value.terminal.None? && found.value.value.inflight.None?)
  }

  /** A new entry is made, and then the revision overflows. */
  predicate StatusOverflows(v: Service, a: Registry, r: StatusRequest, authentic: bool) {
    Queries(v, a, r, authentic) && r.target.stable !in a.entries && a.revision == U64_MAX
  }

  /** The generation is fenced, and then no evidence can be made of it. */
  predicate StatusUnanswered(v: Service, a: Registry, r: StatusRequest, authentic: bool) {
    && Queries(v, a, r, authentic) && a.revision < U64_MAX
    && (r.target.stable in a.entries ==> Idling(a.entries[r.target.stable], r.generation))
    && UnanswerableFence(v, r, a.revision + 1)
  }

  predicate UnanswerableFence(v: Service, r: StatusRequest, revision: u64) {
    var event := FakeEvent(v, r.target.stable, StatusDispositionCode(StatusNotAppliedFenced),
                           r.generation, revision);
    || !ValidDescriptor(v.sha, v.descriptor) || event == ZERO_DIGEST
    || StatusEvidenceSha(
         v.sha, StatusEvidence(STATUS_EVIDENCE_ABI, r.requestSha, v.descriptor.descriptorSha,
                               v.descriptor.epoch, revision, StatusNotAppliedFenced, r.generation,
                               event, ZERO_DIGEST, ZERO_DIGEST))
       == ZERO_DIGEST
  }

  predicate FailsAfterChanging(v: Service, a: Registry, c: Call) {
    match c
    case DispatchCall(r, authentic) =>
      || SpendsPlan(v, a, r, authentic) || DispatchOverflows(v, a, r, authentic)
      || DispatchUnanswered(v, a, r, authentic)
    case BeginCall(r, authentic) => BeginOverflows(v, a, r, authentic)
    case FinishCall(r, authentic, d) =>
      FinishOverflows(v, a, r, authentic, d) || FinishUnanswered(v, a, r, authentic, d)
    case StatusCall(r, authentic) =>
      StatusOverflows(v, a, r, authentic) || StatusUnanswered(v, a, r, authentic)
    case _ => false
  }

  // ---------------------------------------------------------------------------------------
  // The exact condition
  // ---------------------------------------------------------------------------------------

  lemma EvidenceFailsExactly(v: Service, r: DispatchRequest, revision: u64,
    d: DispatchDisposition)
    requires ValidDispatchRequest(v.sha, r) && r.adapter == v.descriptor.descriptorSha
    requires revision != 0
    ensures var event := FakeEvent(v, r.target.stable, DispatchCode(d), r.generation, revision);
            var result := if TerminalDispatch(d) then FakeResult(v, r.target.stable, d)
                          else ZERO_DIGEST;
            MakeDispatchEvidence(v.sha, v.descriptor, r, revision, d, event, result).Failure?
            <==> Unanswerable(v, r, revision, d)
  {
    hide FakeEvent, FakeResult, DispatchPreimage, DescriptorSha, LE64;
  }

  lemma FenceEvidenceFailsExactly(v: Service, r: StatusRequest, revision: u64)
    requires ValidStatusRequest(v.sha, r) && r.adapter == v.descriptor.descriptorSha
    requires revision != 0
    ensures FencedEvidence(v, r, revision).Failure? <==> UnanswerableFence(v, r, revision)
  {
    hide FakeEvent, StatusPreimage, DescriptorSha, LE64;
  }

  /** The entries of `a`, with one for the target of `r`. */
  function WithNew(a: Registry, r: DispatchRequest): map<Digest, Entry> {
    if r.target.stable in a.entries then a.entries
    else a.entries[r.target.stable := NewEntry(r.target, Some(r.payload))]
  }

  /** A first attempt that finds no room, or no revision to spend. */
  lemma AttemptStops(v: Service, a: Registry, r: DispatchRequest)
    ensures var stable := r.target.stable;
            var answer := Attempt(v, a, r);
            && (!HasRoom(v, a, stable) ==>
                  answer.reply.Failure? && answer.registry == a.(plans := a.plans - {stable}))
            && (HasRoom(v, a, stable) && a.revision == U64_MAX ==>
                  && answer.reply.Failure?
                  && answer.registry == a.(plans := a.plans - {stable},
                                           entries := WithNew(a, r)))
  {
    hide TerminalEvidence, InflightEvidence, MakeInflight, MakeTerminal;
  }

  /** The evidence of an attempt that is recorded. */
  function AttemptEvidence(v: Service, r: DispatchRequest, revision: u64, d: DispatchDisposition)
    : Result<DispatchEvidence, AdapterError>
  {
    MakeDispatchEvidence(
      v.sha, v.descriptor, r, revision, d,
      FakeEvent(v, r.target.stable, DispatchCode(d), r.generation, revision),
      if TerminalDispatch(d) then FakeResult(v, r.target.stable, d) else ZERO_DIGEST)
  }

  lemma AttemptReplies(v: Service, a: Registry, r: DispatchRequest)
    requires Planned(a, r.target.stable) != DispatchRejectedStale
    requires HasRoom(v, a, r.target.stable) && a.revision < U64_MAX
    ensures var answer := Attempt(v, a, r);
            && answer.registry.revision == a.revision + 1
            && answer.reply == AttemptEvidence(v, r, a.revision + 1, Planned(a, r.target.stable))
  {
    hide MakeDispatchEvidence, FakeEvent, FakeResult;
  }

  /** A first attempt that is recorded. */
  lemma AttemptRecords(v: Service, a: Registry, r: DispatchRequest)
    requires Refusal(v, r, true).None? && Planned(a, r.target.stable) != DispatchRejectedStale
    requires HasRoom(v, a, r.target.stable) && a.revision < U64_MAX
    ensures var stable := r.target.stable;
            var answer := Attempt(v, a, r);
            && answer.registry.revision == a.revision + 1
            && (answer.reply.Failure?
                <==> Unanswerable(v, r, a.revision + 1, Planned(a, stable)))
  {
    hide MakeDispatchEvidence, Unanswerable, FakeEvent, FakeResult, ValidDispatchRequest, Attempt,
      HasRoom, Planned;
    AttemptReplies(v, a, r);
    EvidenceFailsExactly(v, r, a.revision + 1, Planned(a, r.target.stable));
  }

  /** A first attempt on `a`, which may already have the payload of its entry bound. */
  lemma AttemptFails(v: Service, a: Registry, r: DispatchRequest)
    requires Refusal(v, r, true).None? && Planned(a, r.target.stable) != DispatchRejectedStale
    ensures var stable := r.target.stable;
            var answer := Attempt(v, a, r);
            && (!HasRoom(v, a, stable) ==>
                  answer.reply.Failure? && answer.registry == a.(plans := a.plans - {stable}))
            && (HasRoom(v, a, stable) && a.revision == U64_MAX ==>
                  && answer.reply.Failure?
                  && answer.registry == a.(plans := a.plans - {stable},
                                           entries := WithNew(a, r)))
            && (HasRoom(v, a, stable) && a.revision < U64_MAX ==>
                  && answer.registry.revision == a.revision + 1
                  && (answer.reply.Failure?
                      <==> Unanswerable(v, r, a.revision + 1, Planned(a, stable))))
  {
    hide Attempt, Refusal, Unanswerable;
    AttemptStops(v, a, r);
    if HasRoom(v, a, r.target.stable) && a.revision < U64_MAX {
      AttemptRecords(v, a, r);
    }
  }

  lemma PlannedRuns(a: Registry, stable: Digest)
    requires Sound(a)
    ensures Planned(a, stable) != DispatchRejectedStale
  {
    hide EntrySound;
  }

  lemma PlansUntouched(plans: map<Digest, DispatchDisposition>, stable: Digest)
    ensures plans - {stable} == plans <==> stable !in plans
  {
    if stable in plans {
      assert stable !in plans - {stable};
    }
  }

  lemma DispatchNewFails(v: Service, a: Registry, r: DispatchRequest, authentic: bool)
    requires Sound(a) && Attempts(v, a, r, authentic) && r.target.stable !in a.entries
    ensures var c := DispatchCall(r, authentic);
            ReplyFails(v, a, c) && After(v, a, c) != a <==> FailsAfterChanging(v, a, c)
  {
    hide Attempt, Unanswerable, Refusal, Sound, IdentityTaken;
    PlannedRuns(a, r.target.stable);
    PlansUntouched(a.plans, r.target.stable);
    RefusalFree(v, r, authentic);
    AttemptFails(v, a, r);
    assert r.target.stable in WithNew(a, r);
    assert Dispatch(v, a, r, authentic) == Attempt(v, a, r);
  }

  lemma DispatchKnownFails(v: Service, a: Registry, r: DispatchRequest, authentic: bool)
    requires Sound(a) && Attempts(v, a, r, authentic) && r.target.stable in a.entries
    ensures var c := DispatchCall(r, authentic);
            ReplyFails(v, a, c) && After(v, a, c) != a <==> FailsAfterChanging(v, a, c)
  {
    hide Attempt, Unanswerable, Refusal, BindPayload, Sound;
    PlannedRuns(a, r.target.stable);
    var stable := r.target.stable;
    var bound := Put(a, stable, BindPayload(a.entries[stable], r.payload));
    PlansUntouched(a.plans, stable);
    RefusalFree(v, r, authentic);
    AttemptFails(v, bound, r);
    BoundDiffers(a, stable, r.payload);
    assert Dispatch(v, a, r, authentic) == Attempt(v, bound, r);
  }

  lemma DispatchFails(v: Service, a: Registry, r: DispatchRequest, authentic: bool)
    requires Sound(a)
    ensures var c := DispatchCall(r, authentic);
            ReplyFails(v, a, c) && After(v, a, c) != a <==> FailsAfterChanging(v, a, c)
  {
    hide Attempt, Unanswerable, Refusal, StaleEvidence, TerminalEvidence, InflightEvidence;
    if !Attempts(v, a, r, authentic) {
      assert After(v, a, DispatchCall(r, authentic)) == a;
    } else if r.target.stable in a.entries {
      DispatchKnownFails(v, a, r, authentic);
    } else {
      DispatchNewFails(v, a, r, authentic);
    }
  }

  lemma RefusalFree(v: Service, r: DispatchRequest, authentic: bool)
    requires Refusal(v, r, authentic).None?
    ensures Refusal(v, r, true).None?
  {
    hide ValidDispatchRequest;
  }

  lemma BoundDiffers(a: Registry, stable: Digest, p: Payload)
    requires stable in a.entries
    ensures a.entries[stable := BindPayload(a.entries[stable], p)] == a.entries
            <==> a.entries[stable].payload.Some?
    ensures a.entries[stable := BindPayload(a.entries[stable], p)].Keys == a.entries.Keys
  {
    var e := BindPayload(a.entries[stable], p);
    if a.entries[stable].payload.None? {
      assert a.entries[stable := e][stable] == e && e != a.entries[stable];
    }
  }

  lemma BeginFails(v: Service, a: Registry, r: DispatchRequest, authentic: bool)
    ensures var c := BeginCall(r, authentic);
            ReplyFails(v, a, c) && After(v, a, c) != a <==> FailsAfterChanging(v, a, c)
  {
    hide Refusal, MakeInflight;
    var answer := BeginInflight(v, a, r, authentic);
    if BeginOverflows(v, a, r, authentic) {
      var stable := r.target.stable;
      assert answer.registry.entries[stable].inflight.Some?;
    }
  }

  /** Settling records and answers, or overflows after the attempt is cleared. */
  lemma SettleEnds(v: Service, a: Registry, r: DispatchRequest, e: Entry, d: DispatchDisposition)
    requires d != DispatchRejectedStale && e.inflight.Some?
    requires r.target.stable in a.entries && a.entries[r.target.stable] == e
    ensures var answer := SettleInflight(v, a, r, e, d);
            if a.revision < U64_MAX then
              && answer.registry.revision == a.revision + 1
              && answer.reply == AttemptEvidence(v, r, a.revision + 1, d)
            else answer.reply.Failure? && (answer.registry != a <==> d != DispatchIndeterminate)
  {
    hide MakeDispatchEvidence, FakeEvent, FakeResult;
    if a.revision == U64_MAX && d != DispatchIndeterminate {
      assert SettleInflight(v, a, r, e, d).registry.entries[r.target.stable].inflight.None?;
    }
  }

  lemma FinishFails(v: Service, a: Registry, r: DispatchRequest, authentic: bool,
    d: DispatchDisposition)
    ensures var c := FinishCall(r, authentic, d);
            ReplyFails(v, a, c) && After(v, a, c) != a <==> FailsAfterChanging(v, a, c)
  {
    hide Unanswerable, MakeDispatchEvidence, FakeEvent, FakeResult, Refusal, SettleInflight;
    if Settles(v, a, r, authentic, d) {
      var e := a.entries[r.target.stable];
      assert FinishInflight(v, a, r, authentic, d) == SettleInflight(v, a, r, e, d);
      SettleEnds(v, a, r, e, d);
      if a.revision < U64_MAX {
        RefusalMeans(v, r, authentic);
        EvidenceFailsExactly(v, r, a.revision + 1, d);
      }
    }
  }

  lemma RefusalMeans(v: Service, r: DispatchRequest, authentic: bool)
    requires Refusal(v, r, authentic).None?
    ensures ValidDispatchRequest(v.sha, r) && r.adapter == v.descriptor.descriptorSha
  {
    hide ValidDispatchRequest;
  }

  lemma StatusFails(v: Service, a: Registry, r: StatusRequest, authentic: bool)
    ensures var c := StatusCall(r, authentic);
            ReplyFails(v, a, c) && After(v, a, c) != a <==> FailsAfterChanging(v, a, c)
  {
    hide UnanswerableFence, FenceOff, ValidStatusRequest, InflightStatus, OverrideEvidence,
      TerminalStatusEvidence;
    if Queries(v, a, r, authentic) {
      PositiveGeneration(v, r);
      var room := WithEntry(v, a, r.target, None).value;
      FenceOffFails(v, room, r);
    }
  }

  lemma FenceOffFails(v: Service, a: Registry, r: StatusRequest)
    requires ValidStatusRequest(v.sha, r) && r.adapter == v.descriptor.descriptorSha
    requires r.target.stable in a.entries
    ensures var e := a.entries[r.target.stable];
            var answer := FenceOff(v, a, r);
            && (a.revision == U64_MAX || e.fence.through >= r.generation
                || (e.fence.through != 0 && r.generation != e.fence.through + 1) ==>
                  answer.registry == a)
            && (e.fence.through < r.generation
                && (e.fence.through == 0 || r.generation == e.fence.through + 1) ==>
                  if a.revision == U64_MAX then answer.reply.Failure?
                  else
                    answer.registry.revision == a.revision + 1
                    && (answer.reply.Failure? <==> UnanswerableFence(v, r, a.revision + 1)))
  {
    hide UnanswerableFence, FencedEvidence, FakeEvent, ValidStatusRequest;
    if a.revision < U64_MAX {
      FenceEvidenceFailsExactly(v, r, a.revision + 1);
    }
  }

  lemma PositiveGeneration(v: Service, r: StatusRequest)
    requires ValidStatusRequest(v.sha, r)
    ensures r.generation != 0
  {
  }

  /**
   * A call fails and yet leaves the registry changed exactly when it is a dispatch that spends
   * a plan in a full registry, a call that first writes and then finds the revision at its
   * end, or one whose evidence cannot be made after the entry was written.
   */
  lemma FailingCallChangesExactly(v: Service, a: Registry, c: Call)
    requires Sound(a)
    ensures ReplyFails(v, a, c) && After(v, a, c) != a <==> FailsAfterChanging(v, a, c)
  {
    hide Sound, Dispatch, BeginInflight, FinishInflight, Status, SpendsPlan, DispatchOverflows,
      DispatchUnanswered, BeginOverflows, FinishOverflows, FinishUnanswered, StatusOverflows,
      StatusUnanswered;
    match c
    case DispatchCall(r, authentic) => DispatchFails(v, a, r, authentic);
    case BeginCall(r, authentic) => BeginFails(v, a, r, authentic);
    case FinishCall(r, authentic, d) => FinishFails(v, a, r, authentic, d);
    case StatusCall(r, authentic) => StatusFails(v, a, r, authentic);
    case PlanCall(stable, d) =>
    case OverrideCall(stable, d) =>
  }

  // ---------------------------------------------------------------------------------------
  // Half an attempt
  // ---------------------------------------------------------------------------------------

  /** In flight under no request: what an overflow in `BeginInflight` leaves. */
  predicate HalfAttempt(a: Registry, stable: Digest) {
    && stable in a.entries && a.entries[stable].terminal.None?
    && a.entries[stable].inflight.Some? && a.entries[stable].inflight.value.request == ZERO_DIGEST
  }

  lemma HalfStays(v: Service, a: Registry, stable: Digest, c: Call)
    requires HalfAttempt(a, stable)
    ensures stable in After(v, a, c).entries
    ensures After(v, a, c).entries[stable] == a.entries[stable]
  {
    hide Dispatch, BeginInflight, FinishInflight, Status, HalfAttempt;
    match c
    case DispatchCall(r, authentic) => HalfDispatched(v, a, stable, r, authentic);
    case BeginCall(r, authentic) => HalfBegun(v, a, stable, r, authentic);
    case FinishCall(r, authentic, d) => HalfFinished(v, a, stable, r, authentic, d);
    case StatusCall(r, authentic) => HalfQueried(v, a, stable, r, authentic);
    case PlanCall(_, _) => HalfStored(a, stable);
    case OverrideCall(_, _) => HalfStored(a, stable);
  }

  lemma HalfStored(a: Registry, stable: Digest)
    requires HalfAttempt(a, stable)
    ensures stable in a.entries
  {
  }

  lemma HalfDispatched(v: Service, a: Registry, stable: Digest, r: DispatchRequest,
    authentic: bool)
    requires HalfAttempt(a, stable)
    ensures var after := Dispatch(v, a, r, authentic).registry.entries;
            stable in after && after[stable] == a.entries[stable]
  {
    hide FakeEvent, FakeResult, MakeDispatchEvidence, DispatchPreimage, StaleEvidence;
  }

  lemma HalfBegun(v: Service, a: Registry, stable: Digest, r: DispatchRequest, authentic: bool)
    requires HalfAttempt(a, stable)
    ensures var after := BeginInflight(v, a, r, authentic).registry.entries;
            stable in after && after[stable] == a.entries[stable]
  {
    hide MakeInflight, DispatchPreimage;
  }

  lemma HalfFinished(v: Service, a: Registry, stable: Digest, r: DispatchRequest,
    authentic: bool, d: DispatchDisposition)
    requires HalfAttempt(a, stable)
    ensures var after := FinishInflight(v, a, r, authentic, d).registry.entries;
            stable in after && after[stable] == a.entries[stable]
  {
    hide MakeInflight, MakeTerminal, MakeDispatchEvidence, DispatchPreimage;
  }

  lemma HalfQueried(v: Service, a: Registry, stable: Digest, r: StatusRequest, authentic: bool)
    requires HalfAttempt(a, stable)
    ensures var after := Status(v, a, r, authentic).registry.entries;
            stable in after && after[stable] == a.entries[stable]
  {
    hide FakeEvent, FencedEvidence, ValidStatusRequest, InflightStatus, OverrideEvidence,
      TerminalStatusEvidence;
  }

  /**
   * Half an attempt stays for ever as it is: whatever is called later, its entry never changes
   * again, so it is never settled.
   */
  lemma {:induction false} HalfAttemptForEver(v: Service, a: Registry, stable: Digest,
    calls: seq<Call>)
    requires HalfAttempt(a, stable)
    ensures var after := AfterAll(v, a, calls);
            stable in after.entries && after.entries[stable] == a.entries[stable]
  {
    hide After;
    if calls != [] {
      var n := |calls| - 1;
      HalfAttemptForEver(v, a, stable, calls[..n]);
      HalfStays(v, AfterAll(v, a, calls[..n]), stable, calls[n]);
    }
  }

  /** Every later attempt to finish it, or to dispatch it above its fence, is refused. */
  lemma HalfAttemptRefuses(v: Service, a: Registry, r: DispatchRequest, authentic: bool,
    d: DispatchDisposition)
    requires HalfAttempt(a, r.target.stable)
    ensures FinishInflight(v, a, r, authentic, d).reply.Failure?
    ensures a.entries[r.target.stable].fence.through < r.generation ==>
              Dispatch(v, a, r, authentic).reply.Failure?
  {
    hide FakeEvent, FakeResult, MakeDispatchEvidence, DispatchPreimage;
  }
}
