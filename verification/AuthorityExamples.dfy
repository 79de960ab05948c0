/**
 * Runs of the service into each failing call that leaves it changed, for every hash that has
 * no zero digest, and for one that has.
 */
module AuthorityExamples {
  import opened Bytes
  import opened Adapter
  import opened Authority
  import opened AuthorityFence
  import opened AuthorityFailures

  function SampleDescriptor(sha: Sha): Descriptor {
    var d := Descriptor(DESCRIPTOR_ABI, 1, 1, ADAPTER_CAPABILITIES, Repeated(1), Repeated(2),
                        Repeated(3), ZERO_DIGEST);
    d.(descriptorSha := DescriptorSha(sha, d))
  }

  function SampleService(sha: Sha, maximumEntries: nat): Service {
    Service(sha, SampleDescriptor(sha), maximumEntries)
  }

  function SampleTarget(x: Byte): Target {
    Target(Repeated(1), Repeated(x), Repeated(x), Repeated(x))
  }

  /** The first dispatch of action `x`. */
  function First(sha: Sha, x: Byte): DispatchRequest {
    var r := DispatchRequest(DISPATCH_REQUEST_ABI, SampleDescriptor(sha).descriptorSha,
                             SampleTarget(x), Repeated(1), 1, Repeated(1),
                             Payload(Repeated(1), 1, Repeated(1)), ZERO_DIGEST);
    r.(requestSha := sha(DispatchPreimage(r)))
  }

  /** The first query about action `x`. */
  function Query(sha: Sha, x: Byte): StatusRequest {
    var r := StatusRequest(STATUS_REQUEST_ABI, SampleDescriptor(sha).descriptorSha,
                           SampleTarget(x), Repeated(1), 1, Repeated(1), 1, ZERO_DIGEST);
    r.(requestSha := sha(StatusPreimage(r)))
  }

  /** The digests that the samples name are not zero. */
  ghost predicate Nameable(sha: Sha) {
    && SampleDescriptor(sha).descriptorSha != ZERO_DIGEST
    && (forall x :: First(sha, x).requestSha != ZERO_DIGEST)
    && (forall x :: Query(sha, x).requestSha != ZERO_DIGEST)
  }

  lemma NeverZeroNames(sha: Sha)
    requires NeverZero(sha)
    ensures Nameable(sha)
  {
    hide DispatchPreimage, StatusPreimage;
  }

  /** A valid first dispatch. */
  predicate Opens(v: Service, r: DispatchRequest) {
    Refusal(v, r, true).None? && r.generation == 1
  }

  /** A valid first query. */
  predicate Asks(v: Service, q: StatusRequest) {
    ValidStatusRequest(v.sha, q) && q.adapter == v.descriptor.descriptorSha && q.generation == 1
  }

  /** Two requests that share nothing the service identifies them by. */
  predicate Unrelated(t: Target, u: Target) {
    t.stable != u.stable && t.action != u.action && t.idempotency != u.idempotency
  }

  lemma SamplesValid(sha: Sha, x: Byte)
    requires Nameable(sha) && x != 0
    ensures ValidDescriptor(sha, SampleDescriptor(sha))
    ensures ValidDispatchRequest(sha, First(sha, x)) && ValidStatusRequest(sha, Query(sha, x))
    ensures forall max :: Opens(SampleService(sha, max), First(sha, x))
    ensures forall max :: Asks(SampleService(sha, max), Query(sha, x))
  {
    hide DispatchParts, StatusParts, Concat, LE64;
    RepeatedAt(1);
    RepeatedAt(2);
    RepeatedAt(3);
    RepeatedAt(x);
    SealApart(First(sha, x));
    StatusSealApart(Query(sha, x));
  }

  /** A request root is not part of what it is the root of. */
  lemma SealApart(r: DispatchRequest)
    ensures DispatchPreimage(r) == DispatchPreimage(r.(requestSha := ZERO_DIGEST))
  {
    hide Concat, LE64;
  }

  lemma StatusSealApart(r: StatusRequest)
    ensures StatusPreimage(r) == StatusPreimage(r.(requestSha := ZERO_DIGEST))
  {
    hide Concat, LE64;
  }

  lemma SamplesUnrelated(x: Byte, y: Byte)
    requires x != y
    ensures Unrelated(SampleTarget(x), SampleTarget(y))
  {
    RepeatedAt(x);
    RepeatedAt(y);
  }

  // ---------------------------------------------------------------------------------------
  // A full registry spends a plan
  // ---------------------------------------------------------------------------------------

  /** The entry of `r` once it is applied. */
  function Applied(v: Service, r: DispatchRequest): Entry {
    NewEntry(r.target, Some(r.payload))
      .(terminal := Some(MakeTerminal(v, r, DispatchSucceeded, 2)))
  }

  /** The first dispatch to a new service that has room is applied. */
  lemma FirstApplies(v: Service, r: DispatchRequest)
    requires Opens(v, r) && v.maximumEntries >= 1
    ensures Dispatch(v, EMPTY_REGISTRY, r, true).registry
            == Registry(map[r.target.stable := Applied(v, r)], map[], map[], 2)
  {
    hide Refusal, MakeDispatchEvidence, FakeEvent, FakeResult;
    NoPlans(r.target.stable);
    assert Dispatch(v, EMPTY_REGISTRY, r, true) == Attempt(v, EMPTY_REGISTRY, r);
  }

  lemma NoPlans(stable: Digest)
    ensures EMPTY_REGISTRY.plans - {stable} == EMPTY_REGISTRY.plans
  {
  }

  /**
   * A dispatch that finds the registry full spends the plan made for it: it was planned to
   * fail, and once there is room it will succeed.
   */
  lemma FullSpendsPlan(v: Service, r: DispatchRequest, s: DispatchRequest)
    requires v.maximumEntries == 1 && Opens(v, r) && Opens(v, s) && Unrelated(r.target, s.target)
    ensures var stable := s.target.stable;
            var applied := Dispatch(v, EMPTY_REGISTRY, r, true).registry;
            var a := PlanDispatch(v, applied, stable, DispatchTerminalFailure).registry;
            var answer := Dispatch(v, a, s, true);
            && SpendsPlan(v, a, s, true) && answer.reply == Failure(AuthorityFull)
            && Planned(a, stable) == DispatchTerminalFailure
            && Planned(answer.registry, stable) == DispatchSucceeded
  {
    hide Refusal, FakeEvent, FakeResult, MakeDispatchEvidence, Dispatch;
    FirstApplies(v, r);
    StableNonZero(v, s);
    var applied := Dispatch(v, EMPTY_REGISTRY, r, true).registry;
    assert !IdentityTaken(applied, s.target);
    var a := PlanDispatch(v, applied, s.target.stable, DispatchTerminalFailure).registry;
    assert a == applied.(plans := map[s.target.stable := DispatchTerminalFailure]);
    FullDispatch(v, a, s);
  }

  lemma StableNonZero(v: Service, s: DispatchRequest)
    requires Opens(v, s)
    ensures s.target.stable != ZERO_DIGEST
  {
    hide DispatchPreimage;
  }

  lemma FullDispatch(v: Service, a: Registry, s: DispatchRequest)
    requires Opens(v, s) && s.target.stable !in a.entries && s.target.stable in a.plans
    requires |a.entries| >= v.maximumEntries && !IdentityTaken(a, s.target)
    ensures SpendsPlan(v, a, s, true)
    ensures Dispatch(v, a, s, true)
            == Answer(a.(plans := a.plans - {s.target.stable}), Failure(AuthorityFull))
  {
    hide Refusal, IdentityTaken;
  }

  // ---------------------------------------------------------------------------------------
  // The end of the revisions
  // ---------------------------------------------------------------------------------------

  /** An attempt is begun and left indeterminate `n` times over. */
  function Aging(r: DispatchRequest, n: nat): seq<Call> {
    [BeginCall(r, true)] + seq(n, _ => FinishCall(r, true, DispatchIndeterminate))
  }

  function Pending(v: Service, r: DispatchRequest, revision: u64): Entry {
    NewEntry(r.target, Some(r.payload)).(inflight := Some(MakeInflight(v, r, revision)))
  }

  function Aged(v: Service, r: DispatchRequest, revision: u64): Registry {
    Registry(map[r.target.stable := Pending(v, r, revision)], map[], map[], revision)
  }

  lemma BeginNew(v: Service, r: DispatchRequest)
    requires Opens(v, r) && v.maximumEntries >= 1
    ensures BeginInflight(v, EMPTY_REGISTRY, r, true).registry == Aged(v, r, 2)
  {
    hide Refusal, FakeEvent;
  }

  lemma FinishAgain(v: Service, r: DispatchRequest, revision: u64)
    requires Opens(v, r) && revision < U64_MAX
    ensures FinishInflight(v, Aged(v, r, revision), r, true, DispatchIndeterminate).registry
            == Aged(v, r, revision + 1)
  {
    hide Refusal, FakeEvent, MakeDispatchEvidence;
  }

  lemma {:induction false} Ages(v: Service, r: DispatchRequest, n: nat)
    requires Opens(v, r) && v.maximumEntries >= 1 && n <= U64_MAX - 2
    ensures AfterAll(v, EMPTY_REGISTRY, Aging(r, n)) == Aged(v, r, n + 2)
  {
    hide BeginInflight, FinishInflight, Aged, Opens;
    var calls := Aging(r, n);
    if n == 0 {
      BeginNew(v, r);
      assert calls[..0] == [];
      assert AfterAll(v, EMPTY_REGISTRY, calls[..0]) == EMPTY_REGISTRY;
    } else {
      Ages(v, r, n - 1);
      assert calls[..n] == Aging(r, n - 1);
      FinishAgain(v, r, n + 1);
    }
  }

  /** The service after the last revision is spent. */
  function Spent(v: Service, r: DispatchRequest): Registry {
    AfterAll(v, EMPTY_REGISTRY, Aging(r, U64_MAX - 2))
  }

  /** Known, and neither applied nor in flight. */
  predicate Fading(a: Registry, stable: Digest) {
    stable in a.entries && a.entries[stable].inflight.None? && a.entries[stable].terminal.None?
  }

  /**
   * Once the revisions are spent, a dispatch and a query are refused and leave an entry
   * behind, finishing is refused and loses the attempt, and beginning is refused and leaves
   * half an attempt.
   */
  lemma SpentRevisionsLeaveTraces(v: Service, r: DispatchRequest, s: DispatchRequest,
    q: StatusRequest)
    requires v.maximumEntries >= 2 && Opens(v, r) && Opens(v, s) && Asks(v, q)
    requires Unrelated(r.target, s.target) && q.target == s.target
    ensures var a := Spent(v, r);
            var stable := s.target.stable;
            && stable !in a.entries
            && DispatchOverflows(v, a, s, true)
            && stable in Dispatch(v, a, s, true).registry.entries
            && StatusOverflows(v, a, q, true) && stable in Status(v, a, q, true).registry.entries
            && FinishOverflows(v, a, r, true, DispatchSucceeded)
            && Fading(FinishInflight(v, a, r, true, DispatchSucceeded).registry, r.target.stable)
            && BeginOverflows(v, a, s, true)
            && HalfAttempt(BeginInflight(v, a, s, true).registry, stable)
  {
    hide Opens, Asks, Aged, AfterAll, Old, DispatchOverflows, StatusOverflows, BeginOverflows,
      FinishOverflows, Dispatch, Status, FinishInflight, BeginInflight, HalfAttempt;
    Ages(v, r, U64_MAX - 2);
    var a := Aged(v, r, U64_MAX);
    AgedIsOld(v, r, s.target);
    OldDispatch(v, a, s);
    OldQuery(v, a, q);
    OldBegin(v, a, s);
    OldFinish(v, r);
  }

  /** A registry at its last revision that has room and knows nothing of `t`. */
  predicate Old(v: Service, a: Registry, t: Target) {
    && a.revision == U64_MAX && t.stable !in a.entries && |a.entries| < v.maximumEntries
    && !IdentityTaken(a, t) && t.stable !in a.overrides
  }

  lemma AgedIsOld(v: Service, r: DispatchRequest, t: Target)
    requires v.maximumEntries >= 2 && Unrelated(r.target, t)
    ensures Old(v, Aged(v, r, U64_MAX), t) && t.stable !in Aged(v, r, U64_MAX).entries
  {
    hide FakeEvent;
  }

  lemma OldDispatch(v: Service, a: Registry, s: DispatchRequest)
    requires Opens(v, s) && Old(v, a, s.target)
    ensures DispatchOverflows(v, a, s, true)
    ensures s.target.stable in Dispatch(v, a, s, true).registry.entries
  {
    hide Refusal, IdentityTaken;
  }

  lemma OldQuery(v: Service, a: Registry, q: StatusRequest)
    requires Asks(v, q) && Old(v, a, q.target)
    ensures StatusOverflows(v, a, q, true)
    ensures q.target.stable in Status(v, a, q, true).registry.entries
  {
    hide ValidStatusRequest, IdentityTaken;
  }

  lemma OldBegin(v: Service, a: Registry, s: DispatchRequest)
    requires Opens(v, s) && Old(v, a, s.target)
    ensures BeginOverflows(v, a, s, true)
    ensures HalfAttempt(BeginInflight(v, a, s, true).registry, s.target.stable)
  {
    hide Refusal, IdentityTaken;
  }

  lemma OldFinish(v: Service, r: DispatchRequest)
    requires Opens(v, r)
    ensures var a := Aged(v, r, U64_MAX);
            && FinishOverflows(v, a, r, true, DispatchSucceeded)
            && Fading(FinishInflight(v, a, r, true, DispatchSucceeded).registry, r.target.stable)
  {
    hide Refusal, FakeEvent;
  }

  /** The half attempt left at the end of the revisions is never finished, whatever is called. */
  lemma HalfAttemptNeverFinishes(v: Service, r: DispatchRequest, s: DispatchRequest,
    calls: seq<Call>, again: DispatchRequest, authentic: bool, d: DispatchDisposition)
    requires v.maximumEntries >= 2 && Opens(v, r) && Opens(v, s)
    requires Unrelated(r.target, s.target) && again.target.stable == s.target.stable
    ensures var half := BeginInflight(v, Spent(v, r), s, true);
            var after := AfterAll(v, half.registry, calls);
            && half.reply.Failure? && HalfAttempt(after, s.target.stable)
            && FinishInflight(v, after, again, authentic, d).reply.Failure?
  {
    hide FinishInflight, AfterAll, Dispatch, Status, Aged, Aging, Opens, Old;
    var a := Spent(v, r);
    Ages(v, r, U64_MAX - 2);
    AgedIsOld(v, r, s.target);
    OldBegin(v, a, s);
    OldBeginRefused(v, a, s);
    var half := BeginInflight(v, a, s, true).registry;
    HalfAttemptForEver(v, half, s.target.stable, calls);
    HalfAttemptRefuses(v, AfterAll(v, half, calls), again, authentic, d);
  }

  lemma OldBeginRefused(v: Service, a: Registry, s: DispatchRequest)
    requires Opens(v, s) && Old(v, a, s.target)
    ensures BeginInflight(v, a, s, true).reply == Failure(RevisionOverflow)
  {
    hide Refusal, IdentityTaken;
  }

  /** For every hash without a zero digest there are requests as these runs need them. */
  lemma SamplesServe(sha: Sha, max: nat)
    requires NeverZero(sha)
    ensures var v := SampleService(sha, max);
            && ValidDescriptor(sha, v.descriptor)
            && Opens(v, First(sha, 1)) && Opens(v, First(sha, 2)) && Asks(v, Query(sha, 2))
            && Unrelated(First(sha, 1).target, First(sha, 2).target)
            && Query(sha, 2).target == First(sha, 2).target
  {
    hide Opens, Asks, Unrelated, Repeated, DispatchPreimage, StatusPreimage;
    NeverZeroNames(sha);
    SamplesValid(sha, 1);
    SamplesValid(sha, 2);
    SamplesUnrelated(1, 2);
  }

  // ---------------------------------------------------------------------------------------
  // Evidence that cannot be made
  // ---------------------------------------------------------------------------------------

  /** A hash that is zero for inputs as long as an event of the service and for no other. */
  function EventlessHash(b: Bytes): Digest {
    if |b| == |FAKE_EVENT_DOMAIN| + 81 then ZERO_DIGEST else Repeated(1)
  }

  lemma Eventless(v: Service, stable: Digest, code: u64, generation: u64, revision: u64)
    requires v.sha == EventlessHash
    ensures FakeEvent(v, stable, code, generation, revision) == ZERO_DIGEST
  {
    hide LE64;
  }

  lemma ConcatTwo(ps: seq<Bytes>)
    requires |ps| >= 2
    ensures |Concat(ps)| == |ps[0]| + |ps[1]| + |Concat(ps[2..])|
  {
    assert ps[1..][1..] == ps[2..];
  }

  lemma EventlessNames()
    ensures Nameable(EventlessHash)
  {
    hide LE64, Concat, Repeated;
    RepeatedAt(1);
    forall x ensures First(EventlessHash, x).requestSha != ZERO_DIGEST {
      var ps := DispatchParts(First(EventlessHash, x).(requestSha := ZERO_DIGEST));
      ConcatTwo(ps);
      ConcatTwo(ps[2..]);
      ConcatTwo(ps[2..][2..]);
      assert ps[2..][0] == ps[2] && ps[2..][1] == ps[3] && ps[2..][2..][0] == ps[4];
    }
    forall x ensures Query(EventlessHash, x).requestSha != ZERO_DIGEST {
      var ps := StatusParts(Query(EventlessHash, x).(requestSha := ZERO_DIGEST));
      ConcatTwo(ps);
      ConcatTwo(ps[2..]);
      ConcatTwo(ps[2..][2..]);
      assert ps[2..][0] == ps[2] && ps[2..][1] == ps[3] && ps[2..][2..][0] == ps[4];
    }
  }

  /**
   * A service whose events have zero digests applies a dispatch, finishes an attempt and
   * fences off a query, records each of them, and answers each with a failure.
   */
  lemma UnansweredCalls(v: Service, r: DispatchRequest, q: StatusRequest)
    requires v.maximumEntries >= 1 && Opens(v, r) && Asks(v, q)
    requires forall stable, code, generation, revision ::
               FakeEvent(v, stable, code, generation, revision) == ZERO_DIGEST
    ensures var pending := BeginInflight(v, EMPTY_REGISTRY, r, true).registry;
            && DispatchUnanswered(v, EMPTY_REGISTRY, r, true)
            && Settled(Dispatch(v, EMPTY_REGISTRY, r, true).registry, r.target.stable)
            && FinishUnanswered(v, pending, r, true, DispatchSucceeded)
            && Settled(FinishInflight(v, pending, r, true, DispatchSucceeded).registry,
                       r.target.stable)
            && StatusUnanswered(v, EMPTY_REGISTRY, q, true)
            && FenceFor(Status(v, EMPTY_REGISTRY, q, true).registry, q.target.stable) == 1
  {
    hide Refusal, FakeEvent, FakeResult, MakeDispatchEvidence, MakeStatusEvidence,
      ValidStatusRequest, ValidDescriptor, Dispatch;
    FirstApplies(v, r);
    BeginNew(v, r);
    NewAttempts(v, r);
  }

  lemma NewAttempts(v: Service, r: DispatchRequest)
    requires Opens(v, r)
    ensures Attempts(v, EMPTY_REGISTRY, r, true)
  {
    hide Refusal;
  }

  /** Such a service exists. */
  lemma UnansweredServe(max: nat)
    ensures var v := SampleService(EventlessHash, max);
            && Opens(v, First(EventlessHash, 1)) && Asks(v, Query(EventlessHash, 1))
            && forall stable, code, generation, revision ::
                 FakeEvent(v, stable, code, generation, revision) == ZERO_DIGEST
  {
    hide Opens, Asks, Repeated, DispatchPreimage, StatusPreimage, FakeEvent;
    EventlessNames();
    SamplesValid(EventlessHash, 1);
    var v := SampleService(EventlessHash, max);
    forall stable, code, generation, revision
      ensures FakeEvent(v, stable, code, generation, revision) == ZERO_DIGEST
    {
      Eventless(v, stable, code, generation, revision);
    }
  }
}
