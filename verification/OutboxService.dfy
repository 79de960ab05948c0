/**
 * The outbox and the service together: what holds between every journal that a crash may
 * leave and the service's entries, while requests and replies are delayed, duplicated,
 * reordered or lost.
 */
module OutboxService {
  import opened Bytes
  import opened Outbox
  import opened OutboxCompensation
  import opened Adapter
  import opened Authority
  import opened AuthorityFacts
  import Fences = AuthorityFence

  /** The service, every request ever sent to it and every reply it ever gave. */
  datatype Exchange = Exchange(
    registry: Registry, dispatches: set<DispatchRequest>, statuses: set<StatusRequest>,
    dispatchReplies: set<DispatchEvidence>, statusReplies: set<StatusEvidence>)

  const NO_EXCHANGE := Exchange(EMPTY_REGISTRY, {}, {}, {}, {})

  /** The action states a journal replays to. */
  function States(v: Service, h: Header, records: seq<Record>): seq<State>
    requires Replay(v.sha, h, records).Success?
  {
    Replay(v.sha, h, records).value.states
  }

  // ---------------------------------------------------------------------------------------
  // Agreement
  // ---------------------------------------------------------------------------------------

  predicate Applied(a: Registry, s: State, d: DispatchDisposition) {
    var stable := s.identity.stableRequest;
    && Fences.Settled(a, stable)
    && a.entries[stable].terminal.value.disposition == d
    && a.entries[stable].terminal.value.result == s.result
    && a.entries[stable].terminal.value.generation == s.attemptGeneration
  }

  predicate NothingPending(a: Registry, stable: Digest) {
    stable in a.entries ==> a.entries[stable].inflight.None? && a.entries[stable].terminal.None?
  }

  /** The outbox's view of one action agrees with the service. */
  predicate Agrees(s: State, a: Registry) {
    var fence := Fences.FenceFor(a, s.identity.stableRequest);
    match s.phase
    case Ready => fence == s.attemptGeneration && NothingPending(a, s.identity.stableRequest)
    case Uncertain => fence == s.attemptGeneration || fence + 1 == s.attemptGeneration
    case Succeeded => Applied(a, s, DispatchSucceeded)
    case Failed => Applied(a, s, DispatchTerminalFailure)
  }

  // ---------------------------------------------------------------------------------------
  // The invariant
  // ---------------------------------------------------------------------------------------

  predicate Reaches(s: State, stable: Digest, g: nat) {
    s.identity.stableRequest == stable && g <= s.attemptGeneration
  }

  ghost predicate Reached(states: seq<State>, stable: Digest, g: nat) {
    exists i :: 0 <= i < |states| && Reaches(states[i], stable, g)
  }

  ghost predicate EntryReached(states: seq<State>, stable: Digest, e: Entry) {
    && Reached(states, stable, e.fence.through)
    && (e.inflight.Some? ==> Reached(states, stable, e.inflight.value.generation))
    && (e.terminal.Some? ==> Reached(states, stable, e.terminal.value.generation))
  }

  /** The service has never seen a generation that the journal has not reached. */
  ghost predicate Upper(v: Service, states: seq<State>, x: Exchange) {
    && (forall k | k in x.registry.entries :: EntryReached(states, k, x.registry.entries[k]))
    && (forall r | r in x.dispatches ::
          ValidDispatchRequest(v.sha, r) && Reached(states, r.target.stable, r.generation))
    && (forall r | r in x.statuses ::
          ValidStatusRequest(v.sha, r) && Reached(states, r.target.stable, r.generation))
  }

  /** What the journal says about one action is known to the service. */
  predicate LowerState(s: State, a: Registry) {
    var fence := Fences.FenceFor(a, s.identity.stableRequest);
    match s.phase
    case Ready => s.attemptGeneration <= fence
    case Uncertain => s.attemptGeneration <= fence + 1
    case Succeeded => Applied(a, s, DispatchSucceeded)
    case Failed => Applied(a, s, DispatchTerminalFailure)
  }

  ghost predicate Lower(states: seq<State>, a: Registry) {
    forall i | 0 <= i < |states| :: LowerState(states[i], a)
  }

  ghost predicate DispatchReplyKnown(x: Exchange, e: DispatchEvidence) {
    exists r :: r in x.dispatches && e.request == r.requestSha && DispatchFact(x.registry, r, e)
  }

  ghost predicate StatusReplyKnown(x: Exchange, e: StatusEvidence) {
    exists r :: r in x.statuses && e.request == r.requestSha && StatusFact(x.registry, r, e)
  }

  ghost predicate Answered(x: Exchange) {
    && (forall e | e in x.dispatchReplies :: DispatchReplyKnown(x, e))
    && (forall e | e in x.statusReplies :: StatusReplyKnown(x, e))
  }

  ghost predicate LowerAt(v: Service, h: Header, records: seq<Record>, a: Registry, k: nat)
    requires k <= |records|
  {
    && Replay(v.sha, h, records[..k]).Success?
    && Lower(States(v, h, records[..k]), a)
  }

  /**
   * Every journal from the durable one up to the visible one may be what a crash leaves, so
   * the service must know at least what each of them says; and at most what the durable one
   * has reached.
   */
  ghost predicate Inv(v: Service, h: Header, records: seq<Record>, durable: nat, x: Exchange) {
    && durable <= |records|
    && Replay(v.sha, h, records).Success?
    && Fences.Sound(x.registry)
    && Answered(x)
    && (forall k | durable <= k <= |records| :: LowerAt(v, h, records, x.registry, k))
    && Replay(v.sha, h, records[..durable]).Success?
    && Upper(v, States(v, h, records[..durable]), x)
  }

  // ---------------------------------------------------------------------------------------
  // Journals only move forward
  // ---------------------------------------------------------------------------------------

  ghost predicate Forward(before: seq<State>, after: seq<State>) {
    && |before| <= |after|
    && forall i | 0 <= i < |before| ::
         after[i].identity == before[i].identity
         && before[i].attemptGeneration <= after[i].attemptGeneration
  }

  lemma StepForward(sha: Sha, h: Header, r: Record, states: seq<State>, l: Ledger)
    requires ApplyRecord(sha, h, r, states, l).Success?
    ensures Forward(states, ApplyRecord(sha, h, r, states, l).value.states)
  {
    hide ApplyRecord, ValidHeader, ValidRecord, DispatchRequestSha;
    var i := ApplyRecordInversion(sha, h, r, states, l);
  }

  lemma {:induction false} PrefixForward(v: Service, h: Header, records: seq<Record>, k: nat)
    requires k <= |records| && Replay(v.sha, h, records).Success?
    ensures Replay(v.sha, h, records[..k]).Success?
    ensures Forward(States(v, h, records[..k]), States(v, h, records))
  {
    hide ApplyRecord;
    if k == |records| {
      assert records[..k] == records;
    } else {
      var n := |records| - 1;
      PrefixForward(v, h, records[..n], k);
      assert records[..n][..k] == records[..k];
      var before := Replay(v.sha, h, records[..n]).value;
      StepForward(v.sha, h, records[n], before.states, before.ledger);
    }
  }

  lemma BetweenForward(v: Service, h: Header, records: seq<Record>, j: nat, k: nat)
    requires j <= k <= |records| && Replay(v.sha, h, records).Success?
    ensures Replay(v.sha, h, records[..j]).Success? && Replay(v.sha, h, records[..k]).Success?
    ensures Forward(States(v, h, records[..j]), States(v, h, records[..k]))
  {
    hide Replay;
    PrefixForward(v, h, records, k);
    PrefixForward(v, h, records[..k], j);
    assert records[..k][..j] == records[..j];
  }

  lemma ReachedForward(before: seq<State>, after: seq<State>, stable: Digest, g: nat)
    requires Forward(before, after) && Reached(before, stable, g)
    ensures Reached(after, stable, g)
  {
    var i :| 0 <= i < |before| && Reaches(before[i], stable, g);
    assert Reaches(after[i], stable, g);
  }

  lemma UpperForward(v: Service, before: seq<State>, after: seq<State>, x: Exchange)
    requires Forward(before, after) && Upper(v, before, x)
    ensures Upper(v, after, x)
  {
    hide ValidDispatchRequest, ValidStatusRequest, Reached, Forward;
    forall stable, g: nat | Reached(before, stable, g) ensures Reached(after, stable, g) {
      ReachedForward(before, after, stable, g);
    }
  }

  // ---------------------------------------------------------------------------------------
  // The invariant implies agreement
  // ---------------------------------------------------------------------------------------

  lemma ReachedByOwn(states: seq<State>, i: nat, stable: Digest, g: nat)
    requires Distinct(states) && i < |states| && states[i].identity.stableRequest == stable
    requires Reached(states, stable, g)
    ensures g <= states[i].attemptGeneration
  {
    var j :| 0 <= j < |states| && Reaches(states[j], stable, g);
    assert j == i;
  }

  lemma StateAgrees(states: seq<State>, i: nat, v: Service, x: Exchange)
    requires Distinct(states) && i < |states| && Fences.Sound(x.registry)
    requires Upper(v, states, x) && LowerState(states[i], x.registry)
    ensures Agrees(states[i], x.registry)
  {
    hide Distinct, Reached, ValidDispatchRequest, ValidStatusRequest;
    var s := states[i];
    var stable := s.identity.stableRequest;
    if stable in x.registry.entries {
      var e := x.registry.entries[stable];
      Fences.EntryOf(x.registry, stable);
      assert EntryReached(states, stable, e);
      ReachedByOwn(states, i, stable, e.fence.through);
      if e.inflight.Some? {
        ReachedByOwn(states, i, stable, e.inflight.value.generation);
      }
      if e.terminal.Some? {
        ReachedByOwn(states, i, stable, e.terminal.value.generation);
      }
    }
  }

  /** Whatever journal a crash leaves, all its actions agree with the service. */
  lemma InvAgrees(v: Service, h: Header, records: seq<Record>, durable: nat, x: Exchange, k: nat)
    requires Inv(v, h, records, durable, x) && durable <= k <= |records|
    ensures Replay(v.sha, h, records[..k]).Success?
    ensures forall i | 0 <= i < |States(v, h, records[..k])| ::
              Agrees(States(v, h, records[..k])[i], x.registry)
  {
    hide Replay, Agrees, Distinct, Upper, Fences.Sound, Answered, LowerState, Forward;
    BetweenForward(v, h, records, durable, k);
    assert LowerAt(v, h, records, x.registry, k);
    var states := States(v, h, records[..k]);
    CompensationsSound(v.sha, h, records[..k]);
    UpperForward(v, States(v, h, records[..durable]), states, x);
    forall i | 0 <= i < |states| ensures Agrees(states[i], x.registry) {
      StateAgrees(states, i, v, x);
    }
  }

  // ---------------------------------------------------------------------------------------
  // Journal steps
  // ---------------------------------------------------------------------------------------

  predicate Records(t: Transition, r: Record) {
    && t.kind == r.kind && t.generation == r.attemptGeneration
    && t.observation == r.observation && t.result == r.result
  }

  /** `r` records a reply of the service to some dispatch of the same stable request. */
  ghost predicate FromDispatchReply(v: Service, x: Exchange, r: Record) {
    exists q, e :: q in x.dispatches && e in x.dispatchReplies
                   && q.target.stable == r.identity.stableRequest
                   && TransitionFromDispatch(v.sha, v.descriptor, q, e).Success?
                   && Records(TransitionFromDispatch(v.sha, v.descriptor, q, e).value, r)
  }

  ghost predicate FromStatusReply(v: Service, x: Exchange, r: Record) {
    exists q, e :: q in x.statuses && e in x.statusReplies
                   && q.target.stable == r.identity.stableRequest
                   && TransitionFromStatus(v.sha, v.descriptor, q, e).Success?
                   && TransitionFromStatus(v.sha, v.descriptor, q, e).value.Some?
                   && Records(TransitionFromStatus(v.sha, v.descriptor, q, e).value.value, r)
  }

  /**
   * What the outbox may journal: new actions, intents and ambiguities on its own account, and
   * every verdict only from validated evidence.
   */
  ghost predicate Justified(v: Service, x: Exchange, r: Record) {
    || r.kind == EVENT_ENQUEUED || r.kind == EVENT_DISPATCH_INTENT
    || r.kind == EVENT_AMBIGUITY_OBSERVED
    || FromDispatchReply(v, x, r) || FromStatusReply(v, x, r)
  }

  /** The requests ever sent have pairwise different preimage digests. */
  ghost predicate RootsDistinct(v: Service, x: Exchange) {
    && NoCollision(v.sha, DispatchPreimages(x.dispatches))
    && NoCollision(v.sha, StatusPreimages(x.statuses))
  }

  /** What a verdict record needs the service to know. */
  predicate VerdictKnown(a: Registry, r: Record) {
    var stable := r.identity.stableRequest;
    && (r.kind == EVENT_RECONCILED_NOT_APPLIED ==>
          r.attemptGeneration <= Fences.FenceFor(a, stable))
    && (IsTerminalKind(r.kind) ==>
          && Fences.Settled(a, stable)
          && a.entries[stable].terminal.value.disposition
             == (if IsSuccessKind(r.kind) then DispatchSucceeded else DispatchTerminalFailure)
          && a.entries[stable].terminal.value.result == r.result)
  }

  lemma DispatchVerdictKnown(v: Service, x: Exchange, r: Record, q: DispatchRequest,
    e: DispatchEvidence)
    requires Answered(x) && RootsDistinct(v, x)
    requires forall p | p in x.dispatches :: ValidDispatchRequest(v.sha, p)
    requires q in x.dispatches && e in x.dispatchReplies
    requires q.target.stable == r.identity.stableRequest
    requires TransitionFromDispatch(v.sha, v.descriptor, q, e).Success?
    requires Records(TransitionFromDispatch(v.sha, v.descriptor, q, e).value, r)
    ensures VerdictKnown(x.registry, r)
  {
    hide ValidDescriptor, ValidDispatchRequest, DispatchEvidenceSha, DispatchPreimages,
      StatusPreimages;
    assert DispatchReplyKnown(x, e);
    var p :| p in x.dispatches && e.request == p.requestSha && DispatchFact(x.registry, p, e);
    DispatchRootNames(v.sha, x.dispatches, p, q);
  }

  lemma StatusVerdictKnown(v: Service, x: Exchange, r: Record, q: StatusRequest,
    e: StatusEvidence)
    requires Answered(x) && RootsDistinct(v, x)
    requires forall p | p in x.statuses :: ValidStatusRequest(v.sha, p)
    requires q in x.statuses && e in x.statusReplies
    requires q.target.stable == r.identity.stableRequest
    requires TransitionFromStatus(v.sha, v.descriptor, q, e).Success?
    requires TransitionFromStatus(v.sha, v.descriptor, q, e).value.Some?
    requires Records(TransitionFromStatus(v.sha, v.descriptor, q, e).value.value, r)
    ensures VerdictKnown(x.registry, r)
  {
    hide ValidDescriptor, ValidStatusRequest, StatusEvidenceSha, DispatchPreimages,
      StatusPreimages;
    assert StatusReplyKnown(x, e);
    var p :| p in x.statuses && e.request == p.requestSha && StatusFact(x.registry, p, e);
    StatusRootNames(v.sha, x.statuses, p, q);
  }

  lemma JustifiedVerdict(v: Service, x: Exchange, r: Record, states: seq<State>)
    requires Answered(x) && RootsDistinct(v, x) && Upper(v, states, x) && Justified(v, x, r)
    ensures VerdictKnown(x.registry, r)
  {
    hide VerdictKnown, Answered, RootsDistinct, Records, TransitionFromDispatch,
      TransitionFromStatus, ValidDispatchRequest, ValidStatusRequest, EntryReached, Reached;
    if FromDispatchReply(v, x, r) {
      var q, e :| q in x.dispatches && e in x.dispatchReplies
                  && q.target.stable == r.identity.stableRequest
                  && TransitionFromDispatch(v.sha, v.descriptor, q, e).Success?
                  && Records(TransitionFromDispatch(v.sha, v.descriptor, q, e).value, r);
      DispatchVerdictKnown(v, x, r, q, e);
    } else if FromStatusReply(v, x, r) {
      var q, e :| q in x.statuses && e in x.statusReplies
                  && q.target.stable == r.identity.stableRequest
                  && TransitionFromStatus(v.sha, v.descriptor, q, e).Success?
                  && TransitionFromStatus(v.sha, v.descriptor, q, e).value.Some?
                  && Records(TransitionFromStatus(v.sha, v.descriptor, q, e).value.value, r);
      StatusVerdictKnown(v, x, r, q, e);
    } else {
      OwnRecordNeedsNothing(x.registry, r);
    }
  }

  lemma OwnRecordNeedsNothing(a: Registry, r: Record)
    requires r.kind == EVENT_ENQUEUED || r.kind == EVENT_DISPATCH_INTENT
             || r.kind == EVENT_AMBIGUITY_OBSERVED
    ensures VerdictKnown(a, r)
  {
  }

  /** An accepted transition keeps the service's knowledge ahead of the journal. */
  lemma MovedLower(sha: Sha, h: Header, s: State, r: Record, a: Registry)
    requires LowerState(s, a) && VerdictKnown(a, r) && Fences.Sound(a)
    requires EVENT_DISPATCH_INTENT <= r.kind <= EVENT_RECONCILED_FAILURE
    requires CheckTransition(sha, h, s, r) == None
    requires Agrees(s, a)
    requires var stable := s.identity.stableRequest;
             Fences.Settled(a, stable) ==>
               a.entries[stable].terminal.value.generation <= s.attemptGeneration
    ensures LowerState(NextState(s, r), a)
  {
    hide DispatchRequestSha;
    Fences.EntryOf(a, s.identity.stableRequest);
  }

  lemma AppendLower(v: Service, h: Header, records: seq<Record>, r: Record, x: Exchange)
    requires Replay(v.sha, h, records).Success?
    requires Replay(v.sha, h, records + [r]).Success?
    requires Upper(v, States(v, h, records), x) && Fences.Sound(x.registry)
    requires Lower(States(v, h, records), x.registry) && VerdictKnown(x.registry, r)
    ensures Lower(States(v, h, records + [r]), x.registry)
  {
    hide ApplyRecord, ValidHeader, ValidRecord, Distinct, LowerState, NextState, Agrees,
      CheckTransition, VerdictKnown, ValidDispatchRequest, ValidStatusRequest, Reached,
      Fences.Sound, Replay;
    ReplayAppend(v.sha, h, records, r);
    var before := Replay(v.sha, h, records).value;
    var i := ApplyRecordInversion(v.sha, h, r, before.states, before.ledger);
    if r.kind == EVENT_ENQUEUED {
      FreshLower(r, x.registry);
    } else {
      CompensationsSound(v.sha, h, records);
      var s := before.states[i];
      StateAgrees(before.states, i, v, x);
      var stable := s.identity.stableRequest;
      if Fences.Settled(x.registry, stable) {
        assert EntryReached(before.states, stable, x.registry.entries[stable]);
        ReachedByOwn(before.states, i, stable,
                     x.registry.entries[stable].terminal.value.generation);
      }
      MovedLower(v.sha, h, s, r, x.registry);
    }
  }

  lemma FreshLower(r: Record, a: Registry)
    ensures LowerState(MakeState(r), a)
  {
  }

  /** Journalling a justified record that replays keeps the invariant. */
  lemma AppendKeeps(v: Service, h: Header, records: seq<Record>, durable: nat, x: Exchange,
    r: Record)
    requires Inv(v, h, records, durable, x) && RootsDistinct(v, x) && Justified(v, x, r)
    requires Replay(v.sha, h, records + [r]).Success?
    ensures Inv(v, h, records + [r], durable, x)
  {
    hide Replay, Upper, Fences.Sound, Answered, RootsDistinct, Justified, VerdictKnown, Lower,
      Forward;
    var all := records + [r];
    var n := |records|;
    assert records[..n] == records && all[..n + 1] == all;
    BetweenForward(v, h, records, durable, n);
    assert LowerAt(v, h, records, x.registry, n);
    UpperForward(v, States(v, h, records[..durable]), States(v, h, records), x);
    JustifiedVerdict(v, x, r, States(v, h, records));
    AppendLower(v, h, records, r, x);
    assert all[..durable] == records[..durable];
    forall k | durable <= k <= |all| ensures LowerAt(v, h, all, x.registry, k) {
      if k <= n {
        assert all[..k] == records[..k];
        assert LowerAt(v, h, records, x.registry, k);
      }
    }
  }

  /** Losing a tail of the journal and making more of it durable both keep the invariant. */
  lemma CutKeeps(v: Service, h: Header, records: seq<Record>, durable: nat, x: Exchange, k: nat,
    synced: nat)
    requires Inv(v, h, records, durable, x) && durable <= synced <= k <= |records|
    ensures Inv(v, h, records[..k], synced, x)
  {
    hide Replay, Upper, Fences.Sound, Answered, Lower, Forward;
    var cut := records[..k];
    PrefixForward(v, h, records, k);
    BetweenForward(v, h, records, durable, synced);
    assert cut[..synced] == records[..synced];
    UpperForward(v, States(v, h, records[..durable]), States(v, h, records[..synced]), x);
    forall j | synced <= j <= k ensures LowerAt(v, h, cut, x.registry, j) {
      assert cut[..j] == records[..j];
      assert LowerAt(v, h, records, x.registry, j);
    }
  }

  // ---------------------------------------------------------------------------------------
  // Sending
  // ---------------------------------------------------------------------------------------

  /** A durable intent has raised its action to its own generation, for ever after. */
  lemma IntentReached(v: Service, h: Header, records: seq<Record>, j: nat)
    requires j < |records| && Replay(v.sha, h, records).Success?
    requires records[j].kind == EVENT_DISPATCH_INTENT
    ensures Reached(States(v, h, records), records[j].identity.stableRequest,
                    records[j].attemptGeneration)
  {
    hide ApplyRecord, ValidHeader, ValidRecord, Replay, DispatchRequestSha, Forward;
    PrefixForward(v, h, records, j);
    PrefixForward(v, h, records, j + 1);
    var r := records[j];
    assert records[..j + 1] == records[..j] + [r];
    ReplayAppend(v.sha, h, records[..j], r);
    var before := Replay(v.sha, h, records[..j]).value;
    var i := ApplyRecordInversion(v.sha, h, r, before.states, before.ledger);
    var after := States(v, h, records[..j + 1]);
    assert Reaches(after[i], r.identity.stableRequest, r.attemptGeneration);
    ReachedForward(after, States(v, h, records), r.identity.stableRequest, r.attemptGeneration);
  }

  lemma SendDispatchKeeps(v: Service, h: Header, records: seq<Record>, durable: nat, x: Exchange,
    j: nat)
    requires Inv(v, h, records, durable, x) && j < durable
    requires MakeDispatchRequest(v.sha, v.descriptor, h, records[j]).Success?
    ensures var q := MakeDispatchRequest(v.sha, v.descriptor, h, records[j]).value;
            Inv(v, h, records, durable, x.(dispatches := x.dispatches + {q}))
  {
    hide Replay, Fences.Sound, LowerAt, Forward, ValidDispatchRequest, Upper, Answered, Reached,
      MakeDispatchRequest;
    var q := MakeDispatchRequest(v.sha, v.descriptor, h, records[j]).value;
    var more := x.(dispatches := x.dispatches + {q});
    assert records[..durable][j] == records[j];
    IntentReached(v, h, records[..durable], j);
    UpperMore(v, States(v, h, records[..durable]), x, more);
    AnsweredMore(x, more);
    LowerSame(v, h, records, durable, x, more);
  }

  lemma LowerSame(v: Service, h: Header, records: seq<Record>, durable: nat, x: Exchange,
    more: Exchange)
    requires more.registry == x.registry && durable <= |records|
    requires forall k | durable <= k <= |records| :: LowerAt(v, h, records, x.registry, k)
    ensures forall k | durable <= k <= |records| :: LowerAt(v, h, records, more.registry, k)
  {
  }

  lemma UpperMore(v: Service, states: seq<State>, x: Exchange, more: Exchange)
    requires Upper(v, states, x)
    requires more == x.(dispatches := more.dispatches, statuses := more.statuses)
    requires forall r | r in more.dispatches - x.dispatches ::
               ValidDispatchRequest(v.sha, r) && Reached(states, r.target.stable, r.generation)
    requires forall r | r in more.statuses - x.statuses ::
               ValidStatusRequest(v.sha, r) && Reached(states, r.target.stable, r.generation)
    ensures Upper(v, states, more)
  {
    hide ValidDispatchRequest, ValidStatusRequest, EntryReached, Reached;
    forall r | r in more.dispatches
      ensures ValidDispatchRequest(v.sha, r) && Reached(states, r.target.stable, r.generation)
    {
      assert r in x.dispatches || r in more.dispatches - x.dispatches;
    }
    forall r | r in more.statuses
      ensures ValidStatusRequest(v.sha, r) && Reached(states, r.target.stable, r.generation)
    {
      assert r in x.statuses || r in more.statuses - x.statuses;
    }
  }

  lemma AnsweredMore(x: Exchange, more: Exchange)
    requires Answered(x)
    requires more == x.(dispatches := more.dispatches, statuses := more.statuses)
    requires x.dispatches <= more.dispatches && x.statuses <= more.statuses
    ensures Answered(more)
  {
    forall e | e in more.dispatchReplies ensures DispatchReplyKnown(more, e) {
      assert DispatchReplyKnown(x, e);
    }
    forall e | e in more.statusReplies ensures StatusReplyKnown(more, e) {
      assert StatusReplyKnown(x, e);
    }
  }

  lemma SendStatusKeeps(v: Service, h: Header, records: seq<Record>, durable: nat, x: Exchange,
    i: nat, ordinal: u64)
    requires Inv(v, h, records, durable, x) && i < |States(v, h, records[..durable])|
    requires var s := States(v, h, records[..durable])[i];
             MakeStatusRequest(v.sha, v.descriptor, h, s, ordinal).Success?
    ensures var s := States(v, h, records[..durable])[i];
            var q := MakeStatusRequest(v.sha, v.descriptor, h, s, ordinal).value;
            Inv(v, h, records, durable, x.(statuses := x.statuses + {q}))
  {
    hide Replay, Fences.Sound, LowerAt, Forward, ValidStatusRequest, Upper, Answered, Reached,
      MakeStatusRequest;
    var states := States(v, h, records[..durable]);
    var q := MakeStatusRequest(v.sha, v.descriptor, h, states[i], ordinal).value;
    var more := x.(statuses := x.statuses + {q});
    StateReached(states, i);
    UpperMore(v, states, x, more);
    AnsweredMore(x, more);
    LowerSame(v, h, records, durable, x, more);
  }

  lemma StateReached(states: seq<State>, i: nat)
    requires i < |states|
    ensures Reached(states, states[i].identity.stableRequest, states[i].attemptGeneration)
  {
    assert Reaches(states[i], states[i].identity.stableRequest, states[i].attemptGeneration);
  }

  // ---------------------------------------------------------------------------------------
  // The service acting
  // ---------------------------------------------------------------------------------------

  /** Only requests that were sent reach the service, any number of times and in any order. */
  predicate Deliverable(x: Exchange, c: Call) {
    match c
    case DispatchCall(r, _) => r in x.dispatches
    case BeginCall(r, _) => r in x.dispatches
    case FinishCall(r, _, _) => r in x.dispatches
    case StatusCall(r, _) => r in x.statuses
    case PlanCall(_, _) => true
    case OverrideCall(_, _) => true
  }

  function Noted<T(==)>(replies: set<T>, reply: Result<T, AdapterError>): set<T> {
    if reply.Success? then replies + {reply.value} else replies
  }

  /** The exchange after one call, its reply noted; whether the reply arrives is another matter. */
  function Delivered(v: Service, x: Exchange, c: Call): Exchange {
    var after := x.(registry := After(v, x.registry, c));
    match c
    case DispatchCall(r, authentic) =>
      after.(dispatchReplies :=
               Noted(x.dispatchReplies, Dispatch(v, x.registry, r, authentic).reply))
    case FinishCall(r, authentic, d) =>
      after.(dispatchReplies :=
               Noted(x.dispatchReplies, FinishInflight(v, x.registry, r, authentic, d).reply))
    case StatusCall(r, authentic) =>
      after.(statusReplies := Noted(x.statusReplies, Status(v, x.registry, r, authentic).reply))
    case _ => after
  }

  lemma LowerGrows(states: seq<State>, a: Registry, after: Registry)
    requires Lower(states, a) && Fences.Grows(a, after)
    ensures Lower(states, after)
  {
    forall i | 0 <= i < |states| ensures LowerState(states[i], after) {
      assert LowerState(states[i], a);
    }
  }

  lemma AnsweredGrows(x: Exchange, after: Registry)
    requires Answered(x) && Fences.Grows(x.registry, after)
    ensures Answered(x.(registry := after))
  {
    hide DispatchFact, StatusFact, Fences.Grows;
    var y := x.(registry := after);
    forall e | e in y.dispatchReplies ensures DispatchReplyKnown(y, e) {
      assert DispatchReplyKnown(x, e);
      var r :| r in x.dispatches && e.request == r.requestSha && DispatchFact(x.registry, r, e);
      DispatchFactPersists(x.registry, after, r, e);
    }
    forall e | e in y.statusReplies ensures StatusReplyKnown(y, e) {
      assert StatusReplyKnown(x, e);
      var r :| r in x.statuses && e.request == r.requestSha && StatusFact(x.registry, r, e);
      StatusFactPersists(x.registry, after, r, e);
    }
  }

  lemma UpperTouched(v: Service, states: seq<State>, x: Exchange, after: Registry,
    stable: Digest, g: u64)
    requires Upper(v, states, x) && OnlyTouches(x.registry, after, stable, g)
    requires Reached(states, stable, g)
    ensures Upper(v, states, x.(registry := after))
  {
    hide ValidDispatchRequest, ValidStatusRequest;
    ReachedZero(states, stable, g);
    hide Reached;
    forall k | k in after.entries ensures EntryReached(states, k, after.entries[k]) {
      if k in x.registry.entries {
        assert EntryReached(states, k, x.registry.entries[k]);
      }
    }
  }

  lemma ReachedZero(states: seq<State>, stable: Digest, g: nat)
    requires Reached(states, stable, g)
    ensures Reached(states, stable, 0)
  {
    var i :| 0 <= i < |states| && Reaches(states[i], stable, g);
    assert Reaches(states[i], stable, 0);
  }

  lemma DeliveredUpper(v: Service, states: seq<State>, x: Exchange, c: Call)
    requires Upper(v, states, x) && Deliverable(x, c)
    ensures Upper(v, states, x.(registry := After(v, x.registry, c)))
  {
    hide ValidDispatchRequest, ValidStatusRequest, Reached, EntryReached, Dispatch,
      BeginInflight, FinishInflight, Status;
    match c
    case DispatchCall(r, authentic) =>
      DispatchTouches(v, x.registry, r, authentic);
      UpperTouched(v, states, x, After(v, x.registry, c), r.target.stable, r.generation);
    case BeginCall(r, authentic) =>
      BeginTouches(v, x.registry, r, authentic);
      UpperTouched(v, states, x, After(v, x.registry, c), r.target.stable, r.generation);
    case FinishCall(r, authentic, d) =>
      FinishTouches(v, x.registry, r, authentic, d);
      UpperTouched(v, states, x, After(v, x.registry, c), r.target.stable, r.generation);
    case StatusCall(r, authentic) =>
      StatusTouches(v, x.registry, r, authentic);
      UpperTouched(v, states, x, After(v, x.registry, c), r.target.stable, r.generation);
    case PlanCall(_, _) =>
    case OverrideCall(_, _) =>
  }

  lemma DeliveredAnswered(v: Service, x: Exchange, c: Call)
    requires Answered(x) && Deliverable(x, c) && Fences.Sound(x.registry)
    ensures Answered(Delivered(v, x, c))
  {
    hide DispatchFact, StatusFact, Dispatch, BeginInflight, FinishInflight, Status,
      Fences.Sound, Fences.Grows;
    Fences.CallSound(v, x.registry, c);
    AnsweredGrows(x, After(v, x.registry, c));
    var before := x.(registry := After(v, x.registry, c));
    match c
    case DispatchCall(r, authentic) =>
      if Dispatch(v, x.registry, r, authentic).reply.Success? {
        DispatchAnswers(v, x.registry, r, authentic);
        DispatchNoted(before, Dispatch(v, x.registry, r, authentic).reply.value, r);
      }
    case FinishCall(r, authentic, d) =>
      if FinishInflight(v, x.registry, r, authentic, d).reply.Success? {
        FinishAnswers(v, x.registry, r, authentic, d);
        DispatchNoted(before, FinishInflight(v, x.registry, r, authentic, d).reply.value, r);
      }
    case StatusCall(r, authentic) =>
      if Status(v, x.registry, r, authentic).reply.Success? {
        StatusAnswers(v, x.registry, r, authentic);
        StatusNoted(before, Status(v, x.registry, r, authentic).reply.value, r);
      }
    case BeginCall(_, _) =>
    case PlanCall(_, _) =>
    case OverrideCall(_, _) =>
  }

  lemma DispatchNoted(x: Exchange, e: DispatchEvidence, r: DispatchRequest)
    requires Answered(x) && r in x.dispatches && e.request == r.requestSha
    requires DispatchFact(x.registry, r, e)
    ensures Answered(x.(dispatchReplies := x.dispatchReplies + {e}))
  {
    hide DispatchFact, StatusFact;
    var y := x.(dispatchReplies := x.dispatchReplies + {e});
    assert DispatchReplyKnown(y, e);
    forall f | f in x.dispatchReplies ensures DispatchReplyKnown(y, f) {
      assert DispatchReplyKnown(x, f);
    }
    forall f | f in x.statusReplies ensures StatusReplyKnown(y, f) {
      assert StatusReplyKnown(x, f);
    }
  }

  lemma StatusNoted(x: Exchange, e: StatusEvidence, r: StatusRequest)
    requires Answered(x) && r in x.statuses && e.request == r.requestSha
    requires StatusFact(x.registry, r, e)
    ensures Answered(x.(statusReplies := x.statusReplies + {e}))
  {
    hide DispatchFact, StatusFact;
    var y := x.(statusReplies := x.statusReplies + {e});
    assert StatusReplyKnown(y, e);
    forall f | f in x.dispatchReplies ensures DispatchReplyKnown(y, f) {
      assert DispatchReplyKnown(x, f);
    }
    forall f | f in x.statusReplies ensures StatusReplyKnown(y, f) {
      assert StatusReplyKnown(x, f);
    }
  }

  /** Delivering any sent request, late or again, keeps the invariant. */
  lemma DeliverKeeps(v: Service, h: Header, records: seq<Record>, durable: nat, x: Exchange,
    c: Call)
    requires Inv(v, h, records, durable, x) && Deliverable(x, c)
    ensures Inv(v, h, records, durable, Delivered(v, x, c))
  {
    hide Replay, Fences.Sound, Lower, Answered, After, Dispatch, FinishInflight, Status,
      Deliverable, EntryReached, Reached, ValidDispatchRequest, ValidStatusRequest,
      Fences.Grows;
    Fences.CallSound(v, x.registry, c);
    DeliveredAnswered(v, x, c);
    DeliveredUpper(v, States(v, h, records[..durable]), x, c);
    forall k | durable <= k <= |records|
      ensures LowerAt(v, h, records, After(v, x.registry, c), k)
    {
      assert LowerAt(v, h, records, x.registry, k);
      LowerGrows(States(v, h, records[..k]), x.registry, After(v, x.registry, c));
    }
  }

  lemma StartInv(v: Service, h: Header)
    ensures Inv(v, h, [], 0, NO_EXCHANGE)
  {
    Fences.EmptySound();
    var none: seq<Record> := [];
    assert none[..0] == none;
    assert LowerAt(v, h, none, EMPTY_REGISTRY, 0);
  }
}
