/**
 * The fake service as a mutable object: each method updates the tables step by step, in the
 * order of the code, and leaves them exactly as the functions of Authority say.
 */
module AuthorityClass {
  import opened Bytes
  import opened Adapter
  import opened Authority

  class FakeAuthority {
    const service: Service
    var entries: map<Digest, Entry>
    var dispatchPlans: map<Digest, DispatchDisposition>
    var statusOverrides: map<Digest, StatusDisposition>
    var revision: u64

    function View(): Registry
      reads this
    {
      Registry(entries, dispatchPlans, statusOverrides, revision)
    }

    constructor (v: Service)
      ensures service == v && View() == EMPTY_REGISTRY
    {
      service := v;
      entries, dispatchPlans, statusOverrides, revision := map[], map[], map[], 1;
    }

    method PlanDispatchFor(stable: Digest, d: DispatchDisposition)
      returns (reply: Result<(), AdapterError>)
      modifies this`dispatchPlans
      ensures Answer(View(), reply) == PlanDispatch(service, old(View()), stable, d)
    {
      if stable == ZERO_DIGEST || d == DispatchRejectedStale {
        return Failure(RequestRejected);
      }
      if stable !in dispatchPlans && |dispatchPlans| >= service.maximumEntries {
        return Failure(AuthorityFull);
      }
      dispatchPlans := dispatchPlans[stable := d];
      return Success(());
    }

    method OverrideStatusFor(stable: Digest, d: Option<StatusDisposition>)
      returns (reply: Result<(), AdapterError>)
      modifies this`statusOverrides
      ensures Answer(View(), reply) == OverrideStatus(service, old(View()), stable, d)
    {
      if stable == ZERO_DIGEST {
        return Failure(RequestRejected);
      }
      if d.None? {
        statusOverrides := statusOverrides - {stable};
        return Success(());
      }
      if d.value != StatusPending && d.value != StatusUnknown {
        return Failure(RequestRejected);
      }
      if stable !in statusOverrides && |statusOverrides| >= service.maximumEntries {
        return Failure(AuthorityFull);
      }
      statusOverrides := statusOverrides[stable := d.value];
      return Success(());
    }

    /** The scan of every entry for an action root or idempotency key that is taken. */
    method ScanForConflict(t: Target) returns (taken: bool)
      ensures taken == IdentityTaken(View(), t)
    {
      var remaining := entries.Keys;
      while remaining != {}
        invariant remaining <= entries.Keys
        invariant forall k | k in entries.Keys - remaining ::
                    entries[k].action != t.action && entries[k].idempotency != t.idempotency
      {
        var k :| k in remaining;
        if entries[k].action == t.action || entries[k].idempotency == t.idempotency {
          return true;
        }
        remaining := remaining - {k};
      }
      return false;
    }

    method Find(t: Target, payload: Option<Payload>)
      returns (r: Result<Option<Entry>, AdapterError>)
      ensures r == Lookup(View(), t, payload)
    {
      if t.stable !in entries {
        var taken := ScanForConflict(t);
        return if taken then Failure(RequestRejected) else Success(None);
      }
      var e := entries[t.stable];
      if !SameIdentity(e, t) {
        return Failure(RequestRejected);
      }
      if payload.Some? && e.payload.Some? && e.payload != payload {
        return Failure(RequestRejected);
      }
      return Success(Some(e));
    }

    /** Room for the request's entry; false when the table is full. */
    method Open(t: Target, payload: Option<Payload>) returns (ok: bool)
      modifies this`entries
      ensures var room := WithEntry(service, old(View()), t, payload);
              && (ok <==> room.Success?)
              && (ok ==> View() == room.value)
              && (!ok ==> View() == old(View()) && room == Failure(AuthorityFull))
    {
      if t.stable in entries {
        return true;
      }
      if |entries| >= service.maximumEntries {
        return false;
      }
      entries := entries[t.stable := NewEntry(t, payload)];
      return true;
    }

    method Advance() returns (ok: bool)
      modifies this`revision
      ensures ok <==> old(revision) < U64_MAX
      ensures revision == if ok then old(revision) + 1 else old(revision)
      ensures View() == old(View()).(revision := revision)
    {
      if revision == U64_MAX {
        return false;
      }
      revision := revision + 1;
      return true;
    }

    method Store(stable: Digest, e: Entry)
      modifies this`entries
      ensures View() == Put(old(View()), stable, e)
    {
      entries := entries[stable := e];
    }

    method AttemptNow(r: DispatchRequest) returns (reply: Result<DispatchEvidence, AdapterError>)
      modifies this
      ensures Answer(View(), reply) == Attempt(service, old(View()), r)
    {
      hide InflightEvidence, TerminalEvidence, MakeInflight, MakeTerminal, WithEntry, Put;
      var stable := r.target.stable;
      var planned := if stable in dispatchPlans then dispatchPlans[stable]
                     else DispatchSucceeded;
      dispatchPlans := dispatchPlans - {stable};
      var ok := Open(r.target, Some(r.payload));
      if !ok {
        return Failure(AuthorityFull);
      }
      ok := Advance();
      if !ok {
        return Failure(RevisionOverflow);
      }
      var e := entries[stable];
      if planned == DispatchIndeterminate {
        var i := MakeInflight(service, r, revision);
        Store(stable, e.(inflight := Some(i)));
        return InflightEvidence(service, r, i);
      }
      var t := MakeTerminal(service, r, planned, revision);
      Store(stable, e.(terminal := Some(t)));
      return TerminalEvidence(service, r, t);
    }

    method DispatchNow(r: DispatchRequest, authentic: bool)
      returns (reply: Result<DispatchEvidence, AdapterError>)
      modifies this
      ensures Answer(View(), reply) == Dispatch(service, old(View()), r, authentic)
    {
      hide MakeDispatchEvidence, FakeEvent, FakeResult, Attempt, ValidDispatchRequest;
      var refusal := Refusal(service, r, authentic);
      if refusal.Some? {
        return Failure(refusal.value);
      }
      var found := Find(r.target, Some(r.payload));
      if found.Failure? {
        return Failure(found.error);
      }
      if found.value.None? {
        if r.generation != 1 {
          return Failure(RequestRejected);
        }
        reply := AttemptNow(r);
        return;
      }
      var e := found.value.value;
      if r.generation <= e.fence.through {
        return StaleEvidence(service, View(), r, e.fence);
      }
      if e.fence.through != 0 && e.terminal.None? && e.inflight.None?
         && r.generation != e.fence.through + 1 {
        return Failure(RequestRejected);
      }
      if e.terminal.Some? {
        if r.generation == e.terminal.value.generation
           && r.requestSha != e.terminal.value.request {
          return Failure(RequestRejected);
        }
        return TerminalEvidence(service, r, e.terminal.value);
      }
      if e.inflight.Some? {
        if r.generation != e.inflight.value.generation
           || r.requestSha != e.inflight.value.request {
          return Failure(RequestRejected);
        }
        return InflightEvidence(service, r, e.inflight.value);
      }
      Store(r.target.stable, BindPayload(e, r.payload));
      reply := AttemptNow(r);
    }

    method BeginInflightNow(r: DispatchRequest, authentic: bool)
      returns (reply: Result<(), AdapterError>)
      modifies this
      ensures Answer(View(), reply) == BeginInflight(service, old(View()), r, authentic)
    {
      hide MakeInflight, Refusal, Lookup, BindPayload;
      var stable := r.target.stable;
      var refusal := Refusal(service, r, authentic);
      if refusal.Some? {
        return Failure(refusal.value);
      }
      var found := Find(r.target, Some(r.payload));
      if found.Failure? {
        return Failure(found.error);
      }
      if found.value.None? {
        if r.generation != 1 {
          return Failure(RequestRejected);
        }
        var ok := Open(r.target, Some(r.payload));
        if !ok {
          return Failure(AuthorityFull);
        }
      } else {
        var through: int := found.value.value.fence.through;
        if (through == 0 && r.generation != 1)
           || (through != 0 && r.generation != through + 1) {
          return Failure(RequestRejected);
        }
      }
      var e := entries[stable];
      if r.generation <= e.fence.through || e.terminal.Some? || e.inflight.Some? {
        return Failure(RequestRejected);
      }
      var bound := BindPayload(e, r.payload);
      var half := Inflight(r.generation, 0, ZERO_DIGEST, ZERO_DIGEST);
      ghost var room := View();
      Store(stable, bound.(inflight := Some(half)));
      var ok := Advance();
      if !ok {
        assert View() == EnterInflight(service, room, r, e).registry;
        return Failure(RevisionOverflow);
      }
      var i := MakeInflight(service, r, revision);
      Store(stable, bound.(inflight := Some(i)));
      assert entries == room.entries[stable := bound.(inflight := Some(i))];
      assert View() == EnterInflight(service, room, r, e).registry;
      return Success(());
    }

    method FinishInflightNow(r: DispatchRequest, authentic: bool, d: DispatchDisposition)
      returns (reply: Result<DispatchEvidence, AdapterError>)
      modifies this
      ensures Answer(View(), reply) == FinishInflight(service, old(View()), r, authentic, d)
    {
      hide MakeDispatchEvidence, FakeEvent, FakeResult, ValidDispatchRequest;
      var stable := r.target.stable;
      var refusal := Refusal(service, r, authentic);
      if refusal.Some? {
        return Failure(refusal.value);
      }
      if d == DispatchRejectedStale {
        return Failure(RequestRejected);
      }
      var found := Find(r.target, Some(r.payload));
      if found.Failure? {
        return Failure(found.error);
      }
      if found.value.None? || found.value.value.inflight.None?
         || found.value.value.inflight.value.generation != r.generation
         || found.value.value.inflight.value.request != r.requestSha {
        return Failure(RequestRejected);
      }
      var e := found.value.value;
      if d == DispatchIndeterminate {
        var ok := Advance();
        if !ok {
          return Failure(RevisionOverflow);
        }
        var i := MakeInflight(service, r, revision);
        Store(stable, e.(inflight := Some(i)));
        return InflightEvidence(service, r, i);
      }
      var cleared := e.(inflight := None);
      Store(stable, cleared);
      var ok := Advance();
      if !ok {
        return Failure(RevisionOverflow);
      }
      var t := MakeTerminal(service, r, d, revision);
      Store(stable, cleared.(terminal := Some(t)));
      assert entries == old(entries)[stable := cleared.(terminal := Some(t))];
      return TerminalEvidence(service, r, t);
    }

    method StatusNow(r: StatusRequest, authentic: bool)
      returns (reply: Result<StatusEvidence, AdapterError>)
      modifies this
      ensures Answer(View(), reply) == Status(service, old(View()), r, authentic)
    {
      hide MakeStatusEvidence, FakeEvent, ValidStatusRequest;
      var stable := r.target.stable;
      if !ValidStatusRequest(service.sha, r) {
        return Failure(InvalidStatusRequest);
      }
      if !authentic {
        return Failure(CredentialRejected);
      }
      if r.adapter != service.descriptor.descriptorSha {
        return Failure(RequestRejected);
      }
      var found := Find(r.target, None);
      if found.Failure? {
        return Failure(found.error);
      }
      if stable in statusOverrides {
        return OverrideEvidence(service, View(), r, statusOverrides[stable]);
      }
      if found.value.Some? && found.value.value.terminal.Some? {
        return TerminalStatusEvidence(service, r, found.value.value.terminal.value);
      }
      if found.value.Some? && found.value.value.inflight.Some? {
        return InflightStatus(service, View(), r, found.value.value,
                              found.value.value.inflight.value);
      }
      var ok := Open(r.target, None);
      if !ok {
        return Failure(AuthorityFull);
      }
      var e := entries[stable];
      if e.fence.through < r.generation {
        if e.fence.through != 0 && r.generation != e.fence.through + 1 {
          return Failure(RequestRejected);
        }
        ok := Advance();
        if !ok {
          return Failure(RevisionOverflow);
        }
        var event := FakeEvent(service, stable, StatusDispositionCode(StatusNotAppliedFenced),
                               r.generation, revision);
        e := e.(fence := Fence(r.generation, revision, event));
        Store(stable, e);
      }
      return FencedEvidence(service, r, e.fence.revision);
    }
  }
}
