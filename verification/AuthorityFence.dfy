/**
 * Fence soundness of the service alone, for arbitrary valid requests from anyone in any order,
 * including calls that fail after they changed an entry.
 */
module AuthorityFence {
  import opened Bytes
  import opened Adapter
  import opened Authority

  /**
   * A terminal outcome and an attempt in flight exclude each other and always belong to the
   * generation right after the fence. An entry with neither and no fence is only ever left by
   * a revision overflow, after which no revision can be spent again.
   */
  predicate EntrySound(revision: u64, e: Entry) {
    && (e.inflight.Some? ==>
          e.terminal.None? && e.inflight.value.generation == e.fence.through + 1)
    && (e.terminal.Some? ==>
          && e.terminal.value.generation == e.fence.through + 1
          && TerminalDispatch(e.terminal.value.disposition))
    && (e.inflight.None? && e.terminal.None? && e.fence.through == 0 ==> revision == U64_MAX)
  }

  ghost predicate Sound(a: Registry) {
    && (forall k | k in a.entries :: EntrySound(a.revision, a.entries[k]))
    && (forall k | k in a.plans :: a.plans[k] != DispatchRejectedStale)
    && (forall k | k in a.overrides :: a.overrides[k] in {StatusPending, StatusUnknown})
  }

  /** How an entry may change: fences only rise, and a terminal entry never changes again. */
  predicate EntryGrows(e: Entry, after: Entry) {
    && after.header == e.header && after.action == e.action
    && after.idempotency == e.idempotency
    && e.fence.through <= after.fence.through
    && (e.payload.Some? ==> after.payload == e.payload)
    && (e.terminal.Some? ==> after == e)
  }

  ghost predicate Grows(a: Registry, after: Registry) {
    && a.revision <= after.revision
    && forall k | k in a.entries :: k in after.entries && EntryGrows(a.entries[k], after.entries[k])
  }

  function FenceFor(a: Registry, stable: Digest): u64 {
    if stable in a.entries then a.entries[stable].fence.through else 0
  }

  predicate Settled(a: Registry, stable: Digest) {
    stable in a.entries && a.entries[stable].terminal.Some?
  }

  lemma GrowsTransitive(a: Registry, b: Registry, c: Registry)
    requires Grows(a, b) && Grows(b, c)
    ensures Grows(a, c)
  {
  }

  // ---------------------------------------------------------------------------------------
  // One call
  // ---------------------------------------------------------------------------------------

  /** Replacing or adding one sound entry that grows keeps the whole authority sound. */
  lemma PutSound(a: Registry, stable: Digest, e: Entry, revision: u64)
    requires Sound(a) && a.revision <= revision && EntrySound(revision, e)
    requires stable in a.entries ==> EntryGrows(a.entries[stable], e)
    requires revision != a.revision ==> a.revision != U64_MAX
    ensures Sound(Put(a.(revision := revision), stable, e))
    ensures Grows(a, Put(a.(revision := revision), stable, e))
  {
    var after := Put(a.(revision := revision), stable, e);
    forall k | k in after.entries ensures EntrySound(after.revision, after.entries[k]) {
      if k != stable {
        assert EntrySound(a.revision, a.entries[k]);
      }
    }
  }

  lemma EntryOf(a: Registry, stable: Digest)
    requires Sound(a)
    ensures stable in a.entries ==> EntrySound(a.revision, a.entries[stable])
  {
  }

  lemma SpentSound(a: Registry, stable: Digest)
    requires Sound(a)
    ensures Sound(a.(plans := a.plans - {stable})) && Grows(a, a.(plans := a.plans - {stable}))
  {
  }

  /** The entry an attempt starts from. */
  function Idle(a: Registry, t: Target, payload: Option<Payload>): Entry {
    if t.stable in a.entries then a.entries[t.stable] else NewEntry(t, payload)
  }

  function Attempted(v: Service, a: Registry, r: DispatchRequest): Entry
    requires a.revision < U64_MAX
  {
    var e := Idle(a, r.target, Some(r.payload));
    if Planned(a, r.target.stable) == DispatchIndeterminate
    then e.(inflight := Some(MakeInflight(v, r, a.revision + 1)))
    else
      e.(terminal :=
           Some(MakeTerminal(v, r, Planned(a, r.target.stable), a.revision + 1)))
  }

  /** The four ends of an attempt: no room, a spent revision, in flight, or terminal. */
  lemma AttemptEnds(v: Service, a: Registry, r: DispatchRequest)
    ensures var stable := r.target.stable;
            var spent := a.(plans := a.plans - {stable});
            var after := Attempt(v, a, r).registry;
            if stable !in a.entries && |a.entries| >= v.maximumEntries then after == spent
            else if a.revision == U64_MAX then
              after == Put(spent, stable, Idle(a, r.target, Some(r.payload)))
            else after == Put(spent.(revision := a.revision + 1), stable, Attempted(v, a, r))
  {
    hide FakeEvent, FakeResult, MakeDispatchEvidence;
    var stable := r.target.stable;
    var e := Idle(a, r.target, Some(r.payload));
    assert forall x: Entry {:trigger a.entries[stable := x]} ::
        a.entries[stable := e][stable := x] == a.entries[stable := x];
    if stable in a.entries {
      assert a.entries[stable := e] == a.entries;
    }
  }

  /** An attempt at the generation after the fence, on a new or an idle entry. */
  lemma AttemptSound(v: Service, a: Registry, r: DispatchRequest)
    requires Sound(a)
    requires r.target.stable !in a.entries ==> r.generation == 1
    requires r.target.stable in a.entries ==>
               var e := a.entries[r.target.stable];
               && e.inflight.None? && e.terminal.None?
               && (e.fence.through != 0 ==> r.generation == e.fence.through + 1)
    ensures Sound(Attempt(v, a, r).registry) && Grows(a, Attempt(v, a, r).registry)
  {
    AttemptEnds(v, a, r);
    SpentSound(a, r.target.stable);
    IdleSound(v, a, r);
    hide Attempt, MakeInflight, MakeTerminal, Sound, Grows, EntrySound, EntryGrows, Idle,
      Attempted;
    var stable := r.target.stable;
    var spent := a.(plans := a.plans - {stable});
    if a.revision == U64_MAX {
      PutSound(spent, stable, Idle(a, r.target, Some(r.payload)), a.revision);
      GrowsTransitive(a, spent, Put(spent, stable, Idle(a, r.target, Some(r.payload))));
    } else {
      PutSound(spent, stable, Attempted(v, a, r), a.revision + 1);
      GrowsTransitive(a, spent,
                      Put(spent.(revision := a.revision + 1), stable, Attempted(v, a, r)));
    }
  }

  lemma IdleSound(v: Service, a: Registry, r: DispatchRequest)
    requires Sound(a)
    requires r.target.stable !in a.entries ==> r.generation == 1
    requires r.target.stable in a.entries ==>
               var e := a.entries[r.target.stable];
               && e.inflight.None? && e.terminal.None?
               && (e.fence.through != 0 ==> r.generation == e.fence.through + 1)
    ensures a.revision == U64_MAX ==>
              EntrySound(a.revision, Idle(a, r.target, Some(r.payload)))
    ensures a.revision < U64_MAX ==>
              && EntrySound(a.revision + 1, Attempted(v, a, r))
              && (r.target.stable in a.entries ==>
                    EntryGrows(a.entries[r.target.stable], Attempted(v, a, r)))
    ensures r.target.stable in a.entries ==>
              EntryGrows(a.entries[r.target.stable], Idle(a, r.target, Some(r.payload)))
  {
    hide FakeEvent, FakeResult;
    if r.target.stable in a.entries {
      assert EntrySound(a.revision, a.entries[r.target.stable]);
    }
  }

  lemma DispatchSound(v: Service, a: Registry, r: DispatchRequest, authentic: bool)
    requires Sound(a)
    ensures var after := Dispatch(v, a, r, authentic).registry;
            Sound(after) && Grows(a, after)
  {
    hide FakeEvent, FakeResult, MakeDispatchEvidence, Attempt;
    var found := Lookup(a, r.target, Some(r.payload));
    if Refusal(v, r, authentic).None? && found.Success? {
      if found.value.None? {
        if r.generation == 1 {
          AttemptSound(v, a, r);
        }
      } else {
        var e := found.value.value;
        assert EntrySound(a.revision, e);
        var bound := Put(a, r.target.stable, BindPayload(e, r.payload));
        if e.terminal.None? {
          PutSound(a, r.target.stable, BindPayload(e, r.payload), a.revision);
          if e.inflight.None? && (e.fence.through == 0 || r.generation == e.fence.through + 1) {
            AttemptSound(v, bound, r);
            GrowsTransitive(a, bound, Attempt(v, bound, r).registry);
          }
        }
      }
    }
  }

  lemma EnterSound(v: Service, a: Registry, r: DispatchRequest, e: Entry)
    requires Sound(a)
    requires r.target.stable in a.entries ==> e == a.entries[r.target.stable]
    requires r.target.stable !in a.entries ==> e == NewEntry(r.target, Some(r.payload))
    requires if e.fence.through == 0 then r.generation == 1
             else r.generation == e.fence.through + 1
    ensures var after := EnterInflight(v, a, r, e).registry;
            Sound(after) && Grows(a, after)
  {
    hide FakeEvent, Sound, Grows;
    EntryOf(a, r.target.stable);
    SameSound(a);
    var bound := BindPayload(e, r.payload);
    if e.terminal.None? && e.inflight.None? {
      if a.revision == U64_MAX {
        var half := Inflight(r.generation, 0, ZERO_DIGEST, ZERO_DIGEST);
        PutSound(a, r.target.stable, bound.(inflight := Some(half)), a.revision);
      } else {
        var i := MakeInflight(v, r, a.revision + 1);
        PutSound(a, r.target.stable, bound.(inflight := Some(i)), a.revision + 1);
      }
    }
  }

  /** Creating the entry first makes no difference to what entering leaves. */
  lemma EnterNew(v: Service, a: Registry, r: DispatchRequest, e: Entry)
    requires r.target.stable !in a.entries && r.generation == 1
    requires e == NewEntry(r.target, Some(r.payload))
    ensures EnterInflight(v, Put(a, r.target.stable, e), r, e) == EnterInflight(v, a, r, e)
  {
    hide FakeEvent;
    var stable := r.target.stable;
    assert forall x: Entry {:trigger a.entries[stable := x]} ::
        a.entries[stable := e][stable := x] == a.entries[stable := x];
  }

  lemma BeginSound(v: Service, a: Registry, r: DispatchRequest, authentic: bool)
    requires Sound(a)
    ensures var after := BeginInflight(v, a, r, authentic).registry;
            Sound(after) && Grows(a, after)
  {
    hide EnterInflight, Sound, Grows, Refusal;
    SameSound(a);
    var found := Lookup(a, r.target, Some(r.payload));
    if found.Success? {
      if found.value.None? {
        if r.generation == 1 {
          var e := NewEntry(r.target, Some(r.payload));
          EnterNew(v, a, r, e);
          EnterSound(v, a, r, e);
        }
      } else if r.generation == found.value.value.fence.through + 1 {
        EnterSound(v, a, r, found.value.value);
      }
    }
  }

  lemma SameSound(a: Registry)
    ensures Grows(a, a)
  {
  }

  lemma FinishSound(v: Service, a: Registry, r: DispatchRequest, authentic: bool,
    d: DispatchDisposition)
    requires Sound(a)
    ensures var after := FinishInflight(v, a, r, authentic, d).registry;
            Sound(after) && Grows(a, after)
  {
    hide FakeEvent, FakeResult, MakeDispatchEvidence, Sound, Grows;
    SameSound(a);
    EntryOf(a, r.target.stable);
    var stable := r.target.stable;
    var found := Lookup(a, r.target, Some(r.payload));
    if Refusal(v, r, authentic).None? && found.Success? && found.value.Some? {
      var e := found.value.value;
      if e.inflight.Some? && e.inflight.value.generation == r.generation
         && d != DispatchRejectedStale {
        if a.revision == U64_MAX {
          PutSound(a, stable, e.(inflight := None), a.revision);
        } else if d == DispatchIndeterminate {
          PutSound(a, stable, e.(inflight := Some(MakeInflight(v, r, a.revision + 1))),
                   a.revision + 1);
        } else {
          PutSound(a, stable,
                   e.(inflight := None, terminal := Some(MakeTerminal(v, r, d, a.revision + 1))),
                   a.revision + 1);
        }
      }
    }
  }

  lemma FenceOffSound(v: Service, a: Registry, r: StatusRequest)
    requires Sound(a) && r.generation != 0
    requires r.target.stable in a.entries ==>
               var e := a.entries[r.target.stable]; e.inflight.None? && e.terminal.None?
    ensures var room := WithEntry(v, a, r.target, None);
            room.Success? ==>
              var after := FenceOff(v, room.value, r).registry;
              Sound(after) && Grows(a, after)
  {
    hide FakeEvent, MakeStatusEvidence, Sound, Grows;
    EntryOf(a, r.target.stable);
    var stable := r.target.stable;
    var e := Idle(a, r.target, None);
    var room := WithEntry(v, a, r.target, None);
    if room.Success? {
      assert room.value.entries == a.entries[stable := e];
      if a.revision == U64_MAX {
        PutSound(a, stable, e, a.revision);
      } else if e.fence.through < r.generation {
        var event := FakeEvent(v, stable, StatusDispositionCode(StatusNotAppliedFenced),
                               r.generation, a.revision + 1);
        var fenced := e.(fence := Fence(r.generation, a.revision + 1, event));
        PutSound(a, stable, fenced, a.revision + 1);
        assert a.entries[stable := e][stable := fenced] == a.entries[stable := fenced];
      }
    }
    SameSound(a);
  }

  lemma StatusSound(v: Service, a: Registry, r: StatusRequest, authentic: bool)
    requires Sound(a)
    ensures var after := Status(v, a, r, authentic).registry;
            Sound(after) && Grows(a, after)
  {
    hide FakeEvent, MakeStatusEvidence, FenceOff;
    var found := Lookup(a, r.target, None);
    SameSound(a);
    if ValidStatusRequest(v.sha, r) && found.Success?
       && (found.value.None?
           || (found.value.value.terminal.None? && found.value.value.inflight.None?)) {
      FenceOffSound(v, a, r);
    }
  }

  /** Every call keeps the service sound and lets its entries only grow. */
  lemma CallSound(v: Service, a: Registry, c: Call)
    requires Sound(a)
    ensures Sound(After(v, a, c)) && Grows(a, After(v, a, c))
  {
    hide Dispatch, BeginInflight, FinishInflight, Status, EntrySound, EntryGrows;
    match c
    case DispatchCall(r, authentic) => DispatchSound(v, a, r, authentic);
    case BeginCall(r, authentic) => BeginSound(v, a, r, authentic);
    case FinishCall(r, authentic, d) => FinishSound(v, a, r, authentic, d);
    case StatusCall(r, authentic) => StatusSound(v, a, r, authentic);
    case PlanCall(stable, d) => SameSound(a);
    case OverrideCall(stable, d) => SameSound(a);
  }

  // ---------------------------------------------------------------------------------------
  // Whole runs
  // ---------------------------------------------------------------------------------------

  function AfterAll(v: Service, a: Registry, calls: seq<Call>): Registry {
    if calls == [] then a
    else After(v, AfterAll(v, a, calls[..|calls| - 1]), calls[|calls| - 1])
  }

  lemma {:induction false} RunSound(v: Service, a: Registry, calls: seq<Call>)
    requires Sound(a)
    ensures Sound(AfterAll(v, a, calls)) && Grows(a, AfterAll(v, a, calls))
  {
    hide After, EntrySound, EntryGrows, Sound, Grows;
    if calls == [] {
      SameSound(a);
    } else {
      var n := |calls| - 1;
      RunSound(v, a, calls[..n]);
      CallSound(v, AfterAll(v, a, calls[..n]), calls[n]);
      GrowsTransitive(a, AfterAll(v, a, calls[..n]), AfterAll(v, a, calls));
    }
  }

  lemma EmptySound()
    ensures Sound(EMPTY_REGISTRY)
  {
  }

  /** How many calls of a run applied `stable`: wrote its terminal outcome. */
  function Applications(v: Service, a: Registry, calls: seq<Call>, stable: Digest): nat {
    if calls == [] then 0
    else
      var n := |calls| - 1;
      var before := AfterAll(v, a, calls[..n]);
      Applications(v, a, calls[..n], stable)
      + (if !Settled(before, stable) && Settled(After(v, before, calls[n]), stable) then 1 else 0)
  }

  /** Over every run each stable request is applied at most once, and then stays applied. */
  lemma {:induction false} AppliedAtMostOnce(v: Service, a: Registry, calls: seq<Call>,
    stable: Digest)
    requires Sound(a)
    ensures Applications(v, a, calls, stable)
            == (if Settled(AfterAll(v, a, calls), stable) then 1 else 0)
               - (if Settled(a, stable) then 1 else 0)
  {
    hide After, EntrySound, Sound;
    if calls != [] {
      var n := |calls| - 1;
      AppliedAtMostOnce(v, a, calls[..n], stable);
      RunSound(v, a, calls[..n]);
      CallSound(v, AfterAll(v, a, calls[..n]), calls[n]);
    }
  }

  /** Whatever is in flight or terminal for `stable` is above generation `g`. */
  predicate NothingUpTo(a: Registry, stable: Digest, g: u64) {
    && stable in a.entries
    && var e := a.entries[stable];
       && g <= e.fence.through
       && (e.inflight.Some? ==> g < e.inflight.value.generation)
       && (e.terminal.Some? ==> g < e.terminal.value.generation)
  }

  /** A not-applied verdict is only given behind a fence at its generation or later. */
  lemma FencedReplyMeans(v: Service, a: Registry, r: StatusRequest, authentic: bool)
    requires Sound(a)
    requires var reply := Status(v, a, r, authentic).reply;
             reply.Success? && reply.value.disposition == StatusNotAppliedFenced
    ensures NothingUpTo(Status(v, a, r, authentic).registry, r.target.stable, r.generation)
  {
    hide FakeEvent, ValidStatusEvidence, StatusEvidenceSha;
    StatusSound(v, a, r, authentic);
    var after := Status(v, a, r, authentic).registry;
    var stable := r.target.stable;
    assert stable in after.entries && r.generation <= after.entries[stable].fence.through;
    assert EntrySound(after.revision, after.entries[stable]);
  }

  /**
   * After a not-applied verdict at a generation, no run of calls whatever applies that
   * generation or an earlier one, and a late dispatch of it changes nothing and is told so.
   */
  lemma FencedForEver(v: Service, a: Registry, r: StatusRequest, authentic: bool,
    calls: seq<Call>, late: DispatchRequest)
    requires Sound(a)
    requires var reply := Status(v, a, r, authentic).reply;
             reply.Success? && reply.value.disposition == StatusNotAppliedFenced
    requires late.target.stable == r.target.stable && late.generation <= r.generation
    ensures var after := AfterAll(v, Status(v, a, r, authentic).registry, calls);
            var answer := Dispatch(v, after, late, true);
            && NothingUpTo(after, r.target.stable, r.generation)
            && answer.registry == after
            && (answer.reply.Success? ==>
                  answer.reply.value.disposition == DispatchRejectedStale)
  {
    hide Status, FakeEvent, ValidDispatchEvidence, Attempt;
    FencedReplyMeans(v, a, r, authentic);
    StatusSound(v, a, r, authentic);
    var fenced := Status(v, a, r, authentic).registry;
    RunSound(v, fenced, calls);
    var after := AfterAll(v, fenced, calls);
    assert EntrySound(after.revision, after.entries[r.target.stable]);
  }

  // ---------------------------------------------------------------------------------------
  // Exact terminal replay
  // ---------------------------------------------------------------------------------------

  /** The entry answers `r` with terminal evidence, now and after any further calls. */
  predicate Replays(v: Service, a: Registry, r: DispatchRequest,
    reply: Result<DispatchEvidence, AdapterError>)
  {
    && Settled(a, r.target.stable)
    && var e := a.entries[r.target.stable];
       var t := e.terminal.value;
       && SameIdentity(e, r.target) && (e.payload.Some? ==> e.payload == Some(r.payload))
       && e.fence.through < r.generation
       && (r.generation == t.generation ==> r.requestSha == t.request)
       && reply == TerminalEvidence(v, r, t)
  }

  lemma AttemptReplays(v: Service, a: Registry, r: DispatchRequest)
    requires r.target.stable in a.entries ==>
               var e := a.entries[r.target.stable];
               && SameIdentity(e, r.target) && e.payload == Some(r.payload)
               && e.terminal.None? && e.fence.through < r.generation
    requires r.generation != 0
    requires var reply := Attempt(v, a, r).reply;
             reply.Success? && TerminalDispatch(reply.value.disposition)
    ensures Replays(v, Attempt(v, a, r).registry, r, Attempt(v, a, r).reply)
  {
    hide FakeEvent, FakeResult, ValidDispatchEvidence, DispatchEvidenceSha;
  }

  lemma DispatchReplays(v: Service, a: Registry, r: DispatchRequest, authentic: bool)
    requires var reply := Dispatch(v, a, r, authentic).reply;
             reply.Success? && TerminalDispatch(reply.value.disposition)
    ensures Replays(v, Dispatch(v, a, r, authentic).registry, r,
                    Dispatch(v, a, r, authentic).reply)
    ensures Refusal(v, r, true) == None
  {
    hide FakeEvent, FakeResult, ValidDispatchEvidence, Attempt;
    var found := Lookup(a, r.target, Some(r.payload));
    if found.value.None? {
      AttemptReplays(v, a, r);
    } else {
      var e := found.value.value;
      if e.terminal.None? && e.inflight.None? {
        AttemptReplays(v, Put(a, r.target.stable, BindPayload(e, r.payload)), r);
      }
    }
  }

  lemma FinishReplays(v: Service, a: Registry, r: DispatchRequest, authentic: bool,
    d: DispatchDisposition)
    requires Sound(a)
    requires var reply := FinishInflight(v, a, r, authentic, d).reply;
             reply.Success? && TerminalDispatch(reply.value.disposition)
    ensures Replays(v, FinishInflight(v, a, r, authentic, d).registry, r,
                    FinishInflight(v, a, r, authentic, d).reply)
    ensures Refusal(v, r, true) == None
  {
    hide FakeEvent, FakeResult, ValidDispatchEvidence;
    assert EntrySound(a.revision, a.entries[r.target.stable]);
  }

  lemma ReplaysStill(v: Service, a: Registry, after: Registry, r: DispatchRequest,
    reply: Result<DispatchEvidence, AdapterError>)
    requires Replays(v, a, r, reply) && Grows(a, after) && Refusal(v, r, true) == None
    ensures Dispatch(v, after, r, true) == Answer(after, reply)
  {
    hide FakeEvent, FakeResult, MakeDispatchEvidence;
    assert EntryGrows(a.entries[r.target.stable], after.entries[r.target.stable]);
  }

  /**
   * Re-sending a request that was answered with a terminal outcome returns the identical
   * evidence after any run of calls, and changes nothing.
   */
  lemma TerminalReplayIsExact(v: Service, a: Registry, r: DispatchRequest, authentic: bool,
    calls: seq<Call>)
    requires Sound(a)
    requires var reply := Dispatch(v, a, r, authentic).reply;
             reply.Success? && TerminalDispatch(reply.value.disposition)
    ensures var first := Dispatch(v, a, r, authentic);
            var later := AfterAll(v, first.registry, calls);
            Dispatch(v, later, r, true) == Answer(later, first.reply)
  {
    hide Dispatch, Replays, Sound, Grows, Refusal;
    DispatchSound(v, a, r, authentic);
    DispatchReplays(v, a, r, authentic);
    var first := Dispatch(v, a, r, authentic);
    RunSound(v, first.registry, calls);
    ReplaysStill(v, first.registry, AfterAll(v, first.registry, calls), r, first.reply);
  }

  /** The same for an attempt that was settled while in flight. */
  lemma SettledReplayIsExact(v: Service, a: Registry, r: DispatchRequest, authentic: bool,
    d: DispatchDisposition, calls: seq<Call>)
    requires Sound(a)
    requires var reply := FinishInflight(v, a, r, authentic, d).reply;
             reply.Success? && TerminalDispatch(reply.value.disposition)
    ensures var first := FinishInflight(v, a, r, authentic, d);
            var later := AfterAll(v, first.registry, calls);
            Dispatch(v, later, r, true) == Answer(later, first.reply)
  {
    hide Dispatch, FinishInflight, Replays, Sound, Grows, Refusal;
    FinishSound(v, a, r, authentic, d);
    FinishReplays(v, a, r, authentic, d);
    var first := FinishInflight(v, a, r, authentic, d);
    RunSound(v, first.registry, calls);
    ReplaysStill(v, first.registry, AfterAll(v, first.registry, calls), r, first.reply);
  }
}
