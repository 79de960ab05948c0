/** What the service's answers say about its entries, and which generations a call can record. */
module AuthorityFacts {
  import opened Bytes
  import opened Adapter
  import opened Authority
  import opened AuthorityFence

  /** A terminal dispatch answer quotes the entry's terminal outcome. */
  predicate DispatchFact(a: Registry, r: DispatchRequest, e: DispatchEvidence) {
    TerminalDispatch(e.disposition) ==>
      && Settled(a, r.target.stable)
      && a.entries[r.target.stable].terminal.value.disposition == e.disposition
      && a.entries[r.target.stable].terminal.value.result == e.result
  }

  /** A not-applied answer stands behind a fence; a terminal answer quotes the outcome. */
  predicate StatusFact(a: Registry, r: StatusRequest, e: StatusEvidence) {
    && (e.disposition == StatusNotAppliedFenced ==>
          r.target.stable in a.entries && r.generation <= FenceFor(a, r.target.stable))
    && (TerminalStatus(e.disposition) ==>
          && Settled(a, r.target.stable)
          && a.entries[r.target.stable].terminal.value.disposition
             == (if e.disposition == StatusSucceeded then DispatchSucceeded
                 else DispatchTerminalFailure)
          && a.entries[r.target.stable].terminal.value.result == e.result)
  }

  lemma AttemptFact(v: Service, a: Registry, r: DispatchRequest)
    requires Sound(a)
    requires Attempt(v, a, r).reply.Success?
    ensures var answer := Attempt(v, a, r);
            && answer.reply.value.request == r.requestSha
            && DispatchFact(answer.registry, r, answer.reply.value)
  {
    hide FakeEvent, FakeResult, ValidDispatchEvidence;
  }

  lemma KnownAnswers(v: Service, a: Registry, r: DispatchRequest, e: Entry)
    requires Sound(a) && r.target.stable in a.entries && e == a.entries[r.target.stable]
    requires e.payload.None? || e.payload == Some(r.payload)
    requires DispatchKnown(v, a, r, e).reply.Success?
    ensures var answer := DispatchKnown(v, a, r, e);
            && answer.reply.value.request == r.requestSha
            && DispatchFact(answer.registry, r, answer.reply.value)
  {
    hide FakeEvent, ValidDispatchEvidence, Attempt, Sound, EntrySound, Grows;
    if e.terminal.None? && e.inflight.None? {
      var bound := BindPayload(e, r.payload);
      EntryOf(a, r.target.stable);
      BoundSound(a.revision, e, bound);
      PutSound(a, r.target.stable, bound, a.revision);
      AttemptFact(v, Put(a, r.target.stable, bound), r);
    }
  }

  lemma DispatchAnswers(v: Service, a: Registry, r: DispatchRequest, authentic: bool)
    requires Sound(a)
    requires Dispatch(v, a, r, authentic).reply.Success?
    ensures var answer := Dispatch(v, a, r, authentic);
            && answer.reply.value.request == r.requestSha
            && DispatchFact(answer.registry, r, answer.reply.value)
  {
    hide FakeEvent, ValidDispatchEvidence, Attempt, Sound, DispatchKnown, Refusal;
    var found := Lookup(a, r.target, Some(r.payload));
    if found.value.None? {
      AttemptFact(v, a, r);
    } else if found.value.value.fence.through < r.generation {
      KnownAnswers(v, a, r, found.value.value);
    }
  }

  lemma BoundSound(revision: u64, e: Entry, bound: Entry)
    requires EntrySound(revision, e) && e.terminal.None?
    requires bound == e || (e.payload.None? && bound == e.(payload := bound.payload))
    ensures EntrySound(revision, bound) && EntryGrows(e, bound)
  {
  }

  lemma FinishAnswers(v: Service, a: Registry, r: DispatchRequest, authentic: bool,
    d: DispatchDisposition)
    requires FinishInflight(v, a, r, authentic, d).reply.Success?
    ensures var answer := FinishInflight(v, a, r, authentic, d);
            && answer.reply.value.request == r.requestSha
            && DispatchFact(answer.registry, r, answer.reply.value)
  {
    hide FakeEvent, FakeResult, ValidDispatchEvidence;
  }

  lemma FenceOffAnswers(v: Service, a: Registry, r: StatusRequest)
    requires r.target.stable in a.entries && FenceOff(v, a, r).reply.Success?
    ensures var answer := FenceOff(v, a, r);
            && answer.reply.value.request == r.requestSha
            && StatusFact(answer.registry, r, answer.reply.value)
  {
    hide FakeEvent, ValidStatusEvidence;
  }

  lemma StatusAnswers(v: Service, a: Registry, r: StatusRequest, authentic: bool)
    requires Sound(a)
    requires Status(v, a, r, authentic).reply.Success?
    ensures var answer := Status(v, a, r, authentic);
            && answer.reply.value.request == r.requestSha
            && StatusFact(answer.registry, r, answer.reply.value)
  {
    hide FakeEvent, ValidStatusEvidence, FenceOff, ValidStatusRequest;
    EntryOf(a, r.target.stable);
    var room := WithEntry(v, a, r.target, None);
    if room.Success? && FenceOff(v, room.value, r).reply.Success? {
      FenceOffAnswers(v, room.value, r);
    }
  }

  // ---------------------------------------------------------------------------------------
  // Where generations come from
  // ---------------------------------------------------------------------------------------

  /** Every generation in `after` was already in the entry, or is `g`. */
  predicate Derived(before: Entry, after: Entry, g: u64) {
    && after.fence.through in {before.fence.through, g}
    && (after.inflight.Some? ==>
          after.inflight.value.generation == g || after.inflight == before.inflight)
    && (after.terminal.Some? ==>
          after.terminal.value.generation == g || after.terminal == before.terminal)
  }

  /** A call on `stable` at generation `g` leaves every other entry alone. */
  ghost predicate OnlyTouches(a: Registry, after: Registry, stable: Digest, g: u64) {
    forall k | k in after.entries ::
      || (k in a.entries && after.entries[k] == a.entries[k])
      || (k == stable && k in a.entries && Derived(a.entries[k], after.entries[k], g))
      || (k == stable && k !in a.entries && Fresh(after.entries[k], g))
  }

  predicate Fresh(e: Entry, g: u64) {
    && (e.fence.through == 0 || e.fence.through == g)
    && (e.inflight.Some? ==> e.inflight.value.generation == g)
    && (e.terminal.Some? ==> e.terminal.value.generation == g)
  }

  lemma AttemptTouches(v: Service, a: Registry, r: DispatchRequest)
    requires r.target.stable in a.entries ==>
               a.entries[r.target.stable].inflight.None?
               && a.entries[r.target.stable].terminal.None?
    ensures OnlyTouches(a, Attempt(v, a, r).registry, r.target.stable, r.generation)
  {
    AttemptEnds(v, a, r);
    hide Attempt, FakeEvent, FakeResult;
  }

  lemma DispatchTouches(v: Service, a: Registry, r: DispatchRequest, authentic: bool)
    ensures OnlyTouches(a, Dispatch(v, a, r, authentic).registry, r.target.stable, r.generation)
  {
    hide FakeEvent, FakeResult, MakeDispatchEvidence, Attempt;
    var found := Lookup(a, r.target, Some(r.payload));
    if Refusal(v, r, authentic).None? && found.Success? {
      if found.value.None? {
        AttemptTouches(v, a, r);
      } else {
        var e := found.value.value;
        if e.terminal.None? && e.inflight.None? {
          var bound := Put(a, r.target.stable, BindPayload(e, r.payload));
          AttemptTouches(v, bound, r);
          TouchesThroughBind(a, bound, Attempt(v, bound, r).registry, r.target.stable,
                             r.generation);
        }
      }
    }
  }

  lemma TouchesThroughBind(a: Registry, bound: Registry, after: Registry, stable: Digest, g: u64)
    requires stable in a.entries && stable in bound.entries
    requires bound.entries == a.entries[stable := bound.entries[stable]]
    requires var e := a.entries[stable];
             bound.entries[stable] == e.(payload := bound.entries[stable].payload)
    requires OnlyTouches(bound, after, stable, g)
    ensures OnlyTouches(a, after, stable, g)
  {
  }

  lemma BeginTouches(v: Service, a: Registry, r: DispatchRequest, authentic: bool)
    ensures OnlyTouches(a, BeginInflight(v, a, r, authentic).registry, r.target.stable,
                        r.generation)
  {
    hide FakeEvent;
  }

  lemma FinishTouches(v: Service, a: Registry, r: DispatchRequest, authentic: bool,
    d: DispatchDisposition)
    ensures OnlyTouches(a, FinishInflight(v, a, r, authentic, d).registry, r.target.stable,
                        r.generation)
  {
    hide FakeEvent, FakeResult, MakeDispatchEvidence;
  }

  lemma StatusTouches(v: Service, a: Registry, r: StatusRequest, authentic: bool)
    ensures OnlyTouches(a, Status(v, a, r, authentic).registry, r.target.stable, r.generation)
  {
    hide FakeEvent, MakeStatusEvidence;
  }

  /** Facts once true stay true while entries only grow. */
  lemma DispatchFactPersists(a: Registry, after: Registry, r: DispatchRequest,
    e: DispatchEvidence)
    requires Grows(a, after) && DispatchFact(a, r, e)
    ensures DispatchFact(after, r, e)
  {
  }

  lemma StatusFactPersists(a: Registry, after: Registry, r: StatusRequest, e: StatusEvidence)
    requires Grows(a, after) && StatusFact(a, r, e)
    ensures StatusFact(after, r, e)
  {
  }
}
