/** What every replay conserves: the ledger is an exact account of the states and the records. */
module OutboxLedger {
  import opened Bytes
  import opened Outbox

  /** Totals over the states of an outbox, independent of the ledger. */
  datatype Tally = Tally(ready: int, uncertain: int, succeeded: int, failed: int,
                         generations: int, retries: int)

  /** One state's share; `retries` counts actions that are ready again after an attempt. */
  function One(s: State): Tally {
    Tally(if s.phase == Ready then 1 else 0, if s.phase == Uncertain then 1 else 0,
          if s.phase == Succeeded then 1 else 0, if s.phase == Failed then 1 else 0,
          s.attemptGeneration, if s.phase == Ready && s.attemptGeneration > 0 then 1 else 0)
  }

  function TallyOf(states: seq<State>): Tally {
    if states == [] then Tally(0, 0, 0, 0, 0, 0)
    else
      var o, t := One(states[0]), TallyOf(states[1..]);
      Tally(t.ready + o.ready, t.uncertain + o.uncertain, t.succeeded + o.succeeded,
            t.failed + o.failed, t.generations + o.generations, t.retries + o.retries)
  }

  /** `after` is `before` with the share `removed` taken out and the share `added` put in. */
  predicate Moved(before: Tally, removed: Tally, added: Tally, after: Tally) {
    && after.ready == before.ready - removed.ready + added.ready
    && after.uncertain == before.uncertain - removed.uncertain + added.uncertain
    && after.succeeded == before.succeeded - removed.succeeded + added.succeeded
    && after.failed == before.failed - removed.failed + added.failed
    && after.generations == before.generations - removed.generations + added.generations
    && after.retries == before.retries - removed.retries + added.retries
  }

  lemma {:induction false} TallyAppend(states: seq<State>, s: State)
    ensures Moved(TallyOf(states), TallyOf([]), One(s), TallyOf(states + [s]))
  {
    if states == [] {
      assert TallyOf([s][1..]) == TallyOf([]);
      assert [] + [s] == [s];
    } else {
      assert (states + [s])[1..] == states[1..] + [s];
      TallyAppend(states[1..], s);
    }
  }

  lemma {:induction false} TallyUpdate(states: seq<State>, i: nat, s: State)
    requires i < |states|
    ensures Moved(TallyOf(states), One(states[i]), One(s), TallyOf(states[i := s]))
  {
    if i == 0 {
      assert states[0 := s][1..] == states[1..];
    } else {
      assert states[i := s][1..] == states[1..][i - 1 := s];
      TallyUpdate(states[1..], i - 1, s);
    }
  }

  lemma {:induction false} TallyCountsPhases(states: seq<State>)
    ensures TallyOf(states).ready == CountPhase(states, Ready)
    ensures TallyOf(states).uncertain == CountPhase(states, Uncertain)
    ensures TallyOf(states).succeeded == CountPhase(states, Succeeded)
    ensures TallyOf(states).failed == CountPhase(states, Failed)
  {
    if states != [] {
      TallyCountsPhases(states[1..]);
    }
  }

  /** How many records settled an attempt for good. */
  function Settled(l: Ledger): int {
    l.Events(EVENT_ACKNOWLEDGED_SUCCESS) + l.Events(EVENT_ACKNOWLEDGED_FAILURE)
    + l.Events(EVENT_RECONCILED_SUCCESS) + l.Events(EVENT_RECONCILED_FAILURE)
  }

  /** The ledger accounts for all its committed records and for every state. */
  predicate Conserved(states: seq<State>, l: Ledger) {
    var t := TallyOf(states);
    var intents := l.Events(EVENT_DISPATCH_INTENT);
    var returned := l.Events(EVENT_RECONCILED_NOT_APPLIED);
    && l.committedRecords == l.Events(EVENT_ENQUEUED) + intents
                             + l.Events(EVENT_AMBIGUITY_OBSERVED) + returned + Settled(l)
    && l.Events(EVENT_ENQUEUED) == |states|
    && l.Events(EVENT_ENQUEUED) == l.primaryActions + l.compensationActions
    && intents == t.uncertain + returned + Settled(l)
    && intents == t.generations
    && returned - l.safeRetryDispatches == t.retries
    && t.succeeded == l.Events(EVENT_ACKNOWLEDGED_SUCCESS) + l.Events(EVENT_RECONCILED_SUCCESS)
    && t.failed == l.Events(EVENT_ACKNOWLEDGED_FAILURE) + l.Events(EVENT_RECONCILED_FAILURE)
  }

  /** Only an action that was dispatched can have left the ready phase. */
  predicate Attempted(states: seq<State>) {
    forall i :: 0 <= i < |states| && states[i].phase != Ready ==> states[i].attemptGeneration > 0
  }

  lemma EnqueuedConserves(id: Identity, s: State, states: seq<State>, l: Ledger)
    requires Conserved(states, l) && Attempted(states) && l.committedRecords < U64_MAX
    requires EnqueueFits(id, Opened(l)) && s.phase == Ready && s.attemptGeneration == 0
    ensures Conserved(states + [s], CountEnqueued(id, Opened(l))) && Attempted(states + [s])
  {
    TallyAppend(states, s);
    var after := CountEnqueued(id, Opened(l));
    if id.purpose == PURPOSE_COMPENSATION {
      assert after.compensationActions == l.compensationActions + 1;
    } else {
      assert after.primaryActions == l.primaryActions + 1;
    }
  }

  lemma TransitionConserves(i: nat, r: Record, states: seq<State>, l: Ledger)
    requires Conserved(states, l) && Attempted(states) && l.committedRecords < U64_MAX
    requires i < |states|
    requires EVENT_DISPATCH_INTENT <= r.kind <= EVENT_RECONCILED_FAILURE
    requires r.kind == EVENT_DISPATCH_INTENT
             ==> states[i].phase == Ready && r.attemptGeneration == states[i].attemptGeneration + 1
    requires r.kind != EVENT_DISPATCH_INTENT
             ==> states[i].phase == Uncertain && r.attemptGeneration == states[i].attemptGeneration
    requires CountTransition(states[i], r, Opened(l)).Success?
    ensures var after := states[i := NextState(states[i], r)];
            Conserved(after, CountTransition(states[i], r, Opened(l)).value) && Attempted(after)
  {
    var next := NextState(states[i], r);
    TallyUpdate(states, i, next);
    if r.kind == EVENT_DISPATCH_INTENT {
      assert next.phase == Uncertain;
    } else if r.kind == EVENT_AMBIGUITY_OBSERVED {
      assert One(next) == One(states[i]);
    } else if r.kind == EVENT_RECONCILED_NOT_APPLIED {
      assert next.phase == Ready;
    } else if IsSuccessKind(r.kind) {
      assert next.phase == Succeeded;
    } else {
      assert next.phase == Failed;
    }
  }

  lemma ApplyRecordConserves(sha: Sha, h: Header, r: Record, states: seq<State>, l: Ledger)
    requires Conserved(states, l) && Attempted(states)
    requires ApplyRecord(sha, h, r, states, l).Success?
    ensures var after := ApplyRecord(sha, h, r, states, l).value;
            && Conserved(after.states, after.ledger) && Attempted(after.states)
            && after.ledger.committedRecords == l.committedRecords + 1
            && after.ledger.committedRecords <= h.maximumRecords
  {
    hide ApplyRecord, ValidHeader, ValidRecord, Conserved, Attempted, DispatchRequestSha;
    var i := ApplyRecordInversion(sha, h, r, states, l);
    if r.kind == EVENT_ENQUEUED {
      EnqueuedConserves(r.identity, MakeState(r), states, l);
    } else {
      TransitionConserves(i, r, states, l);
    }
  }

  lemma EmptyConserves()
    ensures Conserved([], EMPTY_LEDGER) && Attempted([])
    ensures EMPTY_LEDGER.committedRecords == 0
  {
  }

  lemma {:induction false} ReplayConserves(sha: Sha, h: Header, records: seq<Record>)
    requires Replay(sha, h, records).Success?
    ensures var after := Replay(sha, h, records).value;
            && Conserved(after.states, after.ledger) && Attempted(after.states)
            && after.ledger.committedRecords == |records|
            && (records != [] ==> |records| <= h.maximumRecords)
  {
    hide ApplyRecord, Conserved, Attempted;
    EmptyConserves();
    if records != [] {
      var n := |records| - 1;
      ReplayConserves(sha, h, records[..n]);
      var before := Replay(sha, h, records[..n]).value;
      ApplyRecordConserves(sha, h, records[n], before.states, before.ledger);
    }
  }

  /** No counter of a conserved ledger exceeds its committed records. */
  lemma EventsBounded(states: seq<State>, l: Ledger)
    requires Conserved(states, l)
    ensures forall kind: u64 :: EVENT_ENQUEUED <= kind <= EVENT_RECONCILED_FAILURE
              ==> l.Events(kind) <= l.committedRecords
    ensures l.safeRetryDispatches <= l.committedRecords
    ensures l.primaryActions <= l.committedRecords && l.compensationActions <= l.committedRecords
  {
    RetriesNonnegative(states);
  }

  lemma {:induction false} RetriesNonnegative(states: seq<State>)
    ensures TallyOf(states).retries >= 0 && TallyOf(states).uncertain >= 0
  {
    if states != [] {
      RetriesNonnegative(states[1..]);
    }
  }

  predicate PhasesExact(states: seq<State>, l: Ledger) {
    && l.phases.ready == TallyOf(states).ready
    && l.phases.uncertain == TallyOf(states).uncertain
    && l.phases.succeeded == TallyOf(states).succeeded
    && l.phases.failed == TallyOf(states).failed
  }

  /** A conserved ledger always closes, with every phase count exact. */
  lemma FinalizeCloses(states: seq<State>, l: Ledger)
    requires Conserved(states, l)
    ensures var final := FinalizeLedger(states, l);
            && final.Success?
            && Conserved(states, final.value)
            && final.value.committedRecords == l.committedRecords
            && PhasesExact(states, final.value)
  {
    CountPhasesBounded(states);
    TallyCountsPhases(states);
  }

  /**
   * Over every replay the event counters sum to the committed records, every dispatch intent
   * is still uncertain or was settled exactly once, and the final ledger always closes.
   */
  lemma LedgerConservation(sha: Sha, h: Header, records: seq<Record>)
    requires Replay(sha, h, records).Success?
    ensures var after := Replay(sha, h, records).value;
            var final := FinalizeLedger(after.states, after.ledger);
            && final.Success?
            && Conserved(after.states, final.value)
            && final.value.committedRecords == |records|
            && PhasesExact(after.states, final.value)
  {
    ReplayConserves(sha, h, records);
    var after := Replay(sha, h, records).value;
    FinalizeCloses(after.states, after.ledger);
  }
}
