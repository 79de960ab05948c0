/** The life of one action across a whole journal, and what compensations may rely on. */
module OutboxLifecycle {
  import opened Bytes
  import opened Outbox
  import opened OutboxLedger

  /** The records of one action, in journal order. */
  function History(records: seq<Record>, action: Digest): seq<Record> {
    if records == [] then []
    else
      var n := |records| - 1;
      History(records[..n], action)
      + (if records[n].identity.action == action then [records[n]] else [])
  }

  /** The phase an action is in when `kind` was its last event. */
  function PhaseAfter(kind: u64): Phase {
    if kind == EVENT_ENQUEUED || kind == EVENT_RECONCILED_NOT_APPLIED then Ready
    else if IsSuccessKind(kind) then Succeeded
    else if IsFailureKind(kind) then Failed
    else Uncertain
  }

  /**
   * Whether `next` may directly follow `previous` in the life of one action: a dispatch only
   * after the enqueue or a not-applied verdict and one generation later, anything else only
   * after a dispatch or an ambiguity of the same generation, nothing after a terminal event.
   */
  predicate Follows(sha: Sha, h: Header, previous: Record, next: Record) {
    && next.identity == previous.identity
    && next.previousActionEvent == previous.recordSha
    && (if next.kind == EVENT_DISPATCH_INTENT then
          && (previous.kind == EVENT_ENQUEUED || previous.kind == EVENT_RECONCILED_NOT_APPLIED)
          && next.attemptGeneration == previous.attemptGeneration + 1
          && next.dispatchRequest
             == DispatchRequestSha(sha, h, next.identity, next.attemptGeneration)
        else
          && (previous.kind == EVENT_DISPATCH_INTENT || previous.kind == EVENT_AMBIGUITY_OBSERVED)
          && EVENT_AMBIGUITY_OBSERVED <= next.kind <= EVENT_RECONCILED_FAILURE
          && next.attemptGeneration == previous.attemptGeneration
          && next.dispatchRequest == previous.dispatchRequest)
  }

  predicate Legal(sha: Sha, h: Header, history: seq<Record>) {
    && (history != [] ==> history[0].kind == EVENT_ENQUEUED && history[0].attemptGeneration == 0)
    && forall i :: 0 < i < |history| ==> Follows(sha, h, history[i - 1], history[i])
  }

  /** The replayed state says exactly what the last event of its action says. */
  predicate Reflects(s: State, last: Record) {
    && s.identity == last.identity
    && s.lastEvent == last.recordSha
    && s.attemptGeneration == last.attemptGeneration
    && s.phase == PhaseAfter(last.kind)
    && (s.phase == Uncertain ==> s.dispatchRequest == last.dispatchRequest)
    && (s.phase != Ready ==> s.result == last.result)
  }

  ghost predicate Tracked(sha: Sha, h: Header, records: seq<Record>, states: seq<State>) {
    && (forall i :: 0 <= i < |states| ==> TrackedState(sha, h, records, states[i]))
    && (forall i, j :: 0 <= i < j < |states| ==>
          states[i].identity.action != states[j].identity.action)
    && (forall action: Digest :: FindState(states, action) == None
          ==> History(records, action) == [])
  }

  predicate TrackedState(sha: Sha, h: Header, records: seq<Record>, s: State) {
    var history := History(records, s.identity.action);
    history != [] && Legal(sha, h, history) && Reflects(s, history[|history| - 1])
  }

  lemma FindStateUnique(states: seq<State>, i: nat)
    requires i < |states|
    requires forall a, b :: 0 <= a < b < |states| ==>
               states[a].identity.action != states[b].identity.action
    ensures FindState(states, states[i].identity.action) == Some(i)
  {
  }

  lemma HistoryAppend(records: seq<Record>, r: Record, action: Digest)
    ensures History(records + [r], action)
            == if r.identity.action == action then History(records, action) + [r]
               else History(records, action)
  {
    assert (records + [r])[..|records|] == records;
  }

  lemma OthersKeep(sha: Sha, h: Header, records: seq<Record>, r: Record, s: State)
    requires TrackedState(sha, h, records, s) && s.identity.action != r.identity.action
    ensures TrackedState(sha, h, records + [r], s)
  {
    hide Legal, Reflects;
    HistoryAppend(records, r, s.identity.action);
  }

  lemma FreshTracked(sha: Sha, h: Header, records: seq<Record>, r: Record)
    requires r.kind == EVENT_ENQUEUED && FieldsMatchKind(r)
    requires History(records, r.identity.action) == []
    ensures TrackedState(sha, h, records + [r], MakeState(r))
  {
    hide Follows;
    HistoryAppend(records, r, r.identity.action);
  }

  lemma NothingElse(records: seq<Record>, r: Record, before: seq<State>, after: seq<State>)
    requires forall action: Digest :: FindState(before, action) == None
               ==> History(records, action) == []
    requires forall action: Digest :: FindState(after, action) == None
               ==> FindState(before, action) == None && r.identity.action != action
    ensures forall action: Digest :: FindState(after, action) == None
              ==> History(records + [r], action) == []
  {
    forall action: Digest | FindState(after, action) == None
      ensures History(records + [r], action) == []
    {
      HistoryAppend(records, r, action);
    }
  }

  lemma EnqueuedTracked(sha: Sha, h: Header, records: seq<Record>, states: seq<State>, r: Record)
    requires Tracked(sha, h, records, states)
    requires AcceptsEnqueued(h, r, states) && FieldsMatchKind(r)
    ensures Tracked(sha, h, records + [r], states + [MakeState(r)])
  {
    hide TrackedState, History;
    var after := states + [MakeState(r)];
    assert FindState(states, r.identity.action) == None;
    FreshTracked(sha, h, records, r);
    forall i | 0 <= i < |states| ensures TrackedState(sha, h, records + [r], states[i]) {
      OthersKeep(sha, h, records, r, states[i]);
    }
    forall action: Digest | FindState(after, action) == None
      ensures FindState(states, action) == None && r.identity.action != action
    {
      assert after[|states|].identity.action != action;
      assert forall i :: 0 <= i < |states| ==> after[i] == states[i];
    }
    NothingElse(records, r, states, after);
  }

  lemma AcceptedFollows(sha: Sha, h: Header, last: Record, s: State, r: Record)
    requires Reflects(s, last) && FieldsMatchKind(r)
    requires EVENT_DISPATCH_INTENT <= r.kind <= EVENT_RECONCILED_FAILURE
    requires EVENT_ENQUEUED <= last.kind <= EVENT_RECONCILED_FAILURE
    ensures CheckTransition(sha, h, s, r) == None <==> Follows(sha, h, last, r)
    ensures CheckTransition(sha, h, s, r) == None ==> Reflects(NextState(s, r), r)
  {
    hide DispatchRequestSha;
  }

  lemma {:induction false} LegalKinds(sha: Sha, h: Header, history: seq<Record>)
    requires Legal(sha, h, history)
    ensures forall i :: 0 <= i < |history|
              ==> EVENT_ENQUEUED <= history[i].kind <= EVENT_RECONCILED_FAILURE
  {
    hide DispatchRequestSha;
    forall i | 0 <= i < |history|
      ensures EVENT_ENQUEUED <= history[i].kind <= EVENT_RECONCILED_FAILURE
    {
      if i > 0 {
        assert Follows(sha, h, history[i - 1], history[i]);
      }
    }
  }

  lemma ExtendedLegal(sha: Sha, h: Header, history: seq<Record>, r: Record)
    requires Legal(sha, h, history) && history != []
    requires Follows(sha, h, history[|history| - 1], r)
    ensures Legal(sha, h, history + [r])
  {
    hide Follows;
  }

  lemma MovedTracked(sha: Sha, h: Header, records: seq<Record>, s: State, r: Record)
    requires TrackedState(sha, h, records, s) && FieldsMatchKind(r)
    requires EVENT_DISPATCH_INTENT <= r.kind <= EVENT_RECONCILED_FAILURE
    requires CheckTransition(sha, h, s, r) == None
    ensures TrackedState(sha, h, records + [r], NextState(s, r))
    ensures NextState(s, r).identity == s.identity == r.identity
  {
    var history := History(records, s.identity.action);
    var last := history[|history| - 1];
    LegalKinds(sha, h, history);
    AcceptedFollows(sha, h, last, s, r);
    hide Legal, Reflects, Follows, DispatchRequestSha;
    HistoryAppend(records, r, s.identity.action);
    ExtendedLegal(sha, h, history, r);
  }

  lemma TransitionTracked(sha: Sha, h: Header, records: seq<Record>, states: seq<State>, r: Record,
    i: nat)
    requires Tracked(sha, h, records, states)
    requires AcceptsTransition(sha, h, r, states, i) && FieldsMatchKind(r)
    ensures Tracked(sha, h, records + [r], states[i := NextState(states[i], r)])
  {
    hide TrackedState, History, NextState, CheckTransition, FieldsMatchKind;
    MovedTracked(sha, h, records, states[i], r);
    var after := states[i := NextState(states[i], r)];
    assert forall k :: 0 <= k < |after| ==> after[k].identity == states[k].identity;
    forall k | 0 <= k < |after| ensures TrackedState(sha, h, records + [r], after[k]) {
      if k != i {
        OthersKeep(sha, h, records, r, states[k]);
      }
    }
    forall action: Digest | FindState(after, action) == None
      ensures FindState(states, action) == None && r.identity.action != action
    {
      assert after[i].identity.action != action;
    }
    NothingElse(records, r, states, after);
  }

  lemma AppliedTracked(sha: Sha, h: Header, records: seq<Record>, states: seq<State>, l: Ledger,
    r: Record)
    requires Tracked(sha, h, records, states) && ApplyRecord(sha, h, r, states, l).Success?
    ensures Tracked(sha, h, records + [r], ApplyRecord(sha, h, r, states, l).value.states)
  {
    hide ApplyRecord, ValidHeader, ValidRecord, Tracked, CheckTransition, NextState,
      CountTransition, CountEnqueued;
    var i := ApplyRecordInversion(sha, h, r, states, l);
    RecordFields(sha, h, r);
    if r.kind == EVENT_ENQUEUED {
      EnqueuedTracked(sha, h, records, states, r);
    } else {
      TransitionTracked(sha, h, records, states, r, i);
    }
  }

  lemma RecordFields(sha: Sha, h: Header, r: Record)
    requires ValidRecord(sha, h, r)
    ensures FieldsMatchKind(r)
  {
  }

  lemma {:induction false} ReplayTracked(sha: Sha, h: Header, records: seq<Record>)
    requires Replay(sha, h, records).Success?
    ensures Tracked(sha, h, records, Replay(sha, h, records).value.states)
  {
    hide Tracked, ApplyRecord;
    if records == [] {
      EmptyTracked(sha, h);
    } else {
      var n := |records| - 1;
      ReplayTracked(sha, h, records[..n]);
      var before := Replay(sha, h, records[..n]).value;
      AppliedTracked(sha, h, records[..n], before.states, before.ledger, records[n]);
      assert records == records[..n] + [records[n]];
    }
  }

  lemma EmptyTracked(sha: Sha, h: Header)
    ensures Tracked(sha, h, [], [])
  {
  }

  lemma HistoryLegal(sha: Sha, h: Header, records: seq<Record>, states: seq<State>,
    action: Digest)
    requires Tracked(sha, h, records, states)
    ensures Legal(sha, h, History(records, action))
    ensures FindState(states, action).Some? <==> History(records, action) != []
    ensures FindState(states, action).Some?
            ==> TrackedState(sha, h, records, states[FindState(states, action).value])
  {
    hide Legal, Reflects, History;
    EmptyLegal(sha, h);
    if FindState(states, action).Some? {
      assert TrackedState(sha, h, records, states[FindState(states, action).value]);
    }
  }

  lemma EmptyLegal(sha: Sha, h: Header)
    ensures Legal(sha, h, [])
  {
  }

  lemma TerminalIsLast(sha: Sha, h: Header, history: seq<Record>)
    requires Legal(sha, h, history)
    ensures forall i :: 0 <= i < |history| - 1 ==> !IsTerminalKind(history[i].kind)
  {
    hide DispatchRequestSha;
    forall i | 0 <= i < |history| - 1 ensures !IsTerminalKind(history[i].kind) {
      assert Follows(sha, h, history[i], history[i + 1]);
    }
  }

  /**
   * Over every replay each action's records are one legal life: an enqueue, then rounds of
   * dispatch, ambiguities and not-applied verdicts, then at most one terminal event.
   */
  lemma LifecycleOfEveryAction(sha: Sha, h: Header, records: seq<Record>, action: Digest)
    requires Replay(sha, h, records).Success?
    ensures var history := History(records, action);
            && Legal(sha, h, history)
            && forall i :: 0 <= i < |history| - 1 ==> !IsTerminalKind(history[i].kind)
  {
    hide ApplyRecord, ApplyNext, Legal, Tracked, History;
    ReplayTracked(sha, h, records);
    HistoryLegal(sha, h, records, Replay(sha, h, records).value.states, action);
    TerminalIsLast(sha, h, History(records, action));
  }

  /** What a record must satisfy apart from its own action's history. */
  predicate WellPlaced(sha: Sha, h: Header, records: seq<Record>, r: Record) {
    && ValidHeader(sha, h) && ValidRecord(sha, h, r)
    && r.sequence == |records| + 1 && r.sequence <= h.maximumRecords
  }

  lemma ApplyTransitionExactly(sha: Sha, h: Header, r: Record, states: seq<State>, l: Ledger)
    requires ValidHeader(sha, h) && ValidRecord(sha, h, r) && r.kind != EVENT_ENQUEUED
    requires l.committedRecords < U64_MAX && r.sequence == l.committedRecords + 1
    requires r.sequence <= h.maximumRecords
    requires forall s :: s in states ==> ValidIdentity(sha, h, s.identity)
    requires Conserved(states, l)
    ensures var found := FindState(states, r.identity.action);
            ApplyRecord(sha, h, r, states, l).Success?
            <==> found.Some? && CheckTransition(sha, h, states[found.value], r) == None
  {
    hide ValidHeader, ValidRecord, ValidIdentity, CheckTransition, Conserved;
    KindKnown(sha, h, r);
    EventsBounded(states, l);
    assert Opened(l).Events(r.kind) == l.Events(r.kind);
  }

  lemma FollowsExactly(sha: Sha, h: Header, records: seq<Record>, states: seq<State>, r: Record)
    requires Tracked(sha, h, records, states) && FieldsMatchKind(r)
    requires EVENT_DISPATCH_INTENT <= r.kind <= EVENT_RECONCILED_FAILURE
    ensures var history := History(records, r.identity.action);
            var found := FindState(states, r.identity.action);
            (found.Some? && CheckTransition(sha, h, states[found.value], r) == None)
            <==> (history != [] && Follows(sha, h, history[|history| - 1], r))
  {
    hide CheckTransition, Follows, Legal, Reflects, Tracked;
    var history := History(records, r.identity.action);
    var found := FindState(states, r.identity.action);
    HistoryLegal(sha, h, records, states, r.identity.action);
    if found.Some? {
      LegalKinds(sha, h, history);
      AcceptedFollows(sha, h, history[|history| - 1], states[found.value], r);
    }
  }

  /**
   * The other direction: a well-placed transition record is accepted exactly when it may
   * follow the last event of its action, so the legal lives are precisely the replayed ones.
   */
  lemma TransitionAcceptedExactly(sha: Sha, h: Header, records: seq<Record>, r: Record)
    requires Replay(sha, h, records).Success?
    requires WellPlaced(sha, h, records, r) && r.kind != EVENT_ENQUEUED
    ensures var history := History(records, r.identity.action);
            Replay(sha, h, records + [r]).Success?
            <==> history != [] && Follows(sha, h, history[|history| - 1], r)
  {
    hide ApplyRecord, ValidHeader, ValidIdentity, Follows, Tracked, History, Conserved;
    ReplayAppend(sha, h, records, r);
    ReplayTracked(sha, h, records);
    ReplayConserves(sha, h, records);
    ReplayIdentitiesValid(sha, h, records);
    var before := Replay(sha, h, records).value;
    ApplyTransitionExactly(sha, h, r, before.states, before.ledger);
    FollowsExactly(sha, h, records, before.states, r);
  }

  /** The predecessor root and phase rules that a made record meets by construction. */
  lemma MadeRecordFits(sha: Sha, h: Header, sequence: u64, previous: Digest, s: State, kind: u64,
    generation: u64, observation: Digest, result: Digest)
    requires MakeTransitionRecord(sha, h, sequence, previous, s, kind, generation, observation,
                                  result).Success?
    ensures var r := MakeTransitionRecord(sha, h, sequence, previous, s, kind, generation,
                                          observation, result).value;
            && ValidHeader(sha, h) && ValidRecord(sha, h, r) && r.kind == kind != EVENT_ENQUEUED
            && r.sequence == sequence && r.previousJournal == previous
            && CheckTransition(sha, h, s, r) == None
  {
    hide ValidHeader, ValidIdentity, DispatchRequestSha, RecordSha;
  }

  /**
   * Making and replaying records agree: whatever transition record can be made for an action
   * of a replayed journal with room left is accepted as the next record of that journal.
   */
  lemma MadeRecordReplays(sha: Sha, h: Header, records: seq<Record>, i: nat, previous: Digest,
    kind: u64, generation: u64, observation: Digest, result: Digest)
    requires Replay(sha, h, records).Success? && |records| < h.maximumRecords <= U64_MAX
    requires i < |Replay(sha, h, records).value.states|
    requires MakeTransitionRecord(sha, h, |records| + 1, previous,
                                  Replay(sha, h, records).value.states[i], kind, generation,
                                  observation, result).Success?
    ensures var r := MakeTransitionRecord(sha, h, |records| + 1, previous,
                                          Replay(sha, h, records).value.states[i], kind,
                                          generation, observation, result).value;
            Replay(sha, h, records + [r]).Success?
  {
    hide ApplyRecord, ValidHeader, ValidIdentity, Tracked, Conserved, Replay, ValidRecord,
      MakeTransitionRecord, CheckTransition;
    var before := Replay(sha, h, records).value;
    var s := before.states[i];
    var r := MakeTransitionRecord(sha, h, |records| + 1, previous, s, kind, generation,
                                  observation, result).value;
    MadeRecordFits(sha, h, |records| + 1, previous, s, kind, generation, observation, result);
    ReplayAppend(sha, h, records, r);
    ReplayTracked(sha, h, records);
    ReplayConserves(sha, h, records);
    ReplayIdentitiesValid(sha, h, records);
    StatesDistinct(sha, h, records, before.states);
    FindStateUnique(before.states, i);
    SameIdentity(sha, h, s, r);
    ApplyTransitionExactly(sha, h, r, before.states, before.ledger);
  }

  lemma StatesDistinct(sha: Sha, h: Header, records: seq<Record>, states: seq<State>)
    requires Tracked(sha, h, records, states)
    ensures forall a, b :: 0 <= a < b < |states| ==>
              states[a].identity.action != states[b].identity.action
  {
  }

  lemma SameIdentity(sha: Sha, h: Header, s: State, r: Record)
    requires CheckTransition(sha, h, s, r) == None
    ensures r.identity == s.identity
  {
  }

  /**
   * The same for new actions: an enqueue record that can be made is accepted as the next record
   * exactly when its identity is new, there is room, and a compensation's parent has succeeded.
   */
  lemma MadeEnqueueReplays(sha: Sha, h: Header, records: seq<Record>, previous: Digest,
    id: Identity)
    requires Replay(sha, h, records).Success? && |records| < h.maximumRecords <= U64_MAX
    requires MakeEnqueuedRecord(sha, h, |records| + 1, previous, id).Success?
    ensures var r := MakeEnqueuedRecord(sha, h, |records| + 1, previous, id).value;
            Replay(sha, h, records + [r]).Success?
            <==> AcceptsEnqueued(h, r, Replay(sha, h, records).value.states)
  {
    hide ApplyRecord, ValidHeader, ValidIdentity, Conserved, Replay, ValidRecord,
      MakeEnqueuedRecord, AcceptsEnqueued;
    var before := Replay(sha, h, records).value;
    var r := MakeEnqueuedRecord(sha, h, |records| + 1, previous, id).value;
    MadeEnqueueFits(sha, h, |records| + 1, previous, id);
    ReplayAppend(sha, h, records, r);
    ReplayConserves(sha, h, records);
    ReplayIdentitiesValid(sha, h, records);
    ApplyEnqueuedExactly(sha, h, r, before.states, before.ledger);
  }

  lemma MadeEnqueueFits(sha: Sha, h: Header, sequence: u64, previous: Digest, id: Identity)
    requires MakeEnqueuedRecord(sha, h, sequence, previous, id).Success?
    ensures var r := MakeEnqueuedRecord(sha, h, sequence, previous, id).value;
            && ValidHeader(sha, h) && ValidRecord(sha, h, r) && r.kind == EVENT_ENQUEUED
            && r.sequence == sequence && r.identity == id
  {
    hide ValidHeader, ValidIdentity, RecordSha;
  }

  lemma ApplyEnqueuedExactly(sha: Sha, h: Header, r: Record, states: seq<State>, l: Ledger)
    requires ValidHeader(sha, h) && ValidRecord(sha, h, r) && r.kind == EVENT_ENQUEUED
    requires l.committedRecords < U64_MAX && r.sequence == l.committedRecords + 1
    requires r.sequence <= h.maximumRecords
    requires forall s :: s in states ==> ValidIdentity(sha, h, s.identity)
    requires Conserved(states, l)
    ensures ApplyRecord(sha, h, r, states, l).Success? <==> AcceptsEnqueued(h, r, states)
  {
    hide ValidHeader, ValidRecord, ValidIdentity, Conserved, Conflicts, ParentSucceeded;
    EventsBounded(states, l);
    assert Opened(l).Events(EVENT_ENQUEUED) == l.Events(EVENT_ENQUEUED);
    assert l.Events(EVENT_ENQUEUED) <= l.committedRecords;
  }
}
