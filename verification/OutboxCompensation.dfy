/** What an outbox never contains: repeated identities, or a compensation without its success. */
module OutboxCompensation {
  import opened Bytes
  import opened Outbox

  /** No two actions share a root, an idempotency key, a remote request or a compensated parent. */
  predicate Distinct(states: seq<State>) {
    forall i, j :: 0 <= i < j < |states| ==> !Conflicts(states[i].identity, states[j].identity)
  }

  /** The action at `j` is a primary that has succeeded and is the parent of the one at `i`. */
  predicate SucceededParent(states: seq<State>, i: nat, j: nat)
    requires i < |states| && j < |states|
  {
    && states[j].identity.action == states[i].identity.parentAction
    && states[j].identity.purpose == PURPOSE_PRIMARY
    && states[j].phase == Succeeded
  }

  predicate ParentsSucceeded(states: seq<State>) {
    forall i :: 0 <= i < |states| && states[i].identity.purpose == PURPOSE_COMPENSATION
      ==> exists j :: 0 <= j < i && SucceededParent(states, i, j)
  }

  lemma EnqueuedKeepsParents(h: Header, r: Record, states: seq<State>)
    requires Distinct(states) && ParentsSucceeded(states) && AcceptsEnqueued(h, r, states)
    ensures Distinct(states + [MakeState(r)]) && ParentsSucceeded(states + [MakeState(r)])
  {
    var after := states + [MakeState(r)];
    var n := |states|;
    assert forall k :: 0 <= k < n ==> after[k] == states[k];
    forall i | 0 <= i < |after| && after[i].identity.purpose == PURPOSE_COMPENSATION
      ensures exists j :: 0 <= j < i && SucceededParent(after, i, j)
    {
      var j :| 0 <= j < i && (if i < n then SucceededParent(states, i, j)
                              else FindState(states, r.identity.parentAction) == Some(j));
      assert SucceededParent(after, i, j);
    }
  }

  lemma TransitionKeepsParents(sha: Sha, h: Header, r: Record, states: seq<State>, k: nat)
    requires Distinct(states) && ParentsSucceeded(states)
    requires AcceptsTransition(sha, h, r, states, k)
    ensures var after := states[k := NextState(states[k], r)];
            Distinct(after) && ParentsSucceeded(after)
  {
    hide DispatchRequestSha;
    var after := states[k := NextState(states[k], r)];
    assert forall i :: 0 <= i < |states| ==> after[i].identity == states[i].identity;
    forall i | 0 <= i < |after| && after[i].identity.purpose == PURPOSE_COMPENSATION
      ensures exists j :: 0 <= j < i && SucceededParent(after, i, j)
    {
      var j :| 0 <= j < i && SucceededParent(states, i, j);
      assert j != k;
      assert SucceededParent(after, i, j);
    }
  }

  /**
   * In every replayed outbox identities never collide, and every compensation follows a
   * primary action that has succeeded; since this holds after every prefix, it stays so.
   */
  lemma {:induction false} CompensationsSound(sha: Sha, h: Header, records: seq<Record>)
    requires Replay(sha, h, records).Success?
    ensures Distinct(Replay(sha, h, records).value.states)
    ensures ParentsSucceeded(Replay(sha, h, records).value.states)
  {
    hide ApplyRecord, ValidHeader, ValidRecord, ValidIdentity, Distinct, ParentsSucceeded;
    if records == [] {
      EmptySound();
    } else {
      var n := |records| - 1;
      CompensationsSound(sha, h, records[..n]);
      var before := Replay(sha, h, records[..n]).value;
      var k := ApplyRecordInversion(sha, h, records[n], before.states, before.ledger);
      if records[n].kind == EVENT_ENQUEUED {
        EnqueuedKeepsParents(h, records[n], before.states);
      } else {
        TransitionKeepsParents(sha, h, records[n], before.states, k);
      }
    }
  }

  lemma EmptySound()
    ensures Distinct([]) && ParentsSucceeded([])
  {
  }
}
