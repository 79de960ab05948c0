/**
 * When the visible journal may be trusted: it is durable exactly when its records are below
 * the sync watermark, and a status query made from it keeps agreement exactly when the durable
 * journal has reached the queried generation or the service does not fence it.
 */
module OutboxVisible {
  import opened Bytes
  import opened Outbox
  import opened OutboxWire
  import opened OutboxRecovery
  import opened OutboxStorage
  import opened OutboxStorageSteps
  import opened OutboxStorageRuns
  import opened OutboxJournalSteps
  import opened OutboxSystem
  import opened Adapter
  import Authority
  import Fences = AuthorityFence
  import Failures = AuthorityFailures
  import Svc = OutboxService

  /** Everything one reads is durable exactly when its records end below the watermark. */
  lemma VisibleIsDurable(e: Env, d: Disk)
    requires Sound(e, d)
    ensures Readable(e, d) && HEADER_BYTES <= CrashLower(d)
    ensures Durable(d) == |Journal(e, d).records|
            <==> Boundary(WholeRecords(d.length)) <= d.synced
  {
    hide Recovered;
    DurableCounted(e, d);
    BoundaryOf(d.length);
    BoundaryOf(CrashLower(d));
  }

  // ---------------------------------------------------------------------------------------
  // Queries that fence
  // ---------------------------------------------------------------------------------------

  /** The query is let through and makes the service fence off its generation. */
  predicate FencesOff(v: Authority.Service, a: Authority.Registry, q: StatusRequest) {
    && Failures.Queries(v, a, q, true) && a.revision < U64_MAX
    && (q.target.stable in a.entries ==>
          Failures.Idling(a.entries[q.target.stable], q.generation))
  }

  function Answering(v: Authority.Service, a: Authority.Registry, q: StatusRequest)
    : Authority.Registry
  {
    Authority.Status(v, a, q, true).registry
  }

  lemma FenceMoves(v: Authority.Service, a: Authority.Registry, q: StatusRequest)
    requires FencesOff(v, a, q)
    ensures Fences.FenceFor(Answering(v, a, q), q.target.stable) == q.generation
  {
    hide ValidStatusRequest, Authority.FencedEvidence, Authority.FakeEvent;
    Failures.PositiveGeneration(v, q);
  }

  /** Otherwise nothing changes, except that an entry without any history may appear. */
  lemma FenceStays(v: Authority.Service, a: Authority.Registry, q: StatusRequest)
    requires !FencesOff(v, a, q)
    ensures Answering(v, a, q) == a
            || (q.target.stable !in a.entries
                && Answering(v, a, q)
                   == Authority.Put(a, q.target.stable, Authority.NewEntry(q.target, None)))
  {
    hide ValidStatusRequest, Authority.FencedEvidence, Authority.FakeEvent,
      Authority.InflightStatus, Authority.OverrideEvidence, Authority.TerminalStatusEvidence;
  }

  lemma AgreesStill(s: State, a: Authority.Registry, after: Authority.Registry, t: Target)
    requires after == a
             || (t.stable !in a.entries
                 && after == Authority.Put(a, t.stable, Authority.NewEntry(t, None)))
    ensures Svc.Agrees(s, a) <==> Svc.Agrees(s, after)
  {
  }

  // ---------------------------------------------------------------------------------------
  // The record that reached a generation
  // ---------------------------------------------------------------------------------------

  /** The last journal between `m` and the whole that has not reached the generation. */
  lemma {:induction false} LastUnreached(v: Authority.Service, h: Header, records: seq<Record>,
    m: nat, stable: Digest, g: nat) returns (k: nat)
    requires Replay(v.sha, h, records).Success? && m <= |records|
    requires Replay(v.sha, h, records[..m]).Success?
    requires !Svc.Reached(Svc.States(v, h, records[..m]), stable, g)
    requires Svc.Reached(Svc.States(v, h, records), stable, g)
    ensures m <= k < |records|
    ensures Replay(v.sha, h, records[..k]).Success? && Replay(v.sha, h, records[..k + 1]).Success?
    ensures !Svc.Reached(Svc.States(v, h, records[..k]), stable, g)
    ensures Svc.Reached(Svc.States(v, h, records[..k + 1]), stable, g)
  {
    hide Svc.Reached, ApplyRecord;
    assert records[..|records|] == records;
    var n := |records| - 1;
    ReplayPrefix(v.sha, h, records, n);
    if !Svc.Reached(Svc.States(v, h, records[..n]), stable, g) {
      k := n;
    } else {
      assert records[..n][..m] == records[..m];
      k := LastUnreached(v, h, records[..n], m, stable, g);
      assert records[..n][..k] == records[..k] && records[..n][..k + 1] == records[..k + 1];
    }
  }

  /** A generation is only ever reached by the dispatch intent of a ready action. */
  lemma ReachedByIntent(sha: Sha, h: Header, r: Record, states: seq<State>, l: Ledger,
    stable: Digest, g: nat) returns (i: nat)
    requires ApplyRecord(sha, h, r, states, l).Success? && g > 0
    requires !Svc.Reached(states, stable, g)
    requires Svc.Reached(ApplyRecord(sha, h, r, states, l).value.states, stable, g)
    ensures i < |states| && states[i].identity.stableRequest == stable
    ensures states[i].phase == Ready && states[i].attemptGeneration < g
  {
    hide ApplyRecord, ValidHeader, ValidRecord, DispatchRequestSha;
    i := ApplyRecordInversion(sha, h, r, states, l);
    var after := ApplyRecord(sha, h, r, states, l).value.states;
    var j :| 0 <= j < |after| && Svc.Reaches(after[j], stable, g);
    assert j < |states| ==> !Svc.Reaches(states[j], stable, g);
    assert j == i;
  }

  // ---------------------------------------------------------------------------------------
  // Crashing
  // ---------------------------------------------------------------------------------------

  /** After a crash at any point, the journal read agrees with `a`. */
  ghost predicate AgreesAfterCrash(g: Config, d: Disk, a: Authority.Registry) {
    forall p: nat :: AgreesAt(g, d, a, p)
  }

  ghost predicate AgreesAt(g: Config, d: Disk, a: Authority.Registry, p: nat) {
    && Readable(g.env, CrashPersist(d, p))
    && AllAgree(Journal(g.env, CrashPersist(d, p)).states, a)
  }

  lemma HoldsAgrees(g: Config, w: World)
    requires Holds(g, w)
    ensures AgreesAfterCrash(g, w.sys.disk, w.x.registry)
  {
    hide Good, Holds, CrashPersist, Sound, JournalCut, AllAgree, Recovered, Step;
    forall p: nat ensures AgreesAt(g, w.sys.disk, w.x.registry, p) {
      HoldsGood(g, w);
      GoodMeans(g.env, w.sys);
      StepGood(g.env, w.sys, Crash(p));
      CrashJournal(g.env, w.sys.disk, p);
      var after := w.sys.(disk := CrashPersist(w.sys.disk, p));
      assert Step(g.env, w.sys, Crash(p)) == after by {
        CrashStep(g.env, w.sys, p);
      }
      CutHolds(g, w, after);
      GoodMeans(g.env, after);
      JournalAgrees(g, w.(sys := after));
    }
  }

  lemma CrashStep(e: Env, s: Sys, p: nat)
    requires Linked(s)
    ensures Step(e, s, Crash(p)) == s.(disk := CrashPersist(s.disk, p))
  {
  }

  /** A crash point that leaves exactly the first `k` records. */
  lemma CrashTo(g: Config, d: Disk, k: nat) returns (p: nat)
    requires Sound(g.env, d) && HEADER_BYTES <= CrashLower(d)
    requires Durable(d) <= k <= WholeRecords(d.length)
    ensures Readable(g.env, d) && Readable(g.env, CrashPersist(d, p))
    ensures k <= |Journal(g.env, d).records|
    ensures Journal(g.env, CrashPersist(d, p)).records == Journal(g.env, d).records[..k]
    ensures Journal(g.env, CrashPersist(d, p)).header == Journal(g.env, d).header
  {
    hide Recovered, Sound;
    p := if k == Durable(d) then CrashLower(d) else Boundary(k);
    BoundaryOf(CrashLower(d));
    BoundaryOf(d.length);
    WholeRecordsUnique(p, k);
    CrashKeeps(g.env, d, p);
    CrashJournal(g.env, d, p);
  }

  // ---------------------------------------------------------------------------------------
  // The exact condition
  // ---------------------------------------------------------------------------------------

  /** Sending any query that the durable journal has reached keeps the invariant. */
  lemma ReachedQueryKeeps(v: Authority.Service, h: Header, records: seq<Record>, durable: nat,
    x: Svc.Exchange, q: StatusRequest)
    requires Svc.Inv(v, h, records, durable, x) && ValidStatusRequest(v.sha, q)
    requires Svc.Reached(Svc.States(v, h, records[..durable]), q.target.stable, q.generation)
    ensures Svc.Inv(v, h, records, durable, x.(statuses := x.statuses + {q}))
  {
    hide Replay, Fences.Sound, Svc.LowerAt, ValidStatusRequest, Svc.Upper, Svc.Answered,
      Svc.Reached;
    var more := x.(statuses := x.statuses + {q});
    UpperQuery(v, Svc.States(v, h, records[..durable]), x, q);
    Svc.AnsweredMore(x, more);
    Svc.LowerSame(v, h, records, durable, x, more);
  }

  lemma UpperQuery(v: Authority.Service, states: seq<State>, x: Svc.Exchange, q: StatusRequest)
    requires Svc.Upper(v, states, x) && ValidStatusRequest(v.sha, q)
    requires Svc.Reached(states, q.target.stable, q.generation)
    ensures Svc.Upper(v, states, x.(statuses := x.statuses + {q}))
  {
    hide Svc.Reached, ValidStatusRequest, ValidDispatchRequest, Svc.EntryReached;
  }

  /** What the durable journal says. */
  function DurableStates(g: Config, w: World): seq<State>
    requires Holds(g, w)
  {
    Svc.States(g.service, JournalOf(g, w).header, DurableRecords(g, w))
  }

  lemma ReachedQueryAgrees(g: Config, w: World, q: StatusRequest)
    requires Holds(g, w) && ValidStatusRequest(g.service.sha, q)
    requires Svc.Reached(DurableStates(g, w), q.target.stable, q.generation)
    ensures AgreesAfterCrash(g, w.sys.disk, Answering(g.service, w.x.registry, q))
  {
    hide Good, Svc.Inv, Recovered, WholeRecords, Authority.Status, ValidStatusRequest, Replay,
      Svc.Reached, AgreesAfterCrash, Sound;
    GoodMeans(g.env, w.sys);
    DurableCounted(g.env, w.sys.disk);
    var o := JournalOf(g, w);
    ReachedQueryKeeps(g.service, o.header, o.records, Durable(w.sys.disk), w.x, q);
    var sent := w.x.(statuses := w.x.statuses + {q});
    var c := Authority.StatusCall(q, true);
    Svc.DeliverKeeps(g.service, o.header, o.records, Durable(w.sys.disk), sent, c);
    HoldsAgrees(g, w.(x := Svc.Delivered(g.service, sent, c)));
  }

  lemma UnfencedQueryAgrees(g: Config, w: World, q: StatusRequest)
    requires Holds(g, w) && !FencesOff(g.service, w.x.registry, q)
    ensures AgreesAfterCrash(g, w.sys.disk, Answering(g.service, w.x.registry, q))
  {
    hide Holds, Svc.Agrees, CrashPersist, Recovered;
    HoldsAgrees(g, w);
    var after := Answering(g.service, w.x.registry, q);
    FenceStays(g.service, w.x.registry, q);
    forall p: nat ensures AgreesAt(g, w.sys.disk, after, p) {
      assert AgreesAt(g, w.sys.disk, w.x.registry, p);
      var states := Journal(g.env, CrashPersist(w.sys.disk, p)).states;
      forall i | 0 <= i < |states| ensures Svc.Agrees(states[i], after) {
        AgreesStill(states[i], w.x.registry, after, q.target);
      }
    }
  }

  /** A fence that the durable journal has not reached disagrees with some journal. */
  lemma UnreachedFenceDisagrees(g: Config, w: World, q: StatusRequest) returns (p: nat)
    requires Holds(g, w) && FencesOff(g.service, w.x.registry, q)
    requires ValidStatusRequest(g.service.sha, q)
    requires !Svc.Reached(DurableStates(g, w), q.target.stable, q.generation)
    requires Svc.Reached(JournalOf(g, w).states, q.target.stable, q.generation)
    ensures !AgreesAt(g, w.sys.disk, Answering(g.service, w.x.registry, q), p)
  {
    hide Good, Recovered, WholeRecords, Authority.Status, Svc.Reached, FencesOff, Sound, Replay,
      CrashPersist;
    GoodMeans(g.env, w.sys);
    DurableCounted(g.env, w.sys.disk);
    var o := JournalOf(g, w);
    var stable, generation := q.target.stable, q.generation;
    JournalStates(g.env, w.sys.disk.Stream());
    var k := LastUnreached(g.service, o.header, o.records, Durable(w.sys.disk), stable, generation);
    var i := UnreachedIsReady(g.service, o.header, o.records, k, stable, generation, q);
    p := CrashTo(g, w.sys.disk, k);
    JournalStates(g.env, CrashPersist(w.sys.disk, p).Stream());
    FenceMoves(g.service, w.x.registry, q);
    NotReady(Svc.States(g.service, o.header, o.records[..k])[i],
             Answering(g.service, w.x.registry, q), stable, generation);
  }

  lemma UnreachedIsReady(v: Authority.Service, h: Header, records: seq<Record>, k: nat,
    stable: Digest, g: nat, q: StatusRequest) returns (i: nat)
    requires k < |records| && ValidStatusRequest(v.sha, q) && g == q.generation
    requires Replay(v.sha, h, records[..k]).Success? && Replay(v.sha, h, records[..k + 1]).Success?
    requires !Svc.Reached(Svc.States(v, h, records[..k]), stable, g)
    requires Svc.Reached(Svc.States(v, h, records[..k + 1]), stable, g)
    ensures var states := Svc.States(v, h, records[..k]);
            && i < |states| && states[i].identity.stableRequest == stable
            && states[i].phase == Ready && states[i].attemptGeneration < g
  {
    hide ApplyRecord, Svc.Reached;
    assert records[..k + 1] == records[..k] + [records[k]];
    ReplayAppend(v.sha, h, records[..k], records[k]);
    Failures.PositiveGeneration(v, q);
    var before := Replay(v.sha, h, records[..k]).value;
    i := ReachedByIntent(v.sha, h, records[k], before.states, before.ledger, stable, g);
  }

  lemma NotReady(s: State, a: Authority.Registry, stable: Digest, g: nat)
    requires s.identity.stableRequest == stable && s.phase == Ready && s.attemptGeneration < g
    requires Fences.FenceFor(a, stable) == g
    ensures !Svc.Agrees(s, a)
  {
  }

  lemma QueryReached(g: Config, w: World, i: nat, ordinal: u64)
    requires Holds(g, w) && i < |JournalOf(g, w).states|
    requires VisibleQuery(g, w, i, ordinal).Success?
    ensures var q := VisibleQuery(g, w, i, ordinal).value;
            && ValidStatusRequest(g.service.sha, q)
            && Svc.Reached(JournalOf(g, w).states, q.target.stable, q.generation)
  {
    hide Holds, Good, ValidStatusRequest, MakeStatusRequest, Recovered;
    HoldsGood(g, w);
    Svc.StateReached(JournalOf(g, w).states, i);
  }

  /** The status query about an action as the visible journal has it. */
  function VisibleQuery(g: Config, w: World, i: nat, ordinal: u64)
    : Result<StatusRequest, AdapterError>
    requires Good(g.env, w.sys) && i < |JournalOf(g, w).states|
  {
    MakeStatusRequest(g.service.sha, g.service.descriptor, JournalOf(g, w).header,
                      JournalOf(g, w).states[i], ordinal)
  }

  /**
   * Querying from the visible journal. Once the service has answered a query made from what is
   * visible, every journal that a crash may leave agrees with it if and only if the durable
   * journal has reached the queried generation or the service did not fence it off.
   */
  lemma VisibleQueryExactly(g: Config, w: World, i: nat, ordinal: u64)
    requires Holds(g, w) && i < |JournalOf(g, w).states|
    requires VisibleQuery(g, w, i, ordinal).Success?
    ensures var q := VisibleQuery(g, w, i, ordinal).value;
            AgreesAfterCrash(g, w.sys.disk, Answering(g.service, w.x.registry, q))
            <==> Svc.Reached(DurableStates(g, w), q.target.stable, q.generation)
                 || !FencesOff(g.service, w.x.registry, q)
  {
    hide Holds, Good, VisibleQuery, JournalOf, DurableStates, FencesOff, Svc.Reached, AgreesAt,
      Answering;
    HoldsGood(g, w);
    var q := VisibleQuery(g, w, i, ordinal).value;
    QueryReached(g, w, i, ordinal);
    if !FencesOff(g.service, w.x.registry, q) {
      UnfencedQueryAgrees(g, w, q);
    } else if Svc.Reached(DurableStates(g, w), q.target.stable, q.generation) {
      ReachedQueryAgrees(g, w, q);
    } else {
      var p := UnreachedFenceDisagrees(g, w, q);
    }
  }

  /** Queries made from a visible journal that is all durable always keep agreement. */
  lemma DurableQueryAgrees(g: Config, w: World, i: nat, ordinal: u64)
    requires Holds(g, w) && i < |JournalOf(g, w).states|
    requires VisibleQuery(g, w, i, ordinal).Success?
    requires var d := w.sys.disk;
             HEADER_BYTES <= d.length && Boundary(WholeRecords(d.length)) <= d.synced
    ensures AgreesAfterCrash(g, w.sys.disk, Answering(g.service, w.x.registry,
                                                      VisibleQuery(g, w, i, ordinal).value))
  {
    hide Holds, Good, VisibleQuery, Svc.Reached, AgreesAfterCrash, Answering, FencesOff, Sound,
      Recovered, WholeRecords;
    HoldsGood(g, w);
    GoodMeans(g.env, w.sys);
    VisibleIsDurable(g.env, w.sys.disk);
    QueryReached(g, w, i, ordinal);
    JournalStates(g.env, w.sys.disk.Stream());
    AllDurable(g, w);
    VisibleQueryExactly(g, w, i, ordinal);
  }

  lemma AllDurable(g: Config, w: World)
    requires Holds(g, w) && Durable(w.sys.disk) == |JournalOf(g, w).records|
    ensures DurableStates(g, w) == JournalOf(g, w).states
  {
    hide Good, Svc.Inv, Recovered, Replay, Sound, WholeRecords;
    GoodMeans(g.env, w.sys);
    JournalStates(g.env, w.sys.disk.Stream());
    assert JournalOf(g, w).records[..|JournalOf(g, w).records|] == JournalOf(g, w).records;
  }
}
