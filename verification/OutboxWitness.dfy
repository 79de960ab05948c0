/**
 * The run of OutboxUnsynced beside the service: a status query made from what is visible is
 * answered not-applied, and a crash then leaves an outbox that disagrees.
 */
module OutboxWitness {
  import opened Bytes
  import opened Outbox
  import opened OutboxLifecycle
  import opened OutboxWire
  import opened OutboxRecovery
  import opened OutboxPrinted
  import opened OutboxStorage
  import opened OutboxStorageSteps
  import opened OutboxStorageRuns
  import opened OutboxUnsynced
  import opened OutboxSystem
  import opened OutboxVisible
  import opened Adapter
  import Authority
  import Failures = AuthorityFailures
  import Samples = AuthorityExamples
  import Svc = OutboxService

  // ---------------------------------------------------------------------------------------
  // Following a run stage by stage
  // ---------------------------------------------------------------------------------------

  ghost predicate Follows(g: Config, stages: seq<World>, events: seq<Event>) {
    && |stages| == |events| + 1
    && (forall k | 0 <= k < |stages| :: Good(g.env, stages[k].sys))
    && (forall k | 0 <= k < |events| :: stages[k + 1] == Next(g, stages[k], events[k]))
  }

  lemma {:induction false} FollowedRun(g: Config, stages: seq<World>, events: seq<Event>, k: nat)
    requires Follows(g, stages, events) && k <= |events|
    ensures Runs(g, stages[0], events[..k]) == stages[k]
  {
    hide Good, Next;
    if k > 0 {
      FollowedRun(g, stages, events, k - 1);
      assert events[..k][..k - 1] == events[..k - 1];
    }
  }

  // ---------------------------------------------------------------------------------------
  // The stages
  // ---------------------------------------------------------------------------------------

  /** An enqueue, a dispatch intent behind it, and a new storage with room for both. */
  ghost predicate Scene(g: Config, w: World, h: Header, a: Record, b: Record) {
    && Fresh(g, w) && Unleased(g.env, w.sys.disk, h, []) && w.sys.disk.nextGeneration == 1
    && w.sys.leases == [] && w.sys.appends == [] && w.sys.writers == []
    && Writable(g.env, h, [a], |w.sys.disk.backing|)
    && Writable(g.env, h, [a, b], |w.sys.disk.backing|)
    && a.kind == EVENT_ENQUEUED && b.kind == EVENT_DISPATCH_INTENT
  }

  /** Up to the durable enqueue: acquire, mint, open, append. */
  function Durably(h: Header, a: Record): seq<Event> {
    [Store(Acquire), Store(Mint(0)), Store(OpenWriter(0, h)), Store(Append(0, RecordPrint(a)))]
  }

  /** From there: an append whose footer sync faults, a release, and another acquire. */
  function Visibly(b: Record): seq<Event> {
    [Store(Inject(FOOTER_SYNC_FAULT)), Store(Append(0, RecordPrint(b))), Store(Release(0)),
     Store(Acquire)]
  }

  /** The journal of a disk that prints one. */
  lemma PrintedJournal(g: Config, w: World, h: Header, records: seq<Record>)
    requires Good(g.env, w.sys) && g.env.header == h.headerSha
    requires Journals(g.env.sha, h, records)
    requires w.sys.disk.Bounded() && w.sys.disk.Stream() == Printed(h, records)
    ensures JournalOf(g, w).header == h && JournalOf(g, w).records == records
    ensures JournalOf(g, w).states == Replay(g.env.sha, h, records).value.states
  {
    hide Good, Recovered, Journals, Printed, Replay;
    GoodMeans(g.env, w.sys);
    var b := w.sys.disk.Stream();
    assert b[..|b|] == b;
    PrintedRecovers(g.env.sha, h, records, b);
  }

  /** The outbox may hand over an enqueue or an intent without asking the service. */
  lemma HandsOver(g: Config, w: World, h: Header, records: seq<Record>, r: Record)
    requires Good(g.env, w.sys) && g.env.header == h.headerSha
    requires Journals(g.env.sha, h, records) && Journals(g.env.sha, h, records + [r])
    requires w.sys.disk.Bounded() && w.sys.disk.Stream() == Printed(h, records)
    requires r.kind == EVENT_ENQUEUED || r.kind == EVENT_DISPATCH_INTENT
    ensures MayHandOver(g, w, RecordPrint(r))
  {
    hide Good, Journals, Printed, RecordPrint, NextRecord, JournalOf;
    PrintedJournal(g, w, h, records);
    var all := records + [r];
    assert all[..|records|] == records;
    LastIsNext(g.env.sha, h, all);
  }

  lemma StoreNext(g: Config, w: World, a: Action)
    requires Good(g.env, w.sys) && (a.Append? ==> MayHandOver(g, w, a.encoded))
    ensures Linked(w.sys) && Next(g, w, Store(a)) == w.(sys := Step(g.env, w.sys, a))
    ensures Good(g.env, Next(g, w, Store(a)).sys)
  {
    hide Good, Step, MayHandOver;
    GoodMeans(g.env, w.sys);
    StepGood(g.env, w.sys, a);
  }

  /** Three steps open a writer on the empty journal. */
  lemma Opens(g: Config, w: World, h: Header, a: Record, b: Record) returns (stages: seq<World>)
    requires Scene(g, w, h, a, b)
    ensures Follows(g, stages, Durably(h, a)[..3]) && stages[0] == w
    ensures var after := stages[3];
            && OneWriter(g.env, after.sys, h, []) && after.x == w.x
            && after.sys.disk.fault.None? && after.sys.disk.nextGeneration == 2
            && |after.sys.disk.backing| == |w.sys.disk.backing|
  {
    hide Good, Step, OneWriter, Unleased, Writable, RecordPrint, JournalOf, StoreStep;
    var e := g.env;
    OpensWriter(e, w.sys, h, []);
    StoreNext(g, w, Acquire);
    var one := Next(g, w, Store(Acquire));
    StoreNext(g, one, Mint(0));
    var two := Next(g, one, Store(Mint(0)));
    StoreNext(g, two, OpenWriter(0, h));
    var three := Next(g, two, Store(OpenWriter(0, h)));
    stages := [w, one, two, three];
    assert Durably(h, a)[..3] == [Store(Acquire), Store(Mint(0)), Store(OpenWriter(0, h))];
  }

  /** One append by the only writer. */
  lemma OnlyAppend(e: Env, s: Sys, encoded: Bytes)
    requires Good(e, s) && |s.leases| == 1 && |s.appends| == 1 && |s.writers| == 1
    requires s.appends[0].lease == 0 && s.writers[0].append == 0
    ensures Linked(s)
    ensures var r := AppendRecord(e, s.disk, s.leases[0], s.appends[0].capability,
                                  s.writers[0].writer, encoded);
            var after := Step(e, s, Append(0, encoded));
            && after.disk == r.disk && after.leases == [r.lease] && |after.appends| == 1
            && after.appends[0] == AppendHandle(0, r.capability)
            && after.writers == [WriterHandle(0, r.writer)]
  {
    hide AppendRecord, LeaseGood, Sound, AppendGood, RepairGood;
  }

  lemma OneWriterMeans(e: Env, s: Sys, h: Header, records: seq<Record>)
    requires OneWriter(e, s, h, records)
    ensures s.disk.Bounded() && s.disk.Stream() == Printed(h, records)
    ensures Journals(e.sha, h, records) && e.header == h.headerSha
    ensures s.disk.length == Boundary(|records|)
  {
    hide Good, Journals, Printed, ContentSnapshot, Recovered;
    assert |s.disk.Stream()| == s.disk.length;
  }

  /** The enqueue becomes durable. */
  lemma Enqueues(g: Config, w: World, h: Header, a: Record)
    requires Good(g.env, w.sys) && OneWriter(g.env, w.sys, h, []) && w.sys.disk.fault.None?
    requires Writable(g.env, h, [a], |w.sys.disk.backing|) && a.kind == EVENT_ENQUEUED
    ensures var after := Next(g, w, Store(Append(0, RecordPrint(a))));
            && Good(g.env, after.sys) && OneWriter(g.env, after.sys, h, [a])
            && after.x == w.x && after.sys.disk.synced == after.sys.disk.length
            && after.sys.disk.nextGeneration == w.sys.disk.nextGeneration
            && |after.sys.disk.backing| == |w.sys.disk.backing|
  {
    hide Good, Step, Poised, RecordPrint, AppendRecord, Journals, Printed, StoreStep, MayHandOver;
    var none: seq<Record> := [];
    assert none + [a] == [a];
    OneWriterMeans(g.env, w.sys, h, none);
    HandsOver(g, w, h, none, a);
    StoreNext(g, w, Append(0, RecordPrint(a)));
    OnlyAppend(g.env, w.sys, RecordPrint(a));
    var s := w.sys;
    AppendsMore(g.env, s.disk, s.leases[0], s.appends[0].capability, s.writers[0].writer, h,
                none, a);
  }

  /** A fault is scripted; nothing else changes. */
  lemma Injects(g: Config, w: World, h: Header, records: seq<Record>)
    requires Good(g.env, w.sys) && OneWriter(g.env, w.sys, h, records)
    ensures var after := Next(g, w, Store(Inject(FOOTER_SYNC_FAULT)));
            && Good(g.env, after.sys) && OneWriter(g.env, after.sys, h, records)
            && after.x == w.x && after.sys.disk.fault == FOOTER_SYNC_FAULT
            && after.sys.disk.callIndex == 0
            && after.sys.disk.nextGeneration == w.sys.disk.nextGeneration
            && |after.sys.disk.backing| == |w.sys.disk.backing|
  {
    hide Good, ContentSnapshot, Printed, StoreStep, MayHandOver, Writable;
    StoreNext(g, w, Inject(FOOTER_SYNC_FAULT));
    var after := Next(g, w, Store(Inject(FOOTER_SYNC_FAULT)));
    GoodMeans(g.env, after.sys);
    StillSnapshot(g.env, w.sys.disk, after.sys.disk);
  }

  /** The intent becomes visible and not durable. */
  lemma Intends(g: Config, w: World, h: Header, a: Record, b: Record)
    requires Good(g.env, w.sys) && OneWriter(g.env, w.sys, h, [a])
    requires w.sys.disk.fault == FOOTER_SYNC_FAULT && w.sys.disk.callIndex == 0
    requires Writable(g.env, h, [a, b], |w.sys.disk.backing|) && b.kind == EVENT_DISPATCH_INTENT
    ensures var after := Next(g, w, Store(Append(0, RecordPrint(b))));
            && Good(g.env, after.sys) && after.x == w.x && after.sys.disk.Bounded()
            && after.sys.disk.Stream() == Printed(h, [a, b])
            && after.sys.disk.synced == Boundary(1) + RECORD_BODY_BYTES
            && after.sys.disk.nextGeneration == w.sys.disk.nextGeneration
            && |after.sys.disk.backing| == |w.sys.disk.backing|
            && |after.sys.leases| == 1 && Active(after.sys.disk, after.sys.leases[0].generation)
  {
    hide Good, Step, Poised, RecordPrint, AppendRecord, Journals, Printed, StoreStep, MayHandOver;
    assert [a] + [b] == [a, b];
    OneWriterMeans(g.env, w.sys, h, [a]);
    HandsOver(g, w, h, [a], b);
    StoreNext(g, w, Append(0, RecordPrint(b)));
    OnlyAppend(g.env, w.sys, RecordPrint(b));
    var s := w.sys;
    PoisedActive(g.env, s.disk, s.leases[0], s.appends[0].capability, s.writers[0].writer, h, [a]);
    AppendsUnsynced(g.env, s.disk, s.leases[0], s.appends[0].capability, s.writers[0].writer, h,
                    [a], b);
  }

  lemma PoisedActive(e: Env, d: Disk, l: Lease, c: AppendCapability, w: Writer, h: Header,
    records: seq<Record>)
    requires Poised(e, d, l, c, w, h, records)
    ensures Active(d, l.generation)
  {
    hide ContentSnapshot, Printed, Journals, Recovered;
  }

  /** The lease is dropped and the storage acquired again; the stream is as it was. */
  lemma Reopens(g: Config, w: World, h: Header, records: seq<Record>)
    requires Good(g.env, w.sys) && |w.sys.leases| == 1
    requires Active(w.sys.disk, w.sys.leases[0].generation)
    requires w.sys.disk.Bounded() && w.sys.disk.Stream() == Printed(h, records)
    requires Writable(g.env, h, records, |w.sys.disk.backing|)
    requires 0 < w.sys.disk.nextGeneration <= U64_MAX
    ensures var free := Next(g, w, Store(Release(0)));
            Good(g.env, free.sys)
            && var after := Next(g, free, Store(Acquire));
               && Good(g.env, after.sys) && after.x == w.x && after.sys.disk.Bounded()
               && after.sys.disk.Stream() == w.sys.disk.Stream()
               && after.sys.disk.synced == w.sys.disk.synced && |after.sys.leases| == 2
               && after.sys.leases[1].snapshot.status == Clean
  {
    hide Good, Sound, AcquireLease, Writable, Printed, StoreStep, MayHandOver;
    StoreNext(g, w, Release(0));
    var free := Next(g, w, Store(Release(0)));
    GoodMeans(g.env, free.sys);
    StoreNext(g, free, Acquire);
    Acquires(g.env, free.sys.disk, h, records);
  }

  /** One run followed by another from where the first ended. */
  lemma FollowsJoined(g: Config, first: seq<World>, before: seq<Event>, second: seq<World>,
    later: seq<Event>)
    requires Follows(g, first, before) && Follows(g, second, later)
    requires first[|before|] == second[0]
    ensures Follows(g, first + second[1..], before + later)
    ensures (first + second[1..])[0] == first[0]
    ensures (first + second[1..])[|before|] == first[|before|]
    ensures (first + second[1..])[|before| + |later|] == second[|later|]
  {
    hide Good, Next;
    var all, events := first + second[1..], before + later;
    forall k | 0 <= k < |events| ensures all[k + 1] == Next(g, all[k], events[k]) {
      if k >= |before| {
        assert events[k] == later[k - |before|] && all[k] == second[k - |before|];
        assert all[k + 1] == second[k - |before| + 1];
      }
    }
  }

  lemma FollowsOne(g: Config, w: World, v: Event)
    requires Good(g.env, w.sys) && Good(g.env, Next(g, w, v).sys)
    ensures Follows(g, [w, Next(g, w, v)], [v])
  {
    hide Good, Next;
  }

  /** The stages up to the durable enqueue. */
  lemma FirstStages(g: Config, w: World, h: Header, a: Record, b: Record)
    returns (stages: seq<World>)
    requires Scene(g, w, h, a, b)
    ensures Follows(g, stages, Durably(h, a)) && stages[0] == w
    ensures var s := stages[4].sys;
            && OneWriter(g.env, s, h, [a]) && s.disk.synced == s.disk.length
            && stages[4].x == w.x && s.disk.nextGeneration == 2
            && |s.disk.backing| == |w.sys.disk.backing|
  {
    hide Good, OneWriter, Unleased, Writable, RecordPrint, JournalOf, Next, Fresh, Follows;
    var three := Opens(g, w, h, a, b);
    OpensFollow(g, three, h, a);
    Enqueues(g, three[3], h, a);
    var v := Store(Append(0, RecordPrint(a)));
    FollowsOne(g, three[3], v);
    var more := [three[3], Next(g, three[3], v)];
    FollowsJoined(g, three, Durably(h, a)[..3], more, [v]);
    stages := three + more[1..];
    assert Durably(h, a)[..3] + [v] == Durably(h, a);
  }

  lemma OpensFollow(g: Config, stages: seq<World>, h: Header, a: Record)
    requires Follows(g, stages, Durably(h, a)[..3])
    ensures |stages| == 4 && Good(g.env, stages[3].sys)
  {
    hide Good, Next, RecordPrint;
  }

  /** The stages from there to the reopened storage. */
  lemma LastStages(g: Config, w: World, h: Header, a: Record, b: Record)
    returns (stages: seq<World>)
    requires Good(g.env, w.sys) && OneWriter(g.env, w.sys, h, [a])
    requires Writable(g.env, h, [a, b], |w.sys.disk.backing|) && b.kind == EVENT_DISPATCH_INTENT
    requires 0 < w.sys.disk.nextGeneration <= U64_MAX
    ensures Follows(g, stages, Visibly(b)) && stages[0] == w
    ensures var s := stages[4].sys;
            && s.disk.Bounded() && s.disk.Stream() == Printed(h, [a, b])
            && s.disk.synced == Boundary(1) + RECORD_BODY_BYTES
            && |s.leases| == 2 && s.leases[1].snapshot.status == Clean && stages[4].x == w.x
  {
    hide Good, OneWriter, Writable, RecordPrint, Next, Printed;
    Injects(g, w, h, [a]);
    var five := Next(g, w, Store(Inject(FOOTER_SYNC_FAULT)));
    Intends(g, five, h, a, b);
    var six := Next(g, five, Store(Append(0, RecordPrint(b))));
    Reopens(g, six, h, [a, b]);
    var seven := Next(g, six, Store(Release(0)));
    stages := [w, five, six, seven, Next(g, seven, Store(Acquire))];
  }

  /** The whole run. */
  lemma Stages(g: Config, w: World, h: Header, a: Record, b: Record)
    returns (durable: World, visible: World)
    requires Scene(g, w, h, a, b)
    ensures durable == Runs(g, w, Durably(h, a))
    ensures visible == Runs(g, w, Durably(h, a) + Visibly(b))
    ensures visible.x == w.x
    ensures durable.sys.disk.Bounded() && durable.sys.disk.Stream() == Printed(h, [a])
    ensures durable.sys.disk.synced == durable.sys.disk.length
    ensures visible.sys.disk.Bounded() && visible.sys.disk.Stream() == Printed(h, [a, b])
    ensures visible.sys.disk.synced == Boundary(1) + RECORD_BODY_BYTES
    ensures |visible.sys.leases| == 2 && visible.sys.leases[1].snapshot.status == Clean
  {
    hide Good, OneWriter, Unleased, Writable, RecordPrint, JournalOf, Next, Printed, Runs, Fresh,
      Follows;
    var first := FirstStages(g, w, h, a, b);
    StageGood(g, first, Durably(h, a), 4);
    durable := first[4];
    OneWriterMeans(g.env, durable.sys, h, [a]);
    var second := LastStages(g, durable, h, a, b);
    StageGood(g, second, Visibly(b), 4);
    visible := second[4];
    FollowsJoined(g, first, Durably(h, a), second, Visibly(b));
    var events := Durably(h, a) + Visibly(b);
    FollowedRun(g, first + second[1..], events, 4);
    FollowedRun(g, first + second[1..], events, 8);
    assert events[..4] == Durably(h, a) && events[..8] == events;
  }

  lemma StageGood(g: Config, stages: seq<World>, events: seq<Event>, k: nat)
    requires Follows(g, stages, events) && k <= |events|
    ensures |stages| == |events| + 1 && Good(g.env, stages[k].sys)
  {
    hide Good, Next;
  }

  /**
   * The last record is visible and not durable: after the faulted append, the release and the
   * acquire, the journal read has one record more and the durable records are those before.
   */
  lemma VisibleNotDurable(g: Config, w: World, h: Header, a: Record, b: Record)
    requires Scene(g, w, h, a, b)
    ensures var durable := Runs(g, w, Durably(h, a));
            var visible := Runs(g, w, Durably(h, a) + Visibly(b));
            && HEADER_BYTES <= CrashLower(durable.sys.disk)
            && HEADER_BYTES <= CrashLower(visible.sys.disk)
            && Durable(durable.sys.disk) == Durable(visible.sys.disk) == 1
            && JournalOf(g, durable).records == [a] && JournalOf(g, visible).records == [a, b]
            && JournalOf(g, visible).header == h && visible.x == w.x
            && JournalOf(g, visible).states == Replay(g.env.sha, h, [a, b]).value.states
  {
    hide Good, RecordPrint, JournalOf, Next, Printed, Runs, Journals, Unleased, Fresh, Replay;
    var durable, visible := Stages(g, w, h, a, b);
    PrintedJournal(g, durable, h, [a]);
    PrintedJournal(g, visible, h, [a, b]);
    assert |durable.sys.disk.Stream()| == Boundary(1) && |visible.sys.disk.Stream()| == Boundary(2);
    WholeRecordsUnique(Boundary(1), 1);
    WholeRecordsUnique(Boundary(1) + RECORD_BODY_BYTES, 1);
  }

  // ---------------------------------------------------------------------------------------
  // The query
  // ---------------------------------------------------------------------------------------

  /** The states after an enqueue and its first intent. */
  lemma TwoStates(sha: Sha, h: Header, a: Record, b: Record)
    requires Replay(sha, h, [a]).Success? && Replay(sha, h, [a, b]).Success?
    requires a.kind == EVENT_ENQUEUED && b.kind == EVENT_DISPATCH_INTENT
    ensures Replay(sha, h, [a]).value.states == [MakeState(a)]
    ensures Replay(sha, h, [a, b]).value.states == [NextState(MakeState(a), b)]
    ensures ValidHeader(sha, h) && ValidRecord(sha, h, a) && ValidRecord(sha, h, b)
    ensures b.identity == a.identity && b.attemptGeneration == 1
  {
    hide ApplyRecord, ValidHeader, ValidRecord, DispatchRequestSha;
    var none: seq<Record> := [];
    assert none + [a] == [a] && [a] + [b] == [a, b];
    ReplayAppend(sha, h, none, a);
    ReplayAppend(sha, h, [a], b);
    var i := ApplyRecordInversion(sha, h, a, [], EMPTY_LEDGER);
    var one := Replay(sha, h, [a]).value;
    var j := ApplyRecordInversion(sha, h, b, one.states, one.ledger);
    assert one.states == [MakeState(a)];
    assert j == 0;
  }

  /** A service that a fresh action can query. */
  ghost predicate Serves(v: Authority.Service, h: Header) {
    NeverZero(v.sha) && HeaderPins(v.sha, v.descriptor, h) && v.maximumEntries >= 1
  }

  /** The query about the visible intent is made, fences the generation off, and says so. */
  lemma QueryFences(v: Authority.Service, h: Header, s: State)
    requires Serves(v, h) && s.phase == Uncertain && s.attemptGeneration == 1
    requires ValidIdentity(v.sha, h, s.identity)
    requires s.dispatchRequest != ZERO_DIGEST && s.lastEvent != ZERO_DIGEST
    ensures var q := MakeStatusRequest(v.sha, v.descriptor, h, s, 1);
            && q.Success? && q.value.generation == 1
            && q.value.target.stable == s.identity.stableRequest
            && FencesOff(v, Authority.EMPTY_REGISTRY, q.value)
            && var answer := Authority.Status(v, Authority.EMPTY_REGISTRY, q.value, true);
               answer.reply.Success? && answer.reply.value.disposition == StatusNotAppliedFenced
  {
    hide StatusParts, DescriptorSha, HeaderPreimage, ActionPreimage, StableRequestPreimage,
      StatusEvidenceSha, ValidStatusRequest, ValidStatusEvidence, ValidDescriptor,
      ValidIdentity, Authority.Status, MakeStatusRequest, FencesOff;
    QueryMade(v, h, s);
    var q := MakeStatusRequest(v.sha, v.descriptor, h, s, 1).value;
    EmptyFences(v, q);
    EvidenceMade(v, q);
  }

  lemma QueryMade(v: Authority.Service, h: Header, s: State)
    requires Serves(v, h) && s.phase == Uncertain && s.attemptGeneration == 1
    requires ValidIdentity(v.sha, h, s.identity)
    requires s.dispatchRequest != ZERO_DIGEST && s.lastEvent != ZERO_DIGEST
    ensures MakeStatusRequest(v.sha, v.descriptor, h, s, 1).Success?
    ensures MakeStatusRequest(v.sha, v.descriptor, h, s, 1).value.adapter
            == v.descriptor.descriptorSha
  {
    hide LE64, Concat, DescriptorSha, HeaderPreimage, ActionPreimage, StableRequestPreimage;
    IdentityNonZero(v.sha, h, s.identity);
    PinnedNonZero(v.sha, v.descriptor, h);
    var r := StatusRequest(STATUS_REQUEST_ABI, v.descriptor.descriptorSha,
                           TargetOf(h, s.identity), s.dispatchRequest, 1, s.lastEvent, 1,
                           ZERO_DIGEST);
    var sealed := r.(requestSha := v.sha(StatusPreimage(r)));
    Samples.StatusSealApart(sealed);
    assert sealed.(requestSha := ZERO_DIGEST) == r;
    assert ValidStatusRequest(v.sha, sealed);
  }

  lemma IdentityNonZero(sha: Sha, h: Header, id: Identity)
    requires ValidIdentity(sha, h, id)
    ensures id.action != ZERO_DIGEST && id.stableRequest != ZERO_DIGEST
    ensures id.idempotencyKey != ZERO_DIGEST
  {
    var ds := IdentityDigests(id);
    assert ds[6] != ZERO_DIGEST && ds[10] != ZERO_DIGEST && ds[11] != ZERO_DIGEST;
    assert ds[6] == ActionDigests(id)[6];
  }

  lemma PinnedNonZero(sha: Sha, d: Descriptor, h: Header)
    requires HeaderPins(sha, d, h)
    ensures h.headerSha != ZERO_DIGEST && d.descriptorSha != ZERO_DIGEST
  {
  }

  lemma EmptyFences(v: Authority.Service, q: StatusRequest)
    requires ValidStatusRequest(v.sha, q) && q.adapter == v.descriptor.descriptorSha
    requires v.maximumEntries >= 1
    ensures FencesOff(v, Authority.EMPTY_REGISTRY, q)
    ensures Authority.Status(v, Authority.EMPTY_REGISTRY, q, true).reply
            == Authority.FencedEvidence(v, q, 2)
  {
    hide ValidStatusRequest, Authority.FencedEvidence, Authority.FakeEvent;
    Failures.PositiveGeneration(v, q);
  }

  lemma EvidenceMade(v: Authority.Service, q: StatusRequest)
    requires NeverZero(v.sha) && ValidDescriptor(v.sha, v.descriptor)
    requires ValidStatusRequest(v.sha, q) && q.adapter == v.descriptor.descriptorSha
    ensures Authority.FencedEvidence(v, q, 2).Success?
    ensures Authority.FencedEvidence(v, q, 2).value.disposition == StatusNotAppliedFenced
  {
    hide ValidStatusRequest, LE64, LE8, DescriptorSha;
    Failures.FenceEvidenceFailsExactly(v, q, 2);
  }

  /** Nothing was sent, so nothing that was sent collides. */
  lemma NothingSent(v: Authority.Service)
    ensures Svc.RootsDistinct(v, Svc.NO_EXCHANGE)
  {
    assert DispatchPreimages(Svc.NO_EXCHANGE.dispatches) == iset{};
    assert StatusPreimages(Svc.NO_EXCHANGE.statuses) == iset{};
  }

  /** What the query needs to know about the second state. */
  lemma IntendedState(sha: Sha, h: Header, a: Record, b: Record)
    requires ValidRecord(sha, h, a) && ValidRecord(sha, h, b)
    requires b.kind == EVENT_DISPATCH_INTENT && b.identity == a.identity
    requires b.attemptGeneration == 1
    ensures var s := NextState(MakeState(a), b);
            && s.phase == Uncertain && s.attemptGeneration == 1
            && ValidIdentity(sha, h, s.identity)
            && s.dispatchRequest != ZERO_DIGEST && s.lastEvent != ZERO_DIGEST
  {
    hide ValidIdentity, RecordSha;
  }

  lemma EnqueuedUnreached(a: Record, stable: Digest)
    ensures !Svc.Reached([MakeState(a)], stable, 1)
  {
  }

  /** The reached world is one of the system's own, with the two journals in it. */
  lemma VisibleHolds(g: Config, w: World, h: Header, a: Record, b: Record)
    requires Scene(g, w, h, a, b)
    ensures var visible := Runs(g, w, Durably(h, a) + Visibly(b));
            && Holds(g, visible) && visible.x == Svc.NO_EXCHANGE
            && JournalOf(g, visible).header == h
            && JournalOf(g, visible).states == [NextState(MakeState(a), b)]
            && DurableStates(g, visible) == [MakeState(a)]
  {
    hide Good, RecordPrint, Next, Printed, Runs, Unleased, Replay, Svc.RootsDistinct, Svc.Inv,
      Recovered, Svc.NO_EXCHANGE;
    var events := Durably(h, a) + Visibly(b);
    VisibleNotDurable(g, w, h, a, b);
    FreshHolds(g, w);
    NothingSent(g.service);
    RunHolds(g, w, events);
    JournalReplays(g.env.sha, h, [a]);
    JournalReplays(g.env.sha, h, [a, b]);
    TwoStates(g.env.sha, h, a, b);
    assert [a, b][..1] == [a];
  }

  /**
   * What goes wrong. The query about the visible intent is answered not-applied, and then a
   * crash back to the durable journal leaves an outbox that disagrees with the service.
   */
  lemma VisibleQueryDisagrees(g: Config, w: World, h: Header, a: Record, b: Record)
    requires Scene(g, w, h, a, b) && Serves(g.service, h)
    ensures var visible := Runs(g, w, Durably(h, a) + Visibly(b));
            Holds(g, visible) && |JournalOf(g, visible).states| == 1
            && var q := VisibleQuery(g, visible, 0, 1);
               && q.Success?
               && var answer := Authority.Status(g.service, visible.x.registry, q.value, true);
                  && answer.reply.Success?
                  && answer.reply.value.disposition == StatusNotAppliedFenced
                  && !AgreesAfterCrash(g, visible.sys.disk, answer.registry)
  {
    hide Good, RecordPrint, Next, Printed, Runs, Unleased, Replay, Svc.Inv, Holds, JournalOf,
      DurableStates, AgreesAfterCrash, FencesOff, MakeStatusRequest, Svc.Reached,
      Authority.Status, Serves;
    var visible := Runs(g, w, Durably(h, a) + Visibly(b));
    VisibleHolds(g, w, h, a, b);
    JournalReplays(g.env.sha, h, [a]);
    JournalReplays(g.env.sha, h, [a, b]);
    TwoStates(g.env.sha, h, a, b);
    IntendedState(g.env.sha, h, a, b);
    QueryFences(g.service, h, NextState(MakeState(a), b));
    EnqueuedUnreached(a, a.identity.stableRequest);
    VisibleQueryExactly(g, visible, 0, 1);
  }

  // ---------------------------------------------------------------------------------------
  // The scene exists
  // ---------------------------------------------------------------------------------------

  function Enqueue(sha: Sha, h: Header, id: Identity): Result<Record, OutboxError> {
    MakeEnqueuedRecord(sha, h, 1, h.headerSha, id)
  }

  function Intent(sha: Sha, h: Header, a: Record): Result<Record, OutboxError> {
    MakeTransitionRecord(sha, h, 2, a.recordSha, MakeState(a), EVENT_DISPATCH_INTENT, 1,
                         ZERO_DIGEST, ZERO_DIGEST)
  }

  /** A record root is not part of what it is the root of. */
  lemma RecordSealApart(h: Header, r: Record, root: Digest)
    ensures RecordPreimage(h, r.(recordSha := root)) == RecordPreimage(h, r)
  {
    hide Concat, LE64, LE8, IdentityParts, JoinDigests;
    assert RecordDigests(r.(recordSha := root))[..5] == RecordDigests(r)[..5];
  }

  lemma SealedValid(sha: Sha, h: Header, r: Record)
    requires NeverZero(sha) && ValidIdentity(sha, h, r.identity)
    requires EVENT_ENQUEUED <= r.kind <= EVENT_RECONCILED_FAILURE && FieldsMatchKind(r)
    requires r.previousJournal != ZERO_DIGEST && r.abi == RECORD_ABI && r.sequence != 0
    ensures Sealed(sha, h, r).Success? && Sealed(sha, h, r).value.recordSha != ZERO_DIGEST
  {
    hide ValidIdentity, RecordPreimage;
    RecordSealApart(h, r, RecordSha(sha, h, r));
  }

  lemma EnqueueMade(sha: Sha, h: Header, id: Identity)
    requires NeverZero(sha) && ValidHeader(sha, h) && ValidIdentity(sha, h, id)
    ensures Enqueue(sha, h, id).Success?
    ensures var a := Enqueue(sha, h, id).value;
            && a.kind == EVENT_ENQUEUED && a.identity == id && a.previousJournal == h.headerSha
            && a.recordSha != ZERO_DIGEST
  {
    hide ValidIdentity, HeaderPreimage, RecordPreimage, ValidRecord;
    SealedValid(sha, h, Record(RECORD_ABI, 1, EVENT_ENQUEUED, 0, id, ZERO_DIGEST, h.headerSha,
                               ZERO_DIGEST, ZERO_DIGEST, ZERO_DIGEST, ZERO_DIGEST));
  }

  lemma IntentMade(sha: Sha, h: Header, a: Record)
    requires NeverZero(sha) && ValidHeader(sha, h) && ValidIdentity(sha, h, a.identity)
    requires a.recordSha != ZERO_DIGEST
    ensures Intent(sha, h, a).Success?
    ensures var b := Intent(sha, h, a).value;
            b.kind == EVENT_DISPATCH_INTENT && b.previousJournal == a.recordSha
  {
    hide ValidIdentity, HeaderPreimage, RecordPreimage, ValidRecord;
    SealedValid(sha, h, Record(RECORD_ABI, 2, EVENT_DISPATCH_INTENT, 1, a.identity, a.recordSha,
                               a.recordSha, DispatchRequestSha(sha, h, a.identity, 1),
                               ZERO_DIGEST, ZERO_DIGEST, ZERO_DIGEST));
  }

  /** The two records form journals. */
  lemma TwoJournals(sha: Sha, h: Header, id: Identity)
    requires NeverZero(sha) && ValidHeader(sha, h) && ValidIdentity(sha, h, id)
    requires id.purpose == PURPOSE_PRIMARY && h.maximumRecords >= 2
    ensures Enqueue(sha, h, id).Success? && Intent(sha, h, Enqueue(sha, h, id).value).Success?
    ensures var a := Enqueue(sha, h, id).value;
            var b := Intent(sha, h, a).value;
            && Journals(sha, h, []) && Journals(sha, h, [a]) && Journals(sha, h, [a, b])
            && a.kind == EVENT_ENQUEUED && b.kind == EVENT_DISPATCH_INTENT
  {
    hide ValidHeader, ValidIdentity, Replay, ApplyRecord, MakeEnqueuedRecord,
      MakeTransitionRecord, AcceptsEnqueued;
    EnqueueMade(sha, h, id);
    var a := Enqueue(sha, h, id).value;
    IntentMade(sha, h, a);
    var b := Intent(sha, h, a).value;
    var none: seq<Record> := [];
    assert none + [a] == [a] && [a] + [b] == [a, b];
    NothingReplayed(sha, h);
    HeaderLimits(sha, h);
    AcceptsFirst(h, a);
    MadeEnqueueReplays(sha, h, none, h.headerSha, id);
    FirstState(sha, h, a);
    MadeRecordReplays(sha, h, [a], 0, a.recordSha, EVENT_DISPATCH_INTENT, 1, ZERO_DIGEST,
                      ZERO_DIGEST);
    assert [a][..0] == [] && [a, b][..0] == [] && [a, b][..1] == [a];
  }

  lemma NothingReplayed(sha: Sha, h: Header)
    ensures Replay(sha, h, []) == Success(Replayed([], EMPTY_LEDGER))
  {
  }

  lemma HeaderLimits(sha: Sha, h: Header)
    requires ValidHeader(sha, h)
    ensures h.maximumRecords <= MAXIMUM_SUPPORTED_RECORDS && h.maximumActions > 0
  {
  }

  lemma AcceptsFirst(h: Header, a: Record)
    requires a.kind == EVENT_ENQUEUED && a.identity.purpose == PURPOSE_PRIMARY
    requires h.maximumActions > 0
    ensures AcceptsEnqueued(h, a, [])
  {
  }

  lemma FirstState(sha: Sha, h: Header, a: Record)
    requires Replay(sha, h, [a]).Success? && a.kind == EVENT_ENQUEUED
    ensures Replay(sha, h, [a]).value.states == [MakeState(a)]
  {
    hide ApplyRecord, ValidHeader, ValidRecord, DispatchRequestSha;
    var none: seq<Record> := [];
    assert none + [a] == [a];
    ReplayAppend(sha, h, none, a);
    var i := ApplyRecordInversion(sha, h, a, [], EMPTY_LEDGER);
  }

  /** A new storage on a header alone makes the scene. */
  lemma NewScene(g: Config, h: Header, id: Identity, maximum: nat)
    requires g.Matched() && NeverZero(g.env.sha) && g.env.epoch != 0
    requires g.env.header == h.headerSha && Boundary(2) <= maximum <= U64_MAX
    requires ValidHeader(g.env.sha, h) && ValidIdentity(g.env.sha, h, id)
    requires id.purpose == PURPOSE_PRIMARY && h.maximumRecords >= 2
    ensures Start(g.env, HeaderPrint(h), maximum).Success?
    ensures Enqueue(g.env.sha, h, id).Success?
    ensures var w := World(Start(g.env, HeaderPrint(h), maximum).value, Svc.NO_EXCHANGE);
            var a := Enqueue(g.env.sha, h, id).value;
            Intent(g.env.sha, h, a).Success?
            && Scene(g, w, h, a, Intent(g.env.sha, h, a).value)
  {
    hide ValidHeader, ValidIdentity, Good, Fresh, Journals, Enqueue, Intent, ContentSnapshot,
      HeaderPrint, Recovered, Sound;
    var e := g.env;
    TwoJournals(e.sha, h, id);
    PrintedSnapshot(e, h, [], maximum);
    StartGood(e, HeaderPrint(h), maximum);
    var s := Start(e, HeaderPrint(h), maximum).value;
    GoodMeans(e, s);
    StartFresh(g, HeaderPrint(h), maximum);
  }

  // ---------------------------------------------------------------------------------------
  // Samples
  // ---------------------------------------------------------------------------------------

  function SampleHeader(sha: Sha): Header {
    var h := Header(HEADER_ABI, 0, 1, 1, 1, 1, 2, 1, REQUIRED_CAPABILITIES,
                    Samples.SampleDescriptor(sha).descriptorSha, Repeated(4), Repeated(5),
                    ZERO_DIGEST);
    h.(headerSha := sha(HeaderPreimage(h)))
  }

  function SampleIdentity(sha: Sha): Identity {
    var x, h := Repeated(1), SampleHeader(sha);
    var id := Identity(IDENTITY_ABI, PURPOSE_PRIMARY, 1, 1, ZERO_DIGEST, x, x, x, x, x, x, x, x, x,
                       ZERO_DIGEST, ZERO_DIGEST);
    var named := id.(action := sha(ActionPreimage(h, id)));
    named.(stableRequest := sha(StableRequestPreimage(h, named)))
  }

  function SampleConfig(sha: Sha): Config {
    Config(Env(sha, SampleHeader(sha).headerSha, 1), Samples.SampleService(sha, 1))
  }

  /** For every hash without a zero digest there is a header and an action for the scene. */
  lemma SamplesValid(sha: Sha)
    requires NeverZero(sha)
    ensures ValidHeader(sha, SampleHeader(sha))
    ensures ValidIdentity(sha, SampleHeader(sha), SampleIdentity(sha))
    ensures Serves(Samples.SampleService(sha, 1), SampleHeader(sha))
  {
    hide Repeated, HeaderPreimage, ActionPreimage, StableRequestPreimage, DescriptorSha;
    Samples.SamplesServe(sha, 1);
    RepeatedAt(1);
    RepeatedAt(4);
    RepeatedAt(5);
    HeaderSealApart(SampleHeader(sha));
    ActionSealApart(SampleHeader(sha), SampleIdentity(sha));
    IdentityDigestsNonZero(sha);
  }

  lemma HeaderSealApart(h: Header)
    ensures HeaderPreimage(h) == HeaderPreimage(h.(headerSha := ZERO_DIGEST))
  {
    hide PackWords, JoinDigests;
  }

  /** Neither root of an identity is part of what the action root covers. */
  lemma ActionSealApart(h: Header, id: Identity)
    ensures ActionPreimage(h, id)
            == ActionPreimage(h, id.(action := ZERO_DIGEST, stableRequest := ZERO_DIGEST))
    ensures StableRequestPreimage(h, id)
            == StableRequestPreimage(h, id.(stableRequest := ZERO_DIGEST))
  {
    hide LE64, LE8, JoinDigests;
  }

  lemma IdentityDigestsNonZero(sha: Sha)
    requires NeverZero(sha)
    ensures forall i :: 1 <= i < 12 ==> IdentityDigests(SampleIdentity(sha))[i] != ZERO_DIGEST
  {
    hide Repeated, ActionPreimage, StableRequestPreimage, SampleHeader;
    RepeatedAt(1);
  }

  lemma SampleLimits(sha: Sha)
    ensures SampleIdentity(sha).purpose == PURPOSE_PRIMARY && SampleHeader(sha).maximumRecords == 2
    ensures SampleConfig(sha).Matched() && Boundary(2) <= U64_MAX
  {
    hide Repeated, HeaderPreimage, ActionPreimage, StableRequestPreimage, DescriptorSha;
  }

  /** The whole story from a new storage, for every hash without a zero digest. */
  lemma UnsyncedFromStart(sha: Sha)
    requires NeverZero(sha)
    ensures var g, h := SampleConfig(sha), SampleHeader(sha);
            Start(g.env, HeaderPrint(h), Boundary(2)).Success?
            && Enqueue(sha, h, SampleIdentity(sha)).Success?
            && var a := Enqueue(sha, h, SampleIdentity(sha)).value;
               var w := World(Start(g.env, HeaderPrint(h), Boundary(2)).value, Svc.NO_EXCHANGE);
               Intent(sha, h, a).Success?
               && Scene(g, w, h, a, Intent(sha, h, a).value) && Serves(g.service, h)
  {
    hide SampleHeader, SampleIdentity, Enqueue, Intent, Start, Scene, HeaderPrint, Serves,
      ValidHeader, ValidIdentity, Samples.SampleService;
    SamplesValid(sha);
    SampleLimits(sha);
    NewScene(SampleConfig(sha), SampleHeader(sha), SampleIdentity(sha), Boundary(2));
  }
}
