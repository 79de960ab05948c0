/**
 * The whole system: the crash-storage machine, the journal it holds, and the fenced service,
 * with every handle, request and reply ever made still in play.
 */
module OutboxSystem {
  import opened Bytes
  import opened Outbox
  import opened OutboxWire
  import opened OutboxRecovery
  import opened OutboxLaws
  import opened OutboxStorage
  import opened OutboxStorageSteps
  import opened OutboxStorageRuns
  import opened OutboxJournalSteps
  import opened Adapter
  import Authority
  import Fences = AuthorityFence
  import Svc = OutboxService

  datatype Config = Config(env: Env, service: Authority.Service)
  {
    /** Storage and service use one hash function. */
    ghost predicate Matched() {
      env.sha == service.sha
    }
  }

  datatype World = World(sys: Sys, x: Svc.Exchange)

  /** Storage actions, requests sent from the durable journal, and deliveries to the service. */
  datatype Event =
    | Store(action: Action)
    | SendDispatch(record: nat)
    | SendStatus(state: nat, ordinal: u64)
    | Deliver(call: Authority.Call)

  function JournalOf(g: Config, w: World): Recovery
    requires Good(g.env, w.sys)
  {
    GoodMeans(g.env, w.sys);
    Journal(g.env, w.sys.disk)
  }

  function DurableRecords(g: Config, w: World): (r: seq<Record>)
    requires Good(g.env, w.sys)
  {
    GoodMeans(g.env, w.sys);
    DurableCounted(g.env, w.sys.disk);
    JournalOf(g, w).records[..Durable(w.sys.disk)]
  }

  ghost predicate Holds(g: Config, w: World) {
    && g.Matched() && Good(g.env, w.sys)
    && HEADER_BYTES <= CrashLower(w.sys.disk)
    && Svc.Inv(g.service, JournalOf(g, w).header, JournalOf(g, w).records, Durable(w.sys.disk),
               w.x)
  }

  /** The outbox only hands over records that it may journal. */
  ghost predicate MayHandOver(g: Config, w: World, encoded: Bytes)
    requires Good(g.env, w.sys)
  {
    var j := JournalOf(g, w);
    var next := NextRecord(g.env.sha, j.header, j.records, encoded);
    next.Success? ==> Svc.Justified(g.service, w.x, next.value)
  }

  ghost function StoreStep(g: Config, w: World, a: Action): World
    requires Good(g.env, w.sys)
  {
    GoodMeans(g.env, w.sys);
    if a.Append? && !MayHandOver(g, w, a.encoded) then w
    else w.(sys := Step(g.env, w.sys, a))
  }

  ghost function SendDispatchStep(g: Config, w: World, j: nat): World
    requires Good(g.env, w.sys)
  {
    if j >= |DurableRecords(g, w)| then w
    else
      var q := MakeDispatchRequest(g.service.sha, g.service.descriptor, JournalOf(g, w).header,
                                   DurableRecords(g, w)[j]);
      if q.Failure? then w
      else w.(x := w.x.(dispatches := w.x.dispatches + {q.value}))
  }

  ghost function SendStatusStep(g: Config, w: World, i: nat, ordinal: u64): World
    requires Good(g.env, w.sys)
  {
    var replayed := Replay(g.service.sha, JournalOf(g, w).header, DurableRecords(g, w));
    if replayed.Failure? || i >= |replayed.value.states| then w
    else
      var q := MakeStatusRequest(g.service.sha, g.service.descriptor, JournalOf(g, w).header,
                                 replayed.value.states[i], ordinal);
      if q.Failure? then w else w.(x := w.x.(statuses := w.x.statuses + {q.value}))
  }

  ghost function Next(g: Config, w: World, v: Event): World
    requires Good(g.env, w.sys)
  {
    match v
    case Store(a) => StoreStep(g, w, a)
    case SendDispatch(j) => SendDispatchStep(g, w, j)
    case SendStatus(i, ordinal) => SendStatusStep(g, w, i, ordinal)
    case Deliver(c) =>
      if Svc.Deliverable(w.x, c) then w.(x := Svc.Delivered(g.service, w.x, c)) else w
  }

  lemma NextGood(g: Config, w: World, v: Event)
    requires Good(g.env, w.sys)
    ensures Good(g.env, Next(g, w, v).sys)
  {
    hide Good, Svc.Delivered, MayHandOver, Step;
    if v.Store? {
      GoodMeans(g.env, w.sys);
      StepGood(g.env, w.sys, v.action);
    }
  }

  ghost function Runs(g: Config, w: World, events: seq<Event>): (r: World)
    requires Good(g.env, w.sys)
    ensures Good(g.env, r.sys)
  {
    if events == [] then w
    else
      var before := Runs(g, w, events[..|events| - 1]);
      NextGood(g, before, events[|events| - 1]);
      Next(g, before, events[|events| - 1])
  }

  // ---------------------------------------------------------------------------------------
  // Every event keeps the invariant
  // ---------------------------------------------------------------------------------------

  lemma CutHolds(g: Config, w: World, after: Sys)
    requires Holds(g, w) && Good(g.env, after)
    requires JournalCut(g.env, w.sys.disk, after.disk)
    ensures Holds(g, w.(sys := after))
  {
    hide Good, Sound, Svc.Inv, Recovered, WholeRecords;
    GoodMeans(g.env, w.sys);
    GoodMeans(g.env, after);
    DurableCounted(g.env, w.sys.disk);
    var j := JournalOf(g, w);
    Svc.CutKeeps(g.service, j.header, j.records, Durable(w.sys.disk), w.x,
                 |Journal(g.env, after.disk).records|, Durable(after.disk));
  }

  lemma GrownHolds(g: Config, w: World, after: Sys, encoded: Bytes)
    requires Holds(g, w) && Good(g.env, after)
    requires MayHandOver(g, w, encoded) && Svc.RootsDistinct(g.service, w.x)
    requires JournalGrown(g.env, w.sys.disk, after.disk, encoded)
    ensures Holds(g, w.(sys := after))
  {
    hide Good, Sound, Svc.Inv, Svc.Justified, Svc.RootsDistinct, Recovered, WholeRecords,
      DecodeRecord;
    GoodMeans(g.env, w.sys);
    GoodMeans(g.env, after);
    var j := JournalOf(g, w);
    var r := NextRecord(g.env.sha, j.header, j.records, encoded).value;
    var records := j.records + [r];
    NextReplays(g.env.sha, j.header, j.records, encoded);
    Svc.AppendKeeps(g.service, j.header, j.records, Durable(w.sys.disk), w.x, r);
    Svc.CutKeeps(g.service, j.header, records, Durable(w.sys.disk), w.x, |records|,
                 Durable(after.disk));
    assert records[..|records|] == records;
  }

  lemma NextReplays(sha: Sha, h: Header, records: seq<Record>, frame: Bytes)
    requires NextRecord(sha, h, records, frame).Success?
    ensures Replay(sha, h, records + [NextRecord(sha, h, records, frame).value]).Success?
  {
  }

  lemma StoreHolds(g: Config, w: World, a: Action)
    requires Holds(g, w) && Svc.RootsDistinct(g.service, w.x)
    ensures Holds(g, StoreStep(g, w, a))
  {
    hide Good, Holds, MayHandOver, Svc.RootsDistinct, JournalCut, JournalGrown, Step;
    HoldsGood(g, w);
    GoodMeans(g.env, w.sys);
    StepGood(g.env, w.sys, a);
    ActionJournal(g.env, w.sys, a);
    var after := Step(g.env, w.sys, a);
    if JournalCut(g.env, w.sys.disk, after.disk) {
      CutHolds(g, w, after);
    } else if MayHandOver(g, w, a.encoded) {
      GrownHolds(g, w, after, a.encoded);
    }
  }

  lemma HoldsGood(g: Config, w: World)
    requires Holds(g, w)
    ensures Good(g.env, w.sys)
  {
  }

  lemma SendDispatchHolds(g: Config, w: World, j: nat)
    requires Holds(g, w)
    ensures Holds(g, SendDispatchStep(g, w, j))
  {
    hide Good, Svc.Inv, Recovered, WholeRecords, MakeDispatchRequest;
    GoodMeans(g.env, w.sys);
    DurableCounted(g.env, w.sys.disk);
    var o := JournalOf(g, w);
    var records := DurableRecords(g, w);
    if j < |records| {
      assert records[j] == o.records[j];
      if MakeDispatchRequest(g.service.sha, g.service.descriptor, o.header,
                             o.records[j]).Success? {
        Svc.SendDispatchKeeps(g.service, o.header, o.records, Durable(w.sys.disk), w.x, j);
      }
    }
  }

  lemma SendStatusHolds(g: Config, w: World, i: nat, ordinal: u64)
    requires Holds(g, w)
    ensures Holds(g, SendStatusStep(g, w, i, ordinal))
  {
    hide Good, Svc.Inv, Recovered, WholeRecords, MakeStatusRequest, Replay;
    var o := JournalOf(g, w);
    var durable := DurableRecords(g, w);
    var replayed := Replay(g.service.sha, o.header, durable);
    if replayed.Success? && i < |replayed.value.states|
       && MakeStatusRequest(g.service.sha, g.service.descriptor, o.header,
                            replayed.value.states[i], ordinal).Success? {
      Svc.SendStatusKeeps(g.service, o.header, o.records, Durable(w.sys.disk), w.x, i, ordinal);
    }
  }

  lemma NextHolds(g: Config, w: World, v: Event)
    requires Holds(g, w) && Svc.RootsDistinct(g.service, w.x)
    ensures Holds(g, Next(g, w, v))
  {
    hide Good, StoreStep, SendDispatchStep, SendStatusStep, Svc.RootsDistinct,
      Svc.Inv, Recovered, Svc.Delivered;
    match v
    case Store(a) => StoreHolds(g, w, a);
    case SendDispatch(j) => SendDispatchHolds(g, w, j);
    case SendStatus(i, ordinal) => SendStatusHolds(g, w, i, ordinal);
    case Deliver(c) =>
      if Svc.Deliverable(w.x, c) {
        var o := JournalOf(g, w);
        Svc.DeliverKeeps(g.service, o.header, o.records, Durable(w.sys.disk), w.x, c);
      }
  }

  /** Requests are never unsent, so what does not collide now did not collide before. */
  lemma RootsWereDistinct(g: Config, w: World, v: Event)
    requires Good(g.env, w.sys) && Svc.RootsDistinct(g.service, Next(g, w, v).x)
    ensures Svc.RootsDistinct(g.service, w.x)
  {
    hide Good, MayHandOver, DispatchPreimage, StatusPreimage, Step, MakeDispatchRequest,
      MakeStatusRequest, Replay;
    var after := Next(g, w, v);
    DeliveredSends(g, w, v);
    assert w.x.dispatches <= after.x.dispatches && w.x.statuses <= after.x.statuses;
    assert DispatchPreimages(w.x.dispatches) <= DispatchPreimages(after.x.dispatches);
    assert StatusPreimages(w.x.statuses) <= StatusPreimages(after.x.statuses);
  }

  lemma DeliveredSends(g: Config, w: World, v: Event)
    ensures v.Deliver? ==>
              var after := Svc.Delivered(g.service, w.x, v.call);
              after.dispatches == w.x.dispatches && after.statuses == w.x.statuses
  {
  }

  lemma {:induction false} RunHolds(g: Config, w: World, events: seq<Event>)
    requires Holds(g, w) && Svc.RootsDistinct(g.service, Runs(g, w, events).x)
    ensures Holds(g, Runs(g, w, events))
  {
    hide Good, Holds, Next, Svc.RootsDistinct;
    HoldsGood(g, w);
    if events != [] {
      var before := Runs(g, w, events[..|events| - 1]);
      RootsWereDistinct(g, before, events[|events| - 1]);
      RunHolds(g, w, events[..|events| - 1]);
      NextHolds(g, before, events[|events| - 1]);
    }
  }

  // ---------------------------------------------------------------------------------------
  // End-to-end agreement
  // ---------------------------------------------------------------------------------------

  ghost predicate AllAgree(states: seq<State>, a: Authority.Registry) {
    forall i | 0 <= i < |states| :: Svc.Agrees(states[i], a)
  }

  lemma JournalAgrees(g: Config, w: World)
    requires Holds(g, w)
    ensures AllAgree(JournalOf(g, w).states, w.x.registry)
  {
    hide Good, Svc.Inv, Recovered, WholeRecords, Svc.Agrees, Replay;
    GoodMeans(g.env, w.sys);
    DurableCounted(g.env, w.sys.disk);
    var j := JournalOf(g, w);
    Svc.InvAgrees(g.service, j.header, j.records, Durable(w.sys.disk), w.x, |j.records|);
    assert j.records[..|j.records|] == j.records;
    JournalStates(g.env, w.sys.disk.Stream());
    assert Svc.States(g.service, j.header, j.records) == j.states;
  }

  lemma JournalStates(e: Env, b: Bytes)
    requires Recovered(e.sha, b, e.header).Success?
    ensures var r := Recovered(e.sha, b, e.header).value;
            Replay(e.sha, r.header, r.records).Success?
            && r.states == Replay(e.sha, r.header, r.records).value.states
  {
    hide Recovered, DecodeHeader, Committed, Replay;
    RecoveredExactly(e.sha, b, e.header);
    var r := Recovered(e.sha, b, e.header).value;
    ReportNames(e.sha, r.header, r.records, |b|);
  }

  /** An empty journal and a service that has seen nothing. */
  ghost predicate Fresh(g: Config, w: World) {
    && g.Matched() && Good(g.env, w.sys) && w.x == Svc.NO_EXCHANGE
    && JournalOf(g, w).records == []
  }

  /** A storage opened on a header, torn tail or not, and an unused service. */
  lemma StartFresh(g: Config, initial: Bytes, maximum: nat)
    requires g.Matched() && Start(g.env, initial, maximum).Success?
    requires |initial| < Boundary(1)
    ensures Fresh(g, World(Start(g.env, initial, maximum).value, Svc.NO_EXCHANGE))
  {
    hide Good, Recovered, WholeRecords, Start;
    StartGood(g.env, initial, maximum);
    var s := Start(g.env, initial, maximum).value;
    GoodMeans(g.env, s);
    DurableCounted(g.env, s.disk);
    OnlyHeader(s.disk.length);
  }

  lemma OnlyHeader(length: nat)
    requires HEADER_BYTES <= length < Boundary(1)
    ensures WholeRecords(length) == 0
  {
  }

  lemma FreshHolds(g: Config, w: World)
    requires Fresh(g, w)
    ensures Holds(g, w)
  {
    hide Good, Svc.Inv, Recovered, WholeRecords;
    GoodMeans(g.env, w.sys);
    DurableCounted(g.env, w.sys.disk);
    Svc.StartInv(g.service, JournalOf(g, w).header);
  }

  /**
   * End-to-end agreement. In every run from a fresh start, with records journalled only when
   * justified, requests sent only for what is durable and then delayed, duplicated or
   * reordered at will, replies lost, calls faulted, leases dropped and the storage crashed at
   * any point: the journal one reads, now or after a crash at any persistence point, agrees
   * with the service action by action, unless two requests that were sent collide.
   */
  lemma EndToEndAgreement(g: Config, w: World, events: seq<Event>, p: nat)
    requires Fresh(g, w)
    requires Svc.RootsDistinct(g.service, Runs(g, w, events).x)
    ensures var now := Runs(g, w, events);
            && AllAgree(JournalOf(g, now).states, now.x.registry)
            && Readable(g.env, CrashPersist(now.sys.disk, p))
            && AllAgree(Journal(g.env, CrashPersist(now.sys.disk, p)).states, now.x.registry)
  {
    hide Good, Holds, AllAgree, CrashPersist, Svc.RootsDistinct, Recovered, Sound, Runs, Step;
    FreshHolds(g, w);
    RunHolds(g, w, events);
    var now := Runs(g, w, events);
    JournalAgrees(g, now);
    GoodMeans(g.env, now.sys);
    var crashed := Crashed(g, now, p);
    JournalAgrees(g, crashed);
  }

  lemma Crashed(g: Config, w: World, p: nat) returns (after: World)
    requires Holds(g, w) && Svc.RootsDistinct(g.service, w.x)
    ensures Holds(g, after) && Good(g.env, after.sys)
    ensures after.x == w.x && w.sys.disk.Bounded()
    ensures after.sys.disk == CrashPersist(w.sys.disk, p)
    ensures Readable(g.env, after.sys.disk)
  {
    hide Good, Holds, CrashPersist, Svc.RootsDistinct, Recovered, Sound;
    HoldsGood(g, w);
    GoodMeans(g.env, w.sys);
    after := StoreStep(g, w, Store(Crash(p)).action);
    StoreHolds(g, w, Crash(p));
    HoldsGood(g, after);
    GoodMeans(g.env, after.sys);
    DurableCounted(g.env, after.sys.disk);
  }

  /** How many events of a run applied `stable` at the service. */
  ghost function Applications(g: Config, w: World, events: seq<Event>, stable: Digest): nat
    requires Good(g.env, w.sys)
  {
    if events == [] then 0
    else
      var most := events[..|events| - 1];
      var before, after := Runs(g, w, most).x.registry, Runs(g, w, events).x.registry;
      Applications(g, w, most, stable)
      + (if !Fences.Settled(before, stable) && Fences.Settled(after, stable) then 1 else 0)
  }

  lemma NextRegistry(g: Config, w: World, v: Event)
    requires Good(g.env, w.sys) && Fences.Sound(w.x.registry)
    ensures var after := Next(g, w, v).x.registry;
            Fences.Sound(after) && Fences.Grows(w.x.registry, after)
  {
    hide Good, MayHandOver, Fences.Sound, Fences.Grows, Step, Authority.After, Replay,
      MakeDispatchRequest, MakeStatusRequest;
    Fences.SameSound(w.x.registry);
    if v.Deliver? {
      Fences.CallSound(g.service, w.x.registry, v.call);
    }
  }

  /** Each stable request is applied at most once over the whole life of the system. */
  lemma {:induction false} AppliedAtMostOnce(g: Config, w: World, events: seq<Event>,
    stable: Digest)
    requires Good(g.env, w.sys) && w.x == Svc.NO_EXCHANGE
    ensures Fences.Sound(Runs(g, w, events).x.registry)
    ensures Applications(g, w, events, stable)
            == (if Fences.Settled(Runs(g, w, events).x.registry, stable) then 1 else 0)
  {
    hide Good, Next, Fences.Sound;
    if events == [] {
      Fences.EmptySound();
    } else {
      var most := events[..|events| - 1];
      AppliedAtMostOnce(g, w, most, stable);
      NextRegistry(g, Runs(g, w, most), events[|events| - 1]);
      assert Runs(g, w, events) == Next(g, Runs(g, w, most), events[|events| - 1]);
    }
  }
}
