/**
 * The sweep writer and repairer as mutable objects over the deterministic storage; each leaves
 * the storage and itself exactly as the functions of SweepWriter say.
 */
module SweepWriterClass {
  import opened Bytes
  import opened ObjectStore
  import opened SweepRecord
  import opened SweepRecovery
  import opened SweepWriter
  import D = OutboxStorage
  import opened OutboxStorageClasses

  /** The append writer: it poisons itself before the first byte and recovers on success. */
  class Appender {
    const cfg: Config
    const storage: DeterministicStorage
    const capability: Observed
    const epoch: u64
    var position: Position
    var committedBytes: nat
    var exhausted: bool
    var state: Handle

    function View(): SweepWriter.Writer
      reads this
    {
      SweepWriter.Writer(capability, epoch, position, committedBytes, exhausted, state)
    }

    constructor (cfg: Config, storage: DeterministicStorage, w: SweepWriter.Writer)
      ensures this.cfg == cfg && this.storage == storage && View() == w
    {
      this.cfg, this.storage, capability, epoch := cfg, storage, w.capability, w.epoch;
      position, committedBytes, exhausted := w.position, w.committedBytes, w.exhausted;
      state := w.state;
    }

    method AcceptNow(encoded: Bytes) returns (r: Result<Decoded, WriterError>)
      requires storage.Valid()
      ensures r == Accept(cfg, storage.View(), View(), encoded)
    {
      hide Decode;
      if state != Idle {
        return Failure(MustReopen);
      }
      var g := capability.generation;
      if g == 0 || storage.activeGeneration != g || storage.appendGeneration != g
         || storage.appendSnapshotSha != capability.snapshotSha
         || storage.length != committedBytes {
        return Failure(StaleCapability);
      }
      if exhausted {
        return Failure(SequenceExhausted);
      }
      var d := Decode(cfg, encoded);
      if d.Failure? {
        return Failure(NotARecord);
      }
      if !MatchesAt(d.value, epoch, position) {
        return Failure(WrongPosition);
      }
      if committedBytes + |encoded| > capability.maximum {
        return Failure(StreamFull);
      }
      return Success(d.value);
    }

    method FourCalls(body: Bytes, footer: Bytes) returns (error: Option<D.StoreError>)
      requires storage.Valid()
      modifies storage`callIndex, storage`length, storage`syncedLength, storage`expectedPhase,
        storage.backing
      ensures storage.Valid()
      ensures D.Effect(storage.View(), error)
              == AppendCalls(old(storage.View()), capability.generation, body, footer)
    {
      hide D.AppendIo, D.SyncIo;
      var g := capability.generation;
      error := storage.Append(g, D.BodyWrite, D.BodySync, body);
      if error.Some? {
        return;
      }
      error := storage.Sync(g, D.BodySync, D.FooterWrite);
      if error.Some? {
        return;
      }
      error := storage.Append(g, D.FooterWrite, D.FooterSync, footer);
      if error.Some? {
        return;
      }
      error := storage.Sync(g, D.FooterSync, D.BodyWrite);
    }

    method AppendNow(encoded: Bytes) returns (reply: Result<Decoded, WriterError>)
      requires storage.Valid()
      modifies this, storage`callIndex, storage`length, storage`syncedLength,
        storage`expectedPhase, storage.backing
      ensures storage.Valid()
      ensures Appended(storage.View(), View(), reply)
              == AppendRecord(cfg, old(storage.View()), old(View()), encoded)
    {
      hide Decode, AppendCalls;
      var accepted := AcceptNow(encoded);
      if accepted.Failure? {
        return accepted;
      }
      AcceptedLength(cfg, storage.View(), View(), encoded);
      state := Poisoned;
      var error := FourCalls(encoded[..BODY_BYTES], encoded[BODY_BYTES..]);
      if error.Some? {
        return Failure(Io(error.value));
      }
      committedBytes := committedBytes + |encoded|;
      position := Following(accepted.value);
      exhausted := position.sequence > U64_MAX;
      state := Idle;
      return accepted;
    }
  }

  lemma AcceptedLength(cfg: Config, d: D.Disk, w: SweepWriter.Writer, encoded: Bytes)
    requires Accept(cfg, d, w, encoded).Success?
    ensures |encoded| == ENCODED_BYTES && w.state == Idle
  {
  }

  /** Truncation and sync of a torn tail, bound to the length that was observed. */
  class TailRepairer {
    const storage: DeterministicStorage
    const capability: SweepWriter.RepairCapability
    const expectedBytes: nat
    var state: Handle

    constructor (storage: DeterministicStorage, capability: SweepWriter.RepairCapability,
      expectedBytes: nat)
      ensures this.storage == storage && this.capability == capability && state == Idle
      ensures this.expectedBytes == expectedBytes
    {
      this.storage, this.capability, this.expectedBytes := storage, capability, expectedBytes;
      state := Idle;
    }

    method TruncateNow() returns (error: Option<D.StoreError>)
      requires storage.Valid()
      modifies storage`callIndex, storage`length, storage`expectedPhase
      ensures storage.Valid()
      ensures D.Effect(storage.View(), error)
              == Truncate(Session(old(storage.View()), expectedBytes), capability)
    {
      if storage.repairGeneration != capability.generation
         || storage.repairSnapshotSha != capability.snapshotSha {
        return Some(D.StaleAuthority);
      }
      var entry := storage.Begin(capability.generation, D.RepairTruncate, false);
      if entry.Refused? {
        return Some(entry.error);
      }
      if storage.length != expectedBytes || storage.repairTargetBytes > expectedBytes {
        return Some(D.RepairTargetChanged);
      }
      storage.length, storage.expectedPhase := storage.repairTargetBytes, D.RepairSync;
      return if entry.fault.Some? then Some(D.Injected) else None;
    }

    method ApplyNow() returns (error: Option<WriterError>)
      requires storage.Valid()
      modifies this`state, storage`callIndex, storage`length, storage`syncedLength,
        storage`expectedPhase
      ensures storage.Valid()
      ensures Repaired(storage.View(), state, error)
              == ApplyRepair(Session(old(storage.View()), expectedBytes), capability, old(state))
    {
      hide Truncate, D.SyncIo;
      if state != Idle {
        return Some(MustReopen);
      }
      if capability.generation == 0 || storage.activeGeneration != capability.generation {
        return Some(StaleCapability);
      }
      state := Poisoned;
      var e := TruncateNow();
      if e.Some? {
        return Some(Io(e.value));
      }
      e := storage.Sync(capability.generation, D.RepairSync, D.BodyWrite);
      if e.Some? {
        return Some(Io(e.value));
      }
      state := Complete;
      return None;
    }
  }
}
