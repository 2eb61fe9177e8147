/** The outbox as the class that updates its fields, tied to the step machine. */
module BridgeOutboxClass {
  import opened Protocol
  import opened OutboxDirectory
  import opened OutboxLoad
  import opened Outbox

  class BridgeOutbox {
    var entries: map<string, Entry>
    var nextSequence: nat
    var writes: seq<Job>
    var writing: bool
    var disk: Disk
    var tickets: nat
    ghost var settled: seq<Settlement>
    ghost var committed: set<string>
    ghost var acks: seq<(string, nat)>

    ghost function Value(writer: Writer): State
      reads this
    {
      State(Memory(entries, nextSequence), disk, writes, writer, tickets, settled, committed, acks)
    }

    constructor (disk: Disk)
      ensures Value(Idle) == State(Memory(map[], 1), disk, [], Idle, 0, [], {}, []) && !writing
    {
      this.disk := disk;
      entries, nextSequence, writes, writing, tickets := map[], 1, [], false, 0;
      settled, committed, acks := [], {}, [];
    }

    /** The scan of `load`: a verdict on every file. */
    static method Scan(files: seq<File>) returns (loaded: seq<Entry>, verdicts: map<FileName, Verdict>)
      ensures LoadState(loaded, verdicts) == LoadAll(files)
    {
      loaded, verdicts := [], map[];
      var sequences: set<nat>, eventIds: set<string> := {}, {};
      for i := 0 to |files|
        invariant LoadState(loaded, verdicts) == LoadAll(files[..i])
        invariant sequences == set e | e in loaded :: e.sequence
        invariant eventIds == set e | e in loaded :: e.event.eventId
      {
        var f := files[i];
        assert files[..i + 1][..i] == files[..i];
        var fault := Fault(f.name, f.content);
        if fault.Some? {
          verdicts := verdicts[f.name := fault.value];
        } else if f.name.number in sequences {
          verdicts := verdicts[f.name := Quarantined(DuplicateSequence)];
        } else if f.content.event.eventId in eventIds {
          verdicts := verdicts[f.name := Quarantined(DuplicateEvent)];
        } else {
          sequences := sequences + {f.name.number};
          eventIds := eventIds + {f.content.event.eventId};
          loaded := loaded + [Entry(f.name.number, f.name, f.content.event)];
          verdicts := verdicts[f.name := Loaded];
        }
      }
      assert files[..|files|] == files;
    }

    /** `load`: scan the directory, remove the rejected files, fill the entries. */
    method Load(files: seq<File>)
      requires Value(Idle) == State(Memory(map[], 1), disk, [], Idle, 0, [], {}, [])
      requires IsListing(files, disk.View())
      modifies this`entries, this`nextSequence, this`disk
      ensures Value(Idle) == Reboot(old(Value(Idle)), old(disk), files)
    {
      var loaded, verdicts := Scan(files);
      var kept := Survivors(LoadState(loaded, verdicts), disk.View());
      if kept != disk.View() {
        disk := Disk(kept, []);
      }
      Fill(loaded);
    }

    method Fill(loaded: seq<Entry>)
      requires entries == map[] && nextSequence == 1
      modifies this`entries, this`nextSequence
      ensures entries == EntriesOf(loaded) && nextSequence == NextAfter(loaded)
    {
      for i := 0 to |loaded|
        invariant entries == EntriesOf(loaded[..i]) && nextSequence == NextAfter(loaded[..i])
      {
        assert loaded[..i + 1][..i] == loaded[..i];
        entries := entries[loaded[i].event.eventId := loaded[i]];
        if nextSequence < loaded[i].sequence + 1 {
          nextSequence := loaded[i].sequence + 1;
        }
      }
      assert loaded[..|loaded|] == loaded;
    }

    /** `enqueue`, while the writer is in the state given: idle exactly when `writing` is false. */
    method Enqueue(request: Request, ghost writer: Writer)
      requires writer.Idle? <==> !writing
      modifies this`writes, this`writing, this`tickets
      ensures writing
      ensures Value(if old(writing) then writer else Scheduled) == After(old(Value(writer)), Step.Enqueue(request))
    {
      writes := writes + [Job(tickets, request)];
      tickets := tickets + 1;
      if !writing {
        writing := true;
      }
    }

    /** What other code enqueues while the writer waits for a file operation or a sync. */
    method Arrive(requests: seq<Request>, ghost writer: Writer) returns (ghost steps: seq<Step>)
      requires writing && !writer.Idle?
      modifies this`writes, this`writing, this`tickets
      ensures writing && |writes| == |old(writes)| + |requests|
      ensures Reaches(old(Value(writer)), steps, Value(writer))
    {
      ghost var start := Value(writer);
      steps := [];
      for i := 0 to |requests|
        invariant writing && |writes| == |old(writes)| + i
        invariant Reaches(start, steps, Value(writer))
      {
        ReachesAppend(start, steps, Value(writer), Step.Enqueue(requests[i]));
        steps := steps + [Step.Enqueue(requests[i])];
        Enqueue(requests[i], writer);
      }
    }

    /** The operation queued by `append`. */
    method AppendNow(e: Event, maxBytes: nat, io: Io) returns (outcome: Outcome)
      modifies this`entries, this`nextSequence, this`disk
      ensures Ran(Memory(entries, nextSequence), disk, outcome)
           == RunAppend(old(Memory(entries, nextSequence)), old(disk), e, maxBytes, io)
    {
      if e.bytes > maxBytes {
        return Failed;
      }
      if e.eventId in entries {
        var existing := entries[e.eventId].event;
        return if SameEvent(existing, e) then Appended(existing) else Failed;
      }
      var sequence := nextSequence;
      var final, temporary := FinalName(sequence, e), StagedName(sequence, e, io.uuid);
      if io.fault.OpenFails? {
        return Failed;
      }
      disk := disk.Do(Put(temporary, if io.fault.WriteFails? && !io.fault.complete then Garbage else Json(e)));
      if io.fault.WriteFails? {
        if io.fault.unlinked {
          disk := disk.Do(Drop(temporary));
        }
        return Failed;
      }
      if io.fault.CloseFails? || io.fault.RenameFails? {
        if io.fault.remembered {
          RememberStaged(sequence, temporary, e);
        }
        return Failed;
      }
      disk := disk.Do(Move(temporary, final, Json(e)));
      nextSequence := Increment(nextSequence);
      entries := entries[e.eventId := Entry(sequence, final, e)];
      return Appended(e);
    }

    /** `rememberStaged`, once the staged file has been read back and matches. */
    method RememberStaged(sequence: nat, file: FileName, e: Event)
      modifies this`entries, this`nextSequence
      ensures Memory(entries, nextSequence) == Remember(old(Memory(entries, nextSequence)), sequence, file, e)
    {
      if e.eventId in entries {
        return;
      }
      entries := entries[e.eventId := Entry(sequence, file, e)];
      nextSequence := Max(nextSequence, Increment(sequence));
    }

    /** The operation queued by `ack`. */
    method AckNow(eventId: string, io: Io) returns (outcome: Outcome)
      modifies this`entries, this`disk
      ensures Ran(Memory(entries, nextSequence), disk, outcome)
           == RunAck(old(Memory(entries, nextSequence)), old(disk), eventId, io)
    {
      if eventId !in entries {
        return Acked(false);
      }
      if io.unlinkFails {
        return Failed;
      }
      disk := disk.Do(Drop(entries[eventId].file));
      entries := entries - {eventId};
      return Acked(true);
    }

    /** One turn of the inner loop of `commitWrites`. */
    method RunJob(job: Job, io: Io, ghost todo: seq<Job>, ghost ran: seq<Done>) returns (outcome: Outcome)
      modifies this
      ensures Value(Committing(todo, ran + [Done(job, outcome)]))
           == After(old(Value(Committing([job] + todo, ran))), RunNext(io))
      ensures writing == old(writing) && writes == old(writes)
    {
      assert ([job] + todo)[1..] == todo;
      match job.request
      case AppendReq(e, maxBytes) =>
        outcome := AppendNow(e, maxBytes, io);
      case AckReq(id, asker) =>
        outcome := AckNow(id, io);
        if outcome == Acked(true) {
          committed := committed - {id};
          acks := acks + [(id, asker)];
        }
    }

    /**
     The inner loop of `commitWrites`: the operations of one batch, in order. During each wait
     the next element of `arrivals`, if there is one, is enqueued.
     */
    method RunBatch(batch: seq<Job>, io: nat -> Io, first: nat, arrivals: seq<seq<Request>>)
      returns (left: seq<seq<Request>>, ghost ran: seq<Done>, ghost steps: seq<Step>)
      requires writing
      modifies this
      ensures Reaches(old(Value(Committing(batch, []))), steps, Value(Committing([], ran)))
      ensures writing && Total(left) + |writes| == Total(arrivals) + |old(writes)|
    {
      ghost var start := Value(Committing(batch, []));
      left, ran, steps := arrivals, [], [];
      var rest, i := batch, 0;
      while rest != []
        invariant writing && Total(left) + |writes| == Total(arrivals) + |old(writes)|
        invariant Reaches(start, steps, Value(Committing(rest, ran)))
        decreases |rest|
      {
        ghost var now := Value(Committing(rest, ran));
        ReachesAppend(start, steps, now, RunNext(io(first + i)));
        assert rest == [rest[0]] + rest[1..];
        steps := steps + [RunNext(io(first + i))];
        var outcome := RunJob(rest[0], io(first + i), rest[1..], ran);
        ran := ran + [Done(rest[0], outcome)];
        rest, i := rest[1..], i + 1;
        left, steps := Wait(left, Committing(rest, ran), start, steps);
      }
    }

    /** One wait inside `commitWrites`. */
    method Wait(arrivals: seq<seq<Request>>, ghost writer: Writer, ghost start: State, ghost before: seq<Step>)
      returns (left: seq<seq<Request>>, ghost steps: seq<Step>)
      requires writing && !writer.Idle? && Reaches(start, before, Value(writer))
      modifies this`writes, this`writing, this`tickets
      ensures writing && Total(left) + |writes| == Total(arrivals) + |old(writes)|
      ensures Reaches(start, steps, Value(writer))
    {
      left, steps := arrivals, before;
      if arrivals != [] {
        ghost var now := Value(writer);
        ghost var queued := Arrive(arrivals[0], writer);
        ReachesConcat(start, before, now, queued, Value(writer));
        left, steps := arrivals[1..], before + queued;
      }
    }

    /** One turn of the outer loop: a batch and the directory sync it shares. */
    method CommitBatch(io: nat -> Io, first: nat, ok: bool, arrivals: seq<seq<Request>>,
                       ghost start: State, ghost before: seq<Step>)
      returns (left: seq<seq<Request>>, count: nat, ghost steps: seq<Step>)
      requires writing && writes != [] && Reaches(start, before, NextBatch(Value(Idle)))
      modifies this
      ensures writing && Reaches(start, steps, NextBatch(Value(Idle)))
      ensures Total(left) + |writes| < Total(arrivals) + |old(writes)|
    {
      var (batch, rest) := TakeBatch(writes);
      writes := rest;
      ghost var taken := Value(Committing(batch, []));
      ghost var ran, inner;
      left, ran, inner := RunBatch(batch, io, first, arrivals);
      ReachesConcat(start, before, taken, inner, Value(Committing([], ran)));
      left, steps := Wait(left, Committing([], ran), start, before + inner);
      ReachesAppend(start, steps, Value(Committing([], ran)), Sync(ok));
      steps := steps + [Sync(ok)];
      SyncDirectory(ran, ok);
      count := |batch|;
    }

    /** The directory sync of a batch that has run, and the settling of its operations. */
    method SyncDirectory(ghost ran: seq<Done>, ok: bool)
      modifies this`disk, this`committed, this`settled
      ensures NextBatch(Value(Idle)) == After(old(Value(Committing([], ran))), Sync(ok))
    {
      ghost var done := Value(Committing([], ran));
      if ok {
        disk := disk.Sync();
        committed := committed + NewlyCommitted(done);
      }
      settled := settled + Settle(ran, ok);
    }

    /**
     `commitWrites`, with the outcome of every file operation and directory sync, and what is
     enqueued during each wait, given by the environment. It is a run of the step machine that
     empties the queue, so everything proved of runs holds of it.
     */
    method CommitWrites(io: nat -> Io, syncOk: nat -> bool, arrivals: seq<seq<Request>>)
      returns (ghost steps: seq<Step>)
      requires writing && writes != []
      modifies this
      ensures Reaches(old(Value(Scheduled)), steps, Value(Idle))
      ensures writes == [] && !writing
    {
      ghost var start := Value(Scheduled);
      steps := [StartWriter];
      assert steps[1..] == [];
      var operations: nat, barriers: nat, left := 0, 0, arrivals;
      while writes != []
        invariant writing && Reaches(start, steps, NextBatch(Value(Idle)))
        decreases Total(left) + |writes|
      {
        var count;
        left, count, steps := CommitBatch(io, operations, syncOk(barriers), left, start, steps);
        operations, barriers := operations + count, barriers + 1;
      }
      writing := false;
    }
  }

  function Total(arrivals: seq<seq<Request>>): nat {
    if arrivals == [] then 0 else |arrivals[0]| + Total(arrivals[1..])
  }
}
