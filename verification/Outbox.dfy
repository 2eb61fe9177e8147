/**
 `BridgeOutbox`: appends and acknowledgements run one after the other by a single writer in
 batches that share one directory sync, with failing file operations, restarts and crashes.
 */
module Outbox {
  import opened Protocol
  import opened OutboxDirectory
  import opened OutboxLoad

  const BATCH := 32

  datatype Memory = Memory(entries: map<string, Entry>, nextSequence: nat)

  /** Who asked for an acknowledgement is carried along for the proofs about the server. */
  datatype Request = AppendReq(event: Event, maxBytes: nat) | AckReq(eventId: string, asker: nat)

  datatype Outcome = Appended(event: Event) | Acked(found: bool) | Failed

  /**
   Where the file operations of one append go wrong. A recovery step that fails as well
   (removing the temporary file, or reading it back) leaves that file behind unknown.
   */
  datatype AppendFault =
    | NoFault
    | OpenFails
    | WriteFails(complete: bool, unlinked: bool)
    | CloseFails(remembered: bool)
    | RenameFails(remembered: bool)

  datatype Io = Io(fault: AppendFault, unlinkFails: bool, uuid: nat)

  /** `n + 1` on doubles, for the numbers that occur. */
  function Increment(n: nat): nat { if n <= MAX_SAFE_INTEGER then n + 1 else n }

  function Max(a: nat, b: nat): nat { if a < b then b else a }

  datatype Ran = Ran(memory: Memory, disk: Disk, outcome: Outcome)

  /** `rememberStaged` after reading the expected event back. */
  function Remember(m: Memory, sequence: nat, file: FileName, e: Event): Memory {
    if e.eventId in m.entries then m
    else Memory(m.entries[e.eventId := Entry(sequence, file, e)], Max(m.nextSequence, Increment(sequence)))
  }

  function RunAppend(m: Memory, disk: Disk, e: Event, maxBytes: nat, io: Io): Ran {
    if e.bytes > maxBytes then Ran(m, disk, Failed)
    else if e.eventId in m.entries then
      var existing := m.entries[e.eventId].event;
      Ran(m, disk, if SameEvent(existing, e) then Appended(existing) else Failed)
    else
      var sequence := m.nextSequence;
      var temporary, final := StagedName(sequence, e, io.uuid), FinalName(sequence, e);
      match io.fault
      case OpenFails => Ran(m, disk, Failed)
      case WriteFails(complete, unlinked) =>
        var written := disk.Do(Put(temporary, if complete then Json(e) else Garbage));
        Ran(m, if unlinked then written.Do(Drop(temporary)) else written, Failed)
      case CloseFails(remembered) =>
        Ran(if remembered then Remember(m, sequence, temporary, e) else m,
            disk.Do(Put(temporary, Json(e))), Failed)
      case RenameFails(remembered) =>
        Ran(if remembered then Remember(m, sequence, temporary, e) else m,
            disk.Do(Put(temporary, Json(e))), Failed)
      case NoFault =>
        Ran(Memory(m.entries[e.eventId := Entry(sequence, final, e)], Increment(sequence)),
            disk.Do(Put(temporary, Json(e))).Do(Move(temporary, final, Json(e))), Appended(e))
  }

  function RunAck(m: Memory, disk: Disk, eventId: string, io: Io): Ran {
    if eventId !in m.entries then Ran(m, disk, Acked(false))
    else if io.unlinkFails then Ran(m, disk, Failed)
    else Ran(m.(entries := m.entries - {eventId}), disk.Do(Drop(m.entries[eventId].file)), Acked(true))
  }

  function Execute(m: Memory, disk: Disk, r: Request, io: Io): Ran {
    match r
    case AppendReq(e, maxBytes) => RunAppend(m, disk, e, maxBytes, io)
    case AckReq(id, _) => RunAck(m, disk, id, io)
  }

  // ---------------------------------------------------------------- the writer

  datatype Job = Job(ticket: nat, request: Request)

  datatype Done = Done(job: Job, outcome: Outcome)

  /** How a promise ended: resolved with an outcome, or rejected. */
  datatype Settlement = Settlement(job: Job, resolved: Option<Outcome>)

  /** `writing` is false, or the loop is about to start, or it is inside a batch. */
  datatype Writer = Idle | Scheduled | Committing(todo: seq<Job>, ran: seq<Done>)

  /**
   `committed` are the events whose append resolved with a record that was safe, and which no
   acknowledgement has removed since; `acks` lists the acknowledgements that removed an entry,
   with who asked for each, in order.
   */
  datatype State = State(
    memory: Memory, disk: Disk, queue: seq<Job>, writer: Writer, tickets: nat,
    settled: seq<Settlement>, committed: set<string>, acks: seq<(string, nat)>)

  datatype Step =
    | Enqueue(request: Request)
    | StartWriter
    | RunNext(io: Io)
    | Sync(ok: bool)
    | ProcessExit(inflight: seq<DirOp>, files: seq<File>)
    | PowerLoss(inflight: seq<DirOp>, keep: seq<bool>, files: seq<File>)

  function TakeBatch(queue: seq<Job>): (r: (seq<Job>, seq<Job>))
    ensures r.0 + r.1 == queue && |r.0| <= BATCH
    ensures |r.0| == BATCH || r.1 == []
  {
    if |queue| <= BATCH then (queue, []) else (queue[..BATCH], queue[BATCH..])
  }

  /** The loop head of `commitWrites`: take a batch, or stop. */
  function NextBatch(s: State): State {
    if s.queue == [] then s.(writer := Idle)
    else var (batch, rest) := TakeBatch(s.queue); s.(queue := rest, writer := Committing(batch, []))
  }

  function Settle(ran: seq<Done>, ok: bool): (r: seq<Settlement>)
    ensures |r| == |ran|
    ensures forall i :: 0 <= i < |ran| ==> r[i].job == ran[i].job
    ensures forall i :: 0 <= i < |ran| ==>
              r[i].resolved == if ok && !ran[i].outcome.Failed? then Some(ran[i].outcome) else None
  {
    seq(|ran|, i requires 0 <= i < |ran| =>
      Settlement(ran[i].job, if ok && !ran[i].outcome.Failed? then Some(ran[i].outcome) else None))
  }

  /** A record that the next restart will accept, whatever is in the directory beside it. */
  predicate SafeRecord(d: Directory, id: string, x: Entry) {
    && Loadable(x.file, Json(x.event))
    && x.file in d && d[x.file] == Json(x.event)
    && forall g :: g in d ==> !Beats(g, d[g], x.file, id)
  }

  predicate AppendedIn(ran: seq<Done>, id: string) {
    exists i :: 0 <= i < |ran| && ran[i].outcome.Appended? && ran[i].outcome.event.eventId == id
  }

  function NewlyCommitted(s: State): set<string>
    requires s.writer.Committing?
  {
    set id | id in s.memory.entries && AppendedIn(s.writer.ran, id)
             && SafeRecord(s.disk.View(), id, s.memory.entries[id])
  }

  /** File operations of an interrupted append that left no trace in memory. */
  predicate InflightOk(s: State, inflight: seq<DirOp>) {
    || inflight == []
    || (&& s.writer.Committing? && s.writer.todo != [] && s.writer.todo[0].request.AppendReq?
        && |inflight| == 1 && inflight[0].Put?
        && inflight[0].name.Staged? && inflight[0].name.number == s.memory.nextSequence)
  }

  function Reboot(s: State, disk: Disk, files: seq<File>): State {
    var found := disk.View();
    var load := LoadAll(files);
    var kept := Survivors(load, found);
    State(Memory(EntriesOf(load.loaded), NextAfter(load.loaded)),
          if kept == found then disk else Disk(kept, []),
          [], Idle, 0, [], s.committed, s.acks)
  }

  function WithInflight(disk: Disk, inflight: seq<DirOp>): Disk { disk.(unsynced := disk.unsynced + inflight) }

  ghost predicate Enabled(s: State, step: Step) {
    match step
    case Enqueue(_) => true
    case StartWriter => s.writer.Scheduled?
    case RunNext(_) => s.writer.Committing? && s.writer.todo != []
    case Sync(_) => s.writer.Committing? && s.writer.todo == []
    case ProcessExit(inflight, files) =>
      InflightOk(s, inflight) && IsListing(files, WithInflight(s.disk, inflight).View())
    case PowerLoss(inflight, keep, files) =>
      && InflightOk(s, inflight)
      && |keep| == |WithInflight(s.disk, inflight).unsynced|
      && IsListing(files, WithInflight(s.disk, inflight).Crash(keep))
  }

  function After(s: State, step: Step): State
    requires step.RunNext? ==> s.writer.Committing? && s.writer.todo != []
    requires step.Sync? ==> s.writer.Committing?
    requires step.PowerLoss? ==> |step.keep| == |WithInflight(s.disk, step.inflight).unsynced|
  {
    match step
    case Enqueue(request) =>
      s.(queue := s.queue + [Job(s.tickets, request)], tickets := s.tickets + 1,
         writer := if s.writer.Idle? then Scheduled else s.writer)
    case StartWriter => NextBatch(s)
    case RunNext(io) =>
      var job := s.writer.todo[0];
      var ran := Execute(s.memory, s.disk, job.request, io);
      var removed := job.request.AckReq? && ran.outcome == Acked(true);
      s.(memory := ran.memory, disk := ran.disk,
         writer := Committing(s.writer.todo[1..], s.writer.ran + [Done(job, ran.outcome)]),
         committed := if removed then s.committed - {job.request.eventId} else s.committed,
         acks := if removed then s.acks + [(job.request.eventId, job.request.asker)] else s.acks)
    case Sync(ok) =>
      var settled := s.settled + Settle(s.writer.ran, ok);
      NextBatch(
        if ok then s.(disk := s.disk.Sync(), settled := settled, committed := s.committed + NewlyCommitted(s))
        else s.(settled := settled))
    case ProcessExit(inflight, files) => Reboot(s, WithInflight(s.disk, inflight), files)
    case PowerLoss(inflight, keep, files) =>
      Reboot(s, Disk(WithInflight(s.disk, inflight).Crash(keep), []), files)
  }

  /** A state right after the first load of any directory. */
  ghost predicate Initial(s: State) {
    && s.committed == {} && s.acks == []
    && exists disk: Disk, files :: IsListing(files, disk.View()) && s == Reboot(s, disk, files)
  }

  ghost predicate Reaches(s: State, steps: seq<Step>, t: State)
    decreases |steps|
  {
    if steps == [] then s == t
    else Enabled(s, steps[0]) && Reaches(After(s, steps[0]), steps[1..], t)
  }

  lemma {:induction false} ConcatIsPrepend(first: seq<Step>, rest: seq<Step>)
    requires first != []
    ensures first + rest == [first[0]] + (first[1..] + rest)
  {
    var whole := [first[0]] + (first[1..] + rest);
    assert |first + rest| == |whole|;
    assert forall i :: 0 <= i < |whole| ==> (first + rest)[i] == whole[i];
  }

  lemma {:induction false} ReachesPrepend(s: State, step: Step, steps: seq<Step>, t: State)
    requires Enabled(s, step) && Reaches(After(s, step), steps, t)
    ensures Reaches(s, [step] + steps, t)
  {
    assert ([step] + steps)[0] == step && ([step] + steps)[1..] == steps;
  }

  lemma {:induction false} ReachesAppend(s: State, steps: seq<Step>, t: State, step: Step)
    requires Reaches(s, steps, t) && Enabled(t, step)
    ensures Reaches(s, steps + [step], After(t, step))
    decreases |steps|
  {
    if steps == [] {
      assert [step][1..] == [];
    } else {
      ReachesAppend(After(s, steps[0]), steps[1..], t, step);
      ReachesPrepend(s, steps[0], steps[1..] + [step], After(t, step));
      ConcatIsPrepend(steps, [step]);
    }
  }

  lemma {:induction false} ReachesConcat(s: State, first: seq<Step>, t: State, rest: seq<Step>, u: State)
    requires Reaches(s, first, t) && Reaches(t, rest, u)
    ensures Reaches(s, first + rest, u)
    decreases |first|
  {
    if first == [] {
      assert first + rest == rest;
    } else {
      var step, tail := first[0], first[1..] + rest;
      ReachesConcat(After(s, step), first[1..], t, rest, u);
      ReachesPrepend(s, step, tail, u);
      ConcatIsPrepend(first, rest);
    }
  }

  /** `pending`: the event of every entry, once, in the order of their sequence numbers. */
  ghost predicate IsPending(list: seq<Event>, entries: map<string, Entry>) {
    && (forall e :: e in list ==> e.eventId in entries && entries[e.eventId].event == e)
    && (forall id :: id in entries ==> entries[id].event in list)
    && (forall i, j :: 0 <= i < j < |list| ==>
          && list[i].eventId != list[j].eventId
          && entries[list[i].eventId].sequence <= entries[list[j].eventId].sequence)
  }
}
