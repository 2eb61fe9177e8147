/** Which resolved appends are committed, and why the recovery steps of a failed append matter. */
module OutboxRecovery {
  import opened Protocol
  import opened OutboxDirectory
  import opened OutboxLoad
  import opened Outbox
  import opened OutboxDurability

  predicate OnDisk(d: Directory, x: Entry) {
    && x.file in d && d[x.file] == Json(x.event)
    && !x.file.Alien? && x.file.padded && x.file.rest == x.event.fileIdentity
  }

  ghost predicate Known(m: Memory, g: FileName) { exists id :: id in m.entries && m.entries[id].file == g }

  /**
   Memory and directory agree: every entry has its file, and every loadable final file its entry;
   while every recovery succeeds (`all`), every loadable staged file has its entry as well.
   */
  ghost predicate Agrees(m: Memory, d: Directory, all: bool) {
    && (forall id :: id in m.entries && SafeSequence(m.entries[id].sequence) ==> OnDisk(d, m.entries[id]))
    && (forall g :: g in d && (g.Final? || all) && Loadable(g, d[g]) ==> Known(m, g))
  }

  /** The recovery step after a failed operation, if there is one, succeeds. */
  predicate Recovered(step: Step) {
    step.RunNext? ==>
      match step.io.fault
      case WriteFails(_, unlinked) => unlinked
      case CloseFails(remembered) => remembered
      case RenameFails(remembered) => remembered
      case _ => true
  }

  lemma LoadedOnDisk(files: seq<File>, d: Directory, e: Entry)
    requires IsListing(files, d) && e in LoadAll(files).loaded
    ensures OnDisk(Survivors(LoadAll(files), d), e)
  {
    LoadKeepsInvariant(files);
    assert Sound(e) && Source(e) in files && HasFile(LoadAll(files).loaded, e.file) && HasName(files, e.file);
  }

  lemma SurvivorKnown(files: seq<File>, d: Directory, g: FileName)
    requires IsListing(files, d) && g in Survivors(LoadAll(files), d)
    ensures exists id :: id in EntriesOf(LoadAll(files).loaded) && EntriesOf(LoadAll(files).loaded)[id].file == g
  {
    LoadKeepsInvariant(files);
    var loaded := LoadAll(files).loaded;
    var e :| e in loaded && e.file == g;
    DistinctMeansEqual(loaded, e, EntriesOf(loaded)[e.event.eventId]);
  }

  lemma AgreesAfterReboot(s: State, disk: Disk, files: seq<File>, all: bool)
    requires IsListing(files, disk.View())
    ensures Agrees(Reboot(s, disk, files).memory, Reboot(s, disk, files).disk.View(), all)
  {
    var kept := Survivors(LoadAll(files), disk.View());
    var t := Reboot(s, disk, files);
    assert t.disk.View() == kept;
    forall id | id in t.memory.entries ensures OnDisk(kept, t.memory.entries[id]) {
      LoadedOnDisk(files, disk.View(), t.memory.entries[id]);
    }
    forall g | g in kept ensures Known(t.memory, g) { SurvivorKnown(files, disk.View(), g); }
  }

  /** Staged files numbered `nextSequence` may come and go without disturbing the agreement. */
  lemma AgreesAfterStaged(m: Memory, d: Directory, after: Directory, all: bool)
    requires MemoryOk(m) && Agrees(m, d, all)
    requires forall g :: g in d && Number(g) != m.nextSequence ==> g in after && after[g] == d[g]
    requires forall g :: g in after && (g.Final? || all) ==> g in d && after[g] == d[g]
    ensures Agrees(m, after, all)
  {
  }

  /** The event that is being appended gets its entry together with its file. */
  lemma AgreesAfterEntry(m: Memory, d: Directory, e: Event, file: FileName, after: Directory, next: nat, all: bool)
    requires MemoryOk(m) && Agrees(m, d, all) && e.eventId !in m.entries
    requires file == FinalName(m.nextSequence, e) || exists uuid :: file == StagedName(m.nextSequence, e, uuid)
    requires file in after && after[file] == Json(e)
    requires forall g :: g in d && Number(g) != m.nextSequence ==> g in after && after[g] == d[g]
    requires forall g :: g in after && g != file && (g.Final? || all) ==> g in d && after[g] == d[g]
    ensures Agrees(Memory(m.entries[e.eventId := Entry(m.nextSequence, file, e)], next), after, all)
  {
    var m' := Memory(m.entries[e.eventId := Entry(m.nextSequence, file, e)], next);
    forall id | id in m'.entries && SafeSequence(m'.entries[id].sequence) ensures OnDisk(after, m'.entries[id]) {
      if id != e.eventId {
        assert EntryOk(m, id, m.entries[id]);
      }
    }
    forall g | g in after && (g.Final? || all) && Loadable(g, after[g]) ensures Known(m', g) {
      if g == file {
        assert m'.entries[e.eventId].file == g;
      } else {
        var id :| id in m.entries && m.entries[id].file == g;
        assert m'.entries[id].file == g;
      }
    }
  }

  lemma AgreesAfterWriteFails(m: Memory, disk: Disk, f: FileName, content: Content, unlinked: bool, all: bool)
    requires MemoryOk(m) && Agrees(m, disk.View(), all) && f.Staged? && Number(f) == m.nextSequence
    requires all ==> unlinked
    ensures var put := disk.Do(Put(f, content));
            Agrees(m, (if unlinked then put.Do(Drop(f)) else put).View(), all)
  {
    var put := disk.Do(Put(f, content));
    ViewDo(disk, Put(f, content));
    ViewDo(put, Drop(f));
    AgreesAfterStaged(m, disk.View(), (if unlinked then put.Do(Drop(f)) else put).View(), all);
  }

  lemma AgreesAfterStaging(m: Memory, disk: Disk, e: Event, uuid: nat, remembered: bool, all: bool)
    requires MemoryOk(m) && Agrees(m, disk.View(), all) && e.eventId !in m.entries && (all ==> remembered)
    ensures var f := StagedName(m.nextSequence, e, uuid);
            Agrees(if remembered then Remember(m, m.nextSequence, f, e) else m, disk.Do(Put(f, Json(e))).View(), all)
  {
    var f := StagedName(m.nextSequence, e, uuid);
    ViewDo(disk, Put(f, Json(e)));
    if remembered {
      AgreesAfterEntry(m, disk.View(), e, f, disk.Do(Put(f, Json(e))).View(), Max(m.nextSequence, Increment(m.nextSequence)), all);
    } else {
      AgreesAfterStaged(m, disk.View(), disk.Do(Put(f, Json(e))).View(), all);
    }
  }

  lemma AgreesAfterRename(m: Memory, disk: Disk, e: Event, uuid: nat, next: nat, all: bool)
    requires MemoryOk(m) && Agrees(m, disk.View(), all) && e.eventId !in m.entries
    ensures var f, g := StagedName(m.nextSequence, e, uuid), FinalName(m.nextSequence, e);
            Agrees(Memory(m.entries[e.eventId := Entry(m.nextSequence, g, e)], next),
                   disk.Do(Put(f, Json(e))).Do(Move(f, g, Json(e))).View(), all)
  {
    var f, g := StagedName(m.nextSequence, e, uuid), FinalName(m.nextSequence, e);
    ViewDo(disk, Put(f, Json(e)));
    ViewDo(disk.Do(Put(f, Json(e))), Move(f, g, Json(e)));
    AgreesAfterEntry(m, disk.View(), e, g, disk.Do(Put(f, Json(e))).Do(Move(f, g, Json(e))).View(), next, all);
  }

  lemma AgreesAfterAppend(m: Memory, disk: Disk, e: Event, maxBytes: nat, io: Io, all: bool)
    requires MemoryOk(m) && Agrees(m, disk.View(), all) && (all ==> Recovered(RunNext(io)))
    ensures Agrees(RunAppend(m, disk, e, maxBytes, io).memory, RunAppend(m, disk, e, maxBytes, io).disk.View(), all)
  {
    if e.bytes <= maxBytes && e.eventId !in m.entries {
      match io.fault {
        case OpenFails =>
        case WriteFails(complete, unlinked) =>
          AgreesAfterWriteFails(m, disk, StagedName(m.nextSequence, e, io.uuid), if complete then Json(e) else Garbage, unlinked, all);
        case CloseFails(remembered) => AgreesAfterStaging(m, disk, e, io.uuid, remembered, all);
        case RenameFails(remembered) => AgreesAfterStaging(m, disk, e, io.uuid, remembered, all);
        case NoFault => AgreesAfterRename(m, disk, e, io.uuid, Increment(m.nextSequence), all);
      }
    }
  }

  lemma AgreesAfterAck(m: Memory, disk: Disk, gone: string, io: Io, all: bool)
    requires MemoryOk(m) && Agrees(m, disk.View(), all)
    ensures Agrees(RunAck(m, disk, gone, io).memory, RunAck(m, disk, gone, io).disk.View(), all)
  {
    if gone in m.entries && !io.unlinkFails {
      var file := m.entries[gone].file;
      ViewDo(disk, Drop(file));
      var ran := RunAck(m, disk, gone, io);
      forall id | id in ran.memory.entries && SafeSequence(m.entries[id].sequence)
        ensures OnDisk(ran.disk.View(), m.entries[id])
      {
        assert EntryOk(m, id, m.entries[id]) && EntryOk(m, gone, m.entries[gone]);
      }
      forall g | g in ran.disk.View() && (g.Final? || all) && Loadable(g, ran.disk.View()[g]) ensures Known(ran.memory, g) {
        var id :| id in m.entries && m.entries[id].file == g;
        assert ran.memory.entries[id].file == g;
      }
    }
  }

  /** Every step keeps the agreement, whichever of its file calls and recovery steps fail. */
  lemma StepKeepsAgreement(s: State, step: Step, all: bool)
    requires Inv(s) && Agrees(s.memory, s.disk.View(), all) && Enabled(s, step) && (all ==> Recovered(step))
    ensures Agrees(After(s, step).memory, After(s, step).disk.View(), all)
  {
    match step {
      case Enqueue(_) =>
      case StartWriter =>
      case RunNext(io) =>
        match s.writer.todo[0].request {
          case AppendReq(e, maxBytes) => AgreesAfterAppend(s.memory, s.disk, e, maxBytes, io, all);
          case AckReq(gone, _) => AgreesAfterAck(s.memory, s.disk, gone, io, all);
        }
      case Sync(ok) =>
      case ProcessExit(inflight, files) => AgreesAfterReboot(s, WithInflight(s.disk, inflight), files, all);
      case PowerLoss(inflight, keep, files) =>
        AgreesAfterReboot(s, Disk(WithInflight(s.disk, inflight).Crash(keep), []), files, all);
    }
  }

  lemma {:induction false} ReachableAgrees(s: State, steps: seq<Step>, t: State, all: bool)
    requires Inv(s) && Agrees(s.memory, s.disk.View(), all) && Reaches(s, steps, t)
    requires all ==> forall step :: step in steps ==> Recovered(step)
    ensures Inv(t) && Agrees(t.memory, t.disk.View(), all)
    decreases |steps|
  {
    if steps != [] {
      StepKeepsInv(s, steps[0]);
      StepKeepsAgreement(s, steps[0], all);
      ReachableAgrees(After(s, steps[0]), steps[1..], t, all);
    }
  }

  /** A staged record is shadowed by a staged file of another event that has its number and no entry. */
  ghost predicate Shadowed(m: Memory, d: Directory, id: string)
    requires id in m.entries
  {
    var x := m.entries[id].file;
    x.Staged? && exists g :: g in d && g.Staged? && !Known(m, g) && Beats(g, d[g], x, id)
  }

  /** What an entry must be like for its record to last. */
  ghost predicate Lasting(m: Memory, d: Directory, id: string)
    requires id in m.entries
  {
    && Replayable(m.entries[id].event)
    && m.entries[id].event.bytes <= MAX_BRIDGE_FRAME_BYTES
    && SafeSequence(m.entries[id].sequence)
    && !Shadowed(m, d, id)
  }

  /** Files with an entry never beat each other. */
  lemma KnownNeverBeats(m: Memory, d: Directory, id: string, g: FileName)
    requires MemoryOk(m) && id in m.entries && SafeSequence(m.entries[id].sequence) && Known(m, g) && g in d
    ensures !Beats(g, d[g], m.entries[id].file, id)
  {
    var other :| other in m.entries && m.entries[other].file == g;
    assert EntryOk(m, id, m.entries[id]) && EntryOk(m, other, m.entries[other]);
  }

  lemma LastingIsSafe(m: Memory, d: Directory, id: string)
    requires MemoryOk(m) && Agrees(m, d, false) && id in m.entries
    ensures SafeRecord(d, id, m.entries[id]) <==> Lasting(m, d, id)
  {
    var x := m.entries[id];
    if Lasting(m, d, id) {
      forall g | g in d ensures !Beats(g, d[g], x.file, id) {
        if Known(m, g) {
          KnownNeverBeats(m, d, id, g);
        }
      }
    }
  }

  /**
   An append that resolves, and is not acknowledged in its own batch, is committed exactly when
   its event is replayable, fits a frame and has a safe sequence number, and its record is not
   shadowed: in every run, whatever failed before. A record that was renamed is never shadowed.
   */
  lemma ResolvedIsCommitted(s: State, steps: seq<Step>, t: State, id: string)
    requires Initial(s) && Reaches(s, steps, t)
    requires Enabled(t, Sync(true)) && AppendedIn(t.writer.ran, id) && id in t.memory.entries
    ensures id in NewlyCommitted(t) <==> Lasting(t.memory, t.disk.View(), id)
    ensures id in NewlyCommitted(t) ==> id in After(t, Sync(true)).committed
  {
    InitialInv(s);
    var disk: Disk, files :| IsListing(files, disk.View()) && s == Reboot(s, disk, files);
    AgreesAfterReboot(s, disk, files, false);
    ReachableAgrees(s, steps, t, false);
    LastingIsSafe(t.memory, t.disk.View(), id);
  }

  /** Only a failed recovery leaves a file behind that can shadow a record. */
  lemma ShadowNeedsFault(s: State, steps: seq<Step>, t: State, id: string)
    requires Initial(s) && Reaches(s, steps, t) && id in t.memory.entries
    requires forall step :: step in steps ==> Recovered(step)
    ensures !Shadowed(t.memory, t.disk.View(), id)
  {
    InitialInv(s);
    var disk: Disk, files :| IsListing(files, disk.View()) && s == Reboot(s, disk, files);
    AgreesAfterReboot(s, disk, files, true);
    ReachableAgrees(s, steps, t, true);
  }

  /**
   From the resolved append to the restart: unless the event is acknowledged later, it is loaded
   after every crash, at any later point of any run, whatever the crash keeps.
   */
  lemma ResolvedSurvives(s: State, steps: seq<Step>, t: State, id: string, later: seq<Step>, u: State,
                         inflight: seq<DirOp>, keep: seq<bool>, files: seq<File>)
    requires Initial(s) && Reaches(s, steps, t)
    requires Enabled(t, Sync(true)) && AppendedIn(t.writer.ran, id) && id in t.memory.entries
    requires Lasting(t.memory, t.disk.View(), id)
    requires Reaches(After(t, Sync(true)), later, u) && Enabled(u, PowerLoss(inflight, keep, files))
    ensures HasEvent(LoadAll(files).loaded, id) || AckedSince(t.acks, u.acks, id)
  {
    ResolvedIsCommitted(s, steps, t, id);
    var next := After(t, Sync(true));
    ReachesAppend(s, steps, t, Sync(true));
    ReachesConcat(s, steps + [Sync(true)], next, later, u);
    CommittedUntilAcked(next, later, u, id);
    if id in u.committed {
      CommittedSurvivesCrash(s, steps + [Sync(true)] + later, u, id, inflight, keep, files);
    }
  }

  /** The run of `UnrecoveredFaultLosesEvent`: both renames fail, and one file is not read back. */
  function UnluckySteps(lost: Event, other: Event): seq<Step> {
    [ Enqueue(AppendReq(other, MAX_BRIDGE_FRAME_BYTES)), Enqueue(AppendReq(lost, MAX_BRIDGE_FRAME_BYTES)),
      Enqueue(AppendReq(lost, MAX_BRIDGE_FRAME_BYTES)), StartWriter,
      RunNext(Io(RenameFails(false), false, 0)), RunNext(Io(RenameFails(true), false, 1)),
      RunNext(Io(NoFault, false, 2)), Sync(true) ]
  }

  function EmptyOutbox(): State { State(Memory(map[], 1), Disk(map[], []), [], Idle, 0, [], {}, []) }

  lemma EmptyOutboxIsInitial()
    ensures Initial(EmptyOutbox())
  {
    var s := EmptyOutbox();
    assert IsListing([], s.disk.View());
    assert Survivors(LoadAll([]), s.disk.View()) == s.disk.View();
    assert s == Reboot(s, s.disk, []);
  }

  function UnluckyJob(ticket: nat, e: Event): Job { Job(ticket, AppendReq(e, MAX_BRIDGE_FRAME_BYTES)) }

  /** The three appends queued and taken as one batch. */
  function UnluckyStart(lost: Event, other: Event): State {
    EmptyOutbox().(tickets := 3,
      writer := Committing([UnluckyJob(0, other), UnluckyJob(1, lost), UnluckyJob(2, lost)], []))
  }

  /** The batch run: the first record is on disk unknown, the second remembered with the same sequence. */
  function UnluckyEnd(lost: Event, other: Event): State {
    var g, f := StagedName(1, other, 0), StagedName(1, lost, 1);
    UnluckyStart(lost, other).(
      memory := Memory(map[lost.eventId := Entry(1, f, lost)], 2),
      disk := Disk(map[], [Put(g, Json(other)), Put(f, Json(lost))]),
      writer := Committing([], [Done(UnluckyJob(0, other), Failed), Done(UnluckyJob(1, lost), Failed),
                                Done(UnluckyJob(2, lost), Appended(lost))]))
  }

  lemma UnluckyQueued(lost: Event, other: Event)
    ensures Reaches(EmptyOutbox(), UnluckySteps(lost, other)[..4], UnluckyStart(lost, other))
  {
    var steps := UnluckySteps(lost, other)[..4];
    var s1 := After(EmptyOutbox(), steps[0]);
    var s2 := After(s1, steps[1]);
    var s3 := After(s2, steps[2]);
    assert s3.queue == [UnluckyJob(0, other), UnluckyJob(1, lost), UnluckyJob(2, lost)];
    assert After(s3, steps[3]) == UnluckyStart(lost, other);
    assert Reaches(s3, steps[3..], UnluckyStart(lost, other));
    assert steps[2..][1..] == steps[3..] && Reaches(s2, steps[2..], UnluckyStart(lost, other));
    assert steps[1..][1..] == steps[2..] && Reaches(s1, steps[1..], UnluckyStart(lost, other));
  }

  lemma UnluckyRan(lost: Event, other: Event)
    requires lost.eventId != other.eventId
    requires lost.bytes <= MAX_BRIDGE_FRAME_BYTES && other.bytes <= MAX_BRIDGE_FRAME_BYTES
    ensures Reaches(UnluckyStart(lost, other), UnluckySteps(lost, other)[4..7], UnluckyEnd(lost, other))
  {
    var steps := UnluckySteps(lost, other)[4..7];
    var s1 := After(UnluckyStart(lost, other), steps[0]);
    var s2 := After(s1, steps[1]);
    assert s1.writer == Committing([UnluckyJob(1, lost), UnluckyJob(2, lost)], [Done(UnluckyJob(0, other), Failed)]);
    assert s2.writer == Committing([UnluckyJob(2, lost)],
      [Done(UnluckyJob(0, other), Failed), Done(UnluckyJob(1, lost), Failed)]);
    var f := StagedName(1, lost, 1);
    assert s1.memory == Memory(map[], 1) && s1.disk.unsynced == [Put(StagedName(1, other, 0), Json(other))];
    assert s2.memory == Memory(map[lost.eventId := Entry(1, f, lost)], 2);
    assert s2.disk == UnluckyEnd(lost, other).disk;
    var s3 := After(s2, steps[2]);
    assert RunAppend(s2.memory, s2.disk, lost, MAX_BRIDGE_FRAME_BYTES, Io(NoFault, false, 2))
        == Ran(s2.memory, s2.disk, Appended(lost));
    assert s3.writer == UnluckyEnd(lost, other).writer && s3.memory == s2.memory && s3.disk == s2.disk;
    assert s3 == UnluckyEnd(lost, other);
    assert Reaches(s2, steps[2..], UnluckyEnd(lost, other));
    assert steps[1..][1..] == steps[2..] && Reaches(s1, steps[1..], UnluckyEnd(lost, other));
  }

  /** The directory of `UnluckyEnd` does not give the event back when the other file is listed first. */
  lemma UnluckyLoad(lost: Event, other: Event) returns (files: seq<File>)
    requires Replayable(lost) && Replayable(other) && lost.eventId != other.eventId
    requires lost.bytes <= MAX_BRIDGE_FRAME_BYTES && other.bytes <= MAX_BRIDGE_FRAME_BYTES
    ensures IsListing(files, UnluckyEnd(lost, other).disk.View())
    ensures !HasEvent(LoadAll(files).loaded, lost.eventId)
  {
    var f, g := StagedName(1, lost, 1), StagedName(1, other, 0);
    var d := UnluckyEnd(lost, other).disk.View();
    var empty := Disk(map[], []);
    ViewDo(empty, Put(g, Json(other)));
    ViewDo(empty.Do(Put(g, Json(other))), Put(f, Json(lost)));
    assert UnluckyEnd(lost, other).disk == empty.Do(Put(g, Json(other))).Do(Put(f, Json(lost)));
    assert d == map[g := Json(other), f := Json(lost)];
    files := [File(g, Json(other)), File(f, Json(lost))];
    BeatenCanBeLost(files, d, f, g);
  }

  /**
   Shadowed records are lost. For any two replayable events there is a run in which an append
   resolves, nothing is acknowledged, and yet a restart does not load the event: a file whose
   recovery failed has the same sequence and is listed first.
   */
  lemma UnrecoveredFaultLosesEvent(lost: Event, other: Event) returns (t: State, files: seq<File>)
    requires Replayable(lost) && Replayable(other) && lost.eventId != other.eventId
    requires lost.bytes <= MAX_BRIDGE_FRAME_BYTES && other.bytes <= MAX_BRIDGE_FRAME_BYTES
    ensures Reaches(EmptyOutbox(), UnluckySteps(lost, other), t) && t.acks == []
    ensures |t.settled| == 3 && t.settled[2].resolved == Some(Appended(lost))
    ensures Enabled(t, PowerLoss([], [], files))
    ensures !HasEvent(LoadAll(files).loaded, lost.eventId)
  {
    var steps := UnluckySteps(lost, other);
    var start, end := UnluckyStart(lost, other), UnluckyEnd(lost, other);
    UnluckyQueued(lost, other);
    UnluckyRan(lost, other);
    ReachesConcat(EmptyOutbox(), steps[..4], start, steps[4..7], end);
    t := After(end, Sync(true));
    ReachesAppend(EmptyOutbox(), steps[..4] + steps[4..7], end, steps[7]);
    assert steps[..4] + steps[4..7] + [steps[7]] == steps;
    files := UnluckyLoad(lost, other);
    assert WithInflight(t.disk, []) == t.disk == end.disk.Sync();
  }
}
