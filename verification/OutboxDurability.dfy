/** No committed event is lost, whatever fails and whenever the process or the machine stops. */
module OutboxDurability {
  import opened Protocol
  import opened OutboxDirectory
  import opened OutboxLoad
  import opened Outbox

  predicate EntryOk(m: Memory, id: string, x: Entry) {
    && x.event.eventId == id && !x.file.Alien? && Number(x.file) == x.sequence
    && (SafeSequence(x.sequence) ==> x.sequence < m.nextSequence)
  }

  ghost predicate MemoryOk(m: Memory) {
    && 1 <= m.nextSequence
    && (forall id :: id in m.entries ==> EntryOk(m, id, m.entries[id]))
    && (forall a, b :: a in m.entries && b in m.entries && a != b && SafeSequence(m.entries[a].sequence) ==>
          m.entries[a].sequence != m.entries[b].sequence)
  }

  /** The durable directory holds the record, nothing pending touches it, and nothing that may survive beats it. */
  ghost predicate Held(disk: Disk, id: string, x: Entry) {
    && Loadable(x.file, Json(x.event))
    && x.file in disk.durable && disk.durable[x.file] == Json(x.event)
    && (forall op :: op in disk.unsynced ==> !Touches(op, x.file))
    && (forall g, c :: MayHold(disk, g, c) ==> !Beats(g, c, x.file, id))
  }

  ghost predicate Inv(s: State) {
    && MemoryOk(s.memory)
    && (forall id :: id in s.committed ==> id in s.memory.entries && Held(s.disk, id, s.memory.entries[id]))
  }

  /** Operations on files of another sequence do not matter to a held record. */
  lemma HeldAfterOther(disk: Disk, op: DirOp, id: string, x: Entry, n: nat)
    requires Held(disk, id, x) && Number(x.file) != n
    requires match op
             case Put(name, _) => Number(name) == n
             case Move(from, to, _) => Number(from) == n && Number(to) == n
             case Drop(name) => Number(name) == n
    ensures Held(disk.Do(op), id, x)
  {
  }

  lemma HeldAfterSync(disk: Disk, id: string, x: Entry)
    requires Held(disk, id, x)
    ensures Held(disk.Sync(), id, x)
  {
    ApplyAllUntouched(disk.durable, disk.unsynced, x.file);
    forall g, c | MayHold(disk.Sync(), g, c) ensures !Beats(g, c, x.file, id) {
      ApplyAllOrigin(disk.durable, disk.unsynced, g);
      assert MayHold(disk, g, c);
    }
  }

  lemma HeldWhenSafe(d: Directory, id: string, x: Entry)
    requires SafeRecord(d, id, x)
    ensures Held(Disk(d, []), id, x)
  {
  }

  lemma HeldAfterCrash(disk: Disk, keep: seq<bool>, id: string, x: Entry)
    requires Held(disk, id, x) && |keep| == |disk.unsynced|
    ensures Held(Disk(disk.Crash(keep), []), id, x)
  {
    ApplyAllUntouched(disk.durable, Kept(disk.unsynced, keep), x.file);
    forall g, c | MayHold(Disk(disk.Crash(keep), []), g, c) ensures !Beats(g, c, x.file, id) {
      CrashOrigin(disk, keep, g);
      assert MayHold(disk, g, c);
    }
  }

  /** A held record is in the directory now, and safe there. */
  lemma HeldIsSafe(disk: Disk, id: string, x: Entry)
    requires Held(disk, id, x)
    ensures SafeRecord(disk.View(), id, x)
  {
    ApplyAllUntouched(disk.durable, disk.unsynced, x.file);
    var d := disk.View();
    forall g | g in d ensures !Beats(g, d[g], x.file, id) {
      ApplyAllOrigin(disk.durable, disk.unsynced, g);
    }
  }

  lemma LoadedEntry(files: seq<File>, d: Directory, id: string, x: Entry) returns (y: Entry)
    requires IsListing(files, d) && SafeRecord(d, id, x) && x.event.eventId == id
    ensures y in LoadAll(files).loaded && y.event.eventId == id
    ensures x.file in Survivors(LoadAll(files), d) ==> y.file == x.file && y.event == x.event
  {
    var s := LoadAll(files);
    UnbeatenIsLoaded(files, d, x.file);
    LoadKeepsInvariant(files);
    y :| y in s.loaded && y.event.eventId == id;
    if x.file in Survivors(s, d) {
      var e :| e in s.loaded && e.file == x.file;
      assert Source(e) in files;
      DistinctMeansEqual(s.loaded, e, y);
    }
  }

  /** The files left by a load never beat each other. */
  lemma SurvivorIsSafe(files: seq<File>, d: Directory, y: Entry)
    requires IsListing(files, d) && y in LoadAll(files).loaded
    ensures SafeRecord(Survivors(LoadAll(files), d), y.event.eventId, y)
  {
    LoadKeepsInvariant(files);
    var s := LoadAll(files);
    var kept := Survivors(s, d);
    assert Source(y) in files && HasFile(s.loaded, y.file) && HasName(files, y.file);
    forall g | g in kept ensures !Beats(g, kept[g], y.file, y.event.eventId) {
      var e :| e in s.loaded && e.file == g;
      assert Source(e) in files;
      if e.sequence == y.sequence {
        DistinctMeansEqual(s.loaded, e, y);
      }
    }
  }

  lemma RebootMemoryOk(files: seq<File>)
    requires NoRepeat(files)
    ensures MemoryOk(Memory(EntriesOf(LoadAll(files).loaded), NextAfter(LoadAll(files).loaded)))
  {
    LoadKeepsInvariant(files);
    var loaded := LoadAll(files).loaded;
    var entries := EntriesOf(loaded);
    forall a, b | a in entries && b in entries && a != b ensures entries[a].sequence != entries[b].sequence {
      if entries[a].sequence == entries[b].sequence {
        DistinctMeansEqual(loaded, entries[a], entries[b]);
      }
    }
  }

  lemma RebootHeld(s: State, disk: Disk, files: seq<File>, id: string, x: Entry)
    requires IsListing(files, disk.View()) && Held(disk, id, x) && x.event.eventId == id
    ensures var t := Reboot(s, disk, files);
            id in t.memory.entries && Held(t.disk, id, t.memory.entries[id])
  {
    var d := disk.View();
    HeldIsSafe(disk, id, x);
    var y := LoadedEntry(files, d, id, x);
    LoadKeepsInvariant(files);
    var loaded := LoadAll(files).loaded;
    DistinctMeansEqual(loaded, y, EntriesOf(loaded)[id]);
    var kept := Survivors(LoadAll(files), d);
    if kept != d {
      SurvivorIsSafe(files, d, y);
      HeldWhenSafe(kept, id, y);
    }
  }

  lemma RebootKeepsInv(s: State, disk: Disk, files: seq<File>)
    requires IsListing(files, disk.View())
    requires Inv(s) && forall id :: id in s.committed ==> Held(disk, id, s.memory.entries[id])
    ensures Inv(Reboot(s, disk, files))
  {
    RebootMemoryOk(files);
    forall id | id in s.committed
      ensures id in Reboot(s, disk, files).memory.entries
      ensures Held(Reboot(s, disk, files).disk, id, Reboot(s, disk, files).memory.entries[id])
    {
      RebootHeld(s, disk, files, id, s.memory.entries[id]);
    }
  }

  lemma HeldWithInflight(s: State, inflight: seq<DirOp>, id: string)
    requires Inv(s) && InflightOk(s, inflight) && id in s.committed
    ensures Held(WithInflight(s.disk, inflight), id, s.memory.entries[id])
  {
  }

  lemma AppendKeepsMemory(m: Memory, disk: Disk, e: Event, maxBytes: nat, io: Io)
    requires MemoryOk(m)
    ensures MemoryOk(RunAppend(m, disk, e, maxBytes, io).memory)
  {
  }

  lemma AppendKeepsHeld(m: Memory, disk: Disk, e: Event, maxBytes: nat, io: Io, id: string)
    requires MemoryOk(m) && id in m.entries && Held(disk, id, m.entries[id])
    ensures var ran := RunAppend(m, disk, e, maxBytes, io);
            id in ran.memory.entries && ran.memory.entries[id] == m.entries[id]
            && Held(ran.disk, id, m.entries[id])
  {
    var x, n := m.entries[id], m.nextSequence;
    var temporary, final := StagedName(n, e, io.uuid), FinalName(n, e);
    if e.bytes <= maxBytes && e.eventId !in m.entries {
      assert EntryOk(m, id, x) && Number(x.file) != n;
      match io.fault {
        case OpenFails =>
        case WriteFails(complete, unlinked) =>
          var put := Put(temporary, if complete then Json(e) else Garbage);
          HeldAfterOther(disk, put, id, x, n);
          HeldAfterOther(disk.Do(put), Drop(temporary), id, x, n);
        case CloseFails(_) => HeldAfterOther(disk, Put(temporary, Json(e)), id, x, n);
        case RenameFails(_) => HeldAfterOther(disk, Put(temporary, Json(e)), id, x, n);
        case NoFault =>
          HeldAfterOther(disk, Put(temporary, Json(e)), id, x, n);
          HeldAfterOther(disk.Do(Put(temporary, Json(e))), Move(temporary, final, Json(e)), id, x, n);
      }
    }
  }

  lemma AckKeepsHeld(m: Memory, disk: Disk, gone: string, io: Io, id: string)
    requires MemoryOk(m) && id in m.entries && Held(disk, id, m.entries[id])
    requires RunAck(m, disk, gone, io).outcome == Acked(true) ==> id != gone
    ensures var ran := RunAck(m, disk, gone, io);
            id in ran.memory.entries && ran.memory.entries[id] == m.entries[id]
            && Held(ran.disk, id, m.entries[id])
  {
  }

  lemma SyncKeepsInv(s: State, ok: bool)
    requires Inv(s) && s.writer.Committing?
    ensures Inv(After(s, Sync(ok)))
  {
    var t := After(s, Sync(ok));
    if ok {
      forall id | id in t.committed ensures id in t.memory.entries && Held(t.disk, id, t.memory.entries[id]) {
        if id in s.committed {
          HeldAfterSync(s.disk, id, s.memory.entries[id]);
        } else {
          HeldWhenSafe(s.disk.View(), id, s.memory.entries[id]);
        }
      }
    }
  }

  /** Every step, faulty or not, keeps the records of committed events. */
  lemma StepKeepsInv(s: State, step: Step)
    requires Inv(s) && Enabled(s, step)
    ensures Inv(After(s, step))
  {
    var t := After(s, step);
    match step {
      case Enqueue(_) =>
      case StartWriter =>
      case RunNext(io) =>
        match s.writer.todo[0].request {
          case AppendReq(e, maxBytes) =>
            AppendKeepsMemory(s.memory, s.disk, e, maxBytes, io);
            forall id | id in t.committed ensures id in t.memory.entries && Held(t.disk, id, t.memory.entries[id]) {
              AppendKeepsHeld(s.memory, s.disk, e, maxBytes, io, id);
            }
          case AckReq(gone, _) =>
            forall id | id in t.committed ensures id in t.memory.entries && Held(t.disk, id, t.memory.entries[id]) {
              AckKeepsHeld(s.memory, s.disk, gone, io, id);
            }
        }
      case Sync(ok) => SyncKeepsInv(s, ok);
      case ProcessExit(inflight, files) =>
        forall id | id in s.committed ensures Held(WithInflight(s.disk, inflight), id, s.memory.entries[id]) {
          HeldWithInflight(s, inflight, id);
        }
        RebootKeepsInv(s, WithInflight(s.disk, inflight), files);
      case PowerLoss(inflight, keep, files) =>
        var disk := WithInflight(s.disk, inflight);
        forall id | id in s.committed ensures Held(Disk(disk.Crash(keep), []), id, s.memory.entries[id]) {
          HeldWithInflight(s, inflight, id);
          HeldAfterCrash(disk, keep, id, s.memory.entries[id]);
        }
        RebootKeepsInv(s, Disk(disk.Crash(keep), []), files);
    }
  }

  lemma InitialInv(s: State)
    requires Initial(s)
    ensures Inv(s)
  {
    var disk: Disk, files :| IsListing(files, disk.View()) && s == Reboot(s, disk, files);
    RebootMemoryOk(files);
  }

  lemma {:induction false} ReachableInv(s: State, steps: seq<Step>, t: State)
    requires Inv(s) && Reaches(s, steps, t)
    ensures Inv(t)
    decreases |steps|
  {
    if steps != [] {
      StepKeepsInv(s, steps[0]);
      ReachableInv(After(s, steps[0]), steps[1..], t);
    }
  }

  /**
   No loss across crashes. In every run from any directory, with any faults, restarts and
   earlier crashes: a committed event is among the events a restart loads, whichever of the
   unsynced directory operations the crash keeps and however the directory is listed.
   */
  lemma CommittedSurvivesCrash(s: State, steps: seq<Step>, t: State, id: string,
                               inflight: seq<DirOp>, keep: seq<bool>, files: seq<File>)
    requires Initial(s) && Reaches(s, steps, t) && id in t.committed
    requires Enabled(t, PowerLoss(inflight, keep, files))
    ensures HasEvent(LoadAll(files).loaded, id)
    ensures id in After(t, PowerLoss(inflight, keep, files)).memory.entries
  {
    InitialInv(s);
    ReachableInv(s, steps, t);
    var x := t.memory.entries[id];
    var disk := WithInflight(t.disk, inflight);
    HeldWithInflight(t, inflight, id);
    HeldAfterCrash(disk, keep, id, x);
    HeldIsSafe(Disk(disk.Crash(keep), []), id, x);
    UnbeatenIsLoaded(files, disk.Crash(keep), x.file);
  }

  /** An acknowledgement of the event that was not yet in `earlier` removed its entry. */
  predicate AckedSince(earlier: seq<(string, nat)>, acks: seq<(string, nat)>, id: string) {
    exists i :: |earlier| <= i < |acks| && acks[i].0 == id
  }

  lemma {:induction false} AcksGrow(s: State, steps: seq<Step>, t: State)
    requires Reaches(s, steps, t)
    ensures s.acks <= t.acks
    decreases |steps|
  {
    if steps != [] {
      AcksGrow(After(s, steps[0]), steps[1..], t);
    }
  }

  /** A committed event stays committed until a later acknowledgement of it removes its entry. */
  lemma {:induction false} CommittedUntilAcked(s: State, steps: seq<Step>, t: State, id: string)
    requires Reaches(s, steps, t) && id in s.committed
    ensures id in t.committed || AckedSince(s.acks, t.acks, id)
    decreases |steps|
  {
    if steps != [] {
      var next := After(s, steps[0]);
      AcksGrow(next, steps[1..], t);
      if id in next.committed {
        CommittedUntilAcked(next, steps[1..], t, id);
      } else {
        assert t.acks[|s.acks|] == next.acks[|s.acks|];
      }
    }
  }
}
