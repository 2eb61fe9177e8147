/** What each queued operation comes to: the appends and acknowledgements that succeed, and those that do not. */
module OutboxOutcomes {
  import opened Protocol
  import opened OutboxDirectory
  import opened OutboxLoad
  import opened Outbox
  import opened OutboxDurability
  import opened OutboxRecovery

  // ---------------------------------------------------------------- one append

  /** Memory has an entry for the event, and its file is in the directory with the event as its content. */
  ghost predicate Stored(m: Memory, d: Directory, e: Event) {
    && e.eventId in m.entries && m.entries[e.eventId].event == e
    && m.entries[e.eventId].file in d && d[m.entries[e.eventId].file] == Json(e)
  }

  /** A new event that fits, with no fault, is appended: it has the next sequence number and a final file. */
  lemma AppendSucceeds(m: Memory, disk: Disk, e: Event, maxBytes: nat, io: Io)
    requires e.bytes <= maxBytes && e.eventId !in m.entries && io.fault.NoFault?
    ensures var ran := RunAppend(m, disk, e, maxBytes, io);
            && ran.outcome == Appended(e) && Stored(ran.memory, ran.disk.View(), e)
            && ran.memory.entries[e.eventId].sequence == m.nextSequence
            && ran.memory.entries[e.eventId].file.Final?
            && ran.memory.nextSequence == Increment(m.nextSequence)
            && StagedName(m.nextSequence, e, io.uuid) !in ran.disk.View()
  {
    var f, g := StagedName(m.nextSequence, e, io.uuid), FinalName(m.nextSequence, e);
    ViewDo(disk, Put(f, Json(e)));
    ViewDo(disk.Do(Put(f, Json(e))), Move(f, g, Json(e)));
  }

  /** Whatever an append comes to, entries of other events and files of other sequence numbers stay as they are. */
  lemma AppendKeepsOthers(m: Memory, disk: Disk, e: Event, maxBytes: nat, io: Io, g: FileName)
    requires Number(g) != m.nextSequence
    ensures var ran := RunAppend(m, disk, e, maxBytes, io);
            && ran.memory.entries - {e.eventId} == m.entries - {e.eventId}
            && (e.eventId in m.entries ==> ran.memory == m)
            && (g in ran.disk.View() <==> g in disk.View())
            && (g in disk.View() ==> ran.disk.View()[g] == disk.View()[g])
  {
    var f, final := StagedName(m.nextSequence, e, io.uuid), FinalName(m.nextSequence, e);
    var content := if io.fault.WriteFails? && !io.fault.complete then Garbage else Json(e);
    ViewDo(disk, Put(f, content));
    ViewDo(disk.Do(Put(f, content)), Drop(f));
    ViewDo(disk.Do(Put(f, content)), Move(f, final, Json(e)));
  }

  /** An event that is too large, or that is known with another content, is refused, and nothing changes. */
  lemma AppendRefuses(m: Memory, disk: Disk, e: Event, maxBytes: nat, io: Io)
    requires e.bytes > maxBytes || (e.eventId in m.entries && !SameEvent(m.entries[e.eventId].event, e))
    ensures RunAppend(m, disk, e, maxBytes, io) == Ran(m, disk, Failed)
  {
  }

  /** An event that is known already is answered with what is stored, and nothing is written. */
  lemma AppendAgain(m: Memory, disk: Disk, e: Event, maxBytes: nat, io: Io)
    requires e.bytes <= maxBytes && e.eventId in m.entries && SameEvent(m.entries[e.eventId].event, e)
    ensures RunAppend(m, disk, e, maxBytes, io) == Ran(m, disk, Appended(m.entries[e.eventId].event))
  {
  }

  /** Two events count as the same when they differ at most in times, sizes and the ignored parts of the payload. */
  lemma SameEventIs(e: Event, f: Event)
    requires f == e.(ts := f.ts, observedAt := f.observedAt, bytes := f.bytes,
                     fileIdentity := f.fileIdentity, payload := f.payload)
    requires e.payload.Some? && f.payload.Some?
    ensures SameEvent(e, f) <==> e.payload.value.stable == f.payload.value.stable
  {
  }

  /** A staged event whose close or rename failed is kept under its staged file when it can be read back. */
  lemma StagedIsKept(m: Memory, disk: Disk, e: Event, maxBytes: nat, io: Io)
    requires e.bytes <= maxBytes && e.eventId !in m.entries
    requires io.fault == CloseFails(true) || io.fault == RenameFails(true)
    ensures var ran := RunAppend(m, disk, e, maxBytes, io);
            && ran.outcome == Failed && Stored(ran.memory, ran.disk.View(), e)
            && ran.memory.entries[e.eventId].file.Staged?
            && ran.memory.entries[e.eventId].sequence == m.nextSequence
            && ran.memory.nextSequence == Increment(m.nextSequence)
  {
    ViewDo(disk, Put(StagedName(m.nextSequence, e, io.uuid), Json(e)));
  }

  /** Any other fault fails the append without the event being remembered; at most its temporary file stays behind. */
  lemma FaultFails(m: Memory, disk: Disk, e: Event, maxBytes: nat, io: Io)
    requires e.bytes <= maxBytes && e.eventId !in m.entries && !io.fault.NoFault?
    requires io.fault != CloseFails(true) && io.fault != RenameFails(true)
    ensures var ran, f := RunAppend(m, disk, e, maxBytes, io), StagedName(m.nextSequence, e, io.uuid);
            && ran.outcome == Failed && ran.memory == m
            && ran.disk.View() - {f} == disk.View() - {f}
            && (io.fault.OpenFails? ==> ran.disk == disk)
            && (io.fault.WriteFails? ==> (f in ran.disk.View() <==> !io.fault.unlinked))
            && (io.fault.CloseFails? || io.fault.RenameFails? ==> f in ran.disk.View() && ran.disk.View()[f] == Json(e))
  {
    var f := StagedName(m.nextSequence, e, io.uuid);
    var content := if io.fault.WriteFails? && !io.fault.complete then Garbage else Json(e);
    ViewDo(disk, Put(f, content));
    ViewDo(disk.Do(Put(f, content)), Drop(f));
  }

  // ---------------------------------------------------------------- one acknowledgement

  /** An acknowledgement of a known event takes its entry and its file away, and no other. */
  lemma AckRemoves(m: Memory, disk: Disk, id: string, io: Io)
    requires id in m.entries && !io.unlinkFails
    ensures var ran := RunAck(m, disk, id, io);
            && ran.outcome == Acked(true)
            && ran.memory == m.(entries := m.entries - {id})
            && ran.disk.View() == disk.View() - {m.entries[id].file}
  {
    ViewDo(disk, Drop(m.entries[id].file));
  }

  /** One of an unknown event says so; one whose file cannot be removed fails; neither changes anything. */
  lemma AckChangesNothing(m: Memory, disk: Disk, id: string, io: Io)
    requires id !in m.entries || io.unlinkFails
    ensures RunAck(m, disk, id, io) == Ran(m, disk, if id in m.entries then Failed else Acked(false))
  {
  }

  // ---------------------------------------------------------------- up to the promise

  /** Steps that leave the batch being run in place. */
  predicate InBatch(step: Step) { step.Enqueue? || step.RunNext? }

  lemma {:induction false} RanStays(s: State, steps: seq<Step>, t: State)
    requires Reaches(s, steps, t) && s.writer.Committing? && forall step :: step in steps ==> InBatch(step)
    ensures t.writer.Committing? && s.writer.ran <= t.writer.ran && t.settled == s.settled
    decreases |steps|
  {
    if steps != [] {
      assert steps[0] in steps;
      forall step | step in steps[1..] ensures InBatch(step) { assert step in steps; }
      RanStays(After(s, steps[0]), steps[1..], t);
    }
  }

  lemma RunNextNotes(s: State, io: Io)
    requires Enabled(s, RunNext(io))
    ensures var t := After(s, RunNext(io));
            var job := s.writer.todo[0];
            && t.writer.Committing? && t.settled == s.settled
            && t.writer.ran == s.writer.ran + [Done(job, Execute(s.memory, s.disk, job.request, io).outcome)]
  {
  }

  /** A promise is settled with what its operation came to if the sync of the batch succeeds, and rejected if not. */
  lemma OutcomeIsSettled(s: State, io: Io, steps: seq<Step>, t: State, ok: bool)
    requires Enabled(s, RunNext(io)) && Reaches(After(s, RunNext(io)), steps, t)
    requires (forall step :: step in steps ==> InBatch(step)) && Enabled(t, Sync(ok))
    ensures var job := s.writer.todo[0];
            var outcome := Execute(s.memory, s.disk, job.request, io).outcome;
            var i := |s.settled| + |s.writer.ran|;
            var after := After(t, Sync(ok)).settled;
            && i < |after| && after[i].job == job
            && after[i].resolved == if ok && !outcome.Failed? then Some(outcome) else None
  {
    var u := After(s, RunNext(io));
    RunNextNotes(s, io);
    RanStays(u, steps, t);
    var k := |s.writer.ran|;
    assert t.writer.ran[k] == u.writer.ran[k];
    assert After(t, Sync(ok)).settled == t.settled + Settle(t.writer.ran, ok);
  }

  /** So a queued append of a new event that fits and meets no fault resolves with that event. */
  lemma AppendResolves(s: State, io: Io, steps: seq<Step>, t: State)
    requires Enabled(s, RunNext(io)) && s.writer.todo[0].request.AppendReq? && io.fault.NoFault?
    requires var r := s.writer.todo[0].request; r.event.bytes <= r.maxBytes && r.event.eventId !in s.memory.entries
    requires Reaches(After(s, RunNext(io)), steps, t)
    requires (forall step :: step in steps ==> InBatch(step)) && Enabled(t, Sync(true))
    ensures var i := |s.settled| + |s.writer.ran|;
            var after := After(t, Sync(true)).settled;
            i < |after| && after[i].resolved == Some(Appended(s.writer.todo[0].request.event))
  {
    var r := s.writer.todo[0].request;
    AppendSucceeds(s.memory, s.disk, r.event, r.maxBytes, io);
    OutcomeIsSettled(s, io, steps, t, true);
  }

  /** The steps of one append alone: queued, taken, run and synced. */
  function AppendSteps(e: Event, maxBytes: nat, io: Io): seq<Step> {
    [Enqueue(AppendReq(e, maxBytes)), StartWriter, RunNext(io), Sync(true)]
  }

  /**
   From the queue to the directory: in an idle outbox a well-formed new event is appended in four
   steps, its promise resolves, and from then on it is committed.
   */
  lemma AppendCommits(s: State, e: Event, io: Io) returns (t: State)
    requires Inv(s) && Agrees(s.memory, s.disk.View(), false) && s.writer.Idle? && s.queue == []
    requires Replayable(e) && e.bytes <= MAX_BRIDGE_FRAME_BYTES && e.eventId !in s.memory.entries
    requires SafeSequence(s.memory.nextSequence) && io.fault.NoFault?
    ensures Reaches(s, AppendSteps(e, MAX_BRIDGE_FRAME_BYTES, io), t)
    ensures |t.settled| == |s.settled| + 1 && t.settled[|s.settled|].resolved == Some(Appended(e))
    ensures e.eventId in t.committed && t.writer.Idle? && t.queue == []
  {
    var steps := AppendSteps(e, MAX_BRIDGE_FRAME_BYTES, io);
    var a := After(s, steps[0]);
    var b := After(a, steps[1]);
    var c := After(b, steps[2]);
    t := After(c, steps[3]);
    assert a.queue == [Job(s.tickets, AppendReq(e, MAX_BRIDGE_FRAME_BYTES))] && a.writer.Scheduled?;
    assert b.writer == Committing(a.queue, []) && b.queue == [];
    AppendSucceeds(b.memory, b.disk, e, MAX_BRIDGE_FRAME_BYTES, io);
    assert c.writer == Committing([], [Done(a.queue[0], Appended(e))]);
    CommitsAtSync(s, a, b, c, e, io);
    assert Reaches(c, steps[3..], t) by { assert steps[3..][1..] == []; }
    assert Reaches(b, steps[2..], t) by { assert steps[2..][1..] == steps[3..]; }
    assert Reaches(a, steps[1..], t) by { assert steps[1..][1..] == steps[2..]; }
  }

  lemma CommitsAtSync(s: State, a: State, b: State, c: State, e: Event, io: Io)
    requires Inv(s) && Agrees(s.memory, s.disk.View(), false)
    requires a == After(s, Enqueue(AppendReq(e, MAX_BRIDGE_FRAME_BYTES)))
    requires Enabled(a, StartWriter) && b == After(a, StartWriter) && Enabled(b, RunNext(io)) && c == After(b, RunNext(io))
    requires c.writer.Committing? && c.writer.todo == [] && c.writer.ran != []
    requires c.writer.ran[0].outcome == Appended(e) && Stored(c.memory, c.disk.View(), e)
    requires c.memory.entries[e.eventId].file.Final? && SafeSequence(c.memory.entries[e.eventId].sequence)
    requires Replayable(e) && e.bytes <= MAX_BRIDGE_FRAME_BYTES
    ensures e.eventId in NewlyCommitted(c)
  {
    StepKeepsInv(s, Enqueue(AppendReq(e, MAX_BRIDGE_FRAME_BYTES)));
    StepKeepsInv(a, StartWriter);
    StepKeepsInv(b, RunNext(io));
    StepKeepsAgreement(s, Enqueue(AppendReq(e, MAX_BRIDGE_FRAME_BYTES)), false);
    StepKeepsAgreement(a, StartWriter, false);
    StepKeepsAgreement(b, RunNext(io), false);
    LastingIsSafe(c.memory, c.disk.View(), e.eventId);
    assert AppendedIn(c.writer.ran, e.eventId);
  }
}
