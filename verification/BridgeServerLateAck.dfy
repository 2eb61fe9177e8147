/** A run in which an event pending at subscription is never sent to the subscriber. */
module BridgeServerLateAck {
  import opened Protocol
  import opened OutboxDirectory
  import opened OutboxLoad
  import Outbox
  import opened BridgeServer

  /** A server started on a directory that holds one record. */
  function OneRecord(e: Event): State {
    var f := FinalName(1, e);
    State(Outbox.State(Outbox.Memory(map[e.eventId := Entry(1, f, e)], 2), Disk(map[f := Json(e)], []),
                       [], Outbox.Idle, 0, [], {}, []),
          map[], None, [], false, 0, map[], {})
  }

  /** Connection 0 has been sent the event. */
  function FirstServed(e: Event): State {
    OneRecord(e).(clients := map[0 := Client(true, false, [], {e.eventId}, {}, false, {e.eventId}, {}, {}, 0)],
                  canonical := Some(0), nextClient := 1, ever := map[0 := {e.eventId}], subscribers := {0})
  }

  /** Connection 0 has acknowledged and gone; connection 1 has subscribed; the acknowledgement waits. */
  function SecondWaiting(e: Event): State {
    OneRecord(e).(
      outbox := OneRecord(e).outbox.(queue := [Outbox.Job(0, Outbox.AckReq(e.eventId, 0))],
                                     writer := Outbox.Scheduled, tickets := 1),
      clients := map[1 := Client(true, true, [], {}, {}, false, {e.eventId}, {}, {e.eventId}, 0)],
      canonical := Some(1), nextClient := 2, ever := map[0 := {e.eventId}, 1 := {}], subscribers := {0, 1})
  }

  lemma {:induction false} OneRecordIsInitial(e: Event)
    requires Replayable(e) && e.bytes <= MAX_BRIDGE_FRAME_BYTES
    ensures Initial(OneRecord(e))
  {
    var o := OneRecord(e).outbox;
    var f := FinalName(1, e);
    var files := [File(f, Json(e))];
    assert files[..0] == [];
    assert LoadAll(files) == LoadState([Entry(1, f, e)], map[f := Loaded]);
    var loaded := [Entry(1, f, e)];
    assert loaded[..0] == [];
    assert EntriesOf(loaded) == map[e.eventId := Entry(1, f, e)];
    assert NextAfter(loaded) == 2;
    assert Survivors(LoadAll(files), o.disk.View()) == o.disk.View();
    assert IsListing(files, o.disk.View());
    assert o == Outbox.Reboot(o, o.disk, files);
  }

  function FirstSteps(e: Event): seq<Step> { [Connect, Subscribe(0), Replay(0, [e], [true], [])] }

  function SecondSteps(e: Event): seq<Step> { [Ack(0, e.eventId), Close(0)] }

  function ThirdSteps(): seq<Step> { [Connect, Subscribe(1)] }

  function WriterSteps(): seq<Step> {
    [Writer(Outbox.StartWriter), Writer(Outbox.RunNext(Outbox.Io(Outbox.NoFault, false, 0)))]
  }

  function LastSteps(): seq<Step> { [Writer(Outbox.Sync(true)), Replay(1, [], [], [])] }

  lemma {:induction false} RunOne(s: State, step: Step, t: State, rest: seq<Step>, u: State)
    requires Enabled(s, step) && After(s, step) == t && Reaches(t, rest, u)
    ensures Reaches(s, [step] + rest, u)
  {
    assert ([step] + rest)[0] == step && ([step] + rest)[1..] == rest;
  }

  /** Connection 0 has subscribed and waits for its replay. */
  function FirstWaiting(e: Event): State {
    FirstServed(e).(clients := map[0 := Client(true, true, [], {}, {}, false, {e.eventId}, {}, {}, 0)],
                    ever := map[0 := {}])
  }

  lemma {:induction false} ReplaysOne(cl: Client, e: Event)
    requires cl.replayQueue == [] && cl.deliveredEventIds == {}
    ensures SentIds([e], [true]) == [e.eventId] && Unsent(cl.replayQueue, [e.eventId]) == []
    ensures Replayed(cl, [e], [true], []) == cl.(replaying := false, deliveredEventIds := {e.eventId})
    ensures var sends := ReplaySends(cl, [e], [true], []); Range(sends.0) + Range(sends.1) == {e.eventId}
  {
    assert [e][..0] == [];
    assert SentIds([e], [true]) == [e.eventId];
    assert DeliverEach(cl, [e], [true]) == Deliver(cl, e, true);
  }

  lemma {:induction false} RunFirstReplay(e: Event, rest: seq<Step>, t: State)
    requires Reaches(FirstServed(e), rest, t)
    ensures Reaches(FirstWaiting(e), [Replay(0, [e], [true], [])] + rest, t)
  {
    var s, step := FirstWaiting(e), Replay(0, [e], [true], []);
    ReplaysOne(s.clients[0], e);
    assert Enabled(s, step) by {
      assert Outbox.IsPending([e], s.outbox.memory.entries);
    }
    assert s.ever[0] + {e.eventId} == {e.eventId};
    assert After(s, step) == SendTo(s, 0, FirstServed(e).clients[0], {e.eventId});
    assert After(s, step).clients == FirstServed(e).clients && After(s, step).ever == FirstServed(e).ever;
    RunOne(s, step, FirstServed(e), rest, t);
  }

  /** Connection 0 is open. */
  function FirstOpen(e: Event): State {
    OneRecord(e).(clients := map[0 := NEW_CLIENT], nextClient := 1, ever := map[0 := {}])
  }

  lemma {:induction false} RunFirstSubscribe(e: Event, rest: seq<Step>, t: State)
    requires Reaches(FirstWaiting(e), rest, t)
    ensures Reaches(FirstOpen(e), [Subscribe(0)] + rest, t)
  {
    var s := FirstOpen(e);
    assert ForeignAcks(s.outbox, 0) == {} && s.outbox.memory.entries.Keys == {e.eventId};
    assert After(s, Subscribe(0)).clients == FirstWaiting(e).clients;
    RunOne(s, Subscribe(0), FirstWaiting(e), rest, t);
  }

  lemma {:induction false} RunFirst(e: Event, rest: seq<Step>, t: State)
    requires Reaches(FirstServed(e), rest, t)
    ensures Reaches(OneRecord(e), FirstSteps(e) + rest, t)
  {
    var replay := [Replay(0, [e], [true], [])];
    RunFirstReplay(e, rest, t);
    RunFirstSubscribe(e, replay + rest, t);
    assert After(OneRecord(e), Connect) == FirstOpen(e);
    RunOne(OneRecord(e), Connect, FirstOpen(e), [Subscribe(0)] + (replay + rest), t);
    FirstStepsAre(e, rest);
  }

  lemma {:induction false} FirstStepsAre(e: Event, rest: seq<Step>)
    ensures FirstSteps(e) + rest == [Connect] + ([Subscribe(0)] + ([Replay(0, [e], [true], [])] + rest))
  {
  }

  /** Between the two connections. */
  function FirstGone(e: Event): State {
    OneRecord(e).(outbox := SecondWaiting(e).outbox, nextClient := 1, ever := map[0 := {e.eventId}], subscribers := {0})
  }

  lemma {:induction false} RunSecond(e: Event, rest: seq<Step>, t: State)
    requires Reaches(FirstGone(e), rest, t)
    ensures Reaches(FirstServed(e), SecondSteps(e) + rest, t)
  {
    var steps := SecondSteps(e) + rest;
    var s1 := After(FirstServed(e), steps[0]);
    assert s1.outbox == SecondWaiting(e).outbox;
    var s2 := After(s1, steps[1]);
    assert s2.clients == map[];
    assert s2 == FirstGone(e);
    assert steps[1..][1..] == rest && Reaches(s1, steps[1..], t);
  }

  lemma {:induction false} RunThird(e: Event, rest: seq<Step>, t: State)
    requires Reaches(SecondWaiting(e), rest, t)
    ensures Reaches(FirstGone(e), ThirdSteps() + rest, t)
  {
    var steps := ThirdSteps() + rest;
    var s1 := After(FirstGone(e), steps[0]);
    assert s1.clients == map[1 := NEW_CLIENT];
    assert ForeignAcks(s1.outbox, 1) == {e.eventId} by {
      var j := s1.outbox.queue[0];
      assert j in s1.outbox.queue && Foreign(j.request, 1);
    }
    var s2 := After(s1, steps[1]);
    assert s1.outbox.memory.entries.Keys == {e.eventId};
    assert s2.clients == SecondWaiting(e).clients && s2.ever == SecondWaiting(e).ever;
    assert s2 == SecondWaiting(e);
    assert steps[1..][1..] == rest && Reaches(s1, steps[1..], t);
  }

  /** The acknowledgement ran; the second connection still waits for its replay. */
  function AckRan(e: Event): State {
    var w := SecondWaiting(e);
    var f := FinalName(1, e);
    w.(outbox := w.outbox.(memory := Outbox.Memory(map[], 2), disk := Disk(map[f := Json(e)], [Drop(f)]), queue := [],
         writer := Outbox.Committing([], [Outbox.Done(Outbox.Job(0, Outbox.AckReq(e.eventId, 0)), Outbox.Acked(true))]),
         acks := [(e.eventId, 0)]),
       clients := map[1 := w.clients[1].(excused := {e.eventId})])
  }

  /** The writer has taken the acknowledgement. */
  function AckTaken(e: Event): State {
    var w := SecondWaiting(e);
    w.(outbox := w.outbox.(queue := [], writer := Outbox.Committing([Outbox.Job(0, Outbox.AckReq(e.eventId, 0))], [])))
  }

  lemma {:induction false} AckOutbox(e: Event)
    ensures Outbox.Enabled(AckTaken(e).outbox, WriterSteps()[1].step)
    ensures Outbox.After(AckTaken(e).outbox, WriterSteps()[1].step) == AckRan(e).outbox
  {
    var o := AckTaken(e).outbox;
    assert o.memory.entries - {e.eventId} == map[];
    assert o.writer.todo[1..] == [] && o.committed - {e.eventId} == {};
    var p := Outbox.After(o, WriterSteps()[1].step);
    assert p.memory == AckRan(e).outbox.memory && p.disk == AckRan(e).outbox.disk;
    assert p.acks == AckRan(e).outbox.acks && p.writer == AckRan(e).outbox.writer;
  }

  lemma {:induction false} RunAck(e: Event, rest: seq<Step>, t: State)
    requires Reaches(AckRan(e), rest, t)
    ensures Reaches(AckTaken(e), [WriterSteps()[1]] + rest, t)
  {
    var s, step := AckTaken(e), WriterSteps()[1];
    var u := After(s, step);
    AckOutbox(e);
    assert e.eventId in s.outbox.memory.entries && e.eventId !in u.outbox.memory.entries;
    assert u.clients[1] == AckRan(e).clients[1];
    assert u.clients == AckRan(e).clients;
    RunOne(s, step, AckRan(e), rest, t);
  }

  lemma {:induction false} RunWriter(e: Event, rest: seq<Step>, t: State)
    requires Reaches(AckRan(e), rest, t)
    ensures Reaches(SecondWaiting(e), WriterSteps() + rest, t)
  {
    var steps := WriterSteps();
    RunAck(e, rest, t);
    assert After(SecondWaiting(e), steps[0]) == AckTaken(e);
    RunOne(SecondWaiting(e), steps[0], AckTaken(e), [steps[1]] + rest, t);
    assert steps + rest == [steps[0]] + ([steps[1]] + rest);
  }

  lemma {:induction false} RunLast(e: Event) returns (t: State)
    ensures Reaches(AckRan(e), LastSteps(), t)
    ensures 1 in t.clients && t.clients[1].subscribed && !t.clients[1].replaying && !t.clients[1].refused
    ensures e.eventId in t.clients[1].owed && 1 in t.ever && t.ever[1] == {}
  {
    var sync, replay := Writer(Outbox.Sync(true)), Replay(1, [], [], []);
    var s1 := After(AckRan(e), sync);
    assert s1.outbox.writer == Outbox.Idle && s1.outbox.memory.entries == map[] && s1.clients == AckRan(e).clients;
    t := RunReplay(s1);
    RunOne(s1, replay, t, [], t);
    RunOne(AckRan(e), sync, s1, [replay] + [], t);
    assert [sync] + ([replay] + []) == LastSteps();
  }

  /** A replay of nothing, with nothing queued. */
  lemma {:induction false} RunReplay(s: State) returns (t: State)
    requires s.outbox.writer == Outbox.Idle && s.outbox.memory.entries == map[]
    requires 1 in s.clients && s.clients[1].subscribed && s.clients[1].replaying && !s.clients[1].refused
    requires s.clients[1].replayQueue == [] && 1 in s.ever && s.ever[1] == {}
    ensures Enabled(s, Replay(1, [], [], [])) && t == After(s, Replay(1, [], [], []))
    ensures 1 in t.clients && t.clients[1] == s.clients[1].(replaying := false)
    ensures 1 in t.ever && t.ever[1] == {}
  {
    var cl := s.clients[1];
    assert SentIds([], []) == [] && Unsent(cl.replayQueue, []) == [];
    assert Outbox.IsPending([], s.outbox.memory.entries);
    t := After(s, Replay(1, [], [], []));
    assert t.ever[1] == s.ever[1] + (Range([]) + Range([]));
  }

  /**
   The exception in `ReplayComplete` happens. For every replayable event there is a run in
   which it is pending when a connection subscribes, the replay ends with nothing refused,
   and it was never sent on that connection: an acknowledgement by the connection before ran
   while the replay was waiting.
   */
  lemma {:induction false} LateAckSkipsReplay(e: Event) returns (steps: seq<Step>, t: State)
    requires Replayable(e) && e.bytes <= MAX_BRIDGE_FRAME_BYTES
    ensures Initial(OneRecord(e)) && Reaches(OneRecord(e), steps, t)
    ensures 1 in t.clients && t.clients[1].subscribed && !t.clients[1].replaying && !t.clients[1].refused
    ensures e.eventId in t.clients[1].owed && 1 in t.ever && e.eventId !in t.ever[1]
  {
    OneRecordIsInitial(e);
    t := RunLast(e);
    RunWriter(e, LastSteps(), t);
    RunThird(e, WriterSteps() + LastSteps(), t);
    RunSecond(e, ThirdSteps() + (WriterSteps() + LastSteps()), t);
    steps := FirstSteps(e) + (SecondSteps(e) + (ThirdSteps() + (WriterSteps() + LastSteps())));
    RunFirst(e, SecondSteps(e) + (ThirdSteps() + (WriterSteps() + LastSteps())), t);
  }
}
