/** What each command and event comes to on the server: accepted, delivered, acknowledged, or refused. */
module BridgeServerOutcomes {
  import opened Protocol
  import opened OutboxDirectory
  import opened OutboxLoad
  import Outbox
  import opened BridgeServer

  // ---------------------------------------------------------------- sending

  /** A send counts as refused exactly when the connection refuses it. */
  lemma {:induction false} RefusedIff(cl: Client, events: seq<Event>, ok: seq<bool>)
    requires |ok| == |events|
    ensures DeliverEach(cl, events, ok).refused <==> cl.refused || false in ok
  {
    if events != [] {
      var n := |events| - 1;
      assert ok == ok[..n] + [ok[n]];
      RefusedIff(cl, events[..n], ok[..n]);
    }
  }

  /** So a replay in which every send is taken leaves the connection without a refusal. */
  lemma ReplayRefusedIff(cl: Client, pending: seq<Event>, sentOk: seq<bool>, queueOk: seq<bool>)
    requires |sentOk| == |pending| && |queueOk| == |Unsent(cl.replayQueue, SentIds(pending, sentOk))|
    ensures Replayed(cl, pending, sentOk, queueOk).refused <==> cl.refused || false in sentOk || false in queueOk
  {
    RefusedIff(cl, pending, sentOk);
    var first := DeliverEach(cl, pending, sentOk).(replaying := false, replayQueue := []);
    RefusedIff(first, Unsent(cl.replayQueue, SentIds(pending, sentOk)), queueOk);
  }

  /** The ids sent are those of the sends that were taken, in order. */
  lemma {:induction false} SentIdsAre(events: seq<Event>, ok: seq<bool>, id: string)
    requires |ok| == |events|
    ensures id in SentIds(events, ok) <==> exists i :: 0 <= i < |events| && ok[i] && events[i].eventId == id
  {
    if events != [] {
      var n := |events| - 1;
      SentIdsAre(events[..n], ok[..n], id);
      if i :| 0 <= i < |events[..n]| && ok[..n][i] && events[..n][i].eventId == id {
        assert ok[i] && events[i].eventId == id;
      }
      if i :| 0 <= i < n && ok[i] && events[i].eventId == id {
        assert ok[..n][i] && events[..n][i].eventId == id;
      }
    }
  }

  /** A broadcast goes to the subscriber: sent at once, or queued while its replay runs. */
  lemma BroadcastReaches(s: State, e: Event, ok: bool, c: nat)
    requires s.canonical == Some(c) && c in s.clients && c in s.ever && s.clients[c].subscribed
    ensures var t := Broadcast(s, e, ok);
            && t.clients.Keys == s.clients.Keys && (forall k :: k in s.clients && k != c ==> t.clients[k] == s.clients[k])
            && (s.clients[c].replaying ==>
                  t.clients[c].replayQueue == s.clients[c].replayQueue + [e] && t.ever == s.ever)
            && (!s.clients[c].replaying && ok ==>
                  e.eventId in t.ever[c] && e.eventId in t.clients[c].deliveredEventIds
                  && t.clients[c].refused == s.clients[c].refused)
            && (!s.clients[c].replaying && !ok ==> t.ever[c] == s.ever[c] && t.clients[c].refused)
  {
  }

  // ---------------------------------------------------------------- subscribing

  /** A first subscription is accepted when nobody else is subscribed, and its replay begins. */
  lemma SubscribeAccepted(s: State, c: nat)
    requires Enabled(s, Subscribe(c)) && (s.canonical == None || s.canonical == Some(c)) && !s.clients[c].subscribed
    ensures var t := After(s, Subscribe(c));
            && t.canonical == Some(c) && t.clients[c].subscribed && t.clients[c].replaying && c in t.subscribers
            && t.outbox == s.outbox && t.ever == s.ever
            && forall k :: k in s.clients && k != c ==> k in t.clients && t.clients[k] == s.clients[k]
  {
  }

  /** It is refused while another connection is the subscriber, and repeating it changes nothing. */
  lemma SubscribeRefused(s: State, c: nat)
    requires Enabled(s, Subscribe(c))
    requires (s.canonical.Some? && s.canonical.value != c) || s.clients[c].subscribed
    ensures After(s, Subscribe(c)) == s
  {
  }

  /** When the subscriber's connection closes the next one that asks is accepted, and gets its replay. */
  lemma NextIsAccepted(s: State, c: nat, d: nat)
    requires Enabled(s, Close(c)) && s.canonical == Some(c)
    requires d != c && d in s.clients && d in s.ever && !s.clients[d].subscribed
    ensures var closed := After(s, Close(c));
            && Enabled(closed, Subscribe(d))
            && var t := After(closed, Subscribe(d));
               t.canonical == Some(d) && t.clients[d].subscribed && t.clients[d].replaying && c !in t.clients
  {
    SubscribeAccepted(After(s, Close(c)), d);
  }

  // ---------------------------------------------------------------- events and acknowledgements

  /** A published event is queued for the outbox behind everything else, with the frame limit. */
  lemma PublishQueues(s: State, e: Event)
    requires Enabled(s, Publish(e))
    ensures var t := After(s, Publish(e));
            && t.outbox.queue == s.outbox.queue + [Outbox.Job(s.outbox.tickets, Outbox.AppendReq(e, MAX_BRIDGE_FRAME_BYTES))]
            && t == s.(outbox := t.outbox)
  {
  }

  /**
   An acknowledgement is queued when it comes from the subscriber for an event it was sent or has
   acknowledged before; any other is refused.
   */
  lemma AckQueued(s: State, c: nat, id: string)
    requires c in s.clients
    ensures var t := After(s, Ack(c, id));
            if s.canonical == Some(c) && s.clients[c].subscribed
               && (id in s.clients[c].deliveredEventIds || id in s.clients[c].acknowledgedEventIds)
            then t.outbox.queue == s.outbox.queue + [Outbox.Job(s.outbox.tickets, Outbox.AckReq(id, c))]
                 && t == s.(outbox := t.outbox)
            else t == s
  {
  }

  lemma {:induction false} WakeupsReply(settled: seq<Outbox.Settlement>, i: nat)
    requires i < |settled| && settled[i].job.request.AckReq?
    requires settled[i].resolved.Some? && settled[i].resolved.value.Acked?
    ensures AckReply(settled[i].job.request.asker, settled[i].job.request.eventId) in Wakeups(settled)
  {
    var n := |settled| - 1;
    if i < n {
      WakeupsReply(settled[..n], i);
    }
  }

  lemma {:induction false} WakeupsFailure(settled: seq<Outbox.Settlement>, i: nat)
    requires i < |settled| && settled[i].job.request.AppendReq? && settled[i].resolved.None?
    ensures PersistenceFailed in Wakeups(settled)
  {
    var n := |settled| - 1;
    if i < n {
      WakeupsFailure(settled[..n], i);
    }
  }

  /** The answer moves the event to the acknowledged ones, so that the same acknowledgement is taken again. */
  lemma ReplyAcknowledges(s: State, i: nat, c: nat, id: string, ok: bool)
    requires i < |s.wakeups| && s.wakeups[i] == AckReply(c, id) && c in s.clients
    ensures var t := After(s, Wake(i, ok));
            && c in t.clients && id in t.clients[c].acknowledgedEventIds && id !in t.clients[c].deliveredEventIds
            && t.canonical == s.canonical && t.outbox == s.outbox
            && (s.canonical == Some(c) && s.clients[c].subscribed ==> CanAck(t, c, id))
  {
  }

  /** A failed append stops the intake for good. */
  lemma FailureStopsIntake(s: State, i: nat, ok: bool, e: Event)
    requires i < |s.wakeups| && s.wakeups[i] == PersistenceFailed
    ensures !Enabled(After(s, Wake(i, ok)), Publish(e))
  {
  }

  function AckSteps(c: nat, id: string, io: Outbox.Io): seq<Step> {
    [Ack(c, id), Writer(Outbox.StartWriter), Writer(Outbox.RunNext(io)), Writer(Outbox.Sync(true))]
  }

  /**
   From the command to the directory: with an idle outbox, the subscriber's acknowledgement of a
   pending event it was sent removes the event in four steps, and its answer is among what is left to run.
   */
  lemma {:induction false} AckEndsEvent(s: State, c: nat, id: string, io: Outbox.Io) returns (t: State)
    requires CanAck(s, c, id) && id in s.outbox.memory.entries && !io.unlinkFails
    requires s.outbox.writer.Idle? && s.outbox.queue == []
    ensures Reaches(s, AckSteps(c, id, io), t)
    ensures id !in t.outbox.memory.entries && id !in t.outbox.committed
    ensures t.outbox.acks == s.outbox.acks + [(id, c)] && AckReply(c, id) in t.wakeups
  {
    var steps := AckSteps(c, id, io);
    var job := Outbox.Job(s.outbox.tickets, Outbox.AckReq(id, c));
    var a := After(s, steps[0]);
    assert a.outbox.queue == [job] && a.outbox.writer.Scheduled? && a.outbox.memory == s.outbox.memory;
    var b := After(a, steps[1]);
    assert b.outbox.writer == Outbox.Committing([job], []) && b.outbox.queue == [];
    var d := AckRuns(b, job, io);
    assert d == After(b, steps[2]);
    t := AckSettles(d, job);
    assert t == After(d, steps[3]);
    FourSteps(s, a, b, d, t, steps);
  }

  lemma {:induction false} FourSteps(s: State, a: State, b: State, d: State, t: State, steps: seq<Step>)
    requires |steps| == 4
    requires Enabled(s, steps[0]) && After(s, steps[0]) == a && Enabled(a, steps[1]) && After(a, steps[1]) == b
    requires Enabled(b, steps[2]) && After(b, steps[2]) == d && Enabled(d, steps[3]) && After(d, steps[3]) == t
    ensures Reaches(s, steps, t)
  {
    assert Reaches(d, steps[3..], t) by { assert steps[3..][1..] == []; }
    assert Reaches(b, steps[2..], t) by { assert steps[2..][1..] == steps[3..]; }
    assert Reaches(a, steps[1..], t) by { assert steps[1..][1..] == steps[2..]; }
  }

  lemma AckRuns(b: State, job: Outbox.Job, io: Outbox.Io) returns (d: State)
    requires b.outbox.writer == Outbox.Committing([job], []) && job.request.AckReq? && !io.unlinkFails
    requires job.request.eventId in b.outbox.memory.entries
    ensures Enabled(b, Writer(Outbox.RunNext(io))) && d == After(b, Writer(Outbox.RunNext(io)))
    ensures d.outbox.writer == Outbox.Committing([], [Outbox.Done(job, Outbox.Acked(true))])
    ensures d.outbox.queue == b.outbox.queue && d.wakeups == b.wakeups && d.outbox.settled == b.outbox.settled
    ensures job.request.eventId !in d.outbox.memory.entries && job.request.eventId !in d.outbox.committed
    ensures d.outbox.acks == b.outbox.acks + [(job.request.eventId, job.request.asker)]
  {
    d := After(b, Writer(Outbox.RunNext(io)));
    assert [job][1..] == [];
  }

  lemma AckSettles(d: State, job: Outbox.Job) returns (t: State)
    requires d.outbox.writer == Outbox.Committing([], [Outbox.Done(job, Outbox.Acked(true))]) && job.request.AckReq?
    requires d.outbox.queue == []
    ensures Enabled(d, Writer(Outbox.Sync(true))) && t == After(d, Writer(Outbox.Sync(true)))
    ensures AckReply(job.request.asker, job.request.eventId) in t.wakeups
    ensures t.outbox.memory == d.outbox.memory && t.outbox.acks == d.outbox.acks
    ensures job.request.eventId !in d.outbox.committed ==> job.request.eventId !in t.outbox.committed
  {
    t := After(d, Writer(Outbox.Sync(true)));
    var settled := Outbox.Settle(d.outbox.writer.ran, true);
    assert t.outbox.settled[|d.outbox.settled|..] == settled;
    WakeupsReply(settled, 0);
  }
}
