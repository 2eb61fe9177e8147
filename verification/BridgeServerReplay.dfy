/** What a subscriber is owed and who may acknowledge, as invariants of every run of the server. */
module BridgeServerReplay {
  import opened Protocol
  import opened OutboxDirectory
  import opened OutboxLoad
  import Outbox
  import Durability = OutboxDurability
  import opened BridgeServer

  /** An acknowledgement in the outbox was asked for by a subscriber that had been sent the event. */
  predicate Entitled(s: State, r: Outbox.Request) {
    r.AckReq? ==> r.asker in s.ever && r.eventId in s.ever[r.asker] && r.asker in s.subscribers
  }

  ghost predicate AcksEntitled(s: State) {
    && (forall j :: j in s.outbox.queue ==> Entitled(s, j.request))
    && (s.outbox.writer.Committing? ==>
          && (forall j :: j in s.outbox.writer.todo ==> Entitled(s, j.request))
          && (forall d :: d in s.outbox.writer.ran ==> Entitled(s, d.job.request)))
    && (forall w :: w in s.wakeups && w.AckReply? ==> w.client in s.ever && w.eventId in s.ever[w.client])
    && (forall a :: a in s.outbox.acks ==> Entitled(s, Outbox.AckReq(a.0, a.1)))
  }

  ghost predicate OneSubscriber(s: State) {
    && (s.canonical.Some? ==> s.canonical.value in s.clients && s.clients[s.canonical.value].subscribed)
    && (forall c :: c in s.clients && s.clients[c].subscribed ==> s.canonical == Some(c) && c in s.subscribers)
    && (forall c :: c in s.clients ==>
          && c in s.ever
          && s.clients[c].deliveredEventIds <= s.ever[c]
          && s.clients[c].acknowledgedEventIds <= s.ever[c])
    && (forall c :: c in s.ever ==> c < s.nextClient)
  }

  /** What a subscriber is owed has been sent, is still to be sent by its replay, or is excused. */
  predicate Served(s: State, c: nat, cl: Client)
    requires c in s.ever
  {
    cl.subscribed && !cl.refused ==>
      cl.owed <= s.ever[c] + cl.excused
                 + (if cl.replaying then s.outbox.memory.entries.Keys + Ids(cl.replayQueue) else {})
  }

  predicate ExcusesReal(s: State, c: nat, cl: Client) {
    forall id :: id in cl.excused ==>
      exists i :: cl.since <= i < |s.outbox.acks| && s.outbox.acks[i].0 == id && s.outbox.acks[i].1 != c
  }

  ghost predicate NoForeign(s: State, c: nat, cl: Client) {
    cl.subscribed ==> ForeignAcks(s.outbox, c) <= cl.foreignAcks && cl.excused <= cl.foreignAcks
  }

  ghost predicate ClientOk(s: State, c: nat, cl: Client) {
    c in s.ever && cl.since <= |s.outbox.acks| && Served(s, c, cl) && ExcusesReal(s, c, cl) && NoForeign(s, c, cl)
  }

  ghost predicate Inv(s: State) {
    && Durability.Inv(s.outbox)
    && OneSubscriber(s)
    && AcksEntitled(s)
    && (forall c :: c in s.clients ==> ClientOk(s, c, s.clients[c]))
  }

  /** History only grows. */
  ghost predicate Grows(s: State, t: State) {
    && (forall c :: c in s.ever ==> c in t.ever && s.ever[c] <= t.ever[c])
    && s.subscribers <= t.subscribers
  }

  lemma EntitledGrows(s: State, t: State)
    requires AcksEntitled(s) && Grows(s, t) && t.outbox == s.outbox
    requires forall w :: w in t.wakeups ==> w in s.wakeups
    ensures AcksEntitled(t)
  {
  }

  lemma ClientOkGrows(s: State, t: State, c: nat, cl: Client)
    requires ClientOk(s, c, cl) && Grows(s, t) && t.outbox == s.outbox
    ensures ClientOk(t, c, cl)
  {
  }

  lemma OthersOk(s: State, t: State, c: nat)
    requires Inv(s) && Grows(s, t) && t.outbox == s.outbox
    requires forall k :: k in t.clients && k != c ==> k in s.clients && t.clients[k] == s.clients[k]
    requires c in t.clients ==> ClientOk(t, c, t.clients[c])
    ensures forall k :: k in t.clients ==> ClientOk(t, k, t.clients[k])
  {
  }

  /** Sending some events to one client, and noting which arrived. */
  lemma SendKeepsInv(s: State, c: nat, cl: Client, ids: set<string>)
    requires Inv(s) && c in s.clients && c in s.ever
    requires cl.subscribed == s.clients[c].subscribed
    requires cl.deliveredEventIds == s.clients[c].deliveredEventIds + ids
    requires cl.acknowledgedEventIds == s.clients[c].acknowledgedEventIds
    requires ClientOk(SendTo(s, c, cl, ids), c, cl)
    ensures Inv(SendTo(s, c, cl, ids))
  {
    var t := SendTo(s, c, cl, ids);
    EntitledGrows(s, t);
    OthersOk(s, t, c);
  }

  lemma ReplayKeepsInv(s: State, step: Step)
    requires Inv(s) && Enabled(s, step) && step.Replay?
    ensures Inv(After(s, step))
  {
    var c := step.client;
    var cl := s.clients[c];
    var sends := ReplaySends(cl, step.pending, step.sentOk, step.queueOk);
    var after := Replayed(cl, step.pending, step.sentOk, step.queueOk);
    var ids := Range(sends.0) + Range(sends.1);
    ReplaySendsAll(cl, step.pending, step.sentOk, step.queueOk);
    assert s.outbox.memory.entries.Keys <= Ids(step.pending) by {
      forall id | id in s.outbox.memory.entries ensures id in Ids(step.pending) {
        assert Durability.EntryOk(s.outbox.memory, id, s.outbox.memory.entries[id]);
        assert s.outbox.memory.entries[id].event in step.pending;
      }
    }
    assert ClientOk(s, c, cl);
    SendKeepsInv(s, c, after, ids);
  }

  lemma QueueKeepsInv(s: State, c: nat, e: Event)
    requires Inv(s) && c in s.clients && s.clients[c].replaying
    ensures Inv(s.(clients := s.clients[c := s.clients[c].(owed := s.clients[c].owed + {e.eventId},
                                                           replayQueue := s.clients[c].replayQueue + [e])]))
  {
    var cl := s.clients[c].(owed := s.clients[c].owed + {e.eventId}, replayQueue := s.clients[c].replayQueue + [e]);
    var t := s.(clients := s.clients[c := cl]);
    assert ClientOk(s, c, s.clients[c]);
    assert Ids(cl.replayQueue) == Ids(s.clients[c].replayQueue) + {e.eventId};
    assert ClientOk(t, c, cl);
    EntitledGrows(s, t);
    OthersOk(s, t, c);
  }

  lemma DeliverKeepsInv(s: State, c: nat, e: Event, ok: bool)
    requires Inv(s) && c in s.clients && c in s.ever && !s.clients[c].replaying
    ensures Inv(SendTo(s, c, Deliver(s.clients[c].(owed := s.clients[c].owed + {e.eventId}), e, ok),
                       if ok then {e.eventId} else {}))
  {
    var cl := Deliver(s.clients[c].(owed := s.clients[c].owed + {e.eventId}), e, ok);
    var ids := if ok then {e.eventId} else {};
    assert ClientOk(s, c, s.clients[c]);
    assert ClientOk(SendTo(s, c, cl, ids), c, cl);
    SendKeepsInv(s, c, cl, ids);
  }

  lemma BroadcastKeepsInv(s: State, e: Event, ok: bool)
    requires Inv(s)
    ensures Inv(Broadcast(s, e, ok))
  {
    if s.canonical.Some? && s.canonical.value in s.ever {
      var c := s.canonical.value;
      if s.clients[c].replaying {
        QueueKeepsInv(s, c, e);
      } else {
        DeliverKeepsInv(s, c, e, ok);
      }
    }
  }

  lemma DropWakeupKeepsInv(s: State, i: nat)
    requires Inv(s) && i < |s.wakeups|
    ensures Inv(s.(wakeups := s.wakeups[..i] + s.wakeups[i + 1..]))
  {
  }

  lemma RepliedKeepsInv(s: State, c: nat, id: string)
    requires Inv(s) && c in s.ever && id in s.ever[c]
    ensures Inv(Replied(s, c, id))
  {
    if c in s.clients {
      var t := Replied(s, c, id);
      EntitledGrows(s, t);
      assert ClientOk(s, c, s.clients[c]);
      OthersOk(s, t, c);
    }
  }

  lemma FailureKeepsInv(s: State)
    requires Inv(s)
    ensures Inv(s.(persistenceFailure := true))
  {
    var t := s.(persistenceFailure := true);
    EntitledGrows(s, t);
    forall c | c in t.clients ensures ClientOk(t, c, t.clients[c]) { ClientOkGrows(s, t, c, s.clients[c]); }
  }

  lemma WakeKeepsInv(s: State, step: Step)
    requires Inv(s) && Enabled(s, step) && step.Wake?
    ensures Inv(After(s, step))
  {
    DropWakeupKeepsInv(s, step.index);
    if s.wakeups[step.index].AckReply? {
      ReplyEntitled(s, step.index);
    }
    ContinuedKeepsInv(s.(wakeups := s.wakeups[..step.index] + s.wakeups[step.index + 1..]), s.wakeups[step.index], step.ok);
  }

  lemma ContinuedKeepsInv(s: State, w: Wakeup, ok: bool)
    requires Inv(s) && (w.AckReply? ==> w.client in s.ever && w.eventId in s.ever[w.client])
    ensures Inv(Continued(s, w, ok))
  {
    match w {
      case Announce(e) => BroadcastKeepsInv(s, e, ok);
      case AckReply(c, id) => RepliedKeepsInv(s, c, id);
      case PersistenceFailed => FailureKeepsInv(s);
    }
  }

  lemma ReplyEntitled(s: State, i: nat)
    requires AcksEntitled(s) && i < |s.wakeups| && s.wakeups[i].AckReply?
    ensures s.wakeups[i].client in s.ever && s.wakeups[i].eventId in s.ever[s.wakeups[i].client]
  {
    assert s.wakeups[i] in s.wakeups;
  }

  lemma SubscribeKeepsInv(s: State, step: Step)
    requires Inv(s) && Enabled(s, step) && step.Subscribe?
    ensures Inv(After(s, step))
  {
    var t := After(s, step);
    if t != s {
      EntitledGrows(s, t);
      OthersOk(s, t, step.client);
    }
  }

  lemma ConnectionKeepsInv(s: State, step: Step)
    requires Inv(s) && Enabled(s, step) && (step.Connect? || step.Close?)
    ensures Inv(After(s, step))
  {
    var t := After(s, step);
    EntitledGrows(s, t);
    OthersOk(s, t, if step.Connect? then s.nextClient else step.client);
  }

  /** A request enters the queue; only the canonical subscriber can ask for an acknowledgement. */
  lemma EnqueueKeepsInv(s: State, r: Outbox.Request)
    requires Inv(s) && Entitled(s, r)
    requires r.AckReq? ==> s.canonical == Some(r.asker)
    ensures Inv(s.(outbox := Outbox.After(s.outbox, Outbox.Enqueue(r))))
  {
    var t := s.(outbox := Outbox.After(s.outbox, Outbox.Enqueue(r)));
    Durability.StepKeepsInv(s.outbox, Outbox.Enqueue(r));
    assert AcksEntitled(t) by {
      forall j | j in t.outbox.queue ensures Entitled(t, j.request) {
        if j !in s.outbox.queue {
          assert j.request == r;
        }
      }
    }
    forall c | c in t.clients ensures ClientOk(t, c, t.clients[c]) {
      var cl := s.clients[c];
      assert ClientOk(s, c, cl);
      assert Served(t, c, cl) && ExcusesReal(t, c, cl);
      if cl.subscribed {
        assert !Foreign(r, c);
        assert forall j :: j in t.outbox.queue ==> j in s.outbox.queue || j.request == r;
        assert ForeignAcks(t.outbox, c) <= ForeignAcks(s.outbox, c);
      }
    }
  }

  lemma {:induction false} WakeupsEntitled(s: State, settled: seq<Outbox.Settlement>)
    requires forall i :: 0 <= i < |settled| ==> Entitled(s, settled[i].job.request)
    ensures forall w :: w in Wakeups(settled) && w.AckReply? ==> w.client in s.ever && w.eventId in s.ever[w.client]
  {
    if settled != [] {
      var n := |settled| - 1;
      WakeupsEntitled(s, settled[..n]);
      assert Entitled(s, settled[n].job.request);
    }
  }

  lemma SyncEntitled(s: State, ok: bool)
    requires Inv(s) && Enabled(s, Writer(Outbox.Sync(ok)))
    ensures AcksEntitled(After(s, Writer(Outbox.Sync(ok))))
  {
    var t := After(s, Writer(Outbox.Sync(ok)));
    var settled := Outbox.Settle(s.outbox.writer.ran, ok);
    assert t.outbox.settled[|s.outbox.settled|..] == settled;
    forall i | 0 <= i < |settled| ensures Entitled(s, settled[i].job.request) {
      assert s.outbox.writer.ran[i] in s.outbox.writer.ran;
    }
    WakeupsEntitled(s, settled);
    NextBatchMembers(s.outbox, t.outbox);
  }

  /** A batch is over or begins: entries, acknowledgements and clients are as before. */
  lemma BatchKeepsClients(s: State, t: State)
    requires Inv(s) && t.clients == s.clients && t.ever == s.ever
    requires t.outbox.memory == s.outbox.memory && t.outbox.acks == s.outbox.acks
    requires t.outbox.queue == Outbox.NextBatch(s.outbox).queue && t.outbox.writer == Outbox.NextBatch(s.outbox).writer
    ensures forall c :: c in t.clients ==> ClientOk(t, c, t.clients[c])
  {
    NextBatchMembers(s.outbox, t.outbox);
    forall c | c in t.clients ensures ClientOk(t, c, t.clients[c]) {
      assert ClientOk(s, c, s.clients[c]);
      assert ForeignAcks(t.outbox, c) <= ForeignAcks(s.outbox, c);
    }
  }

  lemma SyncKeepsInv(s: State, ok: bool)
    requires Inv(s) && Enabled(s, Writer(Outbox.Sync(ok)))
    ensures Inv(After(s, Writer(Outbox.Sync(ok))))
  {
    Durability.StepKeepsInv(s.outbox, Outbox.Sync(ok));
    SyncEntitled(s, ok);
    BatchKeepsClients(s, After(s, Writer(Outbox.Sync(ok))));
  }

  /** Taking a batch moves requests from the queue into it and invents none. */
  lemma NextBatchMembers(o: Outbox.State, p: Outbox.State)
    requires p.queue == Outbox.NextBatch(o).queue && p.writer == Outbox.NextBatch(o).writer
    ensures forall j :: j in p.queue ==> j in o.queue
    ensures p.writer.Committing? ==> p.writer.ran == [] && forall j :: j in p.writer.todo ==> j in o.queue
  {
  }

  lemma StartKeepsInv(s: State)
    requires Inv(s) && Enabled(s, Writer(Outbox.StartWriter))
    ensures Inv(After(s, Writer(Outbox.StartWriter)))
  {
    var t := After(s, Writer(Outbox.StartWriter));
    Durability.StepKeepsInv(s.outbox, Outbox.StartWriter);
    NextBatchMembers(s.outbox, t.outbox);
    assert AcksEntitled(t);
    BatchKeepsClients(s, t);
  }

  /** What running one operation does to the entries and to the record of acknowledgements. */
  lemma RunNextFacts(o: Outbox.State, io: Outbox.Io)
    requires o.writer.Committing? && o.writer.todo != []
    ensures var p := Outbox.After(o, Outbox.RunNext(io));
            var r := o.writer.todo[0].request;
            && (r.AppendReq? ==> o.memory.entries.Keys <= p.memory.entries.Keys && p.acks == o.acks)
            && (r.AckReq? && p.memory.entries.Keys == o.memory.entries.Keys ==> p.acks == o.acks)
            && (r.AckReq? && p.memory.entries.Keys != o.memory.entries.Keys ==>
                  && p.acks == o.acks + [(r.eventId, r.asker)]
                  && p.memory.entries.Keys == o.memory.entries.Keys - {r.eventId})
  {
  }

  lemma RunNextEntitled(s: State, io: Outbox.Io)
    requires Inv(s) && Enabled(s, Writer(Outbox.RunNext(io)))
    ensures AcksEntitled(After(s, Writer(Outbox.RunNext(io))))
  {
    var t := After(s, Writer(Outbox.RunNext(io)));
    RunNextFacts(s.outbox, io);
    var job := s.outbox.writer.todo[0];
    assert job in s.outbox.writer.todo;
    forall j | j in t.outbox.writer.todo ensures Entitled(t, j.request) { assert j in s.outbox.writer.todo; }
    forall d | d in t.outbox.writer.ran ensures Entitled(t, d.job.request) {
      if d !in s.outbox.writer.ran {
        assert d.job == job;
      }
    }
  }

  /** The clients after an operation: unchanged, or excused from one event. */
  lemma RunNextClients(s: State, io: Outbox.Io, c: nat)
    requires Enabled(s, Writer(Outbox.RunNext(io))) && c in s.clients
    ensures var t := After(s, Writer(Outbox.RunNext(io)));
            var r := s.outbox.writer.todo[0].request;
            && t == s.(outbox := Outbox.After(s.outbox, Outbox.RunNext(io)), clients := t.clients)
            && t.clients.Keys == s.clients.Keys
            && t.clients[c] == s.clients[c].(excused := t.clients[c].excused)
            && (t.clients[c].excused == s.clients[c].excused
                || (r.AckReq? && r.asker != c && t.clients[c].excused == s.clients[c].excused + {r.eventId}
                    && t.outbox.memory.entries.Keys != s.outbox.memory.entries.Keys))
            && (r.AckReq? && t.outbox.memory.entries.Keys != s.outbox.memory.entries.Keys && r.asker != c ==>
                  t.clients[c].excused == s.clients[c].excused + {r.eventId})
  {
  }

  lemma RunNextServed(s: State, io: Outbox.Io, c: nat)
    requires Inv(s) && Enabled(s, Writer(Outbox.RunNext(io))) && c in s.clients
    ensures var t := After(s, Writer(Outbox.RunNext(io))); c in t.clients && c in t.ever && Served(t, c, t.clients[c])
  {
    RunNextClients(s, io, c);
    RunNextFacts(s.outbox, io);
    var r := s.outbox.writer.todo[0].request;
    assert s.outbox.writer.todo[0] in s.outbox.writer.todo;
    assert ClientOk(s, c, s.clients[c]) && Entitled(s, r);
  }

  lemma RunNextExcuses(s: State, io: Outbox.Io, c: nat)
    requires Inv(s) && Enabled(s, Writer(Outbox.RunNext(io))) && c in s.clients
    ensures var t := After(s, Writer(Outbox.RunNext(io))); c in t.clients && ExcusesReal(t, c, t.clients[c])
  {
    RunNextClients(s, io, c);
    RunNextFacts(s.outbox, io);
    var t, r := After(s, Writer(Outbox.RunNext(io))), s.outbox.writer.todo[0].request;
    assert ClientOk(s, c, s.clients[c]);
    var acks, cl := t.outbox.acks, t.clients[c];
    forall id | id in cl.excused ensures exists i :: cl.since <= i < |acks| && acks[i].0 == id && acks[i].1 != c {
      if id in s.clients[c].excused {
        var i :| cl.since <= i < |s.outbox.acks| && s.outbox.acks[i].0 == id && s.outbox.acks[i].1 != c;
        assert acks[i].0 == id && acks[i].1 != c;
      } else {
        assert acks[|s.outbox.acks|] == (r.eventId, r.asker);
      }
    }
  }

  lemma RunNextNoForeign(s: State, io: Outbox.Io, c: nat)
    requires Inv(s) && Enabled(s, Writer(Outbox.RunNext(io))) && c in s.clients
    ensures var t := After(s, Writer(Outbox.RunNext(io))); c in t.clients && NoForeign(t, c, t.clients[c])
  {
    RunNextClients(s, io, c);
    var t, r := After(s, Writer(Outbox.RunNext(io))), s.outbox.writer.todo[0].request;
    assert ClientOk(s, c, s.clients[c]);
    assert s.outbox.writer.todo[0] in s.outbox.writer.todo;
    assert forall j :: j in t.outbox.writer.todo ==> j in s.outbox.writer.todo;
    assert Foreign(r, c) ==> r.eventId in ForeignAcks(s.outbox, c);
  }

  lemma RunNextOneSubscriber(s: State, io: Outbox.Io)
    requires OneSubscriber(s) && Enabled(s, Writer(Outbox.RunNext(io)))
    ensures OneSubscriber(After(s, Writer(Outbox.RunNext(io))))
  {
    var t := After(s, Writer(Outbox.RunNext(io)));
    forall c | c in s.clients ensures c in t.clients && t.clients[c] == s.clients[c].(excused := t.clients[c].excused) {
      RunNextClients(s, io, c);
    }
  }

  lemma RunNextKeepsInv(s: State, io: Outbox.Io)
    requires Inv(s) && Enabled(s, Writer(Outbox.RunNext(io)))
    ensures Inv(After(s, Writer(Outbox.RunNext(io))))
  {
    var t := After(s, Writer(Outbox.RunNext(io)));
    Durability.StepKeepsInv(s.outbox, Outbox.RunNext(io));
    RunNextEntitled(s, io);
    RunNextOneSubscriber(s, io);
    forall c | c in t.clients ensures ClientOk(t, c, t.clients[c]) {
      RunNextClientOk(s, io, c);
    }
  }

  lemma RunNextClientOk(s: State, io: Outbox.Io, c: nat)
    requires Inv(s) && Enabled(s, Writer(Outbox.RunNext(io))) && c in After(s, Writer(Outbox.RunNext(io))).clients
    ensures var t := After(s, Writer(Outbox.RunNext(io))); ClientOk(t, c, t.clients[c])
  {
    RunNextServed(s, io, c);
    RunNextExcuses(s, io, c);
    RunNextNoForeign(s, io, c);
    RunNextClients(s, io, c);
    RunNextFacts(s.outbox, io);
    assert ClientOk(s, c, s.clients[c]);
  }

  lemma AckKeepsInv(s: State, c: nat, id: string)
    requires Inv(s) && Enabled(s, Ack(c, id))
    ensures Inv(After(s, Ack(c, id)))
  {
    if CanAck(s, c, id) {
      EnqueueKeepsInv(s, Outbox.AckReq(id, c));
    }
  }

  lemma WriterKeepsInv(s: State, o: Outbox.Step)
    requires Inv(s) && Enabled(s, Writer(o))
    ensures Inv(After(s, Writer(o)))
  {
    if o.StartWriter? {
      StartKeepsInv(s);
    } else if o.RunNext? {
      RunNextKeepsInv(s, o.io);
    } else {
      SyncKeepsInv(s, o.ok);
    }
  }

  lemma StepKeepsInv(s: State, step: Step)
    requires Inv(s) && Enabled(s, step)
    ensures Inv(After(s, step))
  {
    match step {
      case Connect => ConnectionKeepsInv(s, step);
      case Subscribe(_) => SubscribeKeepsInv(s, step);
      case Replay(_, _, _, _) => ReplayKeepsInv(s, step);
      case Publish(e) => EnqueueKeepsInv(s, Outbox.AppendReq(e, MAX_BRIDGE_FRAME_BYTES));
      case Wake(_, _) => WakeKeepsInv(s, step);
      case Ack(c, id) => AckKeepsInv(s, c, id);
      case Close(_) => ConnectionKeepsInv(s, step);
      case Writer(o) => WriterKeepsInv(s, o);
      case Crash(o) => Durability.StepKeepsInv(s.outbox, o);
    }
  }

  lemma {:induction false} ReachableInv(s: State, steps: seq<Step>, t: State)
    requires Inv(s) && Reaches(s, steps, t)
    ensures Inv(t)
    decreases |steps|
  {
    if steps != [] {
      StepKeepsInv(s, steps[0]);
      ReachableInv(After(s, steps[0]), steps[1..], t);
    }
  }

  lemma InitialInv(s: State)
    requires Initial(s)
    ensures Inv(s)
  {
    Durability.InitialInv(s.outbox);
    var disk: Disk, files :| IsListing(files, disk.View()) && s.outbox == Outbox.Reboot(s.outbox, disk, files);
  }

  // ---------------------------------------------------------------- theorems

  /** An acknowledgement that took effect at or after `since`, by another connection that had been sent the event. */
  predicate RemovedSince(s: State, c: nat, id: string, since: nat) {
    exists i :: since <= i < |s.outbox.acks| && s.outbox.acks[i].0 == id && s.outbox.acks[i].1 != c
                && s.outbox.acks[i].1 in s.ever && id in s.ever[s.outbox.acks[i].1]
  }

  /**
   What is owed is sent. Once the replay of an open connection has ended and no send to it was
   refused, every event it is owed has been sent on it, except an event whose acknowledgement by
   another connection was waiting when it subscribed, and has taken effect since.
   */
  lemma OwedIsSent(t: State, c: nat, id: string)
    requires Inv(t)
    requires c in t.clients && t.clients[c].subscribed && !t.clients[c].replaying && !t.clients[c].refused
    requires id in t.clients[c].owed
    ensures c in t.ever
    ensures id in t.ever[c]
            || (id in t.clients[c].foreignAcks && RemovedSince(t, c, id, t.clients[c].since))
  {
    var cl, acks := t.clients[c], t.outbox.acks;
    assert ClientOk(t, c, cl);
    if id !in t.ever[c] {
      var i :| cl.since <= i < |acks| && acks[i].0 == id && acks[i].1 != c;
      assert acks[i] in acks && Entitled(t, Outbox.AckReq(acks[i].0, acks[i].1));
    }
  }

  /** The outbox part of a run of the system is a run of the outbox. */
  lemma {:induction false} OutboxRun(s: State, steps: seq<Step>, t: State) returns (o: seq<Outbox.Step>)
    requires Reaches(s, steps, t)
    ensures Outbox.Reaches(s.outbox, o, t.outbox)
    decreases |steps|
  {
    if steps == [] {
      o := [];
    } else {
      var next := After(s, steps[0]);
      var rest := OutboxRun(next, steps[1..], t);
      if next.outbox == s.outbox {
        o := rest;
      } else {
        var first := match steps[0]
          case Publish(e) => Outbox.Enqueue(Outbox.AppendReq(e, MAX_BRIDGE_FRAME_BYTES))
          case Ack(c, id) => Outbox.Enqueue(Outbox.AckReq(id, c))
          case Writer(w) => w
          case Crash(w) => w
          case _ => Outbox.StartWriter;
        o := [first] + rest;
        assert next.outbox == Outbox.After(s.outbox, first);
        assert o[1..] == rest;
      }
    }
  }

  /** The i-th acknowledgement that took effect is one of the event, by a subscriber that had been sent it. */
  predicate SubscriberAck(s: State, i: nat, id: string)
    requires i < |s.outbox.acks|
  {
    var (event, asker) := s.outbox.acks[i];
    event == id && asker in s.subscribers && asker in s.ever && id in s.ever[asker]
  }

  /**
   End to end: from the moment an event is committed, in every later state either it is still
   committed, and then no crash loses it, or since then some connection that was the canonical
   subscriber and had been sent that very event acknowledged it.
   */
  lemma KeptUntilSubscriberAcks(s: State, steps: seq<Step>, m: State, later: seq<Step>, t: State, id: string)
    requires Initial(s) && Reaches(s, steps, m) && Reaches(m, later, t)
    requires id in m.outbox.committed
    ensures id in t.outbox.committed
            || exists i :: |m.outbox.acks| <= i < |t.outbox.acks| && SubscriberAck(t, i, id)
  {
    InitialInv(s);
    ReachableInv(s, steps, m);
    ReachableInv(m, later, t);
    var o := OutboxRun(m, later, t);
    Durability.CommittedUntilAcked(m.outbox, o, t.outbox, id);
    if id !in t.outbox.committed {
      var i :| |m.outbox.acks| <= i < |t.outbox.acks| && t.outbox.acks[i].0 == id;
      assert t.outbox.acks[i] in t.outbox.acks;
      assert Entitled(t, Outbox.AckReq(id, t.outbox.acks[i].1));
      assert SubscriberAck(t, i, id);
    }
  }
}
