/** The server's handlers as methods of a class, tied to the step machine. */
module BridgeServerClass {
  import opened Protocol
  import opened OutboxDirectory
  import opened OutboxLoad
  import Outbox
  import opened BridgeServer

  class Server {
    var clients: map<nat, Client>
    var canonicalSubscriber: Option<nat>
    var persistenceFailure: bool
    var outbox: Outbox.State
    var wakeups: seq<Wakeup>
    var nextClient: nat
    ghost var ever: map<nat, set<string>>
    ghost var subscribers: set<nat>

    ghost function Value(): State
      reads this
    {
      State(outbox, clients, canonicalSubscriber, wakeups, persistenceFailure, nextClient, ever, subscribers)
    }

    constructor (outbox: Outbox.State)
      ensures Value() == State(outbox, map[], None, [], false, 0, map[], {})
    {
      this.outbox := outbox;
      clients, canonicalSubscriber, persistenceFailure, wakeups, nextClient := map[], None, false, [], 0;
      ever, subscribers := map[], {};
    }

    /** The `subscribe_events` command, up to the start of the replay. */
    method SubscribeEvents(c: nat)
      requires Enabled(Value(), Subscribe(c))
      modifies this`clients, this`canonicalSubscriber, this`subscribers
      ensures Value() == After(old(Value()), Subscribe(c))
    {
      if canonicalSubscriber.Some? && canonicalSubscriber.value != c {
        return;
      }
      if clients[c].subscribed {
        assert canonicalSubscriber == Some(c) || canonicalSubscriber == None;
        return;
      }
      clients := clients[c := clients[c].(subscribed := true, replaying := true, owed := outbox.memory.entries.Keys,
                                          excused := {}, foreignAcks := ForeignAcks(outbox, c),
                                          since := |outbox.acks|)];
      canonicalSubscriber := Some(c);
      subscribers := subscribers + {c};
    }

    /** Deliver events one after the other, collecting the ids that were sent. */
    static method SendEach(cl: Client, events: seq<Event>, ok: seq<bool>) returns (meta: Client, sent: seq<string>)
      requires |ok| == |events|
      ensures meta == DeliverEach(cl, events, ok) && sent == SentIds(events, ok)
    {
      meta, sent := cl, [];
      for i := 0 to |events|
        invariant meta == DeliverEach(cl, events[..i], ok[..i]) && sent == SentIds(events[..i], ok[..i])
      {
        assert events[..i + 1][..i] == events[..i] && ok[..i + 1][..i] == ok[..i];
        meta := Deliver(meta, events[i], ok[i]);
        sent := sent + if ok[i] then [events[i].eventId] else [];
      }
      assert events[..|events|] == events && ok[..|ok|] == ok;
    }

    /** `replayToClient` after `pending` has answered: the snapshot, then what queued meanwhile. */
    method ReplayToClient(c: nat, pending: seq<Event>, sentOk: seq<bool>, queueOk: seq<bool>)
      requires Enabled(Value(), Replay(c, pending, sentOk, queueOk))
      modifies this`clients, this`ever
      ensures Value() == After(old(Value()), Replay(c, pending, sentOk, queueOk))
    {
      var meta, sent := SendEach(clients[c], pending, sentOk);
      meta := meta.(replaying := false, replayQueue := []);
      var queued := Unsent(clients[c].replayQueue, sent);
      meta, sent := SendEach(meta, queued, queueOk);
      ghost var sends := ReplaySends(clients[c], pending, sentOk, queueOk);
      clients := clients[c := meta];
      ever := ever[c := ever[c] + (Range(sends.0) + Range(sends.1))];
    }

    /** `broadcastReplayable` once the append has resolved. */
    method BroadcastReplayable(e: Event, ok: bool)
      requires forall c :: c in clients ==> c in ever
      modifies this`clients, this`ever
      ensures Value() == Broadcast(old(Value()), e, ok)
    {
      var rest := clients.Keys;
      ghost var start := Value();
      while rest != {}
        invariant rest <= clients.Keys == start.clients.Keys
        invariant Value() == if canonicalSubscriber.Some? && canonicalSubscriber.value in rest then start
                             else Broadcast(start, e, ok)
        decreases |rest|
      {
        var c :| c in rest;
        rest := rest - {c};
        var meta := clients[c];
        if !meta.subscribed || canonicalSubscriber != Some(c) {
          continue;
        }
        meta := meta.(owed := meta.owed + {e.eventId});
        if meta.replaying {
          clients := clients[c := meta.(replayQueue := meta.replayQueue + [e])];
        } else {
          clients := clients[c := Deliver(meta, e, ok)];
          ever := ever[c := ever[c] + if ok then {e.eventId} else {}];
        }
      }
    }

    /** The `ack_event` command, up to the wait for the outbox. */
    method AckEvent(c: nat, eventId: string) returns (accepted: bool)
      requires c in clients
      modifies this`outbox
      ensures Value() == After(old(Value()), Ack(c, eventId))
      ensures accepted == CanAck(old(Value()), c, eventId)
    {
      accepted := && canonicalSubscriber == Some(c) && clients[c].subscribed
                  && (eventId in clients[c].deliveredEventIds || eventId in clients[c].acknowledgedEventIds);
      if accepted {
        outbox := Outbox.After(outbox, Outbox.Enqueue(Outbox.AckReq(eventId, c)));
      }
    }

    method HandleClientClose(c: nat)
      requires c in clients
      modifies this`clients, this`canonicalSubscriber
      ensures Value() == After(old(Value()), Close(c))
    {
      if canonicalSubscriber == Some(c) {
        canonicalSubscriber := None;
      }
      clients := clients - {c};
    }
  }
}
