/**
 The subscriber protocol of `BridgeServer` over the outbox: one canonical subscriber, a replay
 of the pending events while new ones queue, and acknowledgements that remove events.
 */
module BridgeServer {
  import opened Protocol
  import opened OutboxDirectory
  import opened OutboxLoad
  import Outbox

  /**
   One connection. The last five fields are history: whether a send was refused, the events
   it should have been sent (pending when it subscribed, or broadcast since), the events that
   acknowledgements of other connections have removed since, the events whose acknowledgement
   by another connection was waiting in the outbox when it subscribed, and how many
   acknowledgements had taken effect by then.
   */
  datatype Client = Client(
    subscribed: bool, replaying: bool, replayQueue: seq<Event>,
    deliveredEventIds: set<string>, acknowledgedEventIds: set<string>,
    refused: bool, owed: set<string>, excused: set<string>, foreignAcks: set<string>, since: nat)

  const NEW_CLIENT := Client(false, false, [], {}, {}, false, {}, {}, {}, 0)

  /** Continuations of settled outbox promises that have not run yet. */
  datatype Wakeup = Announce(event: Event) | AckReply(client: nat, eventId: string) | PersistenceFailed

  /** `ever` is what each connection, open or closed, has been sent; `subscribers` who was ever canonical. */
  datatype State = State(
    outbox: Outbox.State, clients: map<nat, Client>, canonical: Option<nat>, wakeups: seq<Wakeup>,
    persistenceFailure: bool, nextClient: nat, ever: map<nat, set<string>>, subscribers: set<nat>)

  datatype Step =
    | Connect
    | Subscribe(client: nat)
    | Replay(client: nat, pending: seq<Event>, sentOk: seq<bool>, queueOk: seq<bool>)
    | Publish(event: Event)
    | Wake(index: nat, ok: bool)
    | Ack(client: nat, eventId: string)
    | Close(client: nat)
    | Writer(step: Outbox.Step)
    | Crash(step: Outbox.Step)

  // ---------------------------------------------------------------- sending

  /** `deliverReplayable`. */
  function Deliver(cl: Client, e: Event, ok: bool): Client {
    if ok then cl.(deliveredEventIds := cl.deliveredEventIds + {e.eventId}) else cl.(refused := true)
  }

  function DeliverEach(cl: Client, events: seq<Event>, ok: seq<bool>): Client
    requires |ok| == |events|
  {
    if events == [] then cl
    else
      var n := |events| - 1;
      Deliver(DeliverEach(cl, events[..n], ok[..n]), events[n], ok[n])
  }

  /** The ids sent, in order. */
  function SentIds(events: seq<Event>, ok: seq<bool>): (r: seq<string>)
    requires |ok| == |events|
  {
    if events == [] then []
    else
      var n := |events| - 1;
      SentIds(events[..n], ok[..n]) + (if ok[n] then [events[n].eventId] else [])
  }

  /** The queued events the snapshot did not send. */
  function Unsent(queue: seq<Event>, sent: seq<string>): (r: seq<Event>)
    ensures |r| <= |queue|
    ensures forall e :: e in r <==> e in queue && e.eventId !in sent
  {
    if queue == [] then []
    else
      var n := |queue| - 1;
      Unsent(queue[..n], sent) + (if queue[n].eventId in sent then [] else [queue[n]])
  }

  /** `replayToClient` once `pending` has answered, for a connection that is still there. */
  function Replayed(cl: Client, pending: seq<Event>, sentOk: seq<bool>, queueOk: seq<bool>): Client
    requires |sentOk| == |pending| && |queueOk| == |Unsent(cl.replayQueue, SentIds(pending, sentOk))|
  {
    var rest := Unsent(cl.replayQueue, SentIds(pending, sentOk));
    var first := DeliverEach(cl, pending, sentOk);
    DeliverEach(first.(replaying := false, replayQueue := []), rest, queueOk)
  }

  function ReplaySends(cl: Client, pending: seq<Event>, sentOk: seq<bool>, queueOk: seq<bool>): (r: (seq<string>, seq<string>))
    requires |sentOk| == |pending| && |queueOk| == |Unsent(cl.replayQueue, SentIds(pending, sentOk))|
  {
    (SentIds(pending, sentOk), SentIds(Unsent(cl.replayQueue, SentIds(pending, sentOk)), queueOk))
  }

  function Range(ids: seq<string>): set<string> { set id | id in ids }

  function Ids(events: seq<Event>): set<string> { set e | e in events :: e.eventId }

  lemma {:induction false} SentFacts(cl: Client, events: seq<Event>, ok: seq<bool>)
    requires |ok| == |events|
    ensures Range(SentIds(events, ok)) <= Ids(events)
    ensures DeliverEach(cl, events, ok).deliveredEventIds == cl.deliveredEventIds + Range(SentIds(events, ok))
    ensures !DeliverEach(cl, events, ok).refused ==> !cl.refused && Range(SentIds(events, ok)) == Ids(events)
    ensures DeliverEach(cl, events, ok)
         == cl.(deliveredEventIds := cl.deliveredEventIds + Range(SentIds(events, ok)),
                refused := DeliverEach(cl, events, ok).refused)
  {
    if events != [] {
      var n := |events| - 1;
      SentFacts(cl, events[..n], ok[..n]);
      assert events == events[..n] + [events[n]];
      assert Ids(events) == Ids(events[..n]) + {events[n].eventId};
      var before := SentIds(events[..n], ok[..n]);
      if ok[n] {
        assert Range(before + [events[n].eventId]) == Range(before) + {events[n].eventId};
      } else {
        assert before + [] == before;
      }
    }
  }

  /** Nothing that a replay sends from the snapshot is sent again from its queue. */
  lemma NoResend(cl: Client, pending: seq<Event>, sentOk: seq<bool>, queueOk: seq<bool>, id: string)
    requires |sentOk| == |pending| && |queueOk| == |Unsent(cl.replayQueue, SentIds(pending, sentOk))|
    ensures var sends := ReplaySends(cl, pending, sentOk, queueOk); !(id in sends.0 && id in sends.1)
  {
    var sends := ReplaySends(cl, pending, sentOk, queueOk);
    var rest := Unsent(cl.replayQueue, sends.0);
    SentFacts(cl, rest, queueOk);
    if id in sends.1 {
      assert id in Range(sends.1) && id in Ids(rest);
    }
  }

  /** A replay that refuses nothing has sent every pending event and every queued one. */
  lemma ReplaySendsAll(cl: Client, pending: seq<Event>, sentOk: seq<bool>, queueOk: seq<bool>)
    requires |sentOk| == |pending| && |queueOk| == |Unsent(cl.replayQueue, SentIds(pending, sentOk))|
    ensures var sends := ReplaySends(cl, pending, sentOk, queueOk);
            var after := Replayed(cl, pending, sentOk, queueOk);
            && after == cl.(replaying := false, replayQueue := [], refused := after.refused,
                            deliveredEventIds := cl.deliveredEventIds + Range(sends.0) + Range(sends.1))
            && (!after.refused ==> !cl.refused && Ids(pending) + Ids(cl.replayQueue) <= Range(sends.0) + Range(sends.1))
  {
    var sends := ReplaySends(cl, pending, sentOk, queueOk);
    var rest := Unsent(cl.replayQueue, sends.0);
    SentFacts(cl, pending, sentOk);
    var first := DeliverEach(cl, pending, sentOk).(replaying := false, replayQueue := []);
    SentFacts(first, rest, queueOk);
    var after := Replayed(cl, pending, sentOk, queueOk);
    assert cl.deliveredEventIds + Range(sends.0) + Range(sends.1)
        == first.deliveredEventIds + Range(sends.1);
    if !after.refused {
      forall id | id in Ids(cl.replayQueue) ensures id in Range(sends.0) + Range(sends.1) {
        var e :| e in cl.replayQueue && e.eventId == id;
        if id !in sends.0 {
          assert e in rest;
        }
      }
    }
  }

  // ---------------------------------------------------------------- steps

  function SendTo(s: State, c: nat, cl: Client, ids: set<string>): State
    requires c in s.ever
  {
    s.(clients := s.clients[c := cl], ever := s.ever[c := s.ever[c] + ids])
  }

  /** The `for` loop of `broadcastReplayable` over the clients: only the canonical subscriber gets the event. */
  function Broadcast(s: State, e: Event, ok: bool): State {
    match s.canonical
    case None => s
    case Some(c) =>
      if c !in s.clients || c !in s.ever || !s.clients[c].subscribed then s
      else
        var cl := s.clients[c].(owed := s.clients[c].owed + {e.eventId});
        if cl.replaying then s.(clients := s.clients[c := cl.(replayQueue := cl.replayQueue + [e])])
        else SendTo(s, c, Deliver(cl, e, ok), if ok then {e.eventId} else {})
  }

  /** The rest of the acknowledgement handler, after the outbox has answered. */
  function Replied(s: State, c: nat, id: string): State {
    if c !in s.clients then s
    else
      var cl := s.clients[c];
      s.(clients := s.clients[c := cl.(deliveredEventIds := cl.deliveredEventIds - {id},
                                       acknowledgedEventIds := cl.acknowledgedEventIds + {id})])
  }

  /** The continuation of one settled promise. */
  function Continued(s: State, w: Wakeup, ok: bool): State {
    match w
    case Announce(e) => Broadcast(s, e, ok)
    case AckReply(c, id) => Replied(s, c, id)
    case PersistenceFailed => s.(persistenceFailure := true)
  }

  predicate CanAck(s: State, c: nat, id: string) {
    && s.canonical == Some(c) && c in s.clients && s.clients[c].subscribed
    && (id in s.clients[c].deliveredEventIds || id in s.clients[c].acknowledgedEventIds)
  }

  /** What settling a batch wakes up. */
  function Wakeups(settled: seq<Outbox.Settlement>): seq<Wakeup> {
    if settled == [] then []
    else
      var n := |settled| - 1;
      var last := settled[n];
      Wakeups(settled[..n]) +
      match last.resolved
      case Some(Appended(e)) => [Announce(e)]
      case Some(Acked(_)) =>
        if last.job.request.AckReq? then [AckReply(last.job.request.asker, last.job.request.eventId)] else []
      case _ => if last.job.request.AppendReq? then [PersistenceFailed] else []
  }

  /** Events another connection's acknowledgement removes while a client is waiting for its replay. */
  function Excuse(clients: map<nat, Client>, asker: nat, id: string): map<nat, Client> {
    map c | c in clients :: if c == asker then clients[c] else clients[c].(excused := clients[c].excused + {id})
  }

  predicate Foreign(r: Outbox.Request, c: nat) { r.AckReq? && r.asker != c }

  /** The events whose acknowledgement by another connection has not run yet. */
  function ForeignIn(jobs: seq<Outbox.Job>, c: nat): set<string> {
    set j | j in jobs && Foreign(j.request, c) :: j.request.eventId
  }

  function ForeignAcks(o: Outbox.State, c: nat): set<string> {
    ForeignIn(o.queue, c) + if o.writer.Committing? then ForeignIn(o.writer.todo, c) else {}
  }

  ghost predicate Enabled(s: State, step: Step) {
    match step
    case Connect => true
    case Subscribe(c) => c in s.clients && c in s.ever
    case Replay(c, pending, sentOk, queueOk) =>
      && c in s.clients && c in s.ever && s.clients[c].subscribed && s.clients[c].replaying
      && Outbox.IsPending(pending, s.outbox.memory.entries)
      && (s.outbox.writer.Committing? ==> s.outbox.writer.ran == [])
      && |sentOk| == |pending|
      && |queueOk| == |Unsent(s.clients[c].replayQueue, SentIds(pending, sentOk))|
    case Publish(_) => !s.persistenceFailure
    case Wake(i, _) => i < |s.wakeups|
    case Ack(_, _) => true
    case Close(c) => c in s.clients
    case Writer(step) => (step.StartWriter? || step.RunNext? || step.Sync?) && Outbox.Enabled(s.outbox, step)
    case Crash(step) => (step.ProcessExit? || step.PowerLoss?) && Outbox.Enabled(s.outbox, step)
  }

  ghost function After(s: State, step: Step): State
    requires Enabled(s, step)
  {
    match step
    case Connect =>
      s.(clients := s.clients[s.nextClient := NEW_CLIENT], nextClient := s.nextClient + 1,
         ever := s.ever[s.nextClient := {}])
    case Subscribe(c) =>
      if s.canonical.Some? && s.canonical.value != c then s
      else if s.clients[c].subscribed then s
      else
        s.(clients := s.clients[c := s.clients[c].(subscribed := true, replaying := true,
                                                   owed := s.outbox.memory.entries.Keys, excused := {},
                                                   foreignAcks := ForeignAcks(s.outbox, c),
                                                   since := |s.outbox.acks|)],
           canonical := Some(c), subscribers := s.subscribers + {c})
    case Replay(c, pending, sentOk, queueOk) =>
      var sends := ReplaySends(s.clients[c], pending, sentOk, queueOk);
      SendTo(s, c, Replayed(s.clients[c], pending, sentOk, queueOk), Range(sends.0) + Range(sends.1))
    case Publish(e) =>
      s.(outbox := Outbox.After(s.outbox, Outbox.Enqueue(Outbox.AppendReq(e, MAX_BRIDGE_FRAME_BYTES))))
    case Wake(i, ok) =>
      Continued(s.(wakeups := s.wakeups[..i] + s.wakeups[i + 1..]), s.wakeups[i], ok)
    case Ack(c, id) =>
      if CanAck(s, c, id) then s.(outbox := Outbox.After(s.outbox, Outbox.Enqueue(Outbox.AckReq(id, c)))) else s
    case Close(c) =>
      s.(clients := s.clients - {c}, canonical := if s.canonical == Some(c) then None else s.canonical)
    case Writer(step) =>
      var t := s.(outbox := Outbox.After(s.outbox, step));
      if step.Sync? then t.(wakeups := s.wakeups + Wakeups(t.outbox.settled[|s.outbox.settled|..]))
      else if step.RunNext? && t.outbox.memory.entries.Keys != s.outbox.memory.entries.Keys
              && s.outbox.writer.todo[0].request.AckReq? then
        var r := s.outbox.writer.todo[0].request;
        t.(clients := Excuse(s.clients, r.asker, r.eventId))
      else t
    case Crash(step) =>
      State(Outbox.After(s.outbox, step), map[], None, [], false, s.nextClient, s.ever, s.subscribers)
  }

  ghost predicate Initial(s: State) {
    && Outbox.Initial(s.outbox)
    && s.clients == map[] && s.canonical == None && s.wakeups == [] && !s.persistenceFailure
    && s.nextClient == 0 && s.ever == map[] && s.subscribers == {}
  }

  ghost predicate Reaches(s: State, steps: seq<Step>, t: State)
    decreases |steps|
  {
    if steps == [] then s == t
    else Enabled(s, steps[0]) && Reaches(After(s, steps[0]), steps[1..], t)
  }
}
