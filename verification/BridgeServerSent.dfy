/** Exactly what a subscriber has been sent: committed events, and the one exception. */
module BridgeServerSent {
  import opened Protocol
  import opened OutboxDirectory
  import opened OutboxLoad
  import Outbox
  import Durability = OutboxDurability
  import opened BridgeServer
  import opened BridgeServerReplay

  // ---------------------------------------------------------------- one connection over a run

  /** The event a step announces to the subscriber, if it announces one. */
  function Told(s: State, step: Step): set<string> {
    if step.Wake? && step.index < |s.wakeups| && s.wakeups[step.index].Announce?
    then {s.wakeups[step.index].event.eventId} else {}
  }

  /** All events announced in a run. */
  ghost function AnnouncedIn(s: State, steps: seq<Step>): set<string>
    decreases |steps|
  {
    if steps == [] || !Enabled(s, steps[0]) then {}
    else Told(s, steps[0]) + AnnouncedIn(After(s, steps[0]), steps[1..])
  }

  /** What never changes about a subscribed connection, and what only grows. */
  predicate Keeps(cl: Client, after: Client) {
    after.subscribed && after.foreignAcks == cl.foreignAcks && after.since == cl.since && cl.owed <= after.owed
  }

  /** A step that is not its replay queues what is announced while it waits, and sends it afterwards. */
  ghost predicate Follows(s: State, t: State, c: nat, told: set<string>)
    requires c in s.clients && c in s.ever
  {
    && c in t.clients && c in t.ever && Keeps(s.clients[c], t.clients[c])
    && t.clients[c].replaying == s.clients[c].replaying
    && (s.clients[c].replaying ==>
          && Ids(t.clients[c].replayQueue) == Ids(s.clients[c].replayQueue) + told
          && t.ever[c] == s.ever[c] && t.clients[c].refused == s.clients[c].refused)
    && (!s.clients[c].replaying ==>
          && s.ever[c] <= t.ever[c] <= s.ever[c] + told
          && (!t.clients[c].refused ==> !s.clients[c].refused && t.ever[c] == s.ever[c] + told))
    && t.clients[c].owed >= s.clients[c].owed + told
  }

  lemma BroadcastFollows(s: State, c: nat, e: Event, ok: bool)
    requires s.canonical == Some(c) && c in s.clients && c in s.ever && s.clients[c].subscribed
    ensures Follows(s, Broadcast(s, e, ok), c, {e.eventId})
  {
    var queue := s.clients[c].replayQueue;
    assert Ids(queue + [e]) == Ids(queue) + {e.eventId};
  }

  lemma RepliedFollows(s: State, c: nat, other: nat, id: string)
    requires c in s.clients && c in s.ever && s.clients[c].subscribed
    ensures Follows(s, Replied(s, other, id), c, {})
  {
  }

  lemma WakeFollows(s: State, step: Step, c: nat)
    requires Inv(s) && Enabled(s, step) && step.Wake? && c in s.clients && s.clients[c].subscribed
    ensures c in s.ever && Follows(s, After(s, step), c, Told(s, step))
  {
    assert ClientOk(s, c, s.clients[c]) && s.canonical == Some(c);
    var t := s.(wakeups := s.wakeups[..step.index] + s.wakeups[step.index + 1..]);
    match s.wakeups[step.index] {
      case Announce(e) => BroadcastFollows(t, c, e, step.ok);
      case AckReply(other, id) => RepliedFollows(t, c, other, id);
      case PersistenceFailed =>
    }
  }

  lemma WriterFollows(s: State, step: Step, c: nat)
    requires Inv(s) && Enabled(s, step) && step.Writer? && c in s.clients && s.clients[c].subscribed
    ensures c in s.ever && Follows(s, After(s, step), c, {})
  {
    assert ClientOk(s, c, s.clients[c]);
    if step.step.RunNext? {
      RunNextClients(s, step.step.io, c);
    }
  }

  lemma StepFollows(s: State, step: Step, c: nat)
    requires Inv(s) && Enabled(s, step) && c in s.clients && s.clients[c].subscribed && c in After(s, step).clients
    requires !(step.Replay? && step.client == c)
    ensures c in s.ever && Follows(s, After(s, step), c, Told(s, step))
  {
    assert ClientOk(s, c, s.clients[c]);
    if step.Wake? {
      WakeFollows(s, step, c);
    } else if step.Writer? {
      WriterFollows(s, step, c);
    } else if step.Connect? {
      assert c in s.ever && c < s.nextClient;
    }
  }

  /** The replay itself. */
  lemma ReplayFollows(s: State, step: Step)
    requires Inv(s) && Enabled(s, step) && step.Replay?
    ensures var t, c := After(s, step), step.client;
            && c in t.clients && c in t.ever && Keeps(s.clients[c], t.clients[c]) && !t.clients[c].replaying
            && s.clients[c].owed == t.clients[c].owed
            && s.ever[c] <= t.ever[c] <= s.ever[c] + s.outbox.memory.entries.Keys + Ids(s.clients[c].replayQueue)
            && (!t.clients[c].refused ==>
                  !s.clients[c].refused
                  && t.ever[c] == s.ever[c] + s.outbox.memory.entries.Keys + Ids(s.clients[c].replayQueue))
  {
    var cl := s.clients[step.client];
    ReplaySendsAll(cl, step.pending, step.sentOk, step.queueOk);
    PendingIds(s, step.pending);
    SentAreListed(cl, step.pending, step.sentOk, step.queueOk);
  }

  lemma PendingIds(s: State, pending: seq<Event>)
    requires Inv(s) && Outbox.IsPending(pending, s.outbox.memory.entries)
    ensures Ids(pending) == s.outbox.memory.entries.Keys
  {
    forall id | id in s.outbox.memory.entries ensures id in Ids(pending) {
      assert Durability.EntryOk(s.outbox.memory, id, s.outbox.memory.entries[id]);
      assert s.outbox.memory.entries[id].event in pending;
    }
  }

  lemma SentAreListed(cl: Client, pending: seq<Event>, sentOk: seq<bool>, queueOk: seq<bool>)
    requires |sentOk| == |pending| && |queueOk| == |Unsent(cl.replayQueue, SentIds(pending, sentOk))|
    ensures var sends := ReplaySends(cl, pending, sentOk, queueOk);
            Range(sends.0) <= Ids(pending) && Range(sends.1) <= Ids(cl.replayQueue)
  {
    var sends := ReplaySends(cl, pending, sentOk, queueOk);
    SentFacts(cl, pending, sentOk);
    SentFacts(cl, Unsent(cl.replayQueue, sends.0), queueOk);
  }

  /** A connection that is gone does not come back. */
  lemma {:induction false} GoneStaysGone(s: State, steps: seq<Step>, t: State, c: nat)
    requires Reaches(s, steps, t) && c !in s.clients && c < s.nextClient
    ensures c !in t.clients
    decreases |steps|
  {
    if steps != [] {
      var next := After(s, steps[0]);
      assert c !in next.clients by {
        if steps[0].Writer? { WriterKeepsClients(s, steps[0]); }
      }
      GoneStaysGone(next, steps[1..], t, c);
    }
  }

  lemma WriterKeepsClients(s: State, step: Step)
    requires Enabled(s, step) && step.Writer?
    ensures After(s, step).clients.Keys == s.clients.Keys && After(s, step).nextClient == s.nextClient
  {
  }

  lemma StaysUntilGone(s: State, step: Step, rest: seq<Step>, t: State, c: nat)
    requires Inv(s) && Enabled(s, step) && Reaches(After(s, step), rest, t)
    requires c in s.clients && c in t.clients
    ensures c in After(s, step).clients
  {
    var next := After(s, step);
    assert ClientOk(s, c, s.clients[c]);
    if c !in next.clients {
      GoneStaysGone(next, rest, t, c);
    }
  }

  // ---------------------------------------------------------------- committed events are announced

  ghost predicate Announced(s: State, id: string) {
    exists w :: w in s.wakeups && w.Announce? && w.event.eventId == id
  }

  /** The connection is owed the event, or will be as soon as the announcement runs. */
  ghost predicate Due(s: State, c: nat, id: string)
    requires c in s.clients
  {
    id in s.clients[c].owed || Announced(s, id)
  }

  ghost predicate CommittedDue(s: State) {
    forall c, id :: c in s.clients && s.clients[c].subscribed && id in s.outbox.committed ==> Due(s, c, id)
  }

  lemma WakeKeepsDue(s: State, step: Step, c: nat, id: string)
    requires Inv(s) && Enabled(s, step) && step.Wake? && c in s.clients && s.clients[c].subscribed && Due(s, c, id)
    ensures c in After(s, step).clients && Due(After(s, step), c, id)
  {
    WakeFollows(s, step, c);
    var t, i := After(s, step), step.index;
    if id !in t.clients[c].owed {
      var w :| w in s.wakeups && w.Announce? && w.event.eventId == id;
      var k :| 0 <= k < |s.wakeups| && s.wakeups[k] == w;
      assert k != i;
      assert t.wakeups == s.wakeups[..i] + s.wakeups[i + 1..];
      assert w == t.wakeups[if k < i then k else k - 1];
    }
  }

  /** What is due to a connection stays due while it is open. */
  lemma StepKeepsDue(s: State, step: Step, c: nat, id: string)
    requires Inv(s) && Enabled(s, step) && c in s.clients && s.clients[c].subscribed && c in After(s, step).clients
    requires Due(s, c, id)
    ensures After(s, step).clients[c].subscribed && Due(After(s, step), c, id)
  {
    if step.Replay? && step.client == c {
      ReplayFollows(s, step);
    } else {
      StepFollows(s, step, c);
    }
    if step.Wake? {
      WakeKeepsDue(s, step, c, id);
    } else if id !in s.clients[c].owed {
      var w :| w in s.wakeups && w.Announce? && w.event.eventId == id;
      assert w in After(s, step).wakeups;
    }
  }

  lemma {:induction false} WakeupsAnnounce(settled: seq<Outbox.Settlement>, i: nat, e: Event)
    requires i < |settled| && settled[i].resolved == Some(Outbox.Appended(e))
    ensures Announce(e) in Wakeups(settled)
  {
    var n := |settled| - 1;
    if i < n {
      WakeupsAnnounce(settled[..n], i, e);
    }
  }

  /** Committing an event puts its announcement among the continuations to run. */
  lemma NewlyCommittedIsAnnounced(s: State, id: string)
    requires Enabled(s, Writer(Outbox.Sync(true))) && id in Outbox.NewlyCommitted(s.outbox)
    ensures Announced(After(s, Writer(Outbox.Sync(true))), id)
  {
    var ran := s.outbox.writer.ran;
    var i :| 0 <= i < |ran| && ran[i].outcome.Appended? && ran[i].outcome.event.eventId == id;
    var t := After(s, Writer(Outbox.Sync(true)));
    var settled := Outbox.Settle(ran, true);
    assert t.outbox.settled[|s.outbox.settled|..] == settled;
    WakeupsAnnounce(settled, i, ran[i].outcome.event);
    assert Announce(ran[i].outcome.event) in t.wakeups;
  }

  lemma StepCommits(s: State, step: Step, id: string)
    requires Enabled(s, step) && id in After(s, step).outbox.committed && id !in s.outbox.committed
    ensures step == Writer(Outbox.Sync(true)) && id in Outbox.NewlyCommitted(s.outbox)
  {
  }

  lemma WriterSubscribesNobody(s: State, step: Step, c: nat)
    requires Enabled(s, step) && step.Writer? && c in After(s, step).clients && After(s, step).clients[c].subscribed
    ensures c in s.clients && s.clients[c].subscribed
  {
    WriterKeepsClients(s, step);
    if step.step.RunNext? { RunNextClients(s, step.step.io, c); }
  }

  lemma WakeSubscribesNobody(s: State, step: Step, c: nat)
    requires Enabled(s, step) && step.Wake? && c in After(s, step).clients && After(s, step).clients[c].subscribed
    ensures c in s.clients && s.clients[c].subscribed
  {
  }

  /** Only subscribing makes a subscriber. */
  lemma NewSubscriber(s: State, step: Step, c: nat)
    requires Enabled(s, step) && c in After(s, step).clients && After(s, step).clients[c].subscribed
    requires !(c in s.clients && s.clients[c].subscribed)
    ensures step == Subscribe(c) && After(s, step).clients[c].owed == s.outbox.memory.entries.Keys
    ensures After(s, step).outbox == s.outbox
  {
    if step.Writer? {
      WriterSubscribesNobody(s, step, c);
    } else if step.Wake? {
      WakeSubscribesNobody(s, step, c);
    }
  }

  lemma StepKeepsCommittedDue(s: State, step: Step)
    requires Inv(s) && CommittedDue(s) && Enabled(s, step)
    ensures CommittedDue(After(s, step))
  {
    var t := After(s, step);
    forall c, id | c in t.clients && t.clients[c].subscribed && id in t.outbox.committed ensures Due(t, c, id) {
      if !(c in s.clients && s.clients[c].subscribed) {
        NewSubscriber(s, step, c);
      } else if id in s.outbox.committed {
        StepKeepsDue(s, step, c, id);
      } else {
        StepCommits(s, step, id);
        NewlyCommittedIsAnnounced(s, id);
      }
    }
  }

  lemma {:induction false} ReachableCommittedDue(s: State, steps: seq<Step>, t: State)
    requires Inv(s) && CommittedDue(s) && Reaches(s, steps, t)
    ensures Inv(t) && CommittedDue(t)
    decreases |steps|
  {
    if steps != [] {
      StepKeepsInv(s, steps[0]);
      StepKeepsCommittedDue(s, steps[0]);
      ReachableCommittedDue(After(s, steps[0]), steps[1..], t);
    }
  }

  lemma {:induction false} DueInRuns(s: State, steps: seq<Step>, t: State, c: nat, id: string)
    requires Inv(s) && Reaches(s, steps, t) && c in s.clients && s.clients[c].subscribed && c in t.clients
    requires Due(s, c, id)
    ensures t.clients[c].subscribed && Due(t, c, id)
    decreases |steps|
  {
    if steps != [] {
      var next := After(s, steps[0]);
      StaysUntilGone(s, steps[0], steps[1..], t, c);
      StepKeepsInv(s, steps[0]);
      StepKeepsDue(s, steps[0], c, id);
      DueInRuns(next, steps[1..], t, c, id);
    }
  }

  /**
   Replay completeness. Take any event that is pending or committed at some moment at which a
   connection is the subscriber. Once that connection's replay has ended and no send to it was
   refused, and the event's announcement is not among the continuations still to run, the event
   has been sent on it; except when the event's own acknowledgement by another connection was
   waiting in the outbox at subscription, and has taken effect since.
   */
  lemma ReplayComplete(s: State, steps: seq<Step>, m: State, later: seq<Step>, t: State, c: nat, id: string)
    requires Initial(s) && Reaches(s, steps, m) && Reaches(m, later, t)
    requires c in m.clients && m.clients[c].subscribed
    requires id in m.outbox.committed || id in m.clients[c].owed
    requires c in t.clients && !t.clients[c].replaying && !t.clients[c].refused && !Announced(t, id)
    ensures c in t.ever
    ensures id in t.ever[c]
            || (id in t.clients[c].foreignAcks && RemovedSince(t, c, id, t.clients[c].since))
  {
    InitialInv(s);
    ReachableCommittedDue(s, steps, m);
    ReachableCommittedDue(m, later, t);
    assert Due(m, c, id);
    DueInRuns(m, later, t, c, id);
    OwedIsSent(t, c, id);
  }

  // ---------------------------------------------------------------- the exact condition

  /** A connection that has not subscribed has been sent nothing. */
  ghost predicate Quiet(s: State) {
    forall c :: c in s.clients && !s.clients[c].subscribed ==>
      c in s.ever && s.ever[c] == {} && s.clients[c].replayQueue == [] && !s.clients[c].refused
  }

  lemma WakeKeepsQuiet(s: State, step: Step)
    requires Inv(s) && Quiet(s) && Enabled(s, step) && step.Wake?
    ensures Quiet(After(s, step))
  {
    var t := s.(wakeups := s.wakeups[..step.index] + s.wakeups[step.index + 1..]);
    match s.wakeups[step.index] {
      case Announce(e) => BroadcastKeepsQuiet(t, e, step.ok);
      case AckReply(c, id) => RepliedKeepsQuiet(t, c, id);
      case PersistenceFailed =>
    }
  }

  lemma BroadcastKeepsQuiet(s: State, e: Event, ok: bool)
    requires Quiet(s)
    ensures Quiet(Broadcast(s, e, ok))
  {
  }

  lemma RepliedKeepsQuiet(s: State, c: nat, id: string)
    requires Quiet(s)
    ensures Quiet(Replied(s, c, id))
  {
  }

  lemma WriterKeepsQuiet(s: State, step: Step)
    requires Quiet(s) && Enabled(s, step) && step.Writer?
    ensures Quiet(After(s, step))
  {
    var t := After(s, step);
    WriterKeepsClients(s, step);
    forall c | c in t.clients ensures t.clients[c] == s.clients[c].(excused := t.clients[c].excused) && t.ever == s.ever {
      if step.step.RunNext? {
        RunNextClients(s, step.step.io, c);
      }
    }
  }

  lemma ReplayKeepsQuiet(s: State, step: Step)
    requires Inv(s) && Quiet(s) && Enabled(s, step) && step.Replay?
    ensures Quiet(After(s, step))
  {
    ReplayFollows(s, step);
  }

  lemma StepKeepsQuiet(s: State, step: Step)
    requires Inv(s) && Quiet(s) && Enabled(s, step)
    ensures Quiet(After(s, step))
  {
    if step.Wake? {
      WakeKeepsQuiet(s, step);
    } else if step.Writer? {
      WriterKeepsQuiet(s, step);
    } else if step.Replay? {
      ReplayKeepsQuiet(s, step);
    }
  }

  lemma {:induction false} ReachableQuiet(s: State, steps: seq<Step>, t: State)
    requires Inv(s) && Quiet(s) && Reaches(s, steps, t)
    ensures Inv(t) && Quiet(t)
    decreases |steps|
  {
    if steps != [] {
      StepKeepsInv(s, steps[0]);
      StepKeepsQuiet(s, steps[0]);
      ReachableQuiet(After(s, steps[0]), steps[1..], t);
    }
  }

  /** Once its replay is over, a connection is sent what is announced, and nothing else. */
  lemma {:induction false} SentAfterReplay(s: State, steps: seq<Step>, t: State, c: nat)
    requires Inv(s) && Reaches(s, steps, t) && c in s.clients && c in t.clients
    requires s.clients[c].subscribed && !s.clients[c].replaying
    ensures Inv(t) && c in s.ever && c in t.ever && t.clients[c].subscribed && !t.clients[c].replaying
    ensures s.ever[c] <= t.ever[c] <= s.ever[c] + AnnouncedIn(s, steps)
    ensures !t.clients[c].refused ==> !s.clients[c].refused && t.ever[c] == s.ever[c] + AnnouncedIn(s, steps)
    decreases |steps|
  {
    assert ClientOk(s, c, s.clients[c]);
    if steps != [] {
      var next := After(s, steps[0]);
      StaysUntilGone(s, steps[0], steps[1..], t, c);
      StepKeepsInv(s, steps[0]);
      StepFollows(s, steps[0], c);
      SentAfterReplay(next, steps[1..], t, c);
    }
  }

  /** Until then it is sent nothing, and what is announced is queued for it. */
  lemma {:induction false} QueuedBeforeReplay(s: State, steps: seq<Step>, m: State, c: nat)
    requires Inv(s) && Reaches(s, steps, m) && c in s.clients && c in m.clients
    requires s.clients[c].subscribed && s.clients[c].replaying && m.clients[c].replaying
    ensures Inv(m) && c in s.ever && c in m.ever && m.ever[c] == s.ever[c] && Keeps(s.clients[c], m.clients[c])
    ensures m.clients[c].refused == s.clients[c].refused
    ensures Ids(m.clients[c].replayQueue) == Ids(s.clients[c].replayQueue) + AnnouncedIn(s, steps)
    decreases |steps|
  {
    assert ClientOk(s, c, s.clients[c]);
    if steps != [] {
      var step, next := steps[0], After(s, steps[0]);
      StaysUntilGone(s, step, steps[1..], m, c);
      StepKeepsInv(s, step);
      if step.Replay? && step.client == c {
        ReplayFollows(s, step);
        SentAfterReplay(next, steps[1..], m, c);
      } else {
        StepFollows(s, step, c);
        QueuedBeforeReplay(next, steps[1..], m, c);
      }
    }
  }

  /** What subscribing makes of a connection that has been quiet. */
  lemma SubscribeStarts(b: State, c: nat)
    requires Inv(b) && Quiet(b) && Enabled(b, Subscribe(c)) && b.canonical == None
    ensures var a := After(b, Subscribe(c));
            && c in a.clients && c in a.ever && a.ever[c] == {} && a.outbox == b.outbox
            && a.clients[c].subscribed && a.clients[c].replaying && !a.clients[c].refused
            && Ids(a.clients[c].replayQueue) == {} && a.clients[c].owed == b.outbox.memory.entries.Keys
            && a.clients[c].foreignAcks == ForeignAcks(b.outbox, c) && a.clients[c].since == |b.outbox.acks|
  {
    assert !b.clients[c].subscribed;
  }

  /**
   The whole life of a subscription, with the snapshot taken in state m. On an open connection
   to which nothing was refused, an event that was pending at subscription is unsent if and only
   if it has no entry when the snapshot is taken and is not announced again; and that takes an
   acknowledgement of this event by an earlier connection, waiting at subscription, that took
   effect before the snapshot.
   */
  lemma PendingUnsentIff(s: State, steps: seq<Step>, b: State, c: nat, wait: seq<Step>, m: State,
                         replay: Step, later: seq<Step>, t: State, id: string)
    requires Initial(s) && Reaches(s, steps, b)
    requires Enabled(b, Subscribe(c)) && b.canonical == None && id in b.outbox.memory.entries
    requires Reaches(After(b, Subscribe(c)), wait, m)
    requires Enabled(m, replay) && replay.Replay? && replay.client == c
    requires Reaches(After(m, replay), later, t) && c in t.clients && !t.clients[c].refused
    ensures c in t.ever
    ensures id !in t.ever[c] <==>
            && id !in m.outbox.memory.entries
            && id !in AnnouncedIn(After(b, Subscribe(c)), wait)
            && id !in AnnouncedIn(After(m, replay), later)
    ensures id !in t.ever[c] ==>
            id in ForeignAcks(b.outbox, c) && RemovedSince(m, c, id, |b.outbox.acks|)
  {
    InitialInv(s);
    ReachableQuiet(s, steps, b);
    AtSnapshot(b, c, wait, m);
    SentFromSnapshot(m, replay, later, t);
    if id !in t.ever[c] {
      UnsentWasRemoved(m, c, id);
    }
  }

  /** From subscription to the snapshot. */
  lemma AtSnapshot(b: State, c: nat, wait: seq<Step>, m: State)
    requires Inv(b) && Quiet(b) && Enabled(b, Subscribe(c)) && b.canonical == None
    requires Reaches(After(b, Subscribe(c)), wait, m) && c in m.clients && m.clients[c].replaying
    ensures Inv(m) && c in m.ever && m.ever[c] == {} && m.clients[c].subscribed && !m.clients[c].refused
    ensures Ids(m.clients[c].replayQueue) == AnnouncedIn(After(b, Subscribe(c)), wait)
    ensures b.outbox.memory.entries.Keys <= m.clients[c].owed
    ensures m.clients[c].foreignAcks == ForeignAcks(b.outbox, c) && m.clients[c].since == |b.outbox.acks|
  {
    SubscribeStarts(b, c);
    StepKeepsInv(b, Subscribe(c));
    QueuedBeforeReplay(After(b, Subscribe(c)), wait, m, c);
  }

  /** From the snapshot on. */
  lemma SentFromSnapshot(m: State, replay: Step, later: seq<Step>, t: State)
    requires Inv(m) && Enabled(m, replay) && replay.Replay? && m.ever[replay.client] == {}
    requires Reaches(After(m, replay), later, t) && replay.client in t.clients && !t.clients[replay.client].refused
    ensures replay.client in t.ever
    ensures t.ever[replay.client] == m.outbox.memory.entries.Keys + Ids(m.clients[replay.client].replayQueue)
                                     + AnnouncedIn(After(m, replay), later)
  {
    StepKeepsInv(m, replay);
    ReplayFollows(m, replay);
    SentAfterReplay(After(m, replay), later, t, replay.client);
  }

  /** An event that is owed, unsent, without an entry and not queued was removed by a foreign acknowledgement. */
  lemma UnsentWasRemoved(m: State, c: nat, id: string)
    requires Inv(m) && c in m.clients && m.clients[c].subscribed && !m.clients[c].refused && c in m.ever
    requires id in m.clients[c].owed && id !in m.ever[c]
    requires id !in m.outbox.memory.entries && id !in Ids(m.clients[c].replayQueue)
    ensures id in m.clients[c].foreignAcks && RemovedSince(m, c, id, m.clients[c].since)
  {
    var cl, acks := m.clients[c], m.outbox.acks;
    assert ClientOk(m, c, cl);
    var i :| cl.since <= i < |acks| && acks[i].0 == id && acks[i].1 != c;
    assert acks[i] in acks && Entitled(m, Outbox.AckReq(acks[i].0, acks[i].1));
  }
}
