/** Group commit: order, settlement and bounded waiting of queued operations. */
module OutboxWriter {
  import opened Protocol
  import opened OutboxDirectory
  import opened OutboxLoad
  import opened Outbox

  function BatchJobs(w: Writer): seq<Job> {
    match w
    case Committing(todo, ran) => seq(|ran|, i requires 0 <= i < |ran| => ran[i].job) + todo
    case _ => []
  }

  function SettledJobs(settled: seq<Settlement>): seq<Job> {
    seq(|settled|, i requires 0 <= i < |settled| => settled[i].job)
  }

  /** All jobs of this process: settled, then in the running batch, then waiting. */
  function AllJobs(s: State): seq<Job> { SettledJobs(s.settled) + BatchJobs(s.writer) + s.queue }

  /** Tickets are dense and in order, and a waiting job means a running writer. */
  predicate InOrder(s: State) {
    && |AllJobs(s)| == s.tickets
    && (forall i :: 0 <= i < |AllJobs(s)| ==> AllJobs(s)[i].ticket == i)
    && (s.writer.Idle? ==> s.queue == [])
  }

  lemma NextBatchJobs(s: State)
    requires BatchJobs(s.writer) == []
    ensures AllJobs(NextBatch(s)) == AllJobs(s)
  {
  }

  lemma SettleJobs(ran: seq<Done>, ok: bool)
    ensures SettledJobs(Settle(ran, ok)) == BatchJobs(Committing([], ran))
  {
  }

  lemma EnqueueJobs(s: State, r: Request)
    ensures AllJobs(After(s, Enqueue(r))) == AllJobs(s) + [Job(s.tickets, r)]
  {
  }

  lemma RunNextJobs(s: State, io: Io)
    requires Enabled(s, RunNext(io))
    ensures AllJobs(After(s, RunNext(io))) == AllJobs(s)
  {
    assert BatchJobs(After(s, RunNext(io)).writer) == BatchJobs(s.writer);
  }

  lemma SyncJobs(s: State, ok: bool)
    requires Enabled(s, Sync(ok))
    ensures AllJobs(After(s, Sync(ok))) == AllJobs(s)
    ensures SettledJobs(After(s, Sync(ok)).settled) == SettledJobs(s.settled) + BatchJobs(s.writer)
  {
    SettleJobs(s.writer.ran, ok);
    SettledConcat(s.settled, Settle(s.writer.ran, ok));
    var settled := s.settled + Settle(s.writer.ran, ok);
    QueueJobs(SettledJobs(settled), s.queue);
  }

  lemma SettledConcat(a: seq<Settlement>, b: seq<Settlement>)
    ensures SettledJobs(a + b) == SettledJobs(a) + SettledJobs(b)
  {
  }

  /** Taking a batch from the queue moves no job past another. */
  lemma QueueJobs(settled: seq<Job>, queue: seq<Job>)
    ensures var (batch, rest) := TakeBatch(queue);
            settled + BatchJobs(Committing(batch, [])) + rest == settled + queue
  {
    var (batch, rest) := TakeBatch(queue);
    assert BatchJobs(Committing(batch, [])) == batch;
    assert settled + batch + rest == settled + (batch + rest);
  }

  /**
   Every step keeps the order: jobs settle in the order they were queued, each exactly once,
   and the queue is never left without a writer.
   */
  lemma StepKeepsOrder(s: State, step: Step)
    requires InOrder(s) && Enabled(s, step)
    ensures InOrder(After(s, step))
    ensures step.RunNext? || step.StartWriter? || step.Sync? ==> AllJobs(After(s, step)) == AllJobs(s)
    ensures !step.Sync? && !step.ProcessExit? && !step.PowerLoss? ==> After(s, step).settled == s.settled
    ensures step.Sync? ==> SettledJobs(After(s, step).settled) == SettledJobs(s.settled) + BatchJobs(s.writer)
  {
    match step {
      case Enqueue(r) => EnqueueJobs(s, r);
      case StartWriter => NextBatchJobs(s);
      case RunNext(io) => RunNextJobs(s, io);
      case Sync(ok) => SyncJobs(s, ok);
      case ProcessExit(_, _) =>
      case PowerLoss(_, _, _) =>
    }
  }

  lemma {:induction false} OrderInRuns(s: State, steps: seq<Step>, t: State)
    requires InOrder(s) && Reaches(s, steps, t)
    ensures InOrder(t)
    decreases |steps|
  {
    if steps != [] {
      StepKeepsOrder(s, steps[0]);
      OrderInRuns(After(s, steps[0]), steps[1..], t);
    }
  }

  /** In every state of every run: the i-th settled job is the i-th queued one, and a waiting job has a writer. */
  lemma {:induction false} SettledInOrder(s: State, steps: seq<Step>, t: State)
    requires Initial(s) && Reaches(s, steps, t)
    ensures forall i :: 0 <= i < |t.settled| ==> t.settled[i].job.ticket == i
    ensures t.queue != [] ==> !t.writer.Idle?
  {
    var disk: Disk, files :| IsListing(files, disk.View()) && s == Reboot(s, disk, files);
    OrderInRuns(s, steps, t);
    forall i | 0 <= i < |t.settled| ensures t.settled[i].job.ticket == i {
      assert AllJobs(t)[i] == SettledJobs(t.settled)[i];
    }
  }

  /** Directory syncs still needed before the job with this ticket is settled. */
  function Rounds(s: State, ticket: nat): nat {
    var settled, batch := |s.settled|, |BatchJobs(s.writer)|;
    if ticket < settled then 0
    else if ticket < settled + batch then 1
    else (ticket - settled - batch) / BATCH + 1 + (if s.writer.Committing? then 1 else 0)
  }

  lemma RoundsStep(s: State, step: Step, ticket: nat)
    requires InOrder(s) && Enabled(s, step) && !step.ProcessExit? && !step.PowerLoss? && ticket < s.tickets
    ensures Rounds(After(s, step), ticket) <= Rounds(s, ticket)
    ensures step.Sync? && Rounds(s, ticket) > 0 ==> Rounds(After(s, step), ticket) < Rounds(s, ticket)
  {
    StepKeepsOrder(s, step);
    var t := After(s, step);
    match step {
      case Enqueue(_) =>
      case StartWriter =>
      case RunNext(_) => assert BatchJobs(t.writer) == BatchJobs(s.writer);
      case Sync(_) =>
        assert |t.settled| == |SettledJobs(t.settled)| == |s.settled| + |BatchJobs(s.writer)|;
    }
  }

  function Syncs(steps: seq<Step>): nat {
    if steps == [] then 0 else (if steps[0].Sync? then 1 else 0) + Syncs(steps[1..])
  }

  /**
   Bounded waiting: from any state of a run, a job is settled within Rounds directory syncs,
   which for a job with n jobs waiting before it is n / 32 + 1 after the one in progress.
   */
  lemma {:induction false} SettledWithinRounds(s: State, steps: seq<Step>, t: State, ticket: nat)
    requires InOrder(s) && Reaches(s, steps, t) && ticket < s.tickets
    requires forall step :: step in steps ==> !step.ProcessExit? && !step.PowerLoss?
    requires Syncs(steps) >= Rounds(s, ticket)
    ensures ticket < |t.settled| && t.settled[ticket].job == AllJobs(s)[ticket]
    decreases |steps|
  {
    if steps == [] {
      assert AllJobs(s)[ticket] == SettledJobs(s.settled)[ticket];
    } else {
      var next := After(s, steps[0]);
      StepKeepsOrder(s, steps[0]);
      RoundsStep(s, steps[0], ticket);
      SettledWithinRounds(next, steps[1..], t, ticket);
      assert AllJobs(next)[ticket] == AllJobs(s)[ticket] by {
        if steps[0].Enqueue? {
          assert AllJobs(next) == AllJobs(s) + [Job(s.tickets, steps[0].request)];
        }
      }
    }
  }

  /** As long as a job is unsettled the writer can go on, whatever its next file operation or sync comes to. */
  lemma WriterCanGo(s: State, io: Io, ok: bool)
    requires InOrder(s) && |s.settled| < s.tickets
    ensures Enabled(s, StartWriter) || Enabled(s, RunNext(io)) || Enabled(s, Sync(ok))
  {
  }
}
