/** What a request to the relay comes to: claims that are new, leases that are granted, results that are stored. */
module RelayOutcomes {
  import opened Protocol
  import opened RelayStore
  import opened Relay

  // ---------------------------------------------------------------- claims

  /** The first claim of a key makes a submitted task with the caller's context and references, and no lease. */
  lemma FirstClaim(s: Store, r: Request, context: string, references: seq<string>)
    requires StoreOk(s) && KeyOf(r) !in s.idempotency
    ensures var (t, claim) := Claimed(s, r, context, references);
            && claim.Some? && !claim.value.conflict && claim.value.taskId !in s.tasks
            && Get(t, r.peer, claim.value.taskId) == Some(claim.value.task)
            && claim.value.task.state == Submitted && claim.value.task.result == NoResult
            && (if context != "" then claim.value.context == Given(context) else claim.value.context.DrawnContext?)
            && claim.value.task.context == claim.value.context && claim.value.references == references
            && claim.value.effect == Some(KeyOf(r)) && claim.value.hash == r.hash
            && KeyOf(r) in t.idempotency && t.idempotency[KeyOf(r)].taskId == claim.value.taskId
            && t.idempotency[KeyOf(r)].hash == r.hash && t.idempotency[KeyOf(r)].token == None
  {
    NextIsNew(s);
  }

  /** Claiming again with the same request finds the task as it is, and changes nothing. */
  lemma ClaimAgain(s: Store, r: Request, context: string, references: seq<string>)
    requires StoreOk(s) && KeyOf(r) in s.idempotency && s.idempotency[KeyOf(r)].hash == r.hash
    ensures var (t, claim) := Claimed(s, r, context, references);
            && t == s && claim.Some? && !claim.value.conflict
            && claim.value.taskId == s.idempotency[KeyOf(r)].taskId
            && Get(s, r.peer, claim.value.taskId) == Some(claim.value.task)
            && claim.value.effect == Some(KeyOf(r)) && claim.value.hash == r.hash
  {
    assert RowOk(s, KeyOf(r), s.idempotency[KeyOf(r)]);
  }

  /** Claiming with another request under the key gives a rejected task of its own, stored for that request. */
  lemma ClaimConflict(s: Store, r: Request, context: string, references: seq<string>)
    requires StoreOk(s) && KeyOf(r) in s.idempotency && s.idempotency[KeyOf(r)].hash != r.hash
    ensures var (t, claim) := Claimed(s, r, context, references);
            && claim.Some? && claim.value.conflict && claim.value.effect == None
            && claim.value.taskId != s.idempotency[KeyOf(r)].taskId
            && claim.value.task.state == Rejected
            && Get(t, r.peer, claim.value.taskId) == Some(claim.value.task)
            && t.idempotency == s.idempotency
            && Claimed(t, r, context, references) == (t, claim)
  {
    assert RowOk(s, KeyOf(r), s.idempotency[KeyOf(r)]);
    if Conflicting(r) in s.tasks {
      assert TaskOk(s, Conflicting(r), s.tasks[Conflicting(r)]);
    }
  }

  /** In every run the task of a claim, a conflicting one too, is shown to the peer that made it and to no other. */
  lemma OwnTasksOnly(steps: seq<Step>, s: State, i: nat, peer: string)
    requires Reaches(START, steps, s) && i < |s.history| && s.history[i].ClaimedEvent?
    ensures Get(s.store, peer, s.history[i].claim.taskId).Some? <==> peer == s.history[i].request.peer
  {
    ReachableInv(START, steps, s);
    assert EventOk(s.store, s.history[i]);
  }

  /** An invalid request is remembered as a rejected task with its reason, which can be read from then on. */
  lemma RejectedIsStored(s: Store, peer: string, context: string, references: seq<string>, why: string)
    requires StoreOk(s)
    ensures var (t, task) := Remembered(s, peer, context, references, why);
            && task.id !in s.tasks && Get(t, peer, task.id) == Some(task)
            && task.state == Rejected && task.result == Produced(why)
            && (context != "" ==> task.context == Given(context))
  {
    NextIsNew(s);
  }

  /** What sending does at once: a conflict or a finished task is answered, any other request waits for its lease. */
  lemma SendWaits(s: State, w: nat, r: Request, context: string, references: seq<string>)
    requires Inv(s) && Enabled(s, Send(w, r, context, references))
    ensures var (store, claim) := Claimed(s.store, r, context, references);
            var t := After(s, Send(w, r, context, references));
            && claim.Some? && t.store == store
            && (if claim.value.conflict || Terminal(claim.value.task.state)
                then t.history == s.history + [ClaimedEvent(r, claim.value)] + [Answered(r, claim.value.task)]
                     && t.workers == s.workers
                else t.workers == s.workers[w := Waiting(r, claim.value, claim.value.task)]
                     && t.history == s.history + [ClaimedEvent(r, claim.value)])
  {
    ClaimKeeps(s.store, r, context, references);
  }

  // ---------------------------------------------------------------- leases

  /** What the history says of a task's lease is what its row says. */
  lemma LeaseIsRow(s: State, w: nat)
    requires Inv(s) && w in s.workers
    ensures var x := s.workers[w];
            && KeyOf(x.request) in s.store.idempotency
            && LeaseAfter(s.history, x.claim.taskId) == LeaseOf(s.store.idempotency[KeyOf(x.request)])
  {
    WorkerSelects(s, w);
  }

  /**
   A worker that tries while its task is unfinished, and no lease of it is running, gets the lease:
   at once when there never was one or its holder has finished, and when the last one has run out.
   */
  lemma LeaseIsGranted(steps: seq<Step>, s: State, w: nat, seen: nat, from: nat, lease: nat)
    requires Reaches(START, steps, s) && Enabled(s, TryAcquire(w, seen, from, lease))
    requires s.workers[w].claim.taskId in s.store.tasks
             && !Terminal(s.store.tasks[s.workers[w].claim.taskId].task.state)
    requires var held := LeaseAfter(s.history, s.workers[w].claim.taskId); held.None? || held.value.1 <= seen
    ensures var t := After(s, TryAcquire(w, seen, from, lease));
            var x := s.workers[w];
            && w in t.workers && t.workers[w].Holding? && t.workers[w].request == x.request
            && LeaseAfter(t.history, x.claim.taskId) == Some((t.workers[w].token, from + lease))
  {
    ReachableInv(START, steps, s);
    GrantFrom(s, w, seen, from, lease);
  }

  lemma GrantFrom(s: State, w: nat, seen: nat, from: nat, lease: nat)
    requires Inv(s) && Enabled(s, TryAcquire(w, seen, from, lease))
    requires s.workers[w].claim.taskId in s.store.tasks
             && !Terminal(s.store.tasks[s.workers[w].claim.taskId].task.state)
    requires var held := LeaseAfter(s.history, s.workers[w].claim.taskId); held.None? || held.value.1 <= seen
    ensures var t := After(s, TryAcquire(w, seen, from, lease));
            var x := s.workers[w];
            && w in t.workers && t.workers[w].Holding? && t.workers[w].request == x.request
            && LeaseAfter(t.history, x.claim.taskId) == Some((t.workers[w].token, from + lease))
  {
    var x := s.workers[w];
    LeaseIsRow(s, w);
    WorkerSelects(s, w);
    LeaseAfterAppend(s.history, Granted(x.claim.taskId, s.store.uuids, seen, from + lease), x.claim.taskId);
  }

  /** While a lease is running the worker waits on, with the task as it is now. */
  lemma LeaseIsRefused(s: State, w: nat, seen: nat, from: nat, lease: nat)
    requires Inv(s) && Enabled(s, TryAcquire(w, seen, from, lease))
    requires s.workers[w].claim.taskId in s.store.tasks
             && !Terminal(s.store.tasks[s.workers[w].claim.taskId].task.state)
    requires var held := LeaseAfter(s.history, s.workers[w].claim.taskId); held.Some? && held.value.1 > seen
    ensures var t := After(s, TryAcquire(w, seen, from, lease));
            var x := s.workers[w];
            && t.workers == s.workers[w := Waiting(x.request, x.claim, s.store.tasks[x.claim.taskId].task)]
            && t.history == s.history && t.store.idempotency == s.store.idempotency && t.store.tasks == s.store.tasks
  {
    LeaseIsRow(s, w);
    WorkerSelects(s, w);
  }

  /** A worker whose task is finished meanwhile answers with the stored result. */
  lemma FinishedIsAnswered(s: State, w: nat, seen: nat, from: nat, lease: nat)
    requires Inv(s) && Enabled(s, TryAcquire(w, seen, from, lease))
    requires s.workers[w].claim.taskId in s.store.tasks
             && Terminal(s.store.tasks[s.workers[w].claim.taskId].task.state)
    ensures var t := After(s, TryAcquire(w, seen, from, lease));
            var x := s.workers[w];
            && t.workers == s.workers - {w} && t.store.tasks == s.store.tasks
            && t.history == s.history + [Answered(x.request, s.store.tasks[x.claim.taskId].task)]
  {
    WorkerSelects(s, w);
  }

  /** A worker that gives up waiting answers with the task as it last saw it. */
  lemma GivingUpAnswers(s: State, w: nat)
    requires Enabled(s, GiveUp(w))
    ensures var t := After(s, GiveUp(w));
            && t.workers == s.workers - {w} && t.store == s.store
            && t.history == s.history + [Answered(s.workers[w].request, s.workers[w].seen)]
  {
  }

  // ---------------------------------------------------------------- finishing

  /** The holder of the running lease stores its result, and the lease is over. */
  lemma HolderFinishes(steps: seq<Step>, s: State, w: nat, state: TaskState, result: Result)
    requires Reaches(START, steps, s) && Enabled(s, Complete(w, state, result))
    requires var x := s.workers[w];
             LeaseAfter(s.history, x.claim.taskId).Some? && LeaseAfter(s.history, x.claim.taskId).value.0 == x.token
    ensures var t := After(s, Complete(w, state, result));
            var x := s.workers[w];
            var task := Task(x.claim.taskId, x.claim.context, state, result);
            && Get(t.store, x.request.peer, x.claim.taskId) == Some(task)
            && t.history == s.history + [Wrote(x.claim.taskId, x.token, task)] + [Answered(x.request, task)]
            && LeaseAfter(t.history, x.claim.taskId) == None && t.workers == s.workers - {w}
  {
    ReachableInv(START, steps, s);
    FinishFrom(s, w, state, result);
  }

  lemma FinishFrom(s: State, w: nat, state: TaskState, result: Result)
    requires Inv(s) && Enabled(s, Complete(w, state, result))
    requires var x := s.workers[w];
             LeaseAfter(s.history, x.claim.taskId).Some? && LeaseAfter(s.history, x.claim.taskId).value.0 == x.token
    ensures var t := After(s, Complete(w, state, result));
            var x := s.workers[w];
            var task := Task(x.claim.taskId, x.claim.context, state, result);
            && Get(t.store, x.request.peer, x.claim.taskId) == Some(task)
            && t.history == s.history + [Wrote(x.claim.taskId, x.token, task)] + [Answered(x.request, task)]
            && LeaseAfter(t.history, x.claim.taskId) == None && t.workers == s.workers - {w}
  {
    var x := s.workers[w];
    var task := Task(x.claim.taskId, x.claim.context, state, result);
    LeaseIsRow(s, w);
    WorkerSelects(s, w);
    assert WorkerOk(s.store, x);
    var h := s.history + [Wrote(x.claim.taskId, x.token, task)];
    LeaseAfterAppend(s.history, Wrote(x.claim.taskId, x.token, task), x.claim.taskId);
    LeaseAfterAppend(h, Answered(x.request, task), x.claim.taskId);
  }

  /** A holder that was overtaken changes nothing and answers with what is stored. */
  lemma OvertakenChangesNothing(s: State, w: nat, state: TaskState, result: Result)
    requires Inv(s) && Enabled(s, Complete(w, state, result))
    requires var x := s.workers[w];
             LeaseAfter(s.history, x.claim.taskId).None? || LeaseAfter(s.history, x.claim.taskId).value.0 != x.token
    ensures var t := After(s, Complete(w, state, result));
            var x := s.workers[w];
            && x.claim.taskId in s.store.tasks && t.store == s.store && t.workers == s.workers - {w}
            && t.history == s.history + [Answered(x.request, s.store.tasks[x.claim.taskId].task)]
  {
    LeaseIsRow(s, w);
    WorkerSelects(s, w);
  }
}
