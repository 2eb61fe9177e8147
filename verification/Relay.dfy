/**
 `_send_message` run by any number of workers over the shared store: claim, wait for the lease,
 invoke, finish. Workers may stop at any point and never come back.
 */
module Relay {
  import opened Protocol
  import opened RelayStore

  /** What has happened, in order. */
  datatype Event =
    | ClaimedEvent(request: Request, claim: Claim)
    | Granted(taskId: TaskId, token: nat, at: nat, until: nat)
    | Wrote(taskId: TaskId, token: nat, task: Task)
    | Answered(request: Request, task: Task)

  /** A worker between two transactions; `seen` is the last task it read. */
  datatype Worker = Waiting(request: Request, claim: Claim, seen: Task) | Holding(request: Request, claim: Claim, token: nat)

  datatype State = State(store: Store, now: nat, workers: map<nat, Worker>, history: seq<Event>)

  datatype Step =
    | Send(worker: nat, request: Request, context: string, references: seq<string>)
    | TryAcquire(worker: nat, seen: nat, from: nat, lease: nat)
    | GiveUp(worker: nat)
    | Complete(worker: nat, state: TaskState, result: Result)
    | Stop(worker: nat)
    | RejectInvalid(peer: string, context: string, references: seq<string>, why: string)

  function Note(s: State, e: Event): State { s.(history := s.history + [e]) }

  ghost predicate Enabled(s: State, step: Step) {
    match step
    case Send(w, _, _, _) => w !in s.workers
    case TryAcquire(w, seen, from, _) =>
      w in s.workers && s.workers[w].Waiting? && s.now <= seen <= from
    case GiveUp(w) => w in s.workers && s.workers[w].Waiting?
    case Complete(w, state, _) => w in s.workers && s.workers[w].Holding? && !state.Submitted?
    case Stop(w) => w in s.workers
    case RejectInvalid(_, _, _, _) => true
  }

  /** The claim of `_send_message` and what follows at once. */
  function Sent(s: State, w: nat, r: Request, context: string, references: seq<string>): State {
    var (store, claim) := Claimed(s.store, r, context, references);
    match claim
    case None => s
    case Some(c) => SentWith(s, w, r, store, c)
  }

  function SentWith(s: State, w: nat, r: Request, store: Store, c: Claim): State {
    var t := Note(s.(store := store), ClaimedEvent(r, c));
    if c.conflict || Terminal(c.task.state) then Note(t, Answered(r, c.task))
    else t.(workers := t.workers[w := Waiting(r, c, c.task)])
  }

  /** One round of the lease loop; a missing row stops the worker with an error. */
  function Tried(s: State, w: nat, seen: nat, from: nat, lease: nat): State
    requires w in s.workers && s.workers[w].Waiting?
  {
    var Waiting(r, claim, _) := s.workers[w];
    if !Selects(s.store, r.peer, claim, KeyOf(r)) then s.(workers := s.workers - {w})
    else
      var (store, token, task) := Acquired(s.store, r.peer, claim, KeyOf(r), seen, from, lease);
      var t := s.(store := store, now := from);
      var u := t.(workers := TriedWorkers(s, w, token, task));
      if Terminal(task.state) then Note(u, Answered(r, task))
      else if token.Some? then Note(u, Granted(claim.taskId, token.value, seen, from + lease))
      else u
  }

  function TriedWorkers(s: State, w: nat, token: Option<nat>, task: Task): map<nat, Worker>
    requires w in s.workers && s.workers[w].Waiting?
  {
    var Waiting(r, claim, _) := s.workers[w];
    if Terminal(task.state) then s.workers - {w}
    else s.workers[w := if token.Some? then Holding(r, claim, token.value) else Waiting(r, claim, task)]
  }

  function Completed(s: State, w: nat, state: TaskState, result: Result): State
    requires w in s.workers && s.workers[w].Holding?
  {
    var Holding(r, claim, token) := s.workers[w];
    var t := s.(workers := s.workers - {w});
    if !Selects(s.store, r.peer, claim, KeyOf(r)) then t
    else
      var task := Task(claim.taskId, claim.context, state, result);
      var (store, answer) := Finished(s.store, r.peer, claim, KeyOf(r), token, task);
      var wrote := s.store.idempotency[KeyOf(r)].token == Some(token);
      var u := if wrote then Note(t.(store := store), Wrote(claim.taskId, token, task)) else t.(store := store);
      Note(u, Answered(r, answer))
  }

  function After(s: State, step: Step): State
    requires step.TryAcquire? || step.GiveUp? ==> step.worker in s.workers && s.workers[step.worker].Waiting?
    requires step.Complete? ==> step.worker in s.workers && s.workers[step.worker].Holding?
  {
    match step
    case Send(w, r, context, references) => Sent(s, w, r, context, references)
    case TryAcquire(w, seen, from, lease) => Tried(s, w, seen, from, lease)
    case GiveUp(w) => Note(s.(workers := s.workers - {w}), Answered(s.workers[w].request, s.workers[w].seen))
    case Complete(w, state, result) => Completed(s, w, state, result)
    case Stop(w) => s.(workers := s.workers - {w})
    case RejectInvalid(peer, context, references, why) =>
      s.(store := Remembered(s.store, peer, context, references, why).0)
  }

  const START := State(EMPTY_STORE, 0, map[], [])

  ghost predicate Reaches(s: State, steps: seq<Step>, t: State)
    decreases |steps|
  {
    if steps == [] then s == t
    else Enabled(s, steps[0]) && Reaches(After(s, steps[0]), steps[1..], t)
  }

  // ---------------------------------------------------------------- leases as the history shows them

  predicate About(e: Event, id: TaskId) { (e.Granted? || e.Wrote?) && e.taskId == id }

  /** The lease in force on a task after some history: its token and its end. */
  function LeaseAfter(h: seq<Event>, id: TaskId): Option<(nat, nat)> {
    if h == [] then None
    else
      var e := h[|h| - 1];
      if !About(e, id) then LeaseAfter(h[..|h| - 1], id)
      else if e.Granted? then Some((e.token, e.until))
      else None
  }

  predicate Final(e: Event) { e.Wrote? && Terminal(e.task.state) }

  /** An event is lawful after the history before it. */
  predicate Lawful(h: seq<Event>, e: Event) {
    match e
    case Granted(id, token, at, until) =>
      && at <= until
      && (forall i :: 0 <= i < |h| && h[i].Granted? ==> h[i].at <= at)
      && (LeaseAfter(h, id).Some? ==> LeaseAfter(h, id).value.1 <= at)
      && (forall i :: 0 <= i < |h| && About(h[i], id) ==> !Final(h[i]))
    case Wrote(id, token, _) =>
      && LeaseAfter(h, id).Some? && LeaseAfter(h, id).value.0 == token
      && (forall i :: 0 <= i < |h| && About(h[i], id) ==> !Final(h[i]))
    case _ => true
  }

  /**
   The lease discipline: a token is granted only when no lease is running, only the latest
   token writes, and after a terminal write there is no further grant or write.
   */
  predicate Disciplined(h: seq<Event>) {
    forall i :: 0 <= i < |h| ==> Lawful(h[..i], h[i])
  }

  lemma DisciplinedAppend(h: seq<Event>, e: Event)
    requires Disciplined(h) && Lawful(h, e)
    ensures Disciplined(h + [e])
  {
    forall i | 0 <= i < |h + [e]| ensures Lawful((h + [e])[..i], (h + [e])[i]) {
      assert (h + [e])[..i] == h[..i];
      if i == |h| {
        assert h[..i] == h;
      }
    }
  }

  lemma LeaseAfterAppend(h: seq<Event>, e: Event, id: TaskId)
    ensures LeaseAfter(h + [e], id)
         == if !About(e, id) then LeaseAfter(h, id)
            else if e.Granted? then Some((e.token, e.until)) else None
  {
  }

  predicate Between(h: seq<Event>, i: nat, j: nat, id: TaskId, token: nat) {
    exists k :: i < k < j <= |h| && h[k].Wrote? && h[k].taskId == id && h[k].token == token
  }

  predicate LaterGrant(h: seq<Event>, i: nat, j: nat)
    requires i < |h| && h[i].Granted?
  {
    exists k :: i < k < j <= |h| && h[k].Granted? && h[k].taskId == h[i].taskId && h[k].at >= h[i].until
  }

  /** A grant is written, or outlasted by the lease in force, or followed by a grant after its end. */
  lemma {:induction false} LeaseSince(h: seq<Event>, i: nat, j: nat)
    requires Disciplined(h) && i < j <= |h| && h[i].Granted?
    ensures || Between(h, i, j, h[i].taskId, h[i].token)
            || LaterGrant(h, i, j)
            || LeaseAfter(h[..j], h[i].taskId) == Some((h[i].token, h[i].until))
    decreases j
  {
    var id, e := h[i].taskId, h[j - 1];
    assert h[..j] == h[..j - 1] + [e];
    LeaseAfterAppend(h[..j - 1], e, id);
    if j > i + 1 {
      LeaseSince(h, i, j - 1);
      assert Lawful(h[..j - 1], e);
      if Between(h, i, j - 1, id, h[i].token) {
        var k :| i < k < j - 1 <= |h| && h[k].Wrote? && h[k].taskId == id && h[k].token == h[i].token;
        assert Between(h, i, j, id, h[i].token);
      } else if LaterGrant(h, i, j - 1) {
        var k :| i < k < j - 1 <= |h| && h[k].Granted? && h[k].taskId == id && h[k].at >= h[i].until;
        assert LaterGrant(h, i, j);
      } else if About(e, id) {
        assert h[j - 1] == e;
        if e.Granted? {
          assert LaterGrant(h, i, j);
        } else {
          assert Between(h, i, j, id, h[i].token);
        }
      }
    }
  }

  /**
   No second token while a lease is running: a later grant on the same task comes after the
   end of the earlier lease, or after the earlier holder has written.
   */
  lemma NoOverlap(h: seq<Event>, i: nat, j: nat)
    requires Disciplined(h) && i < j < |h| && h[i].Granted? && h[j].Granted? && h[i].taskId == h[j].taskId
    ensures h[j].at >= h[i].until || Between(h, i, j, h[i].taskId, h[i].token)
  {
    LeaseSince(h, i, j);
    assert Lawful(h[..j], h[j]);
    if LaterGrant(h, i, j) {
      var k :| i < k < j <= |h| && h[k].Granted? && h[k].taskId == h[i].taskId && h[k].at >= h[i].until;
      assert h[..j][k] == h[k];
    }
  }

  /** At most one terminal write per task, and nothing after it. */
  lemma NothingAfterFinal(h: seq<Event>, i: nat, j: nat)
    requires Disciplined(h) && i < j < |h| && Final(h[i])
    ensures !About(h[j], h[i].taskId)
  {
  }

  // ---------------------------------------------------------------- invariants

  /** The task every answer to a request is about. */
  function Target(s: Store, r: Request): TaskId
    requires KeyOf(r) in s.idempotency
  {
    if s.idempotency[KeyOf(r)].hash == r.hash then s.idempotency[KeyOf(r)].taskId else Conflicting(r)
  }

  predicate AnswerOk(s: Store, r: Request, task: Task) {
    && KeyOf(r) in s.idempotency && task.id == Target(s, r) && task.id in s.tasks
    && (Terminal(task.state) ==> s.tasks[task.id].task == task)
  }

  predicate ClaimOk(s: Store, r: Request, c: Claim) {
    && KeyOf(r) in s.idempotency && c.taskId == Target(s, r) && c.taskId in s.tasks
    && c.hash == r.hash
    && (c.conflict <==> s.idempotency[KeyOf(r)].hash != r.hash)
    && c.effect == (if c.conflict then None else Some(KeyOf(r)))
    && c.context == s.tasks[c.taskId].context && c.references == s.tasks[c.taskId].references
    && (c.conflict ==> c.task == s.tasks[c.taskId].task && c.task.state.Rejected?)
  }

  predicate EventOk(s: Store, e: Event) {
    match e
    case ClaimedEvent(r, c) => ClaimOk(s, r, c)
    case Granted(id, _, _, _) => id in s.tasks
    case Wrote(id, _, task) => id in s.tasks && (Terminal(task.state) ==> s.tasks[id].task == task)
    case Answered(r, task) => AnswerOk(s, r, task)
  }

  predicate WorkerOk(s: Store, w: Worker) {
    && ClaimOk(s, w.request, w.claim) && !w.claim.conflict
    && s.tasks[w.claim.taskId].peer == w.request.peer
    && (w.Waiting? ==> AnswerOk(s, w.request, w.seen))
  }

  function LeaseOf(row: IdemRow): Option<(nat, nat)> {
    if row.token.Some? then Some((row.token.value, row.leaseUntil)) else None
  }

  ghost predicate HistoryOk(s: Store, h: seq<Event>, now: nat) {
    && Disciplined(h)
    && (forall i :: 0 <= i < |h| ==> EventOk(s, h[i]))
    && (forall i :: 0 <= i < |h| && h[i].Granted? ==> h[i].at <= now)
    && (forall k :: k in s.idempotency ==> LeaseAfter(h, s.idempotency[k].taskId) == LeaseOf(s.idempotency[k]))
  }

  ghost predicate Inv(s: State) {
    && StoreOk(s.store)
    && HistoryOk(s.store, s.history, s.now)
    && (forall w :: w in s.workers ==> WorkerOk(s.store, s.workers[w]))
  }

  lemma EventOkEvolves(s: Store, t: Store, e: Event)
    requires Evolves(s, t) && EventOk(s, e)
    ensures EventOk(t, e)
  {
  }

  lemma WorkerOkEvolves(s: Store, t: Store, w: Worker)
    requires Evolves(s, t) && WorkerOk(s, w)
    ensures WorkerOk(t, w)
  {
  }

  /** A transaction that changes no lease of an old row and leases no new one. */
  lemma HistoryOkEvolves(s: Store, t: Store, h: seq<Event>, now: nat, later: nat)
    requires HistoryOk(s, h, now) && Evolves(s, t) && now <= later
    requires forall k :: k in t.idempotency ==>
               if k in s.idempotency then LeaseOf(t.idempotency[k]) == LeaseOf(s.idempotency[k])
               else t.idempotency[k].token.None? && t.idempotency[k].taskId !in s.tasks
    ensures HistoryOk(t, h, later)
  {
    forall i | 0 <= i < |h| ensures EventOk(t, h[i]) { EventOkEvolves(s, t, h[i]); }
    forall k | k in t.idempotency
      ensures LeaseAfter(h, t.idempotency[k].taskId) == LeaseOf(t.idempotency[k])
    {
      if k !in s.idempotency {
        assert forall i :: 0 <= i < |h| ==> EventOk(s, h[i]);
        NoLeaseYet(h, t.idempotency[k].taskId);
      }
    }
  }

  lemma {:induction false} NoLeaseYet(h: seq<Event>, id: TaskId)
    requires forall i :: 0 <= i < |h| ==> !About(h[i], id)
    ensures LeaseAfter(h, id) == None
  {
    if h != [] {
      NoLeaseYet(h[..|h| - 1], id);
    }
  }

  /** Noting a claim or an answer. */
  lemma NoteKeeps(s: Store, h: seq<Event>, now: nat, e: Event)
    requires HistoryOk(s, h, now) && EventOk(s, e) && (e.ClaimedEvent? || e.Answered?)
    ensures HistoryOk(s, h + [e], now)
  {
    DisciplinedAppend(h, e);
    forall k | k in s.idempotency
      ensures LeaseAfter(h + [e], s.idempotency[k].taskId) == LeaseOf(s.idempotency[k])
    {
      LeaseAfterAppend(h, e, s.idempotency[k].taskId);
    }
  }

  /** Noting a grant or a write together with the change of lease on its row. */
  lemma NoteLeaseKeeps(s: Store, t: Store, h: seq<Event>, now: nat, later: nat, k: RowKey, e: Event)
    requires StoreOk(s) && HistoryOk(s, h, now) && Evolves(s, t) && now <= later
    requires k in s.idempotency && About(e, s.idempotency[k].taskId) && EventOk(t, e)
    requires Lawful(h, e) && (e.Granted? ==> e.at <= later)
    requires t.idempotency.Keys == s.idempotency.Keys
    requires LeaseOf(t.idempotency[k]) == if e.Granted? then Some((e.token, e.until)) else None
    requires forall l :: l in s.idempotency && l != k ==> t.idempotency[l] == s.idempotency[l]
    ensures HistoryOk(t, h + [e], later)
  {
    DisciplinedAppend(h, e);
    forall i | 0 <= i < |h| ensures EventOk(t, h[i]) { EventOkEvolves(s, t, h[i]); }
    forall l | l in t.idempotency
      ensures LeaseAfter(h + [e], t.idempotency[l].taskId) == LeaseOf(t.idempotency[l])
    {
      LeaseAfterAppend(h, e, t.idempotency[l].taskId);
    }
  }

  lemma WorkersEvolve(s: State, t: State, except: nat)
    requires Inv(s) && Evolves(s.store, t.store)
    requires forall w :: w in t.workers && w != except ==> w in s.workers && t.workers[w] == s.workers[w]
    requires except in t.workers ==> WorkerOk(t.store, t.workers[except])
    ensures forall w :: w in t.workers ==> WorkerOk(t.store, t.workers[w])
  {
  }

  lemma ClaimedIsOk(s: Store, r: Request, context: string, references: seq<string>)
    requires StoreOk(s)
    ensures var (t, c) := Claimed(s, r, context, references);
            && c.Some? && ClaimOk(t, r, c.value) && AnswerOk(t, r, c.value.task)
            && (!c.value.conflict ==> t.tasks[c.value.taskId].peer == r.peer)
            && forall k :: k in t.idempotency ==>
                 if k in s.idempotency then t.idempotency[k] == s.idempotency[k]
                 else t.idempotency[k].token.None? && t.idempotency[k].taskId !in s.tasks
  {
    if KeyOf(r) in s.idempotency {
      var row := s.idempotency[KeyOf(r)];
      assert RowOk(s, KeyOf(r), row) && TaskOk(s, row.taskId, s.tasks[row.taskId]);
      if Conflicting(r) in s.tasks {
        assert TaskOk(s, Conflicting(r), s.tasks[Conflicting(r)]);
      }
    } else {
      NextIsNew(s);
    }
  }

  lemma SendKeepsInv(s: State, step: Step)
    requires Inv(s) && Enabled(s, step) && step.Send?
    ensures Inv(After(s, step))
  {
    var Send(w, r, context, references) := step;
    ClaimKeeps(s.store, r, context, references);
    ClaimedIsOk(s.store, r, context, references);
    var (store, claim) := Claimed(s.store, r, context, references);
    SentKeepsInv(s, w, r, store, claim.value);
  }

  /** From the store that the claim leaves. */
  lemma SentKeepsInv(s: State, w: nat, r: Request, store: Store, c: Claim)
    requires Inv(s) && StoreOk(store) && Evolves(s.store, store) && ClaimOk(store, r, c) && AnswerOk(store, r, c.task)
    requires !c.conflict ==> store.tasks[c.taskId].peer == r.peer
    requires forall k :: k in store.idempotency ==>
               if k in s.store.idempotency then store.idempotency[k] == s.store.idempotency[k]
               else store.idempotency[k].token.None? && store.idempotency[k].taskId !in s.store.tasks
    ensures Inv(SentWith(s, w, r, store, c))
  {
    HistoryOkEvolves(s.store, store, s.history, s.now, s.now);
    ClaimKeepsHistory(store, s.history, s.now, r, c);
    SentWorkersOk(s, w, r, store, c);
  }

  lemma SentWorkersOk(s: State, w: nat, r: Request, store: Store, c: Claim)
    requires Inv(s) && Evolves(s.store, store) && ClaimOk(store, r, c) && AnswerOk(store, r, c.task)
    requires !c.conflict ==> store.tasks[c.taskId].peer == r.peer
    ensures var t := SentWith(s, w, r, store, c); forall x :: x in t.workers ==> WorkerOk(store, t.workers[x])
  {
    var t := SentWith(s, w, r, store, c);
    forall x | x in t.workers ensures WorkerOk(store, t.workers[x]) {
      if x in s.workers && t.workers[x] == s.workers[x] {
        WorkerOkEvolves(s.store, store, s.workers[x]);
      }
    }
  }

  lemma ClaimKeepsHistory(store: Store, h: seq<Event>, now: nat, r: Request, c: Claim)
    requires HistoryOk(store, h, now) && ClaimOk(store, r, c) && AnswerOk(store, r, c.task)
    ensures HistoryOk(store, h + [ClaimedEvent(r, c)], now)
    ensures HistoryOk(store, h + [ClaimedEvent(r, c)] + [Answered(r, c.task)], now)
  {
    NoteKeeps(store, h, now, ClaimedEvent(r, c));
    NoteKeeps(store, h + [ClaimedEvent(r, c)], now, Answered(r, c.task));
  }

  lemma WorkerSelects(s: State, w: nat)
    requires Inv(s) && w in s.workers
    ensures var x := s.workers[w];
            && Selects(s.store, x.request.peer, x.claim, KeyOf(x.request))
            && x.claim.taskId == s.store.idempotency[KeyOf(x.request)].taskId
            && TaskOk(s.store, x.claim.taskId, s.store.tasks[x.claim.taskId])
            && RowOk(s.store, KeyOf(x.request), s.store.idempotency[KeyOf(x.request)])
  {
  }

  lemma NotFinalYet(s: State, k: RowKey)
    requires Inv(s) && k in s.store.idempotency
    requires s.store.idempotency[k].taskId in s.store.tasks
    requires !Terminal(s.store.tasks[s.store.idempotency[k].taskId].task.state)
    ensures forall i :: 0 <= i < |s.history| && About(s.history[i], s.store.idempotency[k].taskId) ==> !Final(s.history[i])
  {
  }

  lemma GrantKeepsHistory(s: State, peer: string, claim: Claim, k: RowKey, seen: nat, from: nat, lease: nat)
    requires Inv(s) && Selects(s.store, peer, claim, k) && s.now <= seen <= from
    requires Acquired(s.store, peer, claim, k, seen, from, lease).1.Some?
    ensures var (store, token, _) := Acquired(s.store, peer, claim, k, seen, from, lease);
            HistoryOk(store, s.history + [Granted(claim.taskId, token.value, seen, from + lease)], from)
  {
    var (store, token, _) := Acquired(s.store, peer, claim, k, seen, from, lease);
    AcquireKeeps(s.store, peer, claim, k, seen, from, lease);
    LeaseOnlyTouches(s.store, peer, claim, k, from + lease, Some(s.store.uuids));
    NotFinalYet(s, k);
    NoteLeaseKeeps(s.store, store, s.history, s.now, from, k, Granted(claim.taskId, token.value, seen, from + lease));
  }

  lemma TryKeepsHistory(s: State, w: nat, seen: nat, from: nat, lease: nat)
    requires Inv(s) && Enabled(s, TryAcquire(w, seen, from, lease))
    ensures var t := Tried(s, w, seen, from, lease); HistoryOk(t.store, t.history, t.now)
  {
    var Waiting(r, claim, _) := s.workers[w];
    WorkerSelects(s, w);
    AcquireKeeps(s.store, r.peer, claim, KeyOf(r), seen, from, lease);
    var (store, token, task) := Acquired(s.store, r.peer, claim, KeyOf(r), seen, from, lease);
    if token.None? {
      HistoryOkEvolves(s.store, store, s.history, s.now, from);
      assert AnswerOk(store, r, task);
      NoteKeeps(store, s.history, from, Answered(r, task));
    } else {
      GrantKeepsHistory(s, r.peer, claim, KeyOf(r), seen, from, lease);
    }
  }

  lemma TryKeepsWorkers(s: State, w: nat, seen: nat, from: nat, lease: nat)
    requires Inv(s) && Enabled(s, TryAcquire(w, seen, from, lease))
    ensures var t := Tried(s, w, seen, from, lease);
            StoreOk(t.store) && Evolves(s.store, t.store)
            && forall x :: x in t.workers ==> WorkerOk(t.store, t.workers[x])
  {
    var Waiting(r, claim, _) := s.workers[w];
    WorkerSelects(s, w);
    AcquireKeeps(s.store, r.peer, claim, KeyOf(r), seen, from, lease);
    var (store, token, task) := Acquired(s.store, r.peer, claim, KeyOf(r), seen, from, lease);
    assert WorkerOk(s.store, s.workers[w]);
    TriedWorkersOk(s, w, store, token, task);
  }

  lemma TriedWorkersOk(s: State, w: nat, store: Store, token: Option<nat>, task: Task)
    requires Inv(s) && w in s.workers && s.workers[w].Waiting? && Evolves(s.store, store)
    requires task.id == s.workers[w].claim.taskId && (Terminal(task.state) ==> store.tasks[task.id].task == task)
    ensures var workers := TriedWorkers(s, w, token, task); forall x :: x in workers ==> WorkerOk(store, workers[x])
  {
    WorkerOkEvolves(s.store, store, s.workers[w]);
    WorkersEvolve(s, s.(store := store, workers := TriedWorkers(s, w, token, task)), w);
  }

  lemma TryKeepsInv(s: State, step: Step)
    requires Inv(s) && Enabled(s, step) && step.TryAcquire?
    ensures Inv(After(s, step)) && Evolves(s.store, After(s, step).store)
  {
    var TryAcquire(w, seen, from, lease) := step;
    TryKeepsHistory(s, w, seen, from, lease);
    TryKeepsWorkers(s, w, seen, from, lease);
  }

  lemma CompleteKeepsHistory(s: State, w: nat, state: TaskState, result: Result)
    requires Inv(s) && Enabled(s, Complete(w, state, result))
    ensures var t := Completed(s, w, state, result); HistoryOk(t.store, t.history, t.now)
  {
    var Holding(r, claim, token) := s.workers[w];
    var k := KeyOf(r);
    WorkerSelects(s, w);
    assert WorkerOk(s.store, s.workers[w]);
    var task := Task(claim.taskId, claim.context, state, result);
    FinishKeeps(s.store, r.peer, claim, k, token, task);
    var (store, answer) := Finished(s.store, r.peer, claim, k, token, task);
    assert AnswerOk(store, r, answer);
    if s.store.idempotency[k].token == Some(token) {
      LeaseOnlyTouches(s.store, r.peer, claim, k, 0, None);
      NotFinalYet(s, k);
      var e := Wrote(claim.taskId, token, task);
      NoteLeaseKeeps(s.store, store, s.history, s.now, s.now, k, e);
      NoteKeeps(store, s.history + [e], s.now, Answered(r, answer));
    } else {
      NoteKeeps(store, s.history, s.now, Answered(r, answer));
    }
  }

  lemma CompleteKeepsInv(s: State, step: Step)
    requires Inv(s) && Enabled(s, step) && step.Complete?
    ensures Inv(After(s, step)) && Evolves(s.store, After(s, step).store)
  {
    var Complete(w, state, result) := step;
    var Holding(r, claim, token) := s.workers[w];
    WorkerSelects(s, w);
    assert WorkerOk(s.store, s.workers[w]);
    FinishKeeps(s.store, r.peer, claim, KeyOf(r), token, Task(claim.taskId, claim.context, state, result));
    CompleteKeepsHistory(s, w, state, result);
    WorkersEvolve(s, After(s, step), w);
  }

  lemma RejectKeepsInv(s: State, step: Step)
    requires Inv(s) && Enabled(s, step) && step.RejectInvalid?
    ensures Inv(After(s, step)) && Evolves(s.store, After(s, step).store)
  {
    var RejectInvalid(peer, context, references, why) := step;
    RememberKeeps(s.store, peer, context, references, why);
    HistoryOkEvolves(s.store, After(s, step).store, s.history, s.now, s.now);
    forall w | w in s.workers ensures WorkerOk(After(s, step).store, s.workers[w]) {
      WorkerOkEvolves(s.store, After(s, step).store, s.workers[w]);
    }
  }

  lemma StepKeepsInv(s: State, step: Step)
    requires Inv(s) && Enabled(s, step)
    ensures Inv(After(s, step)) && Evolves(s.store, After(s, step).store)
  {
    match step {
      case Send(_, r, context, references) =>
        SendKeepsInv(s, step);
        ClaimKeeps(s.store, r, context, references);
      case TryAcquire(_, _, _, _) =>
        TryKeepsInv(s, step);
      case GiveUp(w) =>
        assert WorkerOk(s.store, s.workers[w]);
        NoteKeeps(s.store, s.history, s.now, Answered(s.workers[w].request, s.workers[w].seen));
      case Complete(_, _, _) =>
        CompleteKeepsInv(s, step);
      case Stop(_) =>
      case RejectInvalid(_, _, _, _) =>
        RejectKeepsInv(s, step);
    }
  }

  lemma {:induction false} ReachableInv(s: State, steps: seq<Step>, t: State)
    requires Inv(s) && Reaches(s, steps, t)
    ensures Inv(t) && Evolves(s.store, t.store)
    decreases |steps|
  {
    if steps != [] {
      StepKeepsInv(s, steps[0]);
      ReachableInv(After(s, steps[0]), steps[1..], t);
      EvolvesTransitive(s.store, After(s, steps[0]).store, t.store);
    }
  }

  // ---------------------------------------------------------------- theorems

  /** Every history of every run obeys the lease discipline. */
  lemma RunsAreDisciplined(steps: seq<Step>, t: State)
    requires Reaches(START, steps, t)
    ensures Disciplined(t.history)
  {
    ReachableInv(START, steps, t);
  }

  /**
   Agreement. In every run, any two terminal answers to the same peer, skill, key and request
   are the same task, whichever workers gave them and whenever.
   */
  lemma Agreement(steps: seq<Step>, t: State, i: nat, j: nat)
    requires Reaches(START, steps, t) && i < |t.history| && j < |t.history|
    requires t.history[i].Answered? && t.history[j].Answered? && t.history[i].request == t.history[j].request
    requires Terminal(t.history[i].task.state) && Terminal(t.history[j].task.state)
    ensures t.history[i].task == t.history[j].task
  {
    ReachableInv(START, steps, t);
    assert EventOk(t.store, t.history[i]) && EventOk(t.store, t.history[j]);
  }

  /** Terminal is absorbing: what `get` shows of a terminal task never changes, and no token is outstanding on it. */
  lemma TerminalIsAbsorbing(steps: seq<Step>, s: State, later: seq<Step>, t: State, peer: string, id: TaskId)
    requires Reaches(START, steps, s) && Reaches(s, later, t)
    requires Get(s.store, peer, id).Some? && Terminal(Get(s.store, peer, id).value.state)
    ensures Get(t.store, peer, id) == Get(s.store, peer, id)
    ensures forall k :: k in t.store.idempotency && t.store.idempotency[k].taskId == id ==> t.store.idempotency[k].token.None?
  {
    ReachableInv(START, steps, s);
    ReachableInv(s, later, t);
    forall k | k in t.store.idempotency && t.store.idempotency[k].taskId == id
      ensures t.store.idempotency[k].token.None?
    {
      assert RowOk(t.store, k, t.store.idempotency[k]);
    }
  }

  /**
   Claim determinism. All claims of one request in a run agree on task, context, references
   and effect; requests with the same key but another content get another task, and a
   conflict is always the same rejected task.
   */
  lemma ClaimDeterminism(steps: seq<Step>, t: State, i: nat, j: nat)
    requires Reaches(START, steps, t) && i < |t.history| && j < |t.history|
    requires t.history[i].ClaimedEvent? && t.history[j].ClaimedEvent?
    requires KeyOf(t.history[i].request) == KeyOf(t.history[j].request)
    ensures var a, b := t.history[i].claim, t.history[j].claim;
            && (t.history[i].request.hash == t.history[j].request.hash ==>
                  && a.taskId == b.taskId && a.context == b.context && a.references == b.references
                  && a.effect == b.effect && a.conflict == b.conflict && (a.conflict ==> a.task == b.task))
            && (t.history[i].request.hash != t.history[j].request.hash ==>
                  a.taskId != b.taskId && (a.conflict || b.conflict))
            && (a.conflict ==> a.task.state.Rejected? && a.effect == None)
            && (!a.conflict ==> a.effect == Some(KeyOf(t.history[i].request)))
  {
    ReachableInv(START, steps, t);
    assert EventOk(t.store, t.history[i]) && EventOk(t.store, t.history[j]);
    assert RowOk(t.store, KeyOf(t.history[i].request), t.store.idempotency[KeyOf(t.history[i].request)]);
  }
}
