/**
 The durable task store of the A2A relay: idempotency rows that point at tasks, and leases with
 fencing tokens. Each operation is one transaction.
 */
module RelayStore {
  import opened Protocol

  /** Task ids: a drawn UUID, or the digest of a request that conflicts with an earlier one. */
  datatype TaskId = Drawn(n: nat) | Conflicting(request: Request)

  /** A validated invocation, as far as the store looks at it; `hash` is its canonical digest. */
  datatype Request = Request(peer: string, skill: string, key: string, hash: string)

  datatype RowKey = RowKey(peer: string, skill: string, key: string)

  datatype TaskState = Submitted | Working | Completed | Rejected | Failed

  predicate Terminal(state: TaskState) { state.Completed? || state.Rejected? || state.Failed? }

  /** A context id, given by the caller or drawn. */
  datatype Context = Given(text: string) | DrawnContext(n: nat)

  datatype Result = NoResult | Conflict | Produced(text: string)

  datatype Task = Task(id: TaskId, context: Context, state: TaskState, result: Result)

  datatype TaskRow = TaskRow(peer: string, context: Context, references: seq<string>, task: Task)

  /** `effect` is the digest of peer, skill and key. */
  datatype IdemRow = IdemRow(hash: string, taskId: TaskId, effect: RowKey, leaseUntil: nat, token: Option<nat>)

  /** The two tables, and a counter that stands for the next UUID. */
  datatype Store = Store(tasks: map<TaskId, TaskRow>, idempotency: map<RowKey, IdemRow>, uuids: nat)

  datatype Claim = Claim(
    taskId: TaskId, effect: Option<RowKey>, hash: string, context: Context,
    references: seq<string>, task: Task, conflict: bool)

  const EMPTY_STORE := Store(map[], map[], 0)

  function KeyOf(r: Request): RowKey { RowKey(r.peer, r.skill, r.key) }

  function ContextOr(given: string, drawn: nat): Context { if given != "" then Given(given) else DrawnContext(drawn) }

  // ---------------------------------------------------------------- claim

  function ConflictClaim(s: Store, r: Request, context: string, references: seq<string>): (Store, Claim) {
    var id := Conflicting(r);
    if id in s.tasks && s.tasks[id].peer == r.peer then
      var row := s.tasks[id];
      (s, Claim(id, None, r.hash, row.context, row.references, row.task, true))
    else
      var stored := ContextOr(context, s.uuids);
      var task := Task(id, stored, Rejected, Conflict);
      (s.(tasks := s.tasks[id := TaskRow(r.peer, stored, references, task)], uuids := s.uuids + 1),
       Claim(id, None, r.hash, stored, references, task, true))
  }

  function NewClaim(s: Store, r: Request, context: string, references: seq<string>): (Store, Claim) {
    var id, ctx, effect := Drawn(s.uuids), ContextOr(context, s.uuids + 1), KeyOf(r);
    var task := Task(id, ctx, Submitted, NoResult);
    (Store(s.tasks[id := TaskRow(r.peer, ctx, references, task)],
           s.idempotency[KeyOf(r) := IdemRow(r.hash, id, effect, 0, None)], s.uuids + 2),
     Claim(id, Some(effect), r.hash, ctx, references, task, false))
  }

  /** `claim`; None is the error "idempotency row has no task". */
  function Claimed(s: Store, r: Request, context: string, references: seq<string>): (Store, Option<Claim>) {
    if KeyOf(r) in s.idempotency then
      var row := s.idempotency[KeyOf(r)];
      if row.hash != r.hash then var (t, claim) := ConflictClaim(s, r, context, references); (t, Some(claim))
      else if row.taskId in s.tasks && s.tasks[row.taskId].peer == r.peer then
        var stored := s.tasks[row.taskId];
        (s, Some(Claim(row.taskId, Some(row.effect), r.hash, stored.context, stored.references, stored.task, false)))
      else (s, None)
    else var (t, claim) := NewClaim(s, r, context, references); (t, Some(claim))
  }

  // ---------------------------------------------------------------- acquire and finish

  /** The WHERE clause shared by `acquire` and `finish`. */
  predicate Selects(s: Store, peer: string, claim: Claim, k: RowKey) {
    && k in s.idempotency && k.peer == peer
    && s.idempotency[k].taskId == claim.taskId && s.idempotency[k].hash == claim.hash
    && s.idempotency[k].taskId in s.tasks
  }

  function SetLease(s: Store, peer: string, claim: Claim, leaseUntil: nat, token: Option<nat>): map<RowKey, IdemRow> {
    map k | k in s.idempotency ::
      if Selects(s, peer, claim, k) then s.idempotency[k].(leaseUntil := leaseUntil, token := token)
      else s.idempotency[k]
  }

  /** `acquire` on the selected row `k`: the lease is checked at `seen` and runs from `from`. */
  function Acquired(s: Store, peer: string, claim: Claim, k: RowKey, seen: nat, from: nat, lease: nat): (Store, Option<nat>, Task)
    requires Selects(s, peer, claim, k)
  {
    var row := s.idempotency[k];
    var task := s.tasks[row.taskId].task;
    var drawn := s.(uuids := s.uuids + 1);
    if Terminal(task.state) || row.leaseUntil > seen then (drawn, None, task)
    else (drawn.(idempotency := SetLease(s, peer, claim, from + lease, Some(s.uuids))), Some(s.uuids), task)
  }

  /** `finish` on the selected row `k`. */
  function Finished(s: Store, peer: string, claim: Claim, k: RowKey, token: nat, task: Task): (Store, Task)
    requires Selects(s, peer, claim, k)
  {
    var row := s.idempotency[k];
    if row.token != Some(token) then (s, s.tasks[row.taskId].task)
    else
      (s.(tasks := if s.tasks[claim.taskId].peer == peer
                   then s.tasks[claim.taskId := s.tasks[claim.taskId].(task := task)] else s.tasks,
          idempotency := SetLease(s, peer, claim, 0, None)),
       task)
  }

  /** `remember`, with the drawn id of `_rejected`. */
  function Remembered(s: Store, peer: string, context: string, references: seq<string>, result: string): (Store, Task) {
    var id, ctx := Drawn(s.uuids), ContextOr(context, s.uuids + 1);
    var task := Task(id, ctx, Rejected, Produced(result));
    (s.(tasks := s.tasks[id := TaskRow(peer, ctx, references, task)], uuids := s.uuids + 2), task)
  }

  function Get(s: Store, peer: string, id: TaskId): Option<Task> {
    if id in s.tasks && s.tasks[id].peer == peer then Some(s.tasks[id].task) else None
  }

  // ---------------------------------------------------------------- what every transaction keeps

  ghost predicate RowOk(s: Store, k: RowKey, row: IdemRow) {
    && row.taskId.Drawn? && row.taskId in s.tasks && s.tasks[row.taskId].peer == k.peer
    && row.effect == k
    && (row.token.Some? ==> row.token.value < s.uuids)
    && (Terminal(s.tasks[row.taskId].task.state) ==> row.token.None?)
    && (row.token.None? ==> row.leaseUntil == 0)
  }

  ghost predicate TaskOk(s: Store, id: TaskId, row: TaskRow) {
    && row.task.id == id && row.task.context == row.context
    && (id.Drawn? ==> id.n < s.uuids)
    && (id.Conflicting? ==> row.peer == id.request.peer && row.task.state.Rejected?)
  }

  ghost predicate StoreOk(s: Store) {
    && (forall k :: k in s.idempotency ==> RowOk(s, k, s.idempotency[k]))
    && (forall id :: id in s.tasks ==> TaskOk(s, id, s.tasks[id]))
    && (forall k, l :: k in s.idempotency && l in s.idempotency && k != l ==>
          s.idempotency[k].taskId != s.idempotency[l].taskId)
  }

  /**
   How a store may change: rows and tasks are never removed, a row keeps its request hash,
   task and effect, a terminal or conflict task keeps its contents, and contexts never change.
   */
  ghost predicate Evolves(s: Store, t: Store) {
    && s.uuids <= t.uuids
    && (forall k :: k in s.idempotency ==>
          && k in t.idempotency
          && t.idempotency[k].hash == s.idempotency[k].hash
          && t.idempotency[k].taskId == s.idempotency[k].taskId
          && t.idempotency[k].effect == s.idempotency[k].effect)
    && (forall id :: id in s.tasks ==>
          && id in t.tasks
          && t.tasks[id].peer == s.tasks[id].peer
          && t.tasks[id].context == s.tasks[id].context
          && t.tasks[id].references == s.tasks[id].references
          && (Terminal(s.tasks[id].task.state) ==> t.tasks[id].task == s.tasks[id].task))
  }

  lemma EvolvesTransitive(s: Store, t: Store, u: Store)
    requires Evolves(s, t) && Evolves(t, u)
    ensures Evolves(s, u)
  {
  }

  /** Every id in the tables was drawn before. */
  lemma DrawnBefore(s: Store, k: RowKey)
    requires StoreOk(s) && k in s.idempotency
    ensures s.idempotency[k].taskId.Drawn? && s.idempotency[k].taskId.n < s.uuids
  {
  }

  lemma NextIsNew(s: Store)
    requires StoreOk(s)
    ensures Drawn(s.uuids) !in s.tasks
  {
  }

  /** Adding a task under a new id leaves rows and tasks in order. */
  lemma AddTaskKeeps(s: Store, id: TaskId, row: TaskRow, uuids: nat)
    requires StoreOk(s) && id !in s.tasks && s.uuids <= uuids
    requires TaskOk(s.(uuids := uuids), id, row)
    ensures StoreOk(s.(tasks := s.tasks[id := row], uuids := uuids))
    ensures Evolves(s, s.(tasks := s.tasks[id := row], uuids := uuids))
  {
    var t := s.(tasks := s.tasks[id := row], uuids := uuids);
    forall k | k in t.idempotency ensures RowOk(t, k, t.idempotency[k]) { assert RowOk(s, k, s.idempotency[k]); }
    forall i | i in t.tasks ensures TaskOk(t, i, t.tasks[i]) {
      if i != id {
        assert TaskOk(s, i, s.tasks[i]);
      }
    }
  }

  /** A row for a new key and a task no other row uses. */
  lemma AddRowKeeps(s: Store, k: RowKey, row: IdemRow)
    requires StoreOk(s) && k !in s.idempotency && RowOk(s, k, row)
    requires forall l :: l in s.idempotency ==> s.idempotency[l].taskId != row.taskId
    ensures StoreOk(s.(idempotency := s.idempotency[k := row]))
    ensures Evolves(s, s.(idempotency := s.idempotency[k := row]))
  {
    var t := s.(idempotency := s.idempotency[k := row]);
    forall l | l in t.idempotency ensures RowOk(t, l, t.idempotency[l]) {
      if l != k {
        assert RowOk(s, l, s.idempotency[l]);
      }
    }
    forall i | i in t.tasks ensures TaskOk(t, i, t.tasks[i]) { assert TaskOk(s, i, s.tasks[i]); }
  }

  lemma NewClaimKeeps(s: Store, r: Request, context: string, references: seq<string>)
    requires StoreOk(s) && KeyOf(r) !in s.idempotency
    ensures StoreOk(NewClaim(s, r, context, references).0) && Evolves(s, NewClaim(s, r, context, references).0)
  {
    var id, ctx := Drawn(s.uuids), ContextOr(context, s.uuids + 1);
    var row := TaskRow(r.peer, ctx, references, Task(id, ctx, Submitted, NoResult));
    NextIsNew(s);
    AddTaskKeeps(s, id, row, s.uuids + 2);
    var t := s.(tasks := s.tasks[id := row], uuids := s.uuids + 2);
    forall l | l in s.idempotency ensures s.idempotency[l].taskId != id { DrawnBefore(s, l); }
    AddRowKeeps(t, KeyOf(r), IdemRow(r.hash, id, KeyOf(r), 0, None));
    EvolvesTransitive(s, t, NewClaim(s, r, context, references).0);
  }

  lemma ConflictClaimKeeps(s: Store, r: Request, context: string, references: seq<string>)
    requires StoreOk(s)
    ensures var t := ConflictClaim(s, r, context, references).0;
            && StoreOk(t) && Evolves(s, t) && t.idempotency == s.idempotency
            && forall id :: id in s.tasks ==> t.tasks[id] == s.tasks[id]
  {
    var id := Conflicting(r);
    if id in s.tasks {
      assert TaskOk(s, id, s.tasks[id]);
    } else {
      var stored := ContextOr(context, s.uuids);
      AddTaskKeeps(s, id, TaskRow(r.peer, stored, references, Task(id, stored, Rejected, Conflict)), s.uuids + 1);
    }
  }

  /**
   `claim` never fails; a conflicting request leaves every row and every earlier task exactly
   as it was.
   */
  lemma ClaimKeeps(s: Store, r: Request, context: string, references: seq<string>)
    requires StoreOk(s)
    ensures var (t, claim) := Claimed(s, r, context, references);
            && StoreOk(t) && Evolves(s, t) && claim.Some?
            && (claim.value.conflict ==>
                  t.idempotency == s.idempotency && forall id :: id in s.tasks ==> t.tasks[id] == s.tasks[id])
  {
    if KeyOf(r) in s.idempotency {
      assert RowOk(s, KeyOf(r), s.idempotency[KeyOf(r)]);
      ConflictClaimKeeps(s, r, context, references);
    } else {
      NewClaimKeeps(s, r, context, references);
    }
  }

  /** Only one row is selected by a claim. */
  lemma SelectsOne(s: Store, peer: string, claim: Claim, k: RowKey, l: RowKey)
    requires StoreOk(s) && Selects(s, peer, claim, k) && Selects(s, peer, claim, l)
    ensures k == l
  {
  }

  lemma LeaseOnlyTouches(s: Store, peer: string, claim: Claim, k: RowKey, leaseUntil: nat, token: Option<nat>)
    requires StoreOk(s) && Selects(s, peer, claim, k)
    ensures SetLease(s, peer, claim, leaseUntil, token)
         == s.idempotency[k := s.idempotency[k].(leaseUntil := leaseUntil, token := token)]
  {
  }

  /** Leasing a row whose task is not terminal. */
  lemma LeaseKeeps(s: Store, k: RowKey, leaseUntil: nat)
    requires StoreOk(s) && k in s.idempotency && s.idempotency[k].taskId in s.tasks
    requires !Terminal(s.tasks[s.idempotency[k].taskId].task.state)
    ensures var t := Store(s.tasks, s.idempotency[k := s.idempotency[k].(leaseUntil := leaseUntil, token := Some(s.uuids))],
                           s.uuids + 1);
            StoreOk(t) && Evolves(s, t)
  {
    var t := Store(s.tasks, s.idempotency[k := s.idempotency[k].(leaseUntil := leaseUntil, token := Some(s.uuids))],
                   s.uuids + 1);
    forall l | l in t.idempotency ensures RowOk(t, l, t.idempotency[l]) { assert RowOk(s, l, s.idempotency[l]); }
    forall id | id in t.tasks ensures TaskOk(t, id, t.tasks[id]) { assert TaskOk(s, id, s.tasks[id]); }
  }

  lemma DrawKeeps(s: Store)
    requires StoreOk(s)
    ensures StoreOk(s.(uuids := s.uuids + 1)) && Evolves(s, s.(uuids := s.uuids + 1))
  {
  }

  lemma AcquireKeeps(s: Store, peer: string, claim: Claim, k: RowKey, seen: nat, from: nat, lease: nat)
    requires StoreOk(s) && Selects(s, peer, claim, k)
    ensures var (t, token, task) := Acquired(s, peer, claim, k, seen, from, lease); StoreOk(t) && Evolves(s, t)
  {
    if Acquired(s, peer, claim, k, seen, from, lease).1.Some? {
      LeaseOnlyTouches(s, peer, claim, k, from + lease, Some(s.uuids));
      LeaseKeeps(s, k, from + lease);
    } else {
      DrawKeeps(s);
    }
  }

  /** Writing a task that is not terminal, and releasing its row. */
  lemma ReleaseKeeps(s: Store, k: RowKey, task: Task)
    requires StoreOk(s) && k in s.idempotency && s.idempotency[k].token.Some?
    requires s.idempotency[k].taskId in s.tasks
    requires task.id == s.idempotency[k].taskId && task.context == s.tasks[task.id].context
    ensures var t := s.(tasks := s.tasks[task.id := s.tasks[task.id].(task := task)],
                        idempotency := s.idempotency[k := s.idempotency[k].(leaseUntil := 0, token := None)]);
            StoreOk(t) && Evolves(s, t)
  {
    var t := s.(tasks := s.tasks[task.id := s.tasks[task.id].(task := task)],
                idempotency := s.idempotency[k := s.idempotency[k].(leaseUntil := 0, token := None)]);
    assert RowOk(s, k, s.idempotency[k]);
    forall l | l in t.idempotency ensures RowOk(t, l, t.idempotency[l]) { ReleasedRowOk(s, t, k, task, l); }
    forall id | id in t.tasks ensures TaskOk(t, id, t.tasks[id]) { assert TaskOk(s, id, s.tasks[id]); }
  }

  lemma ReleasedRowOk(s: Store, t: Store, k: RowKey, task: Task, l: RowKey)
    requires StoreOk(s) && k in s.idempotency && s.idempotency[k].taskId in s.tasks && l in s.idempotency
    requires task.id == s.idempotency[k].taskId && task.context == s.tasks[task.id].context
    requires t == s.(tasks := s.tasks[task.id := s.tasks[task.id].(task := task)],
                     idempotency := s.idempotency[k := s.idempotency[k].(leaseUntil := 0, token := None)])
    ensures l in t.idempotency && RowOk(t, l, t.idempotency[l])
  {
    assert RowOk(s, l, s.idempotency[l]) && RowOk(s, k, s.idempotency[k]);
  }

  /** A finish that takes effect can only write a task that is not terminal yet. */
  lemma FinishKeeps(s: Store, peer: string, claim: Claim, k: RowKey, token: nat, task: Task)
    requires StoreOk(s) && Selects(s, peer, claim, k)
    requires task.id == claim.taskId && task.context == s.tasks[claim.taskId].context
    ensures var (t, answer) := Finished(s, peer, claim, k, token, task);
            && StoreOk(t) && Evolves(s, t) && claim.taskId in t.tasks
            && t.tasks[claim.taskId].task == answer
  {
    assert RowOk(s, k, s.idempotency[k]);
    if s.idempotency[k].token == Some(token) {
      LeaseOnlyTouches(s, peer, claim, k, 0, None);
      ReleaseKeeps(s, k, task);
    }
  }

  lemma RememberKeeps(s: Store, peer: string, context: string, references: seq<string>, result: string)
    requires StoreOk(s)
    ensures StoreOk(Remembered(s, peer, context, references, result).0)
    ensures Evolves(s, Remembered(s, peer, context, references, result).0)
  {
    var id, ctx := Drawn(s.uuids), ContextOr(context, s.uuids + 1);
    NextIsNew(s);
    AddTaskKeeps(s, id, TaskRow(peer, ctx, references, Task(id, ctx, Rejected, Produced(result))), s.uuids + 2);
  }

  // ---------------------------------------------------------------- the class

  /** `_RelayStore`, updating its tables in place. */
  class RelayTables {
    var tasks: map<TaskId, TaskRow>
    var idempotency: map<RowKey, IdemRow>
    var uuids: nat

    ghost function Value(): Store
      reads this
    {
      Store(tasks, idempotency, uuids)
    }

    constructor ()
      ensures Value() == EMPTY_STORE
    {
      tasks, idempotency, uuids := map[], map[], 0;
    }

    method DrawUuid() returns (n: nat)
      modifies this`uuids
      ensures n == old(uuids) && uuids == old(uuids) + 1
    {
      n := uuids;
      uuids := uuids + 1;
    }

    method ClaimRequest(r: Request, context: string, references: seq<string>) returns (claim: Option<Claim>)
      modifies this
      ensures (Value(), claim) == Claimed(old(Value()), r, context, references)
    {
      if KeyOf(r) in idempotency {
        var row := idempotency[KeyOf(r)];
        if row.hash != r.hash {
          var id := Conflicting(r);
          if id in tasks && tasks[id].peer == r.peer {
            var stored := tasks[id];
            return Some(Claim(id, None, r.hash, stored.context, stored.references, stored.task, true));
          }
          var drawn := DrawUuid();
          var stored := ContextOr(context, drawn);
          var task := Task(id, stored, Rejected, Conflict);
          tasks := tasks[id := TaskRow(r.peer, stored, references, task)];
          return Some(Claim(id, None, r.hash, stored, references, task, true));
        }
        if row.taskId !in tasks || tasks[row.taskId].peer != r.peer {
          return None;
        }
        var stored := tasks[row.taskId];
        return Some(Claim(row.taskId, Some(row.effect), r.hash, stored.context, stored.references, stored.task, false));
      }
      var n := DrawUuid();
      var c := DrawUuid();
      var ctx := ContextOr(context, c);
      var task := Task(Drawn(n), ctx, Submitted, NoResult);
      tasks := tasks[Drawn(n) := TaskRow(r.peer, ctx, references, task)];
      idempotency := idempotency[KeyOf(r) := IdemRow(r.hash, Drawn(n), KeyOf(r), 0, None)];
      return Some(Claim(Drawn(n), Some(KeyOf(r)), r.hash, ctx, references, task, false));
    }

    /** `acquire`; an absent row is the error "claim disappeared". */
    method Acquire(peer: string, claim: Claim, seen: nat, from: nat, lease: nat)
      returns (found: bool, token: Option<nat>, task: Option<Task>)
      requires StoreOk(Value())
      modifies this
      ensures found <==> exists k :: Selects(old(Value()), peer, claim, k)
      ensures !found ==> Value() == old(Value()).(uuids := old(uuids) + 1) && token == None && task == None
      ensures forall k :: Selects(old(Value()), peer, claim, k) ==>
                task.Some? && (Value(), token, task.value) == Acquired(old(Value()), peer, claim, k, seen, from, lease)
    {
      ghost var before := Value();
      var drawn := DrawUuid();
      var s := Store(tasks, idempotency, drawn);
      assert s == before;
      found := exists k :: k in idempotency && Selects(s, peer, claim, k);
      if !found {
        return false, None, None;
      }
      var k :| k in idempotency && Selects(s, peer, claim, k);
      forall l | Selects(s, peer, claim, l) ensures l == k { SelectsOne(s, peer, claim, k, l); }
      var current := tasks[idempotency[k].taskId].task;
      if Terminal(current.state) || idempotency[k].leaseUntil > seen {
        return true, None, Some(current);
      }
      idempotency := SetLease(s, peer, claim, from + lease, Some(drawn));
      return true, Some(drawn), Some(current);
    }

    method Finish(peer: string, claim: Claim, leaseToken: nat, task: Task) returns (answer: Option<Task>)
      requires StoreOk(Value())
      modifies this`tasks, this`idempotency
      ensures answer.None? <==> forall k :: !Selects(old(Value()), peer, claim, k)
      ensures answer.None? ==> Value() == old(Value())
      ensures forall k :: Selects(old(Value()), peer, claim, k) ==>
                answer.Some? && (Value(), answer.value) == Finished(old(Value()), peer, claim, k, leaseToken, task)
    {
      var s := Store(tasks, idempotency, uuids);
      if !(exists k :: k in idempotency && Selects(s, peer, claim, k)) {
        return None;
      }
      var k :| k in idempotency && Selects(s, peer, claim, k);
      forall l | Selects(s, peer, claim, l) ensures l == k { SelectsOne(s, peer, claim, k, l); }
      if idempotency[k].token != Some(leaseToken) {
        return Some(tasks[idempotency[k].taskId].task);
      }
      if tasks[claim.taskId].peer == peer {
        tasks := tasks[claim.taskId := tasks[claim.taskId].(task := task)];
      }
      idempotency := SetLease(s, peer, claim, 0, None);
      return Some(task);
    }
  }
}
