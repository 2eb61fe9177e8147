/** The budget as an object that updates its fields, and the reconnect loop that uses it. */
module ConnectLoop {
  import opened Protocol
  import opened SlidingWindow
  import opened ConnectBudget

  class BudgetObject {
    const cfg: Config
    var attempts: seq<int>
    var replaced: seq<int>
    var hold: Option<Hold>
    var file: Budget

    ghost function Value(): State
      reads this
    {
      State(Budget(attempts, replaced, hold), file)
    }

    constructor (cfg: Config, file: Budget)
      ensures this.cfg == cfg && Value() == Reload(State(FRESH, file))
    {
      this.cfg := cfg;
      this.file := file;
      attempts, replaced, hold := file.attempts, file.replaced, file.hold;
    }

    method Save()
      modifies this`file
      ensures Value() == Saved(old(Value()).memory)
    {
      file := Budget(attempts, replaced, hold);
    }

    method DecideNow(now: int) returns (decision: Decision)
      requires cfg.perHour >= 1
      modifies this
      ensures (Value(), decision) == Decide(cfg, old(Value()), now)
    {
      if hold.Some? && hold.value.NeedsHuman? {
        return Held(hold.value);
      }
      if hold.Some? {
        var at := if hold.value.nextProbeAt.Some? then hold.value.nextProbeAt.value else now;
        return if at <= now then Connect(true) else Wait(at - now, Exhausted);
      }
      attempts := Newer(attempts, now - DAY);
      if |attempts| >= cfg.perDay {
        hold := Some(BudgetExhausted(now, Some(now + cfg.probeInterval)));
        Save();
        return Wait(cfg.probeInterval, Exhausted);
      }
      var inHour := Newer(attempts, now - HOUR);
      if |inHour| >= cfg.perHour {
        return Wait(Max(MIN_WAIT, Earliest(inHour) + HOUR - now), HourlyLimit);
      }
      return Connect(false);
    }

    method RecordAttemptNow(now: int, probe: bool)
      modifies this
      ensures Value() == RecordAttempt(cfg, old(Value()), now, probe)
    {
      attempts := attempts + [now];
      if probe && hold.Some? && hold.value.BudgetExhausted? {
        hold := Some(hold.value.(nextProbeAt := Some(now + cfg.probeInterval)));
      }
      Save();
    }

    method RecordReplacedNow(now: int) returns (twice: bool)
      modifies this
      ensures (Value(), twice) == RecordReplaced(old(Value()), now)
    {
      replaced := Newer(replaced, now - REPLACED_WINDOW) + [now];
      Save();
      twice := |replaced| >= 2;
    }

    method HoldForHuman(now: int, code: Option<int>, reason: string)
      modifies this
      ensures Value() == HoldNeedsHuman(old(Value()), now, code, reason)
    {
      hold := Some(NeedsHuman(now, code, reason));
      Save();
    }

    method ResetNow()
      modifies this
      ensures Value() == Reset(old(Value()))
    {
      attempts, replaced, hold := [], [], None;
      Save();
    }
  }

  // ---------------------------------------------------------------- the reconnect loop

  datatype Class = Transient | NeedsRestart | NeedsHumanClass

  /** `classifyWhatsAppDisconnect`. */
  function Classify(code: Option<int>): (string, Class) {
    if code == Some(401) then ("logged_out", NeedsHumanClass)
    else if code == Some(403) then ("forbidden", NeedsHumanClass)
    else if code == Some(408) then ("timed_out", Transient)
    else if code == Some(411) then ("multidevice_mismatch", NeedsHumanClass)
    else if code == Some(428) then ("connection_closed", Transient)
    else if code == Some(440) then ("connection_replaced", Transient)
    else if code == Some(500) then ("bad_session", NeedsHumanClass)
    else if code == Some(503) then ("unavailable_service", Transient)
    else if code == Some(515) then ("restart_required", NeedsRestart)
    else ("unknown", Transient)
  }

  /** What one turn of the loop meets: its clock readings, how the connection ended, resets from outside. */
  datatype Turn = Turn(
    decideAt: int, recordAt: int, closeAt: int, code: Option<int>, stopped: bool,
    resetWhileConnected: bool, resetWhileAsleep: bool)

  datatype LoopEvent = Counted(at: int) | Try | HeldForHuman | WasReset

  predicate Opens(e: LoopEvent) { e.Try? || e.Counted? }

  function Tries(trace: seq<LoopEvent>): nat {
    if trace == [] then 0
    else Tries(trace[..|trace| - 1]) + (if trace[|trace| - 1].Try? then 1 else 0)
  }

  function Attempts(trace: seq<LoopEvent>): nat {
    if trace == [] then 0
    else Attempts(trace[..|trace| - 1]) + (if trace[|trace| - 1].Counted? then 1 else 0)
  }

  /** The last hold in the trace has not been reset. */
  function Blocked(trace: seq<LoopEvent>): bool {
    if trace == [] then false
    else if trace[|trace| - 1].HeldForHuman? then true
    else if trace[|trace| - 1].WasReset? then false
    else Blocked(trace[..|trace| - 1])
  }

  /** Every prefix has at most two tries per counted attempt, and none opens while blocked. */
  predicate Restrained(trace: seq<LoopEvent>) {
    trace == [] ||
    (var init := trace[..|trace| - 1];
     && Restrained(init)
     && Tries(trace) <= 2 * Attempts(trace)
     && (Opens(trace[|trace| - 1]) ==> !Blocked(init)))
  }

  lemma RestrainedAppend(trace: seq<LoopEvent>, e: LoopEvent)
    requires Restrained(trace) && (Opens(e) ==> !Blocked(trace))
    requires Tries(trace) + (if e.Try? then 1 else 0) <= 2 * (Attempts(trace) + (if e.Counted? then 1 else 0))
    ensures Restrained(trace + [e])
    ensures Tries(trace + [e]) == Tries(trace) + (if e.Try? then 1 else 0)
    ensures Attempts(trace + [e]) == Attempts(trace) + (if e.Counted? then 1 else 0)
    ensures Blocked(trace + [e]) == (e.HeldForHuman? || (!e.WasReset? && Blocked(trace)))
  {
  }

  /** What being restrained means at each point: the count so far, and no opening between a hold and a reset. */
  lemma {:induction false} RestrainedMeans(trace: seq<LoopEvent>, n: nat)
    requires Restrained(trace) && n <= |trace|
    ensures Tries(trace[..n]) <= 2 * Attempts(trace[..n])
    ensures n < |trace| && Opens(trace[n]) ==> !Blocked(trace[..n])
  {
    if n == |trace| {
      assert trace[..n] == trace;
    } else if n < |trace| - 1 {
      RestrainedMeans(trace[..|trace| - 1], n);
      assert trace[..|trace| - 1][..n] == trace[..n];
    } else {
      RestrainedMeans(trace[..n], n);
      assert trace[..n][..n] == trace[..n];
    }
  }

  lemma {:induction false} BlockedUntilReset(trace: seq<LoopEvent>, i: nat)
    requires i < |trace| && trace[i].HeldForHuman?
    ensures Blocked(trace) || exists k :: i < k < |trace| && trace[k].WasReset?
  {
    if i < |trace| - 1 {
      var init := trace[..|trace| - 1];
      BlockedUntilReset(init, i);
      if k :| i < k < |init| && init[k].WasReset? {
        assert trace[k].WasReset?;
      }
    }
  }

  /** Between a hold for a human and the next connection try there is a reset. */
  lemma NoTryWhileHeld(trace: seq<LoopEvent>, i: nat, j: nat)
    requires Restrained(trace) && i < j < |trace| && trace[i].HeldForHuman? && Opens(trace[j])
    ensures exists k :: i < k < j && trace[k].WasReset?
  {
    RestrainedMeans(trace, j);
    BlockedUntilReset(trace[..j], i);
    var k :| i < k < |trace[..j]| && trace[..j][k].WasReset?;
    assert trace[k].WasReset?;
  }

  predicate NeedsHumanHeld(hold: Option<Hold>) { hold.Some? && hold.value.NeedsHuman? }

  // ---------------------------------------------------------------- what a turn does

  /** The budget after a part of a turn, whether the next turn connects at once, whether the loop ends, what happened. */
  datatype Moved = Moved(state: State, immediate: bool, stopped: bool, events: seq<LoopEvent>)

  function Interrupted(s: State, wanted: bool): (State, seq<LoopEvent>) {
    if wanted then (Reset(s), [WasReset]) else (s, [])
  }

  /** After a connection ended while the client is running. */
  function Closed(s: State, turn: Turn, wasImmediate: bool): Moved {
    var (reason, cls) := Classify(turn.code);
    var (noted, twice) := if turn.code == Some(440) then RecordReplaced(s, turn.closeAt) else (s, false);
    if twice then
      Moved(HoldNeedsHuman(noted, turn.closeAt, Some(440), "connection_replaced_twice"), false, false, [HeldForHuman])
    else if cls.NeedsHumanClass? then
      Moved(HoldNeedsHuman(noted, turn.closeAt, turn.code, reason), false, false, [HeldForHuman])
    else if cls.NeedsRestart? && !wasImmediate then Moved(noted, true, false, [])
    else
      var (rested, events) := Interrupted(noted, turn.resetWhileAsleep);
      Moved(rested, false, false, events)
  }

  function Before(events: seq<LoopEvent>, m: Moved): Moved { m.(events := events + m.events) }

  lemma BeforeTwice(a: seq<LoopEvent>, b: seq<LoopEvent>, m: Moved)
    ensures Before(a, Before(b, m)) == Before(a + b, m)
  {
    assert a + (b + m.events) == a + b + m.events;
  }

  function Connected(s: State, turn: Turn, wasImmediate: bool): Moved {
    var (open, events) := Interrupted(s, turn.resetWhileConnected);
    Before([Try], Before(events, if turn.stopped then Moved(open, false, true, []) else Closed(open, turn, wasImmediate)))
  }

  function Turned(cfg: Config, s: State, turn: Turn, immediate: bool): Moved
    requires cfg.perHour >= 1
  {
    if immediate then Connected(s, turn, true)
    else
      var (decided, decision) := Decide(cfg, s, turn.decideAt);
      match decision
      case Connect(probe) =>
        Before([Counted(turn.recordAt)], Connected(RecordAttempt(cfg, decided, turn.recordAt, probe), turn, false))
      case _ =>
        var (rested, events) := Interrupted(decided, turn.resetWhileAsleep);
        Moved(rested, false, false, events)
  }

  function Looped(cfg: Config, s: State, immediate: bool, turns: seq<Turn>): Moved
    requires cfg.perHour >= 1
    decreases |turns|
  {
    if turns == [] then Moved(s, immediate, false, [])
    else
      var m := Turned(cfg, s, turns[0], immediate);
      if m.stopped then m else Before(m.events, Looped(cfg, m.state, m.immediate, turns[1..]))
  }

  // ---------------------------------------------------------------- the loop itself

  /** What the loop relies on between turns. */
  ghost predicate LoopInv(budget: BudgetObject, immediate: bool, trace: seq<LoopEvent>)
    reads budget
  {
    && Restrained(trace)
    && Tries(trace) + (if immediate then 1 else 0) <= 2 * Attempts(trace)
    && (Blocked(trace) <==> NeedsHumanHeld(budget.hold))
    && (Blocked(trace) ==> !immediate)
  }

  /** A reset from outside, noted in the trace. */
  method NoteReset(budget: BudgetObject, wanted: bool, trace: seq<LoopEvent>, ghost immediate: bool)
    returns (after: seq<LoopEvent>)
    requires LoopInv(budget, immediate, trace)
    modifies budget
    ensures LoopInv(budget, immediate, after)
    ensures !Blocked(trace) ==> !Blocked(after)
    ensures var (s, events) := Interrupted(old(budget.Value()), wanted); budget.Value() == s && after == trace + events
  {
    after := trace;
    if wanted {
      budget.ResetNow();
      RestrainedAppend(trace, WasReset);
      after := trace + [WasReset];
    }
  }

  method NoteHold(budget: BudgetObject, at: int, code: Option<int>, reason: string, trace: seq<LoopEvent>)
    returns (after: seq<LoopEvent>)
    requires LoopInv(budget, false, trace)
    modifies budget
    ensures LoopInv(budget, false, after) && after == trace + [HeldForHuman]
    ensures budget.Value() == HoldNeedsHuman(old(budget.Value()), at, code, reason)
  {
    budget.HoldForHuman(at, code, reason);
    RestrainedAppend(trace, HeldForHuman);
    after := trace + [HeldForHuman];
  }

  /** What follows a connection that ended while the client is running. */
  method Close(budget: BudgetObject, turn: Turn, wasImmediate: bool, before: seq<LoopEvent>)
    returns (immediate: bool, trace: seq<LoopEvent>)
    requires LoopInv(budget, !wasImmediate, before) && !Blocked(before)
    modifies budget
    ensures LoopInv(budget, immediate, trace)
    ensures Moved(budget.Value(), immediate, false, trace) == Before(before, Closed(old(budget.Value()), turn, wasImmediate))
  {
    immediate, trace := false, before;
    var (reason, cls) := Classify(turn.code);
    if turn.code == Some(440) {
      var twice := budget.RecordReplacedNow(turn.closeAt);
      if twice {
        trace := NoteHold(budget, turn.closeAt, Some(440), "connection_replaced_twice", trace);
        return;
      }
    }
    if cls.NeedsHumanClass? {
      trace := NoteHold(budget, turn.closeAt, turn.code, reason, trace);
      return;
    }
    if cls.NeedsRestart? && !wasImmediate {
      immediate := true;
      return;
    }
    trace := NoteReset(budget, turn.resetWhileAsleep, trace, false);
  }

  /** `connectOnce` and what follows it in the same turn. */
  method ConnectAndClose(budget: BudgetObject, turn: Turn, wasImmediate: bool, before: seq<LoopEvent>)
    returns (immediate: bool, stopped: bool, trace: seq<LoopEvent>)
    requires Restrained(before) && !Blocked(before) && !NeedsHumanHeld(budget.hold)
    requires Tries(before) + (if wasImmediate then 1 else 2) <= 2 * Attempts(before)
    modifies budget
    ensures LoopInv(budget, immediate, trace)
    ensures Moved(budget.Value(), immediate, stopped, trace) == Before(before, Connected(old(budget.Value()), turn, wasImmediate))
  {
    RestrainedAppend(before, Try);
    ghost var (open, events) := Interrupted(budget.Value(), turn.resetWhileConnected);
    ghost var end := if turn.stopped then Moved(open, false, true, []) else Closed(open, turn, wasImmediate);
    BeforeTwice(before, [Try], Before(events, end));
    BeforeTwice(before + [Try], events, end);
    trace := NoteReset(budget, turn.resetWhileConnected, before + [Try], !wasImmediate);
    immediate, stopped := false, turn.stopped;
    if !stopped {
      immediate, trace := Close(budget, turn, wasImmediate, trace);
    }
  }

  /** One turn of the loop while the client is running. */
  method LoopTurn(budget: BudgetObject, turn: Turn, immediate: bool, before: seq<LoopEvent>)
    returns (again: bool, stopped: bool, trace: seq<LoopEvent>)
    requires budget.cfg.perHour >= 1 && LoopInv(budget, immediate, before)
    modifies budget
    ensures LoopInv(budget, again, trace)
    ensures Moved(budget.Value(), again, stopped, trace)
         == Before(before, Turned(budget.cfg, old(budget.Value()), turn, immediate))
  {
    trace := before;
    if !immediate {
      var decision := budget.DecideNow(turn.decideAt);
      if !decision.Connect? {
        trace := NoteReset(budget, turn.resetWhileAsleep, trace, false);
        return false, false, trace;
      }
      budget.RecordAttemptNow(turn.recordAt, decision.probe);
      BeforeTwice(before, [Counted(turn.recordAt)], Connected(budget.Value(), turn, false));
      RestrainedAppend(trace, Counted(turn.recordAt));
      trace := trace + [Counted(turn.recordAt)];
    }
    again, stopped, trace := ConnectAndClose(budget, turn, immediate, trace);
  }

  /** A hold that the budget brings along, as after a restart, heads the trace. */
  function Carried(s: State): seq<LoopEvent> {
    if NeedsHumanHeld(s.memory.hold) then [HeldForHuman] else []
  }

  /**
   `runLoop` against any environment: turn by turn it does what `Turned` says. In every run the
   connection tries are at most twice the counted attempts, at every moment, and between a hold
   for a human and the next try there is a reset.
   */
  method RunLoop(budget: BudgetObject, turns: seq<Turn>) returns (trace: seq<LoopEvent>)
    requires budget.cfg.perHour >= 1
    modifies budget
    ensures trace == Carried(old(budget.Value())) + Looped(budget.cfg, old(budget.Value()), false, turns).events
    ensures budget.Value() == Looped(budget.cfg, old(budget.Value()), false, turns).state
    ensures forall n :: 0 <= n <= |trace| ==> Tries(trace[..n]) <= 2 * Attempts(trace[..n])
    ensures forall i, j :: 0 <= i < j < |trace| && trace[i].HeldForHuman? && Opens(trace[j]) ==>
              exists k :: i < k < j && trace[k].WasReset?
  {
    trace := [];
    if NeedsHumanHeld(budget.hold) {
      RestrainedAppend([], HeldForHuman);
      trace := [] + [HeldForHuman];
    }
    ghost var all := Before(trace, Looped(budget.cfg, budget.Value(), false, turns));
    var immediate, running, i := false, true, 0;
    while running && i < |turns|
      invariant 0 <= i <= |turns| && LoopInv(budget, immediate, trace)
      invariant !running ==> budget.Value() == all.state && trace == all.events
      invariant running ==> all == Before(trace, Looped(budget.cfg, budget.Value(), immediate, turns[i..]))
    {
      var stopped;
      ghost var m := Turned(budget.cfg, budget.Value(), turns[i], immediate);
      LoopedNext(budget.cfg, budget.Value(), immediate, turns[i..], trace, m);
      assert turns[i..][1..] == turns[i + 1..];
      immediate, stopped, trace := LoopTurn(budget, turns[i], immediate, trace);
      running := !stopped;
      i := i + 1;
    }
    forall n | 0 <= n <= |trace| ensures Tries(trace[..n]) <= 2 * Attempts(trace[..n]) {
      RestrainedMeans(trace, n);
    }
    forall i, j | 0 <= i < j < |trace| && trace[i].HeldForHuman? && Opens(trace[j])
      ensures exists k :: i < k < j && trace[k].WasReset?
    {
      NoTryWhileHeld(trace, i, j);
    }
  }

  lemma LoopedNext(cfg: Config, s: State, immediate: bool, turns: seq<Turn>, trace: seq<LoopEvent>, m: Moved)
    requires cfg.perHour >= 1 && turns != [] && m == Turned(cfg, s, turns[0], immediate)
    ensures Before(trace, Looped(cfg, s, immediate, turns)) ==
            if m.stopped then Before(trace, m) else Before(trace + m.events, Looped(cfg, m.state, m.immediate, turns[1..]))
  {
    BeforeTwice(trace, m.events, Looped(cfg, m.state, m.immediate, turns[1..]));
  }
}
