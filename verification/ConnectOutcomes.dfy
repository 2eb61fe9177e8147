/** What the reconnect budget answers in every run, told from the operations of the run alone. */
module ConnectOutcomes {
  import opened Protocol
  import opened SlidingWindow
  import opened ConnectBudget

  // ---------------------------------------------------------------- decisions without a hold

  lemma {:induction false} RunClock(cfg: Config, clock: int, ops: seq<Op>)
    requires Sensible(cfg) && Performable(cfg, Start(clock), ops)
    ensures Inv(cfg, PerformAll(cfg, Start(clock), ops))
  {
    StartIsOk(cfg, clock);
    RunKeepsInv(cfg, Start(clock), ops);
  }

  /**
   Without a hold the budget connects exactly when fewer than `perDay` attempts were recorded in
   the last 24 hours and fewer than `perHour` in the last hour; a spent day comes before a full hour.
   */
  lemma {:induction false} ConnectsIff(cfg: Config, clock: int, ops: seq<Op>, now: int)
    requires Sensible(cfg) && Performable(cfg, Start(clock), ops)
    requires PerformAll(cfg, Start(clock), ops).clock <= now
    requires PerformAll(cfg, Start(clock), ops).state.memory.hold.None?
    ensures var r := PerformAll(cfg, Start(clock), ops);
            var day, hour := Count(r.log, now - DAY, now), Count(r.log, now - HOUR, now);
            match Decide(cfg, r.state, now).1
            case Connect(probe) => !probe && day < cfg.perDay && hour < cfg.perHour
            case Wait(ms, HourlyLimit) => day < cfg.perDay && hour >= cfg.perHour
            case Wait(ms, Exhausted) => day >= cfg.perDay && ms == cfg.probeInterval
            case Held(_) => false
  {
    RunClock(cfg, clock, ops);
    DecideCounts(cfg, PerformAll(cfg, Start(clock), ops), now);
  }

  lemma DecideCounts(cfg: Config, r: Run, now: int)
    requires Sensible(cfg) && Inv(cfg, r) && r.clock <= now && r.state.memory.hold.None?
    ensures Decide(cfg, r.state, now).1.Connect? <==>
              Count(r.log, now - DAY, now) < cfg.perDay && Count(r.log, now - HOUR, now) < cfg.perHour
    ensures Decide(cfg, r.state, now).1 == Wait(cfg.probeInterval, Exhausted) || Count(r.log, now - DAY, now) < cfg.perDay
    ensures Decide(cfg, r.state, now).1.Wait? && Decide(cfg, r.state, now).1.why.Exhausted? ==>
              Count(r.log, now - DAY, now) >= cfg.perDay
  {
    CountsTheLog(r.state.memory, r.log, r.clock, now);
    NewerIsCount(r.log, now - DAY, now);
    NewerIsCount(r.log, now - HOUR, now);
  }

  /** A spent day is noted at once, in memory and in the file, with the first probe one interval later. */
  lemma ExhaustedIsHeld(cfg: Config, s: State, now: int)
    requires cfg.perHour >= 1 && s.memory.hold.None? && Decide(cfg, s, now).1 == Wait(cfg.probeInterval, Exhausted)
    ensures var s' := Decide(cfg, s, now).0; var hold := Some(BudgetExhausted(now, Some(now + cfg.probeInterval)));
            s'.memory.hold == hold && s'.file.hold == hold
  {
  }

  /**
   A spent budget probes exactly when one interval has passed since it was spent or since the last
   probe, and otherwise waits for just that.
   */
  lemma {:induction false} ProbesExactly(cfg: Config, clock: int, ops: seq<Op>, now: int) returns (due: int)
    requires Sensible(cfg) && Performable(cfg, Start(clock), ops)
    requires PerformAll(cfg, Start(clock), ops).state.memory.hold.Some?
    requires PerformAll(cfg, Start(clock), ops).state.memory.hold.value.BudgetExhausted?
    ensures var r := PerformAll(cfg, Start(clock), ops);
            && (due == r.state.memory.hold.value.since + cfg.probeInterval
                || (r.log != [] && due == r.log[|r.log| - 1] + cfg.probeInterval))
            && Decide(cfg, r.state, now) == (r.state, if due <= now then Connect(true) else Wait(due - now, Exhausted))
  {
    RunClock(cfg, clock, ops);
    due := NextProbe(cfg, PerformAll(cfg, Start(clock), ops));
    ProbeDecision(cfg, PerformAll(cfg, Start(clock), ops).state, due, now);
  }

  lemma NextProbe(cfg: Config, r: Run) returns (due: int)
    requires Inv(cfg, r) && r.state.memory.hold.Some? && r.state.memory.hold.value.BudgetExhausted?
    ensures r.state.memory.hold.value.nextProbeAt == Some(due)
    ensures due == r.state.memory.hold.value.since + cfg.probeInterval
            || (r.log != [] && due == r.log[|r.log| - 1] + cfg.probeInterval)
  {
    var BudgetExhausted(since, next) := r.state.memory.hold.value;
    var m: nat :| ProbesFrom(cfg, r.log, m, since, next);
    due := next.value;
  }

  lemma ProbeDecision(cfg: Config, s: State, due: int, now: int)
    requires cfg.perHour >= 1 && s.memory.hold.Some? && s.memory.hold.value.BudgetExhausted?
    requires s.memory.hold.value.nextProbeAt == Some(due)
    ensures Decide(cfg, s, now) == (s, if due <= now then Connect(true) else Wait(due - now, Exhausted))
  {
  }

  // ---------------------------------------------------------------- a hold for a human

  predicate HumanHeld(s: State) {
    s.memory.hold.Some? && s.memory.hold.value.NeedsHuman? && s.file.hold == s.memory.hold
  }

  lemma {:induction false} StaysHeld(cfg: Config, r: Run, ops: seq<Op>)
    requires cfg.perHour >= 1 && HumanHeld(r.state) && forall i :: 0 <= i < |ops| ==> !ops[i].ResetBudget?
    ensures HumanHeld(PerformAll(cfg, r, ops).state) && PerformAll(cfg, r, ops).log == r.log
    ensures (forall i :: 0 <= i < |ops| ==> !ops[i].Hold?) ==>
              PerformAll(cfg, r, ops).state.memory.hold == r.state.memory.hold
    decreases |ops|
  {
    if ops != [] {
      StaysHeld(cfg, Perform(cfg, r, ops[0]), ops[1..]);
    }
  }

  /**
   Held until reset. Once the budget is held for a human, then through restarts and everything
   else but a reset no attempt is recorded and every decision is the hold; and it is the one
   that was set, unless another was set since.
   */
  lemma {:induction false} HeldUntilReset(
    cfg: Config, r: Run, at: int, code: Option<int>, reason: string, later: seq<Op>, now: int)
    requires cfg.perHour >= 1 && forall i :: 0 <= i < |later| ==> !later[i].ResetBudget?
    ensures var held := Perform(cfg, r, Hold(at, code, reason)); var end := PerformAll(cfg, held, later);
            && end.log == r.log && Decide(cfg, end.state, now).1.Held? && Decide(cfg, end.state, now).0 == end.state
            && ((forall i :: 0 <= i < |later| ==> !later[i].Hold?) ==>
                  Decide(cfg, end.state, now).1 == Held(NeedsHuman(at, code, reason)))
  {
    StaysHeld(cfg, Perform(cfg, r, Hold(at, code, reason)), later);
  }

  /** A reset forgets everything, so the next decision is to connect. */
  lemma ResetConnects(cfg: Config, r: Run, now: int)
    requires cfg.perHour >= 1
    ensures Perform(cfg, r, ResetBudget) == Start(r.clock)
    ensures cfg.perDay >= 1 ==> Decide(cfg, Perform(cfg, r, ResetBudget).state, now).1 == Connect(false)
    ensures !RecordReplaced(Perform(cfg, r, ResetBudget).state, now).1
  {
  }

  // ---------------------------------------------------------------- replaced connections

  /** When connections were replaced since the last reset. */
  function ReplacedAt(ops: seq<Op>): seq<int> {
    if ops == [] then []
    else
      var n := |ops| - 1;
      match ops[n]
      case Replaced(at) => ReplacedAt(ops[..n]) + [at]
      case ResetBudget => []
      case _ => ReplacedAt(ops[..n])
  }

  /** Memory and file agree with the run on the replacements that can still matter. */
  predicate ReplacedOk(s: State, times: seq<int>, clock: int) {
    && s.file.replaced == s.memory.replaced
    && Newer(s.memory.replaced, clock - REPLACED_WINDOW) == Newer(times, clock - REPLACED_WINDOW)
  }

  lemma ReplacedLater(s: State, times: seq<int>, clock: int, later: int)
    requires ReplacedOk(s, times, clock) && clock <= later
    ensures ReplacedOk(s, times, later)
  {
    NewerTwice(s.memory.replaced, clock - REPLACED_WINDOW, later - REPLACED_WINDOW);
    NewerTwice(times, clock - REPLACED_WINDOW, later - REPLACED_WINDOW);
  }

  lemma RecordKeepsReplaced(s: State, times: seq<int>, clock: int, at: int)
    requires ReplacedOk(s, times, clock) && clock <= at
    ensures ReplacedOk(RecordReplaced(s, at).0, times + [at], at)
  {
    var cut := at - REPLACED_WINDOW;
    ReplacedLater(s, times, clock, at);
    NewerAppend(times, at, cut);
    NewerTwice(s.memory.replaced, cut, cut);
    NewerAppend(Newer(s.memory.replaced, cut), at, cut);
  }

  lemma OpKeepsReplaced(cfg: Config, r: Run, op: Op, times: seq<int>)
    requires cfg.perHour >= 1 && InTime(r, op) && ReplacedOk(r.state, times, r.clock)
    ensures var r' := Perform(cfg, r, op);
            ReplacedOk(r'.state, if op.Replaced? then times + [op.at] else if op.ResetBudget? then [] else times, r'.clock)
  {
    match op {
      case Cycle(d, a) => CycleKeepsReplaced(cfg, r, d, a, times);
      case Replaced(at) => RecordKeepsReplaced(r.state, times, r.clock, at);
      case Hold(at, _, _) => ReplacedLater(r.state, times, r.clock, at);
      case Restart =>
      case ResetBudget =>
    }
  }

  lemma CycleKeepsReplaced(cfg: Config, r: Run, d: int, a: int, times: seq<int>)
    requires cfg.perHour >= 1 && r.clock <= d <= a && ReplacedOk(r.state, times, r.clock)
    ensures ReplacedOk(Perform(cfg, r, Cycle(d, a)).state, times, Perform(cfg, r, Cycle(d, a)).clock)
  {
    var r' := Perform(cfg, r, Cycle(d, a));
    assert r'.state.memory.replaced == r.state.memory.replaced && r'.state.file.replaced == r.state.file.replaced;
    ReplacedLater(r.state, times, r.clock, r'.clock);
  }

  lemma {:induction false} PerformLast(cfg: Config, r: Run, ops: seq<Op>)
    requires cfg.perHour >= 1 && ops != [] && Performable(cfg, r, ops)
    ensures var n := |ops| - 1;
            && Performable(cfg, r, ops[..n]) && InTime(PerformAll(cfg, r, ops[..n]), ops[n])
            && PerformAll(cfg, r, ops) == Perform(cfg, PerformAll(cfg, r, ops[..n]), ops[n])
    decreases |ops|
  {
    var n := |ops| - 1;
    if n > 0 {
      PerformLast(cfg, Perform(cfg, r, ops[0]), ops[1..]);
      assert ops[..n][1..] == ops[1..][..n - 1];
    }
  }

  lemma {:induction false} RunKeepsReplaced(cfg: Config, clock: int, ops: seq<Op>)
    requires cfg.perHour >= 1 && Performable(cfg, Start(clock), ops)
    ensures var r := PerformAll(cfg, Start(clock), ops); ReplacedOk(r.state, ReplacedAt(ops), r.clock)
    decreases |ops|
  {
    if ops != [] {
      var n := |ops| - 1;
      PerformLast(cfg, Start(clock), ops);
      RunKeepsReplaced(cfg, clock, ops[..n]);
      OpKeepsReplaced(cfg, PerformAll(cfg, Start(clock), ops[..n]), ops[n], ReplacedAt(ops[..n]));
    }
  }

  lemma {:induction false} NewerNone(log: seq<int>, cutoff: int)
    ensures Newer(log, cutoff) == [] <==> forall i :: 0 <= i < |log| ==> log[i] <= cutoff
  {
    if log != [] {
      var n := |log| - 1;
      NewerNone(log[..n], cutoff);
      assert forall i :: 0 <= i < n ==> log[..n][i] == log[i];
    }
  }

  /**
   A replaced connection counts as the second of a fight exactly when another was replaced, since
   the last reset, less than the window before it; restarts in between do not matter.
   */
  lemma {:induction false} SecondReplacedIff(cfg: Config, clock: int, ops: seq<Op>, now: int)
    requires cfg.perHour >= 1 && Performable(cfg, Start(clock), ops)
    requires PerformAll(cfg, Start(clock), ops).clock <= now
    ensures RecordReplaced(PerformAll(cfg, Start(clock), ops).state, now).1 <==> Within(ReplacedAt(ops), now)
  {
    var r := PerformAll(cfg, Start(clock), ops);
    RunKeepsReplaced(cfg, clock, ops);
    ReplacedLater(r.state, ReplacedAt(ops), r.clock, now);
    SecondIff(r.state, ReplacedAt(ops), now);
  }

  /** Some of the times is less than the window ago. */
  predicate Within(times: seq<int>, now: int) {
    exists i :: 0 <= i < |times| && now - REPLACED_WINDOW < times[i]
  }

  lemma SecondIff(s: State, times: seq<int>, now: int)
    requires ReplacedOk(s, times, now)
    ensures RecordReplaced(s, now).1 <==> Within(times, now)
  {
    NewerNone(times, now - REPLACED_WINDOW);
  }
}
