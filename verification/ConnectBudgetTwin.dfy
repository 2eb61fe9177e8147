/**
 The Python twin of the reconnect budget (`connect_budget.py`), in seconds, and its agreement
 with the TypeScript one on the same calls at the same times.
 */
module ConnectBudgetTwin {
  import opened Protocol
  import Ts = ConnectBudget
  import SlidingWindow

  const HOUR_S := 3600.0
  const DAY_S := 24.0 * HOUR_S

  datatype Config = Config(perHour: nat, perDay: nat, probeInterval: real)

  datatype Budget = Budget(attempts: seq<real>, nextProbeAt: Option<real>)

  datatype Decision = Connect(probe: bool) | Wait(seconds: real, why: Ts.Why)

  datatype State = State(memory: Budget, file: Budget)

  const FRESH := Budget([], None)

  function Newer(times: seq<real>, cutoff: real): (r: seq<real>)
    ensures |r| <= |times|
  {
    if times == [] then []
    else
      var n := |times| - 1;
      Newer(times[..n], cutoff) + (if times[n] > cutoff then [times[n]] else [])
  }

  /** `sorted(times)[0]`. */
  function Earliest(times: seq<real>): real
    requires times != []
  {
    if |times| == 1 then times[0]
    else
      var n := |times| - 1;
      var rest := Earliest(times[..n]);
      if times[n] < rest then times[n] else rest
  }

  function Max(a: real, b: real): real { if a < b then b else a }

  function DecideOn(cfg: Config, now: real, day: seq<real>, hour: seq<real>): Decision
    requires cfg.perHour >= 1
  {
    if |day| >= cfg.perDay then Wait(cfg.probeInterval, Ts.Exhausted)
    else if |hour| >= cfg.perHour then Wait(Max(1.0, Earliest(hour) + HOUR_S - now), Ts.HourlyLimit)
    else Connect(false)
  }

  function Decide(cfg: Config, s: State, now: real): (State, Decision)
    requires cfg.perHour >= 1
  {
    match s.memory.nextProbeAt
    case Some(at) => (s, if now >= at then Connect(true) else Wait(at - now, Ts.Exhausted))
    case None =>
      var day := Newer(s.memory.attempts, now - DAY_S);
      var kept := s.memory.(attempts := day);
      var spent := kept.(nextProbeAt := Some(now + cfg.probeInterval));
      (if |day| >= cfg.perDay then State(spent, spent) else s.(memory := kept),
       DecideOn(cfg, now, day, Newer(day, now - HOUR_S)))
  }

  function RecordAttempt(cfg: Config, s: State, now: real, probe: bool): State {
    var m := Budget(s.memory.attempts + [now],
                    if probe && s.memory.nextProbeAt.Some? then Some(now + cfg.probeInterval) else s.memory.nextProbeAt);
    State(m, m)
  }

  function Reset(s: State): State { State(FRESH, FRESH) }

  function Reload(s: State): State { State(s.file, s.file) }

  // ---------------------------------------------------------------- the correspondence

  function Seconds(ms: int): real { ms as real / 1000.0 }

  function AllSeconds(times: seq<int>): (r: seq<real>)
    ensures |r| == |times|
  {
    seq(|times|, i requires 0 <= i < |times| => Seconds(times[i]))
  }

  function ConfigSeconds(cfg: Ts.Config): Config { Config(cfg.perHour, cfg.perDay, Seconds(cfg.probeInterval)) }

  function DecisionSeconds(d: Ts.Decision): Option<Decision> {
    match d
    case Connect(probe) => Some(Connect(probe))
    case Wait(ms, why) => Some(Wait(Seconds(ms), why))
    case Held(_) => None
  }

  /** The same budget in both units, with no needs-human hold. */
  predicate Corresponds(a: Ts.Budget, b: Budget) {
    && b.attempts == AllSeconds(a.attempts)
    && match a.hold
       case None => b.nextProbeAt == None
       case Some(BudgetExhausted(_, Some(at))) => b.nextProbeAt == Some(Seconds(at))
       case _ => false
  }

  predicate StatesCorrespond(s: Ts.State, t: State) { Corresponds(s.memory, t.memory) && Corresponds(s.file, t.file) }

  lemma SecondsOrder(a: int, b: int)
    ensures a < b <==> Seconds(a) < Seconds(b)
    ensures Seconds(a + b) == Seconds(a) + Seconds(b) && Seconds(a - b) == Seconds(a) - Seconds(b)
  {
  }

  lemma {:induction false} NewerSeconds(times: seq<int>, cutoff: int)
    ensures Newer(AllSeconds(times), Seconds(cutoff)) == AllSeconds(SlidingWindow.Newer(times, cutoff))
  {
    if times != [] {
      var n := |times| - 1;
      NewerSeconds(times[..n], cutoff);
      SecondsOrder(cutoff, times[n]);
      assert AllSeconds(times)[..n] == AllSeconds(times[..n]);
      var rest := SlidingWindow.Newer(times[..n], cutoff);
      assert AllSeconds(rest + [times[n]]) == AllSeconds(rest) + [Seconds(times[n])];
      assert rest + [] == rest && AllSeconds(rest) + [] == AllSeconds(rest);
    }
  }

  lemma {:induction false} EarliestSeconds(times: seq<int>)
    requires times != []
    ensures Earliest(AllSeconds(times)) == Seconds(Ts.Earliest(times))
  {
    if |times| > 1 {
      var n := |times| - 1;
      EarliestSeconds(times[..n]);
      assert AllSeconds(times)[..n] == AllSeconds(times[..n]);
      SecondsOrder(times[n], Ts.Earliest(times[..n]));
    }
  }

  lemma DecideOnSeconds(cfg: Ts.Config, now: int, day: seq<int>, hour: seq<int>)
    requires cfg.perHour >= 1
    ensures DecisionSeconds(Ts.DecideOn(cfg, now, day, hour))
         == Some(DecideOn(ConfigSeconds(cfg), Seconds(now), AllSeconds(day), AllSeconds(hour)))
  {
    if |day| < cfg.perDay && |hour| >= cfg.perHour {
      EarliestSeconds(hour);
      SecondsOrder(Ts.Earliest(hour) + Ts.HOUR, now);
      SecondsOrder(Ts.Earliest(hour), Ts.HOUR);
      SecondsOrder(Ts.MIN_WAIT, Ts.Earliest(hour) + Ts.HOUR - now);
    }
  }

  lemma CutoffSeconds(now: int)
    ensures Seconds(now) - DAY_S == Seconds(now - Ts.DAY) && Seconds(now) - HOUR_S == Seconds(now - Ts.HOUR)
  {
  }

  /** One `decide`: the same decision, and states that still correspond. */
  lemma DecideTwin(cfg: Ts.Config, s: Ts.State, t: State, now: int)
    requires cfg.perHour >= 1 && StatesCorrespond(s, t)
    ensures DecisionSeconds(Ts.Decide(cfg, s, now).1) == Some(Decide(ConfigSeconds(cfg), t, Seconds(now)).1)
    ensures StatesCorrespond(Ts.Decide(cfg, s, now).0, Decide(ConfigSeconds(cfg), t, Seconds(now)).0)
  {
    match s.memory.hold
    case Some(hold) =>
      SecondsOrder(now, hold.nextProbeAt.value);
      SecondsOrder(hold.nextProbeAt.value, now);
    case None =>
      CutoffSeconds(now);
      NewerSeconds(s.memory.attempts, now - Ts.DAY);
      var day := SlidingWindow.Newer(s.memory.attempts, now - Ts.DAY);
      NewerSeconds(day, now - Ts.HOUR);
      DecideOnSeconds(cfg, now, day, SlidingWindow.Newer(day, now - Ts.HOUR));
      SecondsOrder(now, cfg.probeInterval);
  }

  lemma RecordTwin(cfg: Ts.Config, s: Ts.State, t: State, now: int, probe: bool)
    requires StatesCorrespond(s, t)
    ensures StatesCorrespond(Ts.RecordAttempt(cfg, s, now, probe), RecordAttempt(ConfigSeconds(cfg), t, Seconds(now), probe))
  {
  }

  /** The calls both twins have. */
  predicate Shared(op: Ts.Op) { op.Cycle? || op.Restart? || op.ResetBudget? }

  /** The Python budget after one call. */
  function Perform(cfg: Config, s: State, op: Ts.Op): State
    requires cfg.perHour >= 1 && Shared(op)
  {
    match op
    case Cycle(d, a) =>
      var (t, decision) := Decide(cfg, s, Seconds(d));
      if decision.Connect? then RecordAttempt(cfg, t, Seconds(a), decision.probe) else t
    case Restart => Reload(s)
    case ResetBudget => Reset(s)
  }

  /** The decisions of a run of calls. */
  function Decisions(cfg: Config, s: State, ops: seq<Ts.Op>): seq<Decision>
    requires cfg.perHour >= 1 && forall op :: op in ops ==> Shared(op)
    decreases |ops|
  {
    if ops == [] then []
    else
      assert ops[0] in ops;
      (if ops[0].Cycle? then [Decide(cfg, s, Seconds(ops[0].decideAt)).1] else [])
      + Decisions(cfg, Perform(cfg, s, ops[0]), ops[1..])
  }

  function TsDecisions(cfg: Ts.Config, r: Ts.Run, ops: seq<Ts.Op>): seq<Option<Decision>>
    requires cfg.perHour >= 1
    decreases |ops|
  {
    if ops == [] then []
    else
      (if ops[0].Cycle? then [DecisionSeconds(Ts.Decide(cfg, r.state, ops[0].decideAt).1)] else [])
      + TsDecisions(cfg, Ts.Perform(cfg, r, ops[0]), ops[1..])
  }

  function Present(ds: seq<Decision>): (r: seq<Option<Decision>>)
    ensures |r| == |ds|
  {
    seq(|ds|, i requires 0 <= i < |ds| => Some(ds[i]))
  }

  lemma StepTwin(cfg: Ts.Config, r: Ts.Run, t: State, op: Ts.Op)
    requires cfg.perHour >= 1 && Shared(op) && StatesCorrespond(r.state, t)
    ensures StatesCorrespond(Ts.Perform(cfg, r, op).state, Perform(ConfigSeconds(cfg), t, op))
  {
    match op
    case Cycle(d, a) =>
      DecideTwin(cfg, r.state, t, d);
      var (s, decision) := Ts.Decide(cfg, r.state, d);
      if decision.Connect? {
        RecordTwin(cfg, s, Decide(ConfigSeconds(cfg), t, Seconds(d)).0, a, decision.probe);
      }
    case Restart =>
    case ResetBudget => assert AllSeconds([]) == [];
  }

  /**
   Twin equivalence. On the same calls at the same times, from corresponding states, the two
   budgets take the same decisions, with every wait the same length, for any limits.
   */
  lemma {:induction false} SameDecisions(cfg: Ts.Config, r: Ts.Run, t: State, ops: seq<Ts.Op>)
    requires cfg.perHour >= 1 && StatesCorrespond(r.state, t) && forall op :: op in ops ==> Shared(op)
    ensures TsDecisions(cfg, r, ops) == Present(Decisions(ConfigSeconds(cfg), t, ops))
    decreases |ops|
  {
    if ops != [] {
      var op := ops[0];
      assert op in ops;
      StepTwin(cfg, r, t, op);
      SameDecisions(cfg, Ts.Perform(cfg, r, op), Perform(ConfigSeconds(cfg), t, op), ops[1..]);
      if op.Cycle? {
        DecideTwin(cfg, r.state, t, op.decideAt);
      }
    }
  }

  /** Two fresh budgets correspond, so the agreement covers every run from the start. */
  lemma FreshTwins()
    ensures StatesCorrespond(Ts.Saved(Ts.FRESH), State(FRESH, FRESH))
  {
  }

  /** The Python object, updating its fields. */
  class TwinObject {
    const cfg: Config
    var attempts: seq<real>
    var nextProbeAt: Option<real>
    var file: Budget

    ghost function Value(): State
      reads this
    {
      State(Budget(attempts, nextProbeAt), file)
    }

    constructor (cfg: Config, file: Budget)
      ensures this.cfg == cfg && Value() == Reload(State(FRESH, file))
    {
      this.cfg := cfg;
      this.file := file;
      attempts, nextProbeAt := file.attempts, file.nextProbeAt;
    }

    method DecideNow(now: real) returns (decision: Decision)
      requires cfg.perHour >= 1
      modifies this
      ensures (Value(), decision) == Decide(cfg, old(Value()), now)
    {
      if nextProbeAt.Some? {
        return if now >= nextProbeAt.value then Connect(true) else Wait(nextProbeAt.value - now, Ts.Exhausted);
      }
      attempts := Newer(attempts, now - DAY_S);
      if |attempts| >= cfg.perDay {
        nextProbeAt := Some(now + cfg.probeInterval);
        file := Budget(attempts, nextProbeAt);
        return Wait(cfg.probeInterval, Ts.Exhausted);
      }
      var inHour := Newer(attempts, now - HOUR_S);
      if |inHour| >= cfg.perHour {
        return Wait(Max(1.0, Earliest(inHour) + HOUR_S - now), Ts.HourlyLimit);
      }
      return Connect(false);
    }

    method RecordAttemptNow(now: real, probe: bool)
      modifies this
      ensures Value() == RecordAttempt(cfg, old(Value()), now, probe)
    {
      attempts := attempts + [now];
      if probe && nextProbeAt.Some? {
        nextProbeAt := Some(now + cfg.probeInterval);
      }
      file := Budget(attempts, nextProbeAt);
    }

    method ResetNow()
      modifies this
      ensures Value() == Reset(old(Value()))
    {
      attempts, nextProbeAt := [], None;
      file := Budget(attempts, nextProbeAt);
    }
  }
}
