/**
 The reconnect budget of the bridge (`connect_budget.ts`), in milliseconds: sliding hour and day
 limits, an exhausted state with spaced probes, a needs-human hold, and a file that outlives
 the process.
 */
module ConnectBudget {
  import opened Protocol
  import opened SlidingWindow

  const HOUR := 3600000
  const DAY := 24 * HOUR
  const REPLACED_WINDOW := 600000
  const MIN_WAIT := 1000

  /** The limits; the code divides nothing by them and needs an hourly limit of at least one. */
  datatype Config = Config(perHour: nat, perDay: nat, probeInterval: int)

  datatype Hold =
    | NeedsHuman(since: int, code: Option<int>, reason: string)
    | BudgetExhausted(since: int, nextProbeAt: Option<int>)

  datatype Budget = Budget(attempts: seq<int>, replaced: seq<int>, hold: Option<Hold>)

  datatype Why = HourlyLimit | Exhausted

  datatype Decision = Connect(probe: bool) | Wait(ms: int, why: Why) | Held(hold: Hold)

  const FRESH := Budget([], [], None)

  /** `times.sort((a, b) => a - b)[0]`. */
  function Earliest(times: seq<int>): (t: int)
    requires times != []
  {
    if |times| == 1 then times[0]
    else
      var n := |times| - 1;
      var rest := Earliest(times[..n]);
      if times[n] < rest then times[n] else rest
  }

  function Max(a: int, b: int): int { if a < b then b else a }

  /** In memory, and as last saved. */
  datatype State = State(memory: Budget, file: Budget)

  function Saved(memory: Budget): State { State(memory, memory) }

  /** The part of `decide` after the hold, given the attempts of the last day and of the last hour. */
  function DecideOn(cfg: Config, now: int, day: seq<int>, hour: seq<int>): Decision
    requires cfg.perHour >= 1
  {
    if |day| >= cfg.perDay then Wait(cfg.probeInterval, Exhausted)
    else if |hour| >= cfg.perHour then Wait(Max(MIN_WAIT, Earliest(hour) + HOUR - now), HourlyLimit)
    else Connect(false)
  }

  /** `decide`, for a positive hourly limit. */
  function Decide(cfg: Config, s: State, now: int): (State, Decision)
    requires cfg.perHour >= 1
  {
    match s.memory.hold
    case Some(NeedsHuman(since, code, reason)) => (s, Held(NeedsHuman(since, code, reason)))
    case Some(BudgetExhausted(_, next)) =>
      var at := if next.Some? then next.value else now;
      (s, if at <= now then Connect(true) else Wait(at - now, Exhausted))
    case None =>
      var day := Newer(s.memory.attempts, now - DAY);
      var kept := s.memory.(attempts := day);
      (if |day| >= cfg.perDay then Saved(kept.(hold := Some(BudgetExhausted(now, Some(now + cfg.probeInterval)))))
       else s.(memory := kept),
       DecideOn(cfg, now, day, Newer(day, now - HOUR)))
  }

  function RecordAttempt(cfg: Config, s: State, now: int, probe: bool): State {
    var m := s.memory.(attempts := s.memory.attempts + [now]);
    Saved(
      if probe && m.hold.Some? && m.hold.value.BudgetExhausted?
      then m.(hold := Some(m.hold.value.(nextProbeAt := Some(now + cfg.probeInterval))))
      else m)
  }

  function RecordReplaced(s: State, now: int): (State, bool) {
    var recent := Newer(s.memory.replaced, now - REPLACED_WINDOW) + [now];
    (Saved(s.memory.(replaced := recent)), |recent| >= 2)
  }

  function HoldNeedsHuman(s: State, now: int, code: Option<int>, reason: string): State {
    Saved(s.memory.(hold := Some(NeedsHuman(now, code, reason))))
  }

  function Reset(s: State): State { Saved(FRESH) }

  /** A restart: the saved budget is read back. */
  function Reload(s: State): State { State(s.file, s.file) }

  // ---------------------------------------------------------------- runs

  /**
   What a process does with the budget. A cycle decides at one time and, if allowed to
   connect, records the attempt at a time not before it.
   */
  datatype Op =
    | Cycle(decideAt: int, recordAt: int)
    | Replaced(at: int)
    | Hold(at: int, code: Option<int>, reason: string)
    | Restart
    | ResetBudget

  /** The state, the log of all recorded attempts, and the clock. */
  datatype Run = Run(state: State, log: seq<int>, clock: int)

  predicate InTime(r: Run, op: Op) {
    match op
    case Cycle(d, a) => r.clock <= d <= a
    case Replaced(at) => r.clock <= at
    case Hold(at, _, _) => r.clock <= at
    case _ => true
  }

  function Perform(cfg: Config, r: Run, op: Op): Run
    requires cfg.perHour >= 1
  {
    match op
    case Cycle(d, a) =>
      var (s, decision) := Decide(cfg, r.state, d);
      if decision.Connect? then Run(RecordAttempt(cfg, s, a, decision.probe), r.log + [a], a) else Run(s, r.log, d)
    case Replaced(at) => Run(RecordReplaced(r.state, at).0, r.log, at)
    case Hold(at, code, reason) => Run(HoldNeedsHuman(r.state, at, code, reason), r.log, at)
    case Restart => r.(state := Reload(r.state))
    case ResetBudget => r.(state := Reset(r.state), log := [])
  }

  predicate Performable(cfg: Config, r: Run, ops: seq<Op>)
    requires cfg.perHour >= 1
    decreases |ops|
  {
    ops == [] || (InTime(r, ops[0]) && Performable(cfg, Perform(cfg, r, ops[0]), ops[1..]))
  }

  function PerformAll(cfg: Config, r: Run, ops: seq<Op>): Run
    requires cfg.perHour >= 1
    decreases |ops|
  {
    if ops == [] then r else PerformAll(cfg, Perform(cfg, r, ops[0]), ops[1..])
  }

  function Start(clock: int): Run { Run(Saved(FRESH), [], clock) }

  // ---------------------------------------------------------------- the bounds

  /** ceil(a / b). */
  function CeilDiv(a: int, b: int): int
    requires b > 0
  {
    (a + b - 1) / b
  }

  /** The shortest time from the first to the last of a day's attempts, given the hourly limit. */
  function FillTime(cfg: Config): int
    requires cfg.perHour >= 1 && cfg.perDay >= 1
  {
    (cfg.perDay - 1) / cfg.perHour * HOUR
  }

  /** The most attempts any 24 hours can see: a day's attempts, and the probes that fit in after them. */
  function DailyBound(cfg: Config): int
    requires Sensible(cfg)
  {
    cfg.perDay + Max(CeilDiv(DAY - FillTime(cfg), cfg.probeInterval), 1) - 1
  }

  /** Limits for which the bounds are claimed. */
  predicate Sensible(cfg: Config) { cfg.perHour >= 1 && cfg.perDay >= 1 && cfg.probeInterval >= HOUR }

  /** The log before the first probe, and the probes. */
  predicate Probing(cfg: Config, log: seq<int>, m: nat, since: int) {
    && m <= |log|
    && Spaced(log[..m], cfg.perDay, DAY) && Spaced(log[..m], cfg.perHour, HOUR)
    && (forall i :: 0 <= i < m ==> log[i] <= since)
    && (forall i :: m <= i < |log| ==> since + (i - m + 1) * cfg.probeInterval <= log[i])
    && (forall i, j :: m <= i < j < |log| ==> log[i] + (j - i) * cfg.probeInterval <= log[j])
  }

  /** The next probe is due one interval after the last probe, or after exhaustion. */
  predicate ProbesFrom(cfg: Config, log: seq<int>, m: nat, since: int, next: Option<int>) {
    && Probing(cfg, log, m, since)
    && next == Some((if m == |log| then since else log[|log| - 1]) + cfg.probeInterval)
  }

  /** A number of attempts large enough that more cannot fit into a day. */
  predicate Enough(cfg: Config, daily: nat) {
    Sensible(cfg) && cfg.perDay <= daily && DAY <= FillTime(cfg) + (daily - cfg.perDay + 1) * cfg.probeInterval
  }

  /** The log is in order: some attempts as the limits allow, and then perhaps probes. */
  ghost predicate Shaped(cfg: Config, log: seq<int>) {
    Sorted(log) && exists m: nat, since: int :: Probing(cfg, log, m, since)
  }

  /** Memory, and what a restart would restore, agree with the log on the last day. */
  predicate SameRecent(b: Budget, log: seq<int>, clock: int) {
    Newer(b.attempts, clock - DAY) == Newer(log, clock - DAY)
  }

  ghost predicate BudgetOk(cfg: Config, b: Budget, log: seq<int>, clock: int) {
    match b.hold
    case None =>
      SameRecent(b, log, clock) && Spaced(log, cfg.perDay, DAY) && Spaced(log, cfg.perHour, HOUR)
    case Some(BudgetExhausted(since, next)) =>
      && since <= clock
      && (exists m: nat :: ProbesFrom(cfg, log, m, since, next))
    case Some(NeedsHuman(_, _, _)) => true
  }

  ghost predicate Inv(cfg: Config, r: Run) {
    && Shaped(cfg, r.log)
    && (forall i :: 0 <= i < |r.log| ==> r.log[i] <= r.clock)
    && BudgetOk(cfg, r.state.memory, r.log, r.clock)
    && BudgetOk(cfg, r.state.file, r.log, r.clock)
  }

  lemma CeilDivFacts(a: int, b: int)
    requires b > 0
    ensures a > 0 ==> CeilDiv(a, b) >= 1
    ensures CeilDiv(a, b) * b >= a
    ensures (CeilDiv(a, b) - 1) * b < a
  {
  }

  lemma MulMonotone(a: int, b: int, c: int)
    requires a <= b && c >= 0
    ensures a * c <= b * c
  {
  }

  lemma SortedProbing(cfg: Config, log: seq<int>, m: nat, since: int)
    requires Sensible(cfg) && Probing(cfg, log, m, since) && Sorted(log[..m])
    ensures Sorted(log)
  {
    forall i, j | 0 <= i < j < |log| ensures log[i] <= log[j] {
      if j < m {
        assert log[..m][i] <= log[..m][j];
      } else if i < m {
        MulMonotone(0, j - m + 1, cfg.probeInterval);
      } else {
        MulMonotone(0, j - i, cfg.probeInterval);
      }
    }
  }

  /** Before and after exhaustion together: the hourly bound. */
  lemma ProbingHourly(cfg: Config, log: seq<int>, m: nat, since: int)
    requires Sensible(cfg) && Probing(cfg, log, m, since)
    ensures Spaced(log, cfg.perHour, HOUR)
  {
    var n := cfg.perHour;
    forall i, j | 0 <= i && j == i + n && j < |log| ensures log[i] + HOUR <= log[j] {
      if j < m {
        assert log[..m][i] + HOUR <= log[..m][j];
      } else if i < m {
        MulMonotone(1, j - m + 1, cfg.probeInterval);
      } else {
        MulMonotone(1, n, cfg.probeInterval);
      }
    }
  }

  /** Spaced times climb by at least `width` every n of them. */
  lemma {:induction false} StairSpan(log: seq<int>, n: nat, width: int, i: nat, j: nat)
    requires Sorted(log) && Spaced(log, n, width) && 1 <= n && i <= j < |log|
    ensures log[i] + (j - i) / n * width <= log[j]
    decreases j
  {
    if j - i >= n {
      StairSpan(log, n, width, i, j - n);
      QuotientLess(j - i, n);
      var k := (j - i) / n;
      assert (k - 1) * width + width == k * width;
      assert log[j - n] + width <= log[j];
    } else {
      QuotientIs(j - i, n, 0);
    }
  }

  lemma QuotientIs(a: nat, n: nat, q: int)
    requires 1 <= n && q * n <= a < q * n + n
    ensures a / n == q
  {
    var p := a / n;
    assert a == n * p + a % n;
    if p < q { MulMonotone(p + 1, q, n); } else if q < p { MulMonotone(q + 1, p, n); }
  }

  lemma QuotientLess(a: nat, n: nat)
    requires 1 <= n <= a
    ensures (a - n) / n == a / n - 1
  {
    var q := a / n;
    assert a == n * q + a % n;
    assert (q - 1) * n == q * n - n;
    QuotientIs(a - n, n, q - 1);
  }

  lemma StepDown(a: nat, n: nat)
    requires 1 <= n && 1 <= a
    ensures a / n <= (a - 1) / n + 1
  {
    var p, q := a / n, (a - 1) / n;
    assert a == n * p + a % n && a - 1 == n * q + (a - 1) % n;
    if p > q + 1 { MulMonotone(q + 2, p, n); }
  }

  /** Leaving out attempts before exhaustion gains at most an hour each, and costs a probe interval each. */
  lemma {:induction false} SpanTradeoff(cfg: Config, a: nat, probes: nat)
    requires Sensible(cfg) && 1 <= a <= cfg.perDay && DAY <= FillTime(cfg) + probes * cfg.probeInterval
    ensures DAY <= (a - 1) / cfg.perHour * HOUR + (probes + cfg.perDay - a) * cfg.probeInterval
    decreases cfg.perDay - a
  {
    if a < cfg.perDay {
      SpanTradeoff(cfg, a + 1, probes);
      StepDown(a, cfg.perHour);
      MulMonotone(a / cfg.perHour, (a - 1) / cfg.perHour + 1, HOUR);
      var k := probes + cfg.perDay - a;
      assert k * cfg.probeInterval == (k - 1) * cfg.probeInterval + cfg.probeInterval;
    }
  }

  /** A run that begins among the last attempts before exhaustion. */
  lemma AcrossExhaustion(cfg: Config, log: seq<int>, m: nat, since: int, daily: nat, i: nat)
    requires Sensible(cfg) && Probing(cfg, log, m, since) && Sorted(log[..m]) && Enough(cfg, daily)
    requires i < m <= i + cfg.perDay && i + daily < |log|
    ensures log[i] + DAY <= log[i + daily]
  {
    var a, probes := m - i, daily - cfg.perDay + 1;
    StairSpan(log[..m], cfg.perHour, HOUR, i, m - 1);
    SpanTradeoff(cfg, a, probes);
    assert log[..m][i] == log[i] && log[..m][m - 1] == log[m - 1] <= since;
    assert i + daily - m + 1 == probes + cfg.perDay - a;
  }

  /** Probes alone. */
  lemma AmongProbes(cfg: Config, daily: nat)
    requires Enough(cfg, daily)
    ensures DAY <= daily * cfg.probeInterval
  {
    SpanTradeoff(cfg, 1, daily - cfg.perDay + 1);
    assert 0 / cfg.perHour == 0;
  }

  /** Before and after exhaustion together: the daily bound. */
  lemma ProbingDaily(cfg: Config, log: seq<int>, m: nat, since: int, daily: nat)
    requires Sensible(cfg) && Probing(cfg, log, m, since) && Sorted(log[..m]) && Enough(cfg, daily)
    ensures Spaced(log, daily, DAY)
  {
    forall i, j | 0 <= i && j == i + daily && j < |log| ensures log[i] + DAY <= log[j] {
      if j < m {
        assert log[..m][i] + DAY <= log[..m][i + cfg.perDay] <= log[..m][j];
      } else if i >= m {
        AmongProbes(cfg, daily);
      } else if i + cfg.perDay < m {
        assert log[..m][i] + DAY <= log[..m][i + cfg.perDay];
        assert log[i + cfg.perDay] <= since;
        MulMonotone(0, j - m + 1, cfg.probeInterval);
      } else {
        AcrossExhaustion(cfg, log, m, since, daily, i);
      }
    }
  }

  /** The window bounds, as spacing. */
  lemma ShapedSpacing(cfg: Config, log: seq<int>, daily: nat)
    requires Sensible(cfg) && Shaped(cfg, log) && Enough(cfg, daily)
    ensures Spaced(log, cfg.perHour, HOUR) && Spaced(log, daily, DAY)
  {
    var m: nat, since: int :| Probing(cfg, log, m, since);
    assert Sorted(log[..m]);
    ProbingHourly(cfg, log, m, since);
    ProbingDaily(cfg, log, m, since, daily);
  }

  lemma NormalIsShaped(cfg: Config, log: seq<int>, clock: int)
    requires Sorted(log) && Spaced(log, cfg.perDay, DAY) && Spaced(log, cfg.perHour, HOUR)
    requires forall i :: 0 <= i < |log| ==> log[i] <= clock
    ensures Shaped(cfg, log)
  {
    assert log[..|log|] == log;
    assert Probing(cfg, log, |log|, clock);
  }

  // ---------------------------------------------------------------- every operation keeps the bounds

  lemma LaterSameRecent(b: Budget, log: seq<int>, clock: int, later: int)
    requires SameRecent(b, log, clock) && clock <= later
    ensures SameRecent(b, log, later)
  {
    NewerTwice(b.attempts, clock - DAY, later - DAY);
    NewerTwice(log, clock - DAY, later - DAY);
  }

  lemma LaterBudgetOk(cfg: Config, b: Budget, log: seq<int>, clock: int, later: int)
    requires Sensible(cfg) && BudgetOk(cfg, b, log, clock) && clock <= later
    ensures BudgetOk(cfg, b, log, later)
  {
    if b.hold.None? {
      LaterSameRecent(b, log, clock, later);
    }
  }

  /** What the counts in `decide` count: attempts of the whole log. */
  lemma CountsTheLog(b: Budget, log: seq<int>, clock: int, now: int)
    requires SameRecent(b, log, clock) && clock <= now
    ensures Newer(b.attempts, now - DAY) == Newer(log, now - DAY)
    ensures Newer(Newer(b.attempts, now - DAY), now - HOUR) == Newer(log, now - HOUR)
  {
    LaterSameRecent(b, log, clock, now);
    NewerTwice(log, now - DAY, now - HOUR);
  }

  lemma NormalAttemptSpaced(cfg: Config, b: Budget, log: seq<int>, clock: int, now: int, at: int)
    requires Sensible(cfg) && Sorted(log) && b.hold.None? && BudgetOk(cfg, b, log, clock)
    requires clock <= now <= at && forall i :: 0 <= i < |log| ==> log[i] <= clock
    requires |Newer(b.attempts, now - DAY)| < cfg.perDay
    requires |Newer(Newer(b.attempts, now - DAY), now - HOUR)| < cfg.perHour
    ensures NormalLog(cfg, log + [at], at)
  {
    CountsTheLog(b, log, clock, now);
    SpacedAppend(log, cfg.perDay, DAY, now, at);
    SpacedAppend(log, cfg.perHour, HOUR, now, at);
    UpToAppend(log, clock, at);
    NormalIsShaped(cfg, log + [at], at);
  }

  /** A log before exhaustion. */
  ghost predicate NormalLog(cfg: Config, log: seq<int>, clock: int) {
    Shaped(cfg, log) && Spaced(log, cfg.perDay, DAY) && Spaced(log, cfg.perHour, HOUR)
    && forall i :: 0 <= i < |log| ==> log[i] <= clock
  }

  lemma UpToAppend(log: seq<int>, clock: int, at: int)
    requires clock <= at && forall i :: 0 <= i < |log| ==> log[i] <= clock
    ensures forall i :: 0 <= i < |log + [at]| ==> (log + [at])[i] <= at
  {
  }

  lemma NormalAttemptRecent(b: Budget, log: seq<int>, clock: int, now: int, at: int)
    requires SameRecent(b, log, clock) && clock <= now <= at
    ensures SameRecent(b.(attempts := Newer(b.attempts, now - DAY) + [at]), log + [at], at)
  {
    CountsTheLog(b, log, clock, now);
    var kept := Newer(b.attempts, now - DAY);
    NewerAppend(kept, at, at - DAY);
    NewerAppend(log, at, at - DAY);
    NewerTwice(log, now - DAY, at - DAY);
  }

  lemma ProbeAfterSince(cfg: Config, log: seq<int>, m: nat, since: int, at: int)
    requires Probing(cfg, log, m, since)
    requires (if m == |log| then since else log[|log| - 1]) + cfg.probeInterval <= at
    ensures since + (|log| - m + 1) * cfg.probeInterval <= at
  {
  }

  lemma ProbeAfterProbe(cfg: Config, log: seq<int>, m: nat, since: int, at: int, i: nat)
    requires Probing(cfg, log, m, since) && m <= i < |log|
    requires log[|log| - 1] + cfg.probeInterval <= at
    ensures log[i] + (|log| - i) * cfg.probeInterval <= at
  {
  }

  lemma ProbeAttempt(cfg: Config, log: seq<int>, m: nat, since: int, at: int)
    requires Sensible(cfg) && Sorted(log) && Probing(cfg, log, m, since)
    requires (if m == |log| then since else log[|log| - 1]) + cfg.probeInterval <= at
    ensures ProbesFrom(cfg, log + [at], m, since, Some(at + cfg.probeInterval)) && Shaped(cfg, log + [at])
  {
    ProbingAppend(cfg, log, m, since, at);
    assert (log + [at])[..m] == log[..m];
    SortedProbing(cfg, log + [at], m, since);
  }

  lemma ProbingAppend(cfg: Config, log: seq<int>, m: nat, since: int, at: int)
    requires Probing(cfg, log, m, since)
    requires (if m == |log| then since else log[|log| - 1]) + cfg.probeInterval <= at
    ensures Probing(cfg, log + [at], m, since)
  {
    var after := log + [at];
    assert after[..m] == log[..m];
    ProbeAfterSince(cfg, log, m, since, at);
    forall i, j | m <= i < j < |after| ensures after[i] + (j - i) * cfg.probeInterval <= after[j] {
      if j == |log| {
        ProbeAfterProbe(cfg, log, m, since, at, i);
      }
    }
  }

  lemma ProbeCycle(cfg: Config, r: Run, d: int, a: int)
    requires Sensible(cfg) && Inv(cfg, r) && r.clock <= d <= a
    requires r.state.memory.hold.Some? && r.state.memory.hold.value.BudgetExhausted?
    ensures Inv(cfg, Perform(cfg, r, Cycle(d, a)))
  {
    var b, log := r.state.memory, r.log;
    LaterBudgetOk(cfg, r.state.file, log, r.clock, d);
    var BudgetExhausted(since, next) := b.hold.value;
    var m: nat :| ProbesFrom(cfg, log, m, since, next);
    if next.value <= d {
      ProbeAttempt(cfg, log, m, since, a);
    }
  }

  lemma ExhaustedCycle(cfg: Config, r: Run, d: int, a: int)
    requires Sensible(cfg) && Inv(cfg, r) && r.clock <= d <= a && r.state.memory.hold.None?
    requires |Newer(r.state.memory.attempts, d - DAY)| >= cfg.perDay
    ensures Inv(cfg, Perform(cfg, r, Cycle(d, a)))
  {
    assert r.log[..|r.log|] == r.log;
    assert ProbesFrom(cfg, r.log, |r.log|, d, Some(d + cfg.probeInterval));
  }

  lemma AttemptCycle(cfg: Config, r: Run, d: int, a: int)
    requires Sensible(cfg) && Inv(cfg, r) && r.clock <= d <= a
    requires r.state.memory.hold.None? && Decide(cfg, r.state, d).1.Connect?
    ensures Inv(cfg, Perform(cfg, r, Cycle(d, a)))
  {
    NormalCycle(cfg, r, d, a);
    NormalRoom(cfg, r.state, d);
    AfterAttempt(cfg, r.state.memory, r.log, r.clock, d, a);
  }

  /** A turn without a hold connects only with room in the day and in the hour. */
  lemma NormalRoom(cfg: Config, s: State, now: int)
    requires cfg.perHour >= 1 && s.memory.hold.None? && Decide(cfg, s, now).1.Connect?
    ensures |Newer(s.memory.attempts, now - DAY)| < cfg.perDay
    ensures |Newer(Newer(s.memory.attempts, now - DAY), now - HOUR)| < cfg.perHour
  {
  }

  lemma AfterAttempt(cfg: Config, b: Budget, log: seq<int>, clock: int, d: int, a: int)
    requires Sensible(cfg) && Sorted(log) && b.hold.None? && BudgetOk(cfg, b, log, clock)
    requires clock <= d <= a && forall i :: 0 <= i < |log| ==> log[i] <= clock
    requires |Newer(b.attempts, d - DAY)| < cfg.perDay
    requires |Newer(Newer(b.attempts, d - DAY), d - HOUR)| < cfg.perHour
    ensures Inv(cfg, Run(Saved(b.(attempts := Newer(b.attempts, d - DAY) + [a])), log + [a], a))
  {
    NormalAttemptSpaced(cfg, b, log, clock, d, a);
    NormalAttemptRecent(b, log, clock, d, a);
    NormalInv(cfg, b.(attempts := Newer(b.attempts, d - DAY) + [a]), log + [a], a);
  }

  lemma NormalInv(cfg: Config, b: Budget, log: seq<int>, clock: int)
    requires b.hold.None? && SameRecent(b, log, clock) && NormalLog(cfg, log, clock)
    ensures Inv(cfg, Run(Saved(b), log, clock))
  {
  }

  /** What a turn without a hold that connects leaves behind. */
  lemma NormalCycle(cfg: Config, r: Run, d: int, a: int)
    requires cfg.perHour >= 1 && r.state.memory.hold.None? && Decide(cfg, r.state, d).1.Connect?
    ensures Perform(cfg, r, Cycle(d, a)) ==
            Run(Saved(r.state.memory.(attempts := Newer(r.state.memory.attempts, d - DAY) + [a])), r.log + [a], a)
  {
  }

  lemma KeptBudgetOk(cfg: Config, b: Budget, log: seq<int>, clock: int, now: int)
    requires Sensible(cfg) && b.hold.None? && BudgetOk(cfg, b, log, clock) && clock <= now
    ensures BudgetOk(cfg, b.(attempts := Newer(b.attempts, now - DAY)), log, now)
  {
    CountsTheLog(b, log, clock, now);
    NewerTwice(b.attempts, now - DAY, now - DAY);
  }

  lemma WaitCycle(cfg: Config, r: Run, d: int, a: int)
    requires Sensible(cfg) && Inv(cfg, r) && r.clock <= d <= a && r.state.memory.hold.None?
    requires |Newer(r.state.memory.attempts, d - DAY)| < cfg.perDay && !Decide(cfg, r.state, d).1.Connect?
    ensures Inv(cfg, Perform(cfg, r, Cycle(d, a)))
  {
    LaterBudgetOk(cfg, r.state.file, r.log, r.clock, d);
    KeptBudgetOk(cfg, r.state.memory, r.log, r.clock, d);
  }

  lemma CycleKeepsInv(cfg: Config, r: Run, d: int, a: int)
    requires Sensible(cfg) && Inv(cfg, r) && r.clock <= d <= a
    ensures Inv(cfg, Perform(cfg, r, Cycle(d, a)))
  {
    match r.state.memory.hold
    case Some(NeedsHuman(_, _, _)) => LaterBudgetOk(cfg, r.state.file, r.log, r.clock, d);
    case Some(BudgetExhausted(_, _)) => ProbeCycle(cfg, r, d, a);
    case None =>
      if |Newer(r.state.memory.attempts, d - DAY)| >= cfg.perDay {
        ExhaustedCycle(cfg, r, d, a);
      } else if Decide(cfg, r.state, d).1.Connect? {
        AttemptCycle(cfg, r, d, a);
      } else {
        WaitCycle(cfg, r, d, a);
      }
  }

  lemma OpKeepsInv(cfg: Config, r: Run, op: Op)
    requires Sensible(cfg) && Inv(cfg, r) && InTime(r, op)
    ensures Inv(cfg, Perform(cfg, r, op))
  {
    match op
    case Cycle(d, a) => CycleKeepsInv(cfg, r, d, a);
    case Replaced(at) => LaterBudgetOk(cfg, r.state.memory, r.log, r.clock, at);
    case Hold(_, _, _) =>
    case Restart =>
    case ResetBudget => NormalIsShaped(cfg, [], r.clock);
  }

  lemma {:induction false} RunKeepsInv(cfg: Config, r: Run, ops: seq<Op>)
    requires Sensible(cfg) && Inv(cfg, r) && Performable(cfg, r, ops)
    ensures Inv(cfg, PerformAll(cfg, r, ops))
    decreases |ops|
  {
    if ops != [] {
      OpKeepsInv(cfg, r, ops[0]);
      RunKeepsInv(cfg, Perform(cfg, r, ops[0]), ops[1..]);
    }
  }

  lemma StartIsOk(cfg: Config, clock: int)
    ensures Inv(cfg, Start(clock))
  {
    NormalIsShaped(cfg, [], clock);
  }

  lemma DailyBoundIsEnough(cfg: Config)
    requires Sensible(cfg)
    ensures DailyBound(cfg) >= 1 && Enough(cfg, DailyBound(cfg))
  {
    CeilDivFacts(DAY - FillTime(cfg), cfg.probeInterval);
    var q := CeilDiv(DAY - FillTime(cfg), cfg.probeInterval);
    MulMonotone(q, Max(q, 1), cfg.probeInterval);
  }

  /** In particular the bound is never more than a day's attempts and all probes a day can hold. */
  lemma DailyBoundAtMost(cfg: Config)
    requires Sensible(cfg)
    ensures DailyBound(cfg) <= cfg.perDay + CeilDiv(DAY, cfg.probeInterval) - 1
  {
    CeilDivFacts(DAY, cfg.probeInterval);
    CeilDivFacts(DAY - FillTime(cfg), cfg.probeInterval);
    MulMonotone(0, (cfg.perDay - 1) / cfg.perHour, HOUR);
    var p, q := CeilDiv(DAY, cfg.probeInterval), CeilDiv(DAY - FillTime(cfg), cfg.probeInterval);
    if q > p {
      MulMonotone(p, q - 1, cfg.probeInterval);
    }
  }

  /**
   Reconnect bound. In every run, with restarts anywhere, the attempts recorded since the last
   reset number at most `perHour` in any hour, and in any 24 hours at most `perDay` and the probes
   that fit in after a day's attempts made as fast as the hourly limit allows; so at most
   `perDay + ceil(24 h / probeInterval) - 1`.
   */
  lemma ReconnectBound(cfg: Config, clock: int, ops: seq<Op>, end: int)
    requires Sensible(cfg) && Performable(cfg, Start(clock), ops)
    ensures Count(PerformAll(cfg, Start(clock), ops).log, end - HOUR, end) <= cfg.perHour
    ensures Count(PerformAll(cfg, Start(clock), ops).log, end - DAY, end) <= DailyBound(cfg)
    ensures DailyBound(cfg) <= cfg.perDay + CeilDiv(DAY, cfg.probeInterval) - 1
  {
    DailyBoundIsEnough(cfg);
    DailyBoundAtMost(cfg);
    StartIsOk(cfg, clock);
    RunKeepsInv(cfg, Start(clock), ops);
    var log := PerformAll(cfg, Start(clock), ops).log;
    ShapedSpacing(cfg, log, DailyBound(cfg));
    SpacedBoundsCount(log, cfg.perHour, HOUR, end);
    SpacedBoundsCount(log, DailyBound(cfg), DAY, end);
  }

  // ---------------------------------------------------------------- the hourly wait

  lemma {:induction false} EarliestIsFirst(times: seq<int>)
    requires Sorted(times) && times != []
    ensures Earliest(times) == times[0]
  {
    if |times| > 1 {
      EarliestIsFirst(times[..|times| - 1]);
    }
  }

  lemma DecideOnTail(cfg: Config, now: int, day: seq<int>, log: seq<int>, k: nat)
    requires cfg.perHour >= 1 && Sorted(log) && k <= |log|
    ensures DecideOn(cfg, now, day, log[k..])
         == if |day| >= cfg.perDay then Wait(cfg.probeInterval, Exhausted)
            else if |log| - k >= cfg.perHour then Wait(Max(MIN_WAIT, log[k] + HOUR - now), HourlyLimit)
            else Connect(false)
  {
    if k < |log| {
      EarliestIsFirst(log[k..]);
    }
  }

  /** The decision without a hold, seen from the log: `k` is where the attempts of the last hour begin. */
  lemma DecideByLog(cfg: Config, s: State, log: seq<int>, clock: int, now: int) returns (k: nat)
    requires Sensible(cfg) && Sorted(log) && clock <= now
    requires s.memory.hold.None? && SameRecent(s.memory, log, clock)
    ensures Begins(log, now - HOUR, k)
    ensures Decide(cfg, s, now).1
         == if |Newer(log, now - DAY)| >= cfg.perDay then Wait(cfg.probeInterval, Exhausted)
            else if |log| - k >= cfg.perHour then Wait(Max(MIN_WAIT, log[k] + HOUR - now), HourlyLimit)
            else Connect(false)
  {
    CountsTheLog(s.memory, log, clock, now);
    k := NewerIsTail(log, now - HOUR);
    assert Decide(cfg, s, now).1 == DecideOn(cfg, now, Newer(log, now - DAY), log[k..]);
    DecideOnTail(cfg, now, Newer(log, now - DAY), log, k);
  }

  /**
   A returned hourly wait is exactly long enough, apart from its one-second floor: in any run
   it ends when the oldest attempt of the last hour is an hour old; before that the budget
   does not connect, and then it does.
   */
  lemma HourlyWaitExact(cfg: Config, r: Run, now: int, later: int) returns (oldest: int)
    requires Sensible(cfg) && Inv(cfg, r) && r.clock <= now <= later
    requires Decide(cfg, r.state, now).1.Wait? && Decide(cfg, r.state, now).1.why.HourlyLimit?
    ensures oldest in r.log && now - HOUR < oldest
    ensures forall i :: 0 <= i < |r.log| && now - HOUR < r.log[i] ==> oldest <= r.log[i]
    ensures Decide(cfg, r.state, now).1.ms == Max(MIN_WAIT, oldest + HOUR - now)
    ensures later < oldest + HOUR ==> !Decide(cfg, r.state, later).1.Connect?
    ensures later >= oldest + HOUR ==> Decide(cfg, r.state, later).1 == Connect(false)
  {
    assert r.state.memory.hold.None?;
    oldest := HourlyWaitFrom(cfg, r.state, r.log, r.clock, now, later);
  }

  lemma HourlyWaitFrom(cfg: Config, s: State, log: seq<int>, clock: int, now: int, later: int) returns (oldest: int)
    requires Sensible(cfg) && Sorted(log) && Spaced(log, cfg.perHour, HOUR) && clock <= now <= later
    requires s.memory.hold.None? && SameRecent(s.memory, log, clock) && forall i :: 0 <= i < |log| ==> log[i] <= clock
    requires Decide(cfg, s, now).1.Wait? && Decide(cfg, s, now).1.why.HourlyLimit?
    ensures oldest in log && now - HOUR < oldest
    ensures forall i :: 0 <= i < |log| && now - HOUR < log[i] ==> oldest <= log[i]
    ensures Decide(cfg, s, now).1.ms == Max(MIN_WAIT, oldest + HOUR - now)
    ensures later < oldest + HOUR ==> !Decide(cfg, s, later).1.Connect?
    ensures later >= oldest + HOUR ==> Decide(cfg, s, later).1 == Connect(false)
  {
    var k := DecideByLog(cfg, s, log, clock, now);
    oldest := log[k];
    HourlyLater(cfg, s, log, clock, now, k, later);
  }

  /** What is decided later, from where the full hour began. */
  lemma HourlyLater(cfg: Config, s: State, log: seq<int>, clock: int, now: int, k: nat, later: int)
    requires Sensible(cfg) && Sorted(log) && Spaced(log, cfg.perHour, HOUR) && clock <= now <= later
    requires s.memory.hold.None? && SameRecent(s.memory, log, clock) && forall i :: 0 <= i < |log| ==> log[i] <= now
    requires Begins(log, now - HOUR, k) && |log| - k >= cfg.perHour && |Newer(log, now - DAY)| < cfg.perDay
    ensures later < log[k] + HOUR ==> !Decide(cfg, s, later).1.Connect?
    ensures later >= log[k] + HOUR ==> Decide(cfg, s, later).1 == Connect(false)
  {
    var l := DecideByLog(cfg, s, log, clock, later);
    NewerFewer(log, now - DAY, later - DAY);
    HourlyCounts(cfg, log, k, now, l, later);
  }

  lemma NewerFewer(log: seq<int>, first: int, second: int)
    requires first <= second
    ensures |Newer(log, second)| <= |Newer(log, first)|
  {
  }

  /** As long as the oldest attempt of a full hour counts the hour stays full; when it drops out, it is not. */
  lemma HourlyCounts(cfg: Config, log: seq<int>, k: nat, now: int, l: nat, later: int)
    requires cfg.perHour >= 1 && Sorted(log) && Spaced(log, cfg.perHour, HOUR) && now <= later
    requires forall i :: 0 <= i < |log| ==> log[i] <= now
    requires Begins(log, now - HOUR, k) && Begins(log, later - HOUR, l) && |log| - k >= cfg.perHour
    ensures later < log[k] + HOUR ==> |log| - l >= cfg.perHour
    ensures later >= log[k] + HOUR ==> |log| - l < cfg.perHour
  {
    if |log| > cfg.perHour {
      var i := |log| - 1 - cfg.perHour;
      assert log[i] + HOUR <= log[|log| - 1];
      assert i < k;
    }
  }

  /** The same in every run from a fresh budget, restarts and holds included. */
  lemma HourlyWaitInRuns(cfg: Config, clock: int, ops: seq<Op>, now: int, later: int) returns (oldest: int)
    requires Sensible(cfg) && Performable(cfg, Start(clock), ops)
    requires PerformAll(cfg, Start(clock), ops).clock <= now <= later
    requires Decide(cfg, PerformAll(cfg, Start(clock), ops).state, now).1.Wait?
    requires Decide(cfg, PerformAll(cfg, Start(clock), ops).state, now).1.why.HourlyLimit?
    ensures now - HOUR < oldest && oldest in PerformAll(cfg, Start(clock), ops).log
    ensures var s := PerformAll(cfg, Start(clock), ops).state;
            && Decide(cfg, s, now).1.ms == Max(MIN_WAIT, oldest + HOUR - now)
            && (later < oldest + HOUR ==> !Decide(cfg, s, later).1.Connect?)
            && (later >= oldest + HOUR ==> Decide(cfg, s, later).1 == Connect(false))
  {
    StartIsOk(cfg, clock);
    RunKeepsInv(cfg, Start(clock), ops);
    oldest := HourlyWaitExact(cfg, PerformAll(cfg, Start(clock), ops), now, later);
  }

  // ---------------------------------------------------------------- restarts change nothing

  /** Budgets no later decision can tell apart. */
  predicate Similar(a: Budget, b: Budget, clock: int) {
    && a.hold == b.hold && a.replaced == b.replaced
    && Newer(a.attempts, clock - DAY) == Newer(b.attempts, clock - DAY)
  }

  /** What the file would restore is what memory holds, as far as it matters. */
  predicate Persisted(s: State, clock: int) { Similar(s.memory, s.file, clock) }

  /** What a caller sees of an operation. */
  datatype Seen = Nothing | Decided(decision: Decision) | Twice(replaced: bool)

  function Observe(cfg: Config, r: Run, op: Op): Seen
    requires cfg.perHour >= 1
  {
    match op
    case Cycle(d, _) => Decided(Decide(cfg, r.state, d).1)
    case Replaced(at) => Twice(RecordReplaced(r.state, at).1)
    case _ => Nothing
  }

  function ObserveAll(cfg: Config, r: Run, ops: seq<Op>): seq<Seen>
    requires cfg.perHour >= 1
    decreases |ops|
  {
    if ops == [] then [] else [Observe(cfg, r, ops[0])] + ObserveAll(cfg, Perform(cfg, r, ops[0]), ops[1..])
  }

  lemma SimilarLater(a: Budget, b: Budget, clock: int, later: int)
    requires Similar(a, b, clock) && clock <= later
    ensures Similar(a, b, later)
  {
    NewerTwice(a.attempts, clock - DAY, later - DAY);
    NewerTwice(b.attempts, clock - DAY, later - DAY);
  }

  lemma SimilarFiltered(a: Budget, now: int)
    ensures Similar(a.(attempts := Newer(a.attempts, now - DAY)), a, now)
  {
    NewerTwice(a.attempts, now - DAY, now - DAY);
  }

  lemma SimilarDecide(cfg: Config, s: State, t: State, clock: int, now: int)
    requires cfg.perHour >= 1 && clock <= now
    requires Similar(s.memory, t.memory, clock) && Persisted(s, clock) && Persisted(t, clock)
    ensures Decide(cfg, s, now).1 == Decide(cfg, t, now).1
    ensures Similar(Decide(cfg, s, now).0.memory, Decide(cfg, t, now).0.memory, now)
    ensures Persisted(Decide(cfg, s, now).0, now) && Persisted(Decide(cfg, t, now).0, now)
  {
    SimilarLater(s.memory, t.memory, clock, now);
    DecidePersists(cfg, s, clock, now);
    DecidePersists(cfg, t, clock, now);
  }

  lemma DecidePersists(cfg: Config, s: State, clock: int, now: int)
    requires cfg.perHour >= 1 && clock <= now && Persisted(s, clock)
    ensures Persisted(Decide(cfg, s, now).0, now)
  {
    SimilarLater(s.memory, s.file, clock, now);
    SimilarFiltered(s.memory, now);
  }

  lemma SimilarRecord(cfg: Config, s: State, t: State, now: int, at: int, probe: bool)
    requires Similar(s.memory, t.memory, now) && now <= at
    ensures Similar(RecordAttempt(cfg, s, at, probe).memory, RecordAttempt(cfg, t, at, probe).memory, at)
  {
    SimilarLater(s.memory, t.memory, now, at);
    NewerAppend(s.memory.attempts, at, at - DAY);
    NewerAppend(t.memory.attempts, at, at - DAY);
  }

  /** One operation on two similar runs: the same observation, and similar again. */
  lemma SimilarStep(cfg: Config, r: Run, q: Run, op: Op)
    requires cfg.perHour >= 1 && r.clock == q.clock && InTime(r, op)
    requires Similar(r.state.memory, q.state.memory, r.clock) && Persisted(r.state, r.clock) && Persisted(q.state, r.clock)
    ensures Observe(cfg, r, op) == Observe(cfg, q, op)
    ensures var a, b := Perform(cfg, r, op), Perform(cfg, q, op);
            && a.clock == b.clock && Similar(a.state.memory, b.state.memory, a.clock)
            && Persisted(a.state, a.clock) && Persisted(b.state, a.clock)
  {
    match op
    case Cycle(d, at) =>
      SimilarDecide(cfg, r.state, q.state, r.clock, d);
      var (s, decision) := Decide(cfg, r.state, d);
      if decision.Connect? {
        SimilarRecord(cfg, s, Decide(cfg, q.state, d).0, d, at, decision.probe);
      }
    case Replaced(at) => SimilarLater(r.state.memory, q.state.memory, r.clock, at);
    case Hold(at, _, _) => SimilarLater(r.state.memory, q.state.memory, r.clock, at);
    case Restart =>
    case ResetBudget =>
  }

  lemma {:induction false} SimilarRuns(cfg: Config, r: Run, q: Run, ops: seq<Op>)
    requires cfg.perHour >= 1 && r.clock == q.clock && Performable(cfg, r, ops)
    requires Similar(r.state.memory, q.state.memory, r.clock) && Persisted(r.state, r.clock) && Persisted(q.state, r.clock)
    ensures Performable(cfg, q, ops) && ObserveAll(cfg, r, ops) == ObserveAll(cfg, q, ops)
    decreases |ops|
  {
    if ops != [] {
      SimilarStep(cfg, r, q, ops[0]);
      SimilarRuns(cfg, Perform(cfg, r, ops[0]), Perform(cfg, q, ops[0]), ops[1..]);
    }
  }

  lemma {:induction false} RunPersisted(cfg: Config, r: Run, ops: seq<Op>)
    requires cfg.perHour >= 1 && Performable(cfg, r, ops) && Persisted(r.state, r.clock)
    ensures Persisted(PerformAll(cfg, r, ops).state, PerformAll(cfg, r, ops).clock)
    decreases |ops|
  {
    if ops != [] {
      SimilarStep(cfg, r, r, ops[0]);
      RunPersisted(cfg, Perform(cfg, r, ops[0]), ops[1..]);
    }
  }

  /**
   Restart transparency. Whatever was done before, a restart changes no later decision and no
   later answer, for any limits and any later operations.
   */
  lemma RestartTransparent(cfg: Config, clock: int, before: seq<Op>, later: seq<Op>)
    requires cfg.perHour >= 1 && Performable(cfg, Start(clock), before)
    requires Performable(cfg, PerformAll(cfg, Start(clock), before), later)
    ensures var r := PerformAll(cfg, Start(clock), before);
            ObserveAll(cfg, Perform(cfg, r, Restart), later) == ObserveAll(cfg, r, later)
  {
    var r := PerformAll(cfg, Start(clock), before);
    RunPersisted(cfg, Start(clock), before);
    SimilarRuns(cfg, r, Perform(cfg, r, Restart), later);
  }
}
