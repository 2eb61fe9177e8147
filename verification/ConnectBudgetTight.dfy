/** The exact most attempts of the reconnect budget in 24 hours, and when that is `perDay`. */
module ConnectBudgetTight {
  import opened Protocol
  import opened SlidingWindow
  import opened ConnectBudget

  lemma {:induction false} PerformAppend(cfg: Config, r: Run, ops: seq<Op>, op: Op)
    requires cfg.perHour >= 1
    ensures PerformAll(cfg, r, ops + [op]) == Perform(cfg, PerformAll(cfg, r, ops), op)
    ensures Performable(cfg, r, ops + [op]) <==>
            Performable(cfg, r, ops) && InTime(PerformAll(cfg, r, ops), op)
    decreases |ops|
  {
    if ops == [] {
      assert ops + [op] == [op] && [op][1..] == [];
    } else {
      assert (ops + [op])[0] == ops[0] && (ops + [op])[1..] == ops[1..] + [op];
      PerformAppend(cfg, Perform(cfg, r, ops[0]), ops[1..], op);
    }
  }

  lemma {:induction false} NewerKeepsAll(log: seq<int>, cutoff: int)
    requires forall i :: 0 <= i < |log| ==> cutoff < log[i]
    ensures Newer(log, cutoff) == log
  {
    if log != [] {
      NewerKeepsAll(log[..|log| - 1], cutoff);
      assert log == log[..|log| - 1] + [log[|log| - 1]];
    }
  }

  // ---------------------------------------------------------------- as fast as the hourly limit allows

  /** When the i-th of a row of attempts comes: `perHour` of them each hour on the hour. */
  function Stair(cfg: Config, c: int, i: nat): int
    requires cfg.perHour >= 1
  {
    c + i / cfg.perHour * HOUR
  }

  function Stairs(cfg: Config, c: int, n: nat): (r: seq<int>)
    requires cfg.perHour >= 1
    ensures |r| == n
  {
    if n == 0 then [] else Stairs(cfg, c, n - 1) + [Stair(cfg, c, n - 1)]
  }

  lemma {:induction false} StairsAt(cfg: Config, c: int, n: nat, i: nat)
    requires cfg.perHour >= 1 && i < n
    ensures Stairs(cfg, c, n)[i] == Stair(cfg, c, i)
  {
    if i < n - 1 { StairsAt(cfg, c, n - 1, i); }
  }

  lemma QuotientMonotone(i: nat, j: nat, n: nat)
    requires 1 <= n && i <= j
    ensures i / n <= j / n
  {
    var p, q := i / n, j / n;
    assert i == n * p + i % n && j == n * q + j % n;
    if q < p { MulMonotone(q + 1, p, n); }
  }

  lemma StairMonotone(cfg: Config, c: int, i: nat, j: nat)
    requires cfg.perHour >= 1 && i <= j
    ensures c <= Stair(cfg, c, i) <= Stair(cfg, c, j)
  {
    QuotientMonotone(i, j, cfg.perHour);
    MulMonotone(i / cfg.perHour, j / cfg.perHour, HOUR);
  }

  lemma StairsSorted(cfg: Config, c: int, n: nat)
    requires cfg.perHour >= 1
    ensures Sorted(Stairs(cfg, c, n))
  {
    forall i, j | 0 <= i < j < n ensures Stairs(cfg, c, n)[i] <= Stairs(cfg, c, n)[j] {
      StairsAt(cfg, c, n, i);
      StairsAt(cfg, c, n, j);
      StairMonotone(cfg, c, i, j);
    }
  }

  /** On its stair the next attempt meets fewer than `perHour` attempts of the last hour. */
  lemma StairHasRoom(cfg: Config, c: int, n: nat)
    requires cfg.perHour >= 1
    ensures |Newer(Stairs(cfg, c, n), Stair(cfg, c, n) - HOUR)| < cfg.perHour
  {
    StairsSorted(cfg, c, n);
    var log, cutoff := Stairs(cfg, c, n), Stair(cfg, c, n) - HOUR;
    var k := NewerIsTail(log, cutoff);
    if n - k >= cfg.perHour {
      StairsAt(cfg, c, n, k);
      StairBelow(cfg, c, k, n);
    }
  }

  lemma StairBelow(cfg: Config, c: int, k: nat, n: nat)
    requires cfg.perHour >= 1 && k + cfg.perHour <= n
    ensures Stair(cfg, c, k) + HOUR <= Stair(cfg, c, n)
  {
    var h := cfg.perHour;
    var p, q := k / h, n / h;
    QuotientLess(n, h);
    QuotientMonotone(k, n - h, h);
    MulMonotone(p, q - 1, HOUR);
    assert (q - 1) * HOUR == q * HOUR - HOUR;
  }

  /** The first n attempts are all within the day of the n-th. */
  predicate WithinDay(cfg: Config, c: int, n: nat)
    requires cfg.perHour >= 1
  {
    Stair(cfg, c, n) < c + DAY
  }

  lemma StairsInDay(cfg: Config, c: int, n: nat, at: int)
    requires cfg.perHour >= 1 && at < c + DAY
    ensures Newer(Stairs(cfg, c, n), at - DAY) == Stairs(cfg, c, n)
  {
    forall i | 0 <= i < n ensures at - DAY < Stairs(cfg, c, n)[i] {
      StairsAt(cfg, c, n, i);
      StairMonotone(cfg, c, i, i);
    }
    NewerKeepsAll(Stairs(cfg, c, n), at - DAY);
  }

  /** The budget after n attempts as fast as the hourly limit allows. */
  function Climbed(cfg: Config, c: int, n: nat): Run
    requires cfg.perHour >= 1
  {
    var log := Stairs(cfg, c, n);
    Run(Saved(Budget(log, [], None)), log, if n == 0 then c else Stair(cfg, c, n - 1))
  }

  function Climb(cfg: Config, c: int, n: nat): seq<Op>
    requires cfg.perHour >= 1
  {
    if n == 0 then [] else Climb(cfg, c, n - 1) + [Cycle(Stair(cfg, c, n - 1), Stair(cfg, c, n - 1))]
  }

  lemma ClimbStep(cfg: Config, c: int, n: nat)
    requires Sensible(cfg) && n < cfg.perDay && WithinDay(cfg, c, n)
    ensures var op := Cycle(Stair(cfg, c, n), Stair(cfg, c, n));
            InTime(Climbed(cfg, c, n), op) && Perform(cfg, Climbed(cfg, c, n), op) == Climbed(cfg, c, n + 1)
  {
    var at, log := Stair(cfg, c, n), Stairs(cfg, c, n);
    StairsInDay(cfg, c, n, at);
    StairHasRoom(cfg, c, n);
    StairMonotone(cfg, c, if n == 0 then 0 else n - 1, n);
    var s := Climbed(cfg, c, n).state;
    assert Decide(cfg, s, at) == (s, Connect(false));
  }

  lemma {:induction false} ClimbRun(cfg: Config, c: int, n: nat)
    requires Sensible(cfg) && n <= cfg.perDay && (n > 0 ==> WithinDay(cfg, c, n - 1))
    ensures Performable(cfg, Start(c), Climb(cfg, c, n))
    ensures PerformAll(cfg, Start(c), Climb(cfg, c, n)) == Climbed(cfg, c, n)
  {
    if n > 0 {
      StairMonotone(cfg, c, if n == 1 then 0 else n - 2, n - 1);
      ClimbRun(cfg, c, n - 1);
      ClimbStep(cfg, c, n - 1);
      PerformAppend(cfg, Start(c), Climb(cfg, c, n - 1), Cycle(Stair(cfg, c, n - 1), Stair(cfg, c, n - 1)));
    }
  }

  // ---------------------------------------------------------------- and then the probes

  function Probes(since: int, interval: int, k: nat): (r: seq<int>)
    ensures |r| == k
  {
    if k == 0 then [] else Probes(since, interval, k - 1) + [since + k * interval]
  }

  /** The budget after a day's attempts, exhaustion at once, and k probes one interval apart. */
  function Probed(cfg: Config, c: int, k: nat): Run
    requires Sensible(cfg)
  {
    var since := c + FillTime(cfg);
    var log := Stairs(cfg, c, cfg.perDay) + Probes(since, cfg.probeInterval, k);
    var last := since + k * cfg.probeInterval;
    Run(Saved(Budget(log, [], Some(BudgetExhausted(since, Some(last + cfg.probeInterval))))), log, last)
  }

  lemma ClimbEnds(cfg: Config, c: int)
    requires Sensible(cfg) && FillTime(cfg) < DAY
    ensures InTime(Climbed(cfg, c, cfg.perDay), ProbeAt(cfg, c, 0))
    ensures Perform(cfg, Climbed(cfg, c, cfg.perDay), ProbeAt(cfg, c, 0)) == Probed(cfg, c, 0)
  {
    var at, log := c + FillTime(cfg), Stairs(cfg, c, cfg.perDay);
    StairsInDay(cfg, c, cfg.perDay, at);
    ClimbedClock(cfg, c);
    ProbedNone(cfg, c);
    TurnsExhausted(cfg, Climbed(cfg, c, cfg.perDay), ProbeAt(cfg, c, 0), Probed(cfg, c, 0), log, at);
  }

  /** A budget whose day is full turns to the exhausted state when it next decides. */
  lemma TurnsExhausted(cfg: Config, r: Run, op: Op, t: Run, log: seq<int>, at: int)
    requires cfg.perHour >= 1 && |log| >= cfg.perDay && Newer(log, at - DAY) == log
    requires r == Run(Saved(Budget(log, [], None)), log, at) && op == Cycle(at, at)
    requires t == Run(Saved(Budget(log, [], Some(BudgetExhausted(at, Some(at + cfg.probeInterval))))), log, at)
    ensures InTime(r, op) && Perform(cfg, r, op) == t
  {
  }

  lemma ClimbedClock(cfg: Config, c: int)
    requires Sensible(cfg)
    ensures var at, log := c + FillTime(cfg), Stairs(cfg, c, cfg.perDay);
            && Climbed(cfg, c, cfg.perDay) == Run(Saved(Budget(log, [], None)), log, at)
            && ProbeAt(cfg, c, 0) == Cycle(at, at)
  {
    assert 0 * cfg.probeInterval == 0;
  }

  lemma ProbedNone(cfg: Config, c: int)
    requires Sensible(cfg)
    ensures var at, log := c + FillTime(cfg), Stairs(cfg, c, cfg.perDay);
            Probed(cfg, c, 0) ==
            Run(Saved(Budget(log, [], Some(BudgetExhausted(at, Some(at + cfg.probeInterval))))), log, at)
  {
    var at, log := c + FillTime(cfg), Stairs(cfg, c, cfg.perDay);
    assert log + Probes(at, cfg.probeInterval, 0) == log;
  }

  lemma ProbeStep(cfg: Config, c: int, k: nat)
    requires Sensible(cfg)
    ensures InTime(Probed(cfg, c, k), ProbeAt(cfg, c, k + 1))
    ensures Perform(cfg, Probed(cfg, c, k), ProbeAt(cfg, c, k + 1)) == Probed(cfg, c, k + 1)
  {
    var since := c + FillTime(cfg);
    var at := since + (k + 1) * cfg.probeInterval;
    assert at == since + k * cfg.probeInterval + cfg.probeInterval;
    var r := Probed(cfg, c, k);
    DecideProbe(cfg, r.state, at);
    ProbesNext(Stairs(cfg, c, cfg.perDay), since, cfg.probeInterval, k);
  }

  /** A probe that is due is let through. */
  lemma DecideProbe(cfg: Config, s: State, at: int)
    requires cfg.perHour >= 1 && s.memory.hold.Some? && s.memory.hold.value.BudgetExhausted?
    requires s.memory.hold.value.nextProbeAt == Some(at)
    ensures Decide(cfg, s, at) == (s, Connect(true))
  {
  }

  lemma ProbesNext(stairs: seq<int>, since: int, interval: int, k: nat)
    ensures stairs + Probes(since, interval, k) + [since + (k + 1) * interval] == stairs + Probes(since, interval, k + 1)
  {
  }

  /** The whole run: the climb, the turn to the exhausted state, and the probes as early as they may come. */
  function Busiest(cfg: Config, c: int, k: nat): seq<Op>
    requires Sensible(cfg)
  {
    if k == 0 then Climb(cfg, c, cfg.perDay) + [ProbeAt(cfg, c, 0)]
    else Busiest(cfg, c, k - 1) + [ProbeAt(cfg, c, k)]
  }

  function ProbeAt(cfg: Config, c: int, k: nat): Op
    requires Sensible(cfg)
  {
    var at := c + FillTime(cfg) + k * cfg.probeInterval;
    Cycle(at, at)
  }

  lemma {:induction false} BusiestRun(cfg: Config, c: int, k: nat)
    requires Sensible(cfg) && FillTime(cfg) < DAY
    ensures Performable(cfg, Start(c), Busiest(cfg, c, k))
    ensures PerformAll(cfg, Start(c), Busiest(cfg, c, k)) == Probed(cfg, c, k)
  {
    if k == 0 {
      ClimbRun(cfg, c, cfg.perDay);
      ClimbEnds(cfg, c);
      PerformAppend(cfg, Start(c), Climb(cfg, c, cfg.perDay), ProbeAt(cfg, c, 0));
    } else {
      BusiestRun(cfg, c, k - 1);
      ProbeStep(cfg, c, k - 1);
      PerformAppend(cfg, Start(c), Busiest(cfg, c, k - 1), ProbeAt(cfg, c, k));
    }
  }

  // ---------------------------------------------------------------- the exact maximum

  lemma {:induction false} CountAll(log: seq<int>, low: int, high: int)
    requires forall i :: 0 <= i < |log| ==> low < log[i] <= high
    ensures Count(log, low, high) == |log|
  {
    if log != [] { CountAll(log[..|log| - 1], low, high); }
  }

  lemma {:induction false} ProbesWithin(since: int, interval: int, k: nat, i: nat)
    requires interval > 0 && i < k
    ensures since < Probes(since, interval, k)[i] <= since + k * interval
  {
    MulMonotone(1, k, interval);
    if i < k - 1 {
      ProbesWithin(since, interval, k - 1, i);
      MulMonotone(k - 1, k, interval);
    }
  }

  /** The attempts recorded in the 24 hours up to `end`. */
  function InDay(cfg: Config, clock: int, ops: seq<Op>, end: int): nat
    requires cfg.perHour >= 1
  {
    Count(PerformAll(cfg, Start(clock), ops).log, end - DAY, end)
  }

  /** The run's log ends less than a day after it begins. */
  lemma BusiestWithin(cfg: Config, c: int, k: nat, i: nat)
    requires Sensible(cfg) && FillTime(cfg) + k * cfg.probeInterval < DAY && i < |Probed(cfg, c, k).log|
    ensures var end := Probed(cfg, c, k).clock; end - DAY < Probed(cfg, c, k).log[i] <= end
  {
    MulMonotone(0, k, cfg.probeInterval);
    StairMonotone(cfg, c, 0, cfg.perDay - 1);
    if i < cfg.perDay {
      StairsAt(cfg, c, cfg.perDay, i);
      StairMonotone(cfg, c, i, cfg.perDay - 1);
    } else {
      ProbesWithin(c + FillTime(cfg), cfg.probeInterval, k, i - cfg.perDay);
    }
  }

  /** A day's attempts fit into a day: the last of them and the probes after it come within 24 hours of the first. */
  lemma BusiestCount(cfg: Config, c: int) returns (ops: seq<Op>, end: int)
    requires Sensible(cfg) && FillTime(cfg) < DAY
    ensures Performable(cfg, Start(c), ops) && InDay(cfg, c, ops, end) == DailyBound(cfg)
  {
    var k := ProbesThatFit(cfg);
    ops := Busiest(cfg, c, k);
    BusiestRun(cfg, c, k);
    end := ProbedCount(cfg, c, k);
  }

  /** How many probes come less than a day after the first of a day's attempts. */
  lemma ProbesThatFit(cfg: Config) returns (k: nat)
    requires Sensible(cfg) && FillTime(cfg) < DAY
    ensures FillTime(cfg) + k * cfg.probeInterval < DAY && DailyBound(cfg) == cfg.perDay + k
  {
    CeilDivFacts(DAY - FillTime(cfg), cfg.probeInterval);
    k := CeilDiv(DAY - FillTime(cfg), cfg.probeInterval) - 1;
  }

  lemma ProbedCount(cfg: Config, c: int, k: nat) returns (end: int)
    requires Sensible(cfg) && FillTime(cfg) + k * cfg.probeInterval < DAY
    ensures Count(Probed(cfg, c, k).log, end - DAY, end) == cfg.perDay + k
  {
    var log := Probed(cfg, c, k).log;
    end := Probed(cfg, c, k).clock;
    forall i | 0 <= i < |log| ensures end - DAY < log[i] <= end {
      BusiestWithin(cfg, c, k, i);
    }
    CountAll(log, end - DAY, end);
  }

  /** A day's attempts do not fit into a day: 24 stairs do. */
  lemma StairsCount(cfg: Config, c: int) returns (ops: seq<Op>, end: int)
    requires Sensible(cfg) && FillTime(cfg) >= DAY
    ensures Performable(cfg, Start(c), ops) && InDay(cfg, c, ops, end) == 24 * cfg.perHour
  {
    var h := cfg.perHour;
    var n := 24 * h;
    QuotientIs(n - 1, h, 23);
    assert Stair(cfg, c, n - 1) == c + 23 * HOUR;
    assert n <= cfg.perDay by {
      if cfg.perDay < n {
        QuotientMonotone(cfg.perDay - 1, n - 1, h);
        MulMonotone((cfg.perDay - 1) / h, 23, HOUR);
      }
    }
    ops, end := Climb(cfg, c, n), c + 23 * HOUR;
    ClimbRun(cfg, c, n);
    forall i | 0 <= i < n ensures end - DAY < Stairs(cfg, c, n)[i] <= end {
      StairsAt(cfg, c, n, i);
      StairMonotone(cfg, c, i, n - 1);
    }
    CountAll(Stairs(cfg, c, n), end - DAY, end);
  }

  /** The most attempts in 24 hours. */
  function MostInDay(cfg: Config): int
    requires Sensible(cfg)
  {
    if FillTime(cfg) < DAY then DailyBound(cfg) else 24 * cfg.perHour
  }

  /** Twenty-four hours hold at most 24 times the hourly limit. */
  lemma HoursBoundDay(log: seq<int>, h: nat, end: int)
    requires h >= 1 && Sorted(log) && Spaced(log, h, HOUR)
    ensures Count(log, end - DAY, end) <= 24 * h
  {
    var n := 24 * h;
    forall i, j | 0 <= i < |log| && 0 <= j < |log| && j == i + n ensures log[i] + DAY <= log[j] {
      StairSpan(log, h, HOUR, i, j);
      QuotientIs(n, h, 24);
    }
    SpacedBoundsCount(log, n, DAY, end);
  }

  /** No run has more. */
  lemma NeverMore(cfg: Config, clock: int, ops: seq<Op>, end: int)
    requires Sensible(cfg) && Performable(cfg, Start(clock), ops)
    ensures InDay(cfg, clock, ops, end) <= MostInDay(cfg)
  {
    ReconnectBound(cfg, clock, ops, end);
    DailyBoundIsEnough(cfg);
    StartIsOk(cfg, clock);
    RunKeepsInv(cfg, Start(clock), ops);
    ShapedSpacing(cfg, PerformAll(cfg, Start(clock), ops).log, DailyBound(cfg));
    HoursBoundDay(PerformAll(cfg, Start(clock), ops).log, cfg.perHour, end);
  }

  /** And from every starting time some run has that many: the maximum is exact for every budget. */
  lemma MostIsReached(cfg: Config, clock: int) returns (ops: seq<Op>, end: int)
    requires Sensible(cfg)
    ensures Performable(cfg, Start(clock), ops) && InDay(cfg, clock, ops, end) == MostInDay(cfg)
  {
    if FillTime(cfg) < DAY {
      ops, end := BusiestCount(cfg, clock);
    } else {
      ops, end := StairsCount(cfg, clock);
    }
  }

  /** The daily limit as documented: no 24 hours see more than `perDay` attempts. */
  ghost predicate KeepsPerDay(cfg: Config)
    requires cfg.perHour >= 1
  {
    forall clock, ops, end :: Performable(cfg, Start(clock), ops) ==> InDay(cfg, clock, ops, end) <= cfg.perDay
  }

  /**
   It holds exactly for the budgets whose first probe cannot come within 24 hours of the first of
   a day's attempts.
   */
  lemma KeepsPerDayIff(cfg: Config)
    requires Sensible(cfg)
    ensures KeepsPerDay(cfg) <==> FillTime(cfg) + cfg.probeInterval >= DAY
  {
    CeilDivFacts(DAY - FillTime(cfg), cfg.probeInterval);
    var q := CeilDiv(DAY - FillTime(cfg), cfg.probeInterval);
    if FillTime(cfg) + cfg.probeInterval >= DAY {
      if q > 1 { MulMonotone(1, q - 1, cfg.probeInterval); }
      forall clock, ops, end | Performable(cfg, Start(clock), ops) ensures InDay(cfg, clock, ops, end) <= cfg.perDay {
        ReconnectBound(cfg, clock, ops, end);
      }
    } else {
      if q <= 1 { MulMonotone(q, 1, cfg.probeInterval); }
      var ops, end := MostIsReached(cfg, 0);
      assert InDay(cfg, 0, ops, end) > cfg.perDay;
    }
  }

  /** With the default limits, five an hour, fifteen a day and a probe every eight hours, a day can hold seventeen. */
  lemma DefaultBudget()
    ensures MostInDay(Config(5, 15, 8 * HOUR)) == 17 && !KeepsPerDay(Config(5, 15, 8 * HOUR))
  {
    KeepsPerDayIff(Config(5, 15, 8 * HOUR));
  }
}
