/** What the reconnect loop does about each way a connection can end, and within which budget. */
module ConnectLoopOutcomes {
  import opened Protocol
  import opened SlidingWindow
  import opened ConnectBudget
  import opened ConnectOutcomes
  import opened ConnectLoop

  // ---------------------------------------------------------------- one turn

  predicate Fatal(code: Option<int>) {
    code.Some? && code.value in {401, 403, 411, 500}
  }

  /** The classes of the close codes: four need a human, one needs a restart, all others pass. */
  lemma ClassifyIs(code: Option<int>)
    ensures Classify(code).1 ==
            if Fatal(code) then NeedsHumanClass else if code == Some(515) then NeedsRestart else Transient
    ensures Classify(code).0 == "unknown" <==> code.None? || code.value !in {401, 403, 408, 411, 428, 440, 500, 503, 515}
  {
  }

  lemma TwiceIff(s: State, at: int)
    ensures RecordReplaced(s, at).1 <==> Within(s.memory.replaced, at)
  {
    NewerNone(s.memory.replaced, at - REPLACED_WINDOW);
  }

  /** The code and state a human is needed for. */
  predicate Needy(s: State, turn: Turn) {
    Fatal(turn.code) || (turn.code == Some(440) && Within(s.memory.replaced, turn.closeAt))
  }

  /** A closed connection is held for a human exactly for the fatal codes and a second replacement. */
  lemma ClosedHoldsIff(s: State, turn: Turn, wasImmediate: bool)
    ensures var m := Closed(s, turn, wasImmediate);
            && (HeldForHuman in m.events <==> Needy(s, turn))
            && (Needy(s, turn) ==>
                  && m.events == [HeldForHuman] && !m.immediate
                  && m.state.file == m.state.memory && m.state.memory.hold.Some?
                  && m.state.memory.hold.value.NeedsHuman?
                  && m.state.memory.hold.value.since == turn.closeAt && m.state.memory.hold.value.code == turn.code)
  {
    ClassifyIs(turn.code);
    TwiceIff(s, turn.closeAt);
  }

  /** A required restart is met by connecting at once, unless that was just done; nothing else is. */
  lemma RestartsAtOnceIff(s: State, turn: Turn, wasImmediate: bool)
    ensures Closed(s, turn, wasImmediate).immediate <==> turn.code == Some(515) && !wasImmediate
    ensures Closed(s, turn, wasImmediate).immediate ==> Closed(s, turn, wasImmediate) == Moved(s, true, false, [])
  {
    ClassifyIs(turn.code);
  }

  /** Any other end leaves the budget as it is, but for noting a replacement and for a reset while waiting. */
  lemma PassingClose(s: State, turn: Turn, wasImmediate: bool)
    requires !Needy(s, turn) && (turn.code == Some(515) ==> wasImmediate)
    ensures var m := Closed(s, turn, wasImmediate);
            && !m.immediate && !m.stopped
            && (turn.resetWhileAsleep ==> m.state == Saved(FRESH) && m.events == [WasReset])
            && (!turn.resetWhileAsleep ==>
                  && m.events == [] && m.state.memory.hold == s.memory.hold
                  && m.state.memory.attempts == s.memory.attempts
                  && (turn.code != Some(440) ==> m.state == s)
                  && (turn.code == Some(440) ==> Within(m.state.memory.replaced, turn.closeAt)))
  {
    ClassifyIs(turn.code);
    TwiceIff(s, turn.closeAt);
    if turn.code == Some(440) && !turn.resetWhileAsleep {
      var after := RecordReplaced(s, turn.closeAt).0.memory.replaced;
      assert after[|after| - 1] == turn.closeAt;
    }
  }

  /** A turn tries to connect exactly when it must at once or the budget allows it, and then counts it. */
  lemma TurnTriesIff(cfg: Config, s: State, turn: Turn, immediate: bool)
    requires cfg.perHour >= 1
    ensures var events := Turned(cfg, s, turn, immediate).events; var allowed := Decide(cfg, s, turn.decideAt).1.Connect?;
            && (immediate ==> events != [] && events[0] == Try)
            && (!immediate && allowed ==> |events| >= 2 && events[0] == Counted(turn.recordAt) && events[1] == Try)
            && (!immediate && !allowed ==> events == if turn.resetWhileAsleep then [WasReset] else [])
  {
  }

  /** While held for a human, and until a reset, the loop does nothing at all, for ever. */
  lemma {:induction false} HeldLoopIsIdle(cfg: Config, s: State, turns: seq<Turn>)
    requires cfg.perHour >= 1 && NeedsHumanHeld(s.memory.hold)
    requires forall i :: 0 <= i < |turns| ==> !turns[i].resetWhileAsleep
    ensures Looped(cfg, s, false, turns) == Moved(s, false, false, [])
    decreases |turns|
  {
    if turns != [] {
      HeldLoopIsIdle(cfg, s, turns[1..]);
    }
  }

  /** And the first turn after a reset connects. */
  lemma ResetLoopConnects(cfg: Config, s: State, asleep: Turn, turn: Turn)
    requires cfg.perHour >= 1 && cfg.perDay >= 1 && NeedsHumanHeld(s.memory.hold) && asleep.resetWhileAsleep
    ensures var m := Looped(cfg, s, false, [asleep, turn]);
            |m.events| >= 3 && m.events[..3] == [WasReset, Counted(turn.recordAt), Try]
  {
    var m := Turned(cfg, s, asleep, false);
    assert m == Moved(Saved(FRESH), false, false, [WasReset]);
    assert [asleep, turn][1..] == [turn];
    ResetConnects(cfg, Run(s, [], 0), turn.decideAt);
    TurnTriesIff(cfg, m.state, turn, false);
    var last := Turned(cfg, m.state, turn, false);
    assert Looped(cfg, m.state, false, [turn]).events[..2] == [Counted(turn.recordAt), Try];
  }

  // ---------------------------------------------------------------- the loop within the budget

  function ResetOps(wanted: bool): seq<Op> { if wanted then [ResetBudget] else [] }

  /** What a turn does with the budget, as operations on it. */
  function CloseOps(s: State, turn: Turn, wasImmediate: bool): seq<Op> {
    var (reason, cls) := Classify(turn.code);
    (if turn.code == Some(440) then [Replaced(turn.closeAt)] else [])
    + (if turn.code == Some(440) && RecordReplaced(s, turn.closeAt).1
       then [Hold(turn.closeAt, Some(440), "connection_replaced_twice")]
       else if cls.NeedsHumanClass? then [Hold(turn.closeAt, turn.code, reason)]
       else if cls.NeedsRestart? && !wasImmediate then []
       else ResetOps(turn.resetWhileAsleep))
  }

  function ConnectOps(s: State, turn: Turn, wasImmediate: bool): seq<Op> {
    ResetOps(turn.resetWhileConnected)
    + if turn.stopped then [] else CloseOps(Interrupted(s, turn.resetWhileConnected).0, turn, wasImmediate)
  }

  function TurnOps(cfg: Config, s: State, turn: Turn, immediate: bool): seq<Op>
    requires cfg.perHour >= 1
  {
    if immediate then ConnectOps(s, turn, true)
    else
      var (decided, decision) := Decide(cfg, s, turn.decideAt);
      [Cycle(turn.decideAt, turn.recordAt)]
      + match decision
        case Connect(probe) => ConnectOps(RecordAttempt(cfg, decided, turn.recordAt, probe), turn, false)
        case _ => ResetOps(turn.resetWhileAsleep)
  }

  function LoopOps(cfg: Config, s: State, immediate: bool, turns: seq<Turn>): seq<Op>
    requires cfg.perHour >= 1
    decreases |turns|
  {
    if turns == [] then []
    else
      var m := Turned(cfg, s, turns[0], immediate);
      TurnOps(cfg, s, turns[0], immediate)
      + if m.stopped then [] else LoopOps(cfg, m.state, m.immediate, turns[1..])
  }

  /** The clock does not go back within a turn or from turn to turn. */
  predicate InOrder(clock: int, turns: seq<Turn>)
    decreases |turns|
  {
    turns == [] ||
    (clock <= turns[0].decideAt <= turns[0].recordAt <= turns[0].closeAt && InOrder(turns[0].closeAt, turns[1..]))
  }

  function LogNext(log: seq<int>, e: LoopEvent): seq<int> {
    match e
    case Counted(at) => log + [at]
    case WasReset => []
    case _ => log
  }

  /** When attempts were counted since the last reset, after those already logged. */
  function Logged(log: seq<int>, events: seq<LoopEvent>): seq<int>
    decreases |events|
  {
    if events == [] then log else Logged(LogNext(log, events[0]), events[1..])
  }

  lemma {:induction false} LoggedConcat(log: seq<int>, a: seq<LoopEvent>, b: seq<LoopEvent>)
    ensures Logged(log, a + b) == Logged(Logged(log, a), b)
    decreases |a|
  {
    if a == [] {
      assert a + b == b;
    } else {
      assert (a + b)[0] == a[0] && (a + b)[1..] == a[1..] + b;
      LoggedConcat(LogNext(log, a[0]), a[1..], b);
    }
  }

  lemma {:induction false} PerformConcat(cfg: Config, r: Run, a: seq<Op>, b: seq<Op>)
    requires cfg.perHour >= 1
    ensures PerformAll(cfg, r, a + b) == PerformAll(cfg, PerformAll(cfg, r, a), b)
    ensures Performable(cfg, r, a + b) <==> Performable(cfg, r, a) && Performable(cfg, PerformAll(cfg, r, a), b)
    decreases |a|
  {
    if a == [] {
      assert a + b == b;
    } else {
      assert (a + b)[0] == a[0] && (a + b)[1..] == a[1..] + b;
      PerformConcat(cfg, Perform(cfg, r, a[0]), a[1..], b);
    }
  }

  /** The operations lead to the state and the log that the events tell, by the given time. */
  ghost predicate Follows(cfg: Config, r: Run, ops: seq<Op>, m: Moved, until: int)
    requires cfg.perHour >= 1
  {
    var end := PerformAll(cfg, r, ops);
    Performable(cfg, r, ops) && end.state == m.state && end.log == Logged(r.log, m.events) && end.clock <= until
  }

  lemma FollowsBoth(cfg: Config, r: Run, a: seq<Op>, first: Moved, b: seq<Op>, second: Moved, middle: int, until: int)
    requires cfg.perHour >= 1 && Follows(cfg, r, a, first, middle)
    requires Follows(cfg, PerformAll(cfg, r, a), b, second, until)
    ensures Follows(cfg, r, a + b, Before(first.events, second), until)
  {
    PerformConcat(cfg, r, a, b);
    LoggedConcat(r.log, first.events, second.events);
  }

  lemma FollowsOne(cfg: Config, r: Run, op: Op, m: Moved)
    requires cfg.perHour >= 1 && InTime(r, op) && m.state == Perform(cfg, r, op).state
    requires Logged(r.log, m.events) == Perform(cfg, r, op).log
    ensures Follows(cfg, r, [op], m, Perform(cfg, r, op).clock)
  {
    assert [op][1..] == [];
  }

  lemma FollowsReset(cfg: Config, r: Run, wanted: bool, until: int)
    requires cfg.perHour >= 1 && r.clock <= until
    ensures var (s, events) := Interrupted(r.state, wanted);
            Follows(cfg, r, ResetOps(wanted), Moved(s, false, false, events), until)
  {
    if wanted {
      FollowsOne(cfg, r, ResetBudget, Moved(Reset(r.state), false, false, [WasReset]));
    }
  }

  lemma FollowsReplaced(cfg: Config, r: Run, at: int)
    requires cfg.perHour >= 1 && r.clock <= at
    ensures Follows(cfg, r, [Replaced(at)], Moved(RecordReplaced(r.state, at).0, false, false, []), at)
    ensures PerformAll(cfg, r, [Replaced(at)]) == Run(RecordReplaced(r.state, at).0, r.log, at)
  {
    FollowsOne(cfg, r, Replaced(at), Moved(RecordReplaced(r.state, at).0, false, false, []));
  }

  lemma FollowsHold(cfg: Config, r: Run, at: int, code: Option<int>, reason: string)
    requires cfg.perHour >= 1 && r.clock <= at
    ensures Follows(cfg, r, [Hold(at, code, reason)],
                    Moved(HoldNeedsHuman(r.state, at, code, reason), false, false, [HeldForHuman]), at)
  {
    FollowsOne(cfg, r, Hold(at, code, reason), Moved(HoldNeedsHuman(r.state, at, code, reason), false, false, [HeldForHuman]));
  }

  /** The close code decides what comes after the replacement is noted. */
  lemma FollowsClose(cfg: Config, r: Run, turn: Turn, wasImmediate: bool)
    requires cfg.perHour >= 1 && r.clock <= turn.closeAt
    ensures Follows(cfg, r, CloseOps(r.state, turn, wasImmediate), Closed(r.state, turn, wasImmediate), turn.closeAt)
  {
    if turn.code == Some(440) {
      FollowsReplacedClose(cfg, r, turn, wasImmediate);
    } else {
      var (reason, cls) := Classify(turn.code);
      FollowsHold(cfg, r, turn.closeAt, turn.code, reason);
      FollowsReset(cfg, r, turn.resetWhileAsleep, turn.closeAt);
      assert forall ops: seq<Op> :: [] + ops == ops;
    }
  }

  lemma FollowsReplacedClose(cfg: Config, r: Run, turn: Turn, wasImmediate: bool)
    requires cfg.perHour >= 1 && r.clock <= turn.closeAt && turn.code == Some(440)
    ensures Follows(cfg, r, CloseOps(r.state, turn, wasImmediate), Closed(r.state, turn, wasImmediate), turn.closeAt)
  {
    var at := turn.closeAt;
    var (noted, twice) := RecordReplaced(r.state, at);
    var first, next := Moved(noted, false, false, []), Run(noted, r.log, at);
    FollowsReplaced(cfg, r, at);
    if twice {
      var held := Moved(HoldNeedsHuman(noted, at, Some(440), "connection_replaced_twice"), false, false, [HeldForHuman]);
      FollowsHold(cfg, next, at, Some(440), "connection_replaced_twice");
      FollowsBoth(cfg, r, [Replaced(at)], first, [Hold(at, Some(440), "connection_replaced_twice")], held, at, at);
      assert Before([], held) == held;
    } else {
      var (rested, events) := Interrupted(noted, turn.resetWhileAsleep);
      var slept := Moved(rested, false, false, events);
      FollowsReset(cfg, next, turn.resetWhileAsleep, at);
      FollowsBoth(cfg, r, [Replaced(at)], first, ResetOps(turn.resetWhileAsleep), slept, at, at);
      assert Before([], slept) == slept;
    }
  }

  lemma FollowsConnect(cfg: Config, r: Run, turn: Turn, wasImmediate: bool)
    requires cfg.perHour >= 1 && r.clock <= turn.closeAt
    ensures Follows(cfg, r, ConnectOps(r.state, turn, wasImmediate), Connected(r.state, turn, wasImmediate), turn.closeAt)
  {
    var (open, events) := Interrupted(r.state, turn.resetWhileConnected);
    var first, ops := Moved(open, false, false, events), ResetOps(turn.resetWhileConnected);
    FollowsReset(cfg, r, turn.resetWhileConnected, turn.closeAt);
    var next := PerformAll(cfg, r, ops);
    var rest := if turn.stopped then [] else CloseOps(open, turn, wasImmediate);
    var end := if turn.stopped then Moved(open, false, true, []) else Closed(open, turn, wasImmediate);
    if !turn.stopped {
      FollowsClose(cfg, next, turn, wasImmediate);
    }
    FollowsBoth(cfg, r, ops, first, rest, end, turn.closeAt, turn.closeAt);
    TryIsNotLogged(r.log, events + end.events);
  }

  lemma TryIsNotLogged(log: seq<int>, events: seq<LoopEvent>)
    ensures Logged(log, [Try] + events) == Logged(log, events)
  {
    assert ([Try] + events)[1..] == events;
  }

  lemma FollowsTurn(cfg: Config, r: Run, turn: Turn, immediate: bool)
    requires cfg.perHour >= 1 && r.clock <= turn.decideAt <= turn.recordAt <= turn.closeAt
    ensures Follows(cfg, r, TurnOps(cfg, r.state, turn, immediate), Turned(cfg, r.state, turn, immediate), turn.closeAt)
  {
    if immediate {
      FollowsConnect(cfg, r, turn, true);
    } else {
      var (decided, decision) := Decide(cfg, r.state, turn.decideAt);
      var op := Cycle(turn.decideAt, turn.recordAt);
      var next := Perform(cfg, r, op);
      assert PerformAll(cfg, r, [op]) == next;
      if decision.Connect? {
        var first := Moved(next.state, false, false, [Counted(turn.recordAt)]);
        FollowsOne(cfg, r, op, first);
        FollowsConnect(cfg, next, turn, false);
        FollowsBoth(cfg, r, [op], first, ConnectOps(next.state, turn, false), Connected(next.state, turn, false),
                    turn.recordAt, turn.closeAt);
      } else {
        var first := Moved(next.state, false, false, []);
        var (rested, events) := Interrupted(next.state, turn.resetWhileAsleep);
        var slept := Moved(rested, false, false, events);
        FollowsOne(cfg, r, op, first);
        FollowsReset(cfg, next, turn.resetWhileAsleep, turn.closeAt);
        FollowsBoth(cfg, r, [op], first, ResetOps(turn.resetWhileAsleep), slept, turn.decideAt, turn.closeAt);
        assert Before([], slept) == slept;
      }
    }
  }

  lemma {:induction false} FollowsLoop(cfg: Config, r: Run, immediate: bool, turns: seq<Turn>) returns (until: int)
    requires cfg.perHour >= 1 && InOrder(r.clock, turns)
    ensures Follows(cfg, r, LoopOps(cfg, r.state, immediate, turns), Looped(cfg, r.state, immediate, turns), until)
    decreases |turns|
  {
    until := r.clock;
    if turns != [] {
      var m, ops := Turned(cfg, r.state, turns[0], immediate), TurnOps(cfg, r.state, turns[0], immediate);
      until := turns[0].closeAt;
      FollowsTurn(cfg, r, turns[0], immediate);
      if m.stopped {
        assert ops + [] == ops;
      } else {
        var next := PerformAll(cfg, r, ops);
        InOrderEarlier(next.clock, turns[0].closeAt, turns[1..]);
        var end := FollowsLoop(cfg, next, m.immediate, turns[1..]);
        FollowsBoth(cfg, r, ops, m, LoopOps(cfg, m.state, m.immediate, turns[1..]),
                    Looped(cfg, m.state, m.immediate, turns[1..]), until, end);
        until := end;
      }
    }
  }

  lemma InOrderEarlier(clock: int, later: int, turns: seq<Turn>)
    requires clock <= later && InOrder(later, turns)
    ensures InOrder(clock, turns)
  {
  }

  /**
   The loop keeps the budget. Whatever earlier processes did with the budget, and however the
   connections of this one end, the attempts logged before and those counted in the loop's trace,
   since the last reset, number at most `perHour` in any hour and at most the daily bound in
   any 24 hours.
   */
  lemma {:induction false} LoopKeepsBudget(cfg: Config, clock: int, before: seq<Op>, turns: seq<Turn>, end: int)
    requires Sensible(cfg) && Performable(cfg, Start(clock), before)
    requires InOrder(PerformAll(cfg, Start(clock), before).clock, turns)
    ensures var r := PerformAll(cfg, Start(clock), before);
            var log := Logged(r.log, Looped(cfg, r.state, false, turns).events);
            Count(log, end - HOUR, end) <= cfg.perHour && Count(log, end - DAY, end) <= DailyBound(cfg)
  {
    var r := PerformAll(cfg, Start(clock), before);
    var until := FollowsLoop(cfg, r, false, turns);
    var ops := LoopOps(cfg, r.state, false, turns);
    PerformConcat(cfg, Start(clock), before, ops);
    ReconnectBound(cfg, clock, before + ops, end);
  }
}
