/**
 Provider-event dedupe: a bounded cache of marks with a time to live, and handlers of one key
 chained one behind the other.
 */
module Dedupe {
  import opened Protocol
  import opened Sets

  const TTL := 20 * 60000
  const MAX := 5000
  const CLEANUP_INTERVAL := 30000

  // ---------------------------------------------------------------- the mark cache

  /** `recentInbound`: keys with the time their mark expires. */
  type Marks = map<string, int>

  datatype Cache = Cache(marks: Marks, nextCleanupAt: int)

  /** The marks that expire no earlier than the mark of `k`, other than itself. */
  function NoEarlier(m: Marks, k: string): set<string>
    requires k in m
  {
    set l | l in m && l != k && m[k] <= m[l]
  }

  /** How `cleanupRecentInbound` may change the cache; which of several equally old marks goes is not fixed. */
  ghost predicate Cleaned(c: Cache, d: Cache, now: int) {
    if now < c.nextCleanupAt && |c.marks| <= MAX then d == c
    else
      && d.nextCleanupAt == now + CLEANUP_INTERVAL
      && |d.marks| <= MAX
      && (forall k :: k in d.marks ==> k in c.marks && d.marks[k] == c.marks[k] && c.marks[k] > now)
      && (forall k :: k in c.marks && k !in d.marks && c.marks[k] > now ==> |NoEarlier(c.marks, k)| >= MAX)
  }

  /** Half way through the overflow loop: what is gone expires no later than what is left. */
  ghost predicate Trimming(all: Marks, m: Marks) {
    && (forall k :: k in m ==> k in all && m[k] == all[k])
    && (forall k, l :: k in all && k !in m && l in m ==> all[k] <= all[l])
    && (forall k :: k in all && k !in m ==> |NoEarlier(all, k)| >= MAX)
  }

  lemma TrimStep(all: Marks, m: Marks, oldest: string)
    requires Trimming(all, m) && |m| > MAX
    requires oldest in m && forall l :: l in m ==> m[oldest] <= m[l]
    ensures Trimming(all, m - {oldest})
  {
    assert m.Keys - {oldest} <= NoEarlier(all, oldest);
    SubsetSize(m.Keys - {oldest}, NoEarlier(all, oldest));
  }

  lemma NoEarlierGrows(small: Marks, big: Marks, k: string)
    requires k in small && forall l :: l in small ==> l in big && big[l] == small[l]
    ensures |NoEarlier(small, k)| <= |NoEarlier(big, k)|
  {
    SubsetSize(NoEarlier(small, k), NoEarlier(big, k));
  }

  class MarkCache {
    var recentInbound: Marks
    var nextInboundCleanupAt: int

    ghost function Value(): Cache
      reads this
    {
      Cache(recentInbound, nextInboundCleanupAt)
    }

    constructor ()
      ensures Value() == Cache(map[], 0)
    {
      recentInbound, nextInboundCleanupAt := map[], 0;
    }

    method Oldest() returns (key: string)
      requires recentInbound != map[]
      ensures key in recentInbound && forall l :: l in recentInbound ==> recentInbound[key] <= recentInbound[l]
    {
      key :| key in recentInbound;
      var rest := recentInbound.Keys - {key};
      while rest != {}
        invariant rest <= recentInbound.Keys && key in recentInbound
        invariant forall l :: l in recentInbound && l !in rest ==> recentInbound[key] <= recentInbound[l]
        decreases |rest|
      {
        var l :| l in rest;
        if recentInbound[l] < recentInbound[key] {
          key := l;
        }
        rest := rest - {l};
      }
    }

    method CleanupRecentInbound(now: int)
      modifies this
      ensures Cleaned(old(Value()), Value(), now)
    {
      if now < nextInboundCleanupAt && |recentInbound| <= MAX {
        return;
      }
      nextInboundCleanupAt := now + CLEANUP_INTERVAL;
      ghost var start := recentInbound;
      recentInbound := map k | k in recentInbound && recentInbound[k] > now :: recentInbound[k];
      ghost var all := recentInbound;
      while |recentInbound| > MAX
        invariant Trimming(all, recentInbound) && nextInboundCleanupAt == now + CLEANUP_INTERVAL
        decreases |recentInbound|
      {
        var oldest := Oldest();
        TrimStep(all, recentInbound, oldest);
        recentInbound := recentInbound - {oldest};
      }
      forall k | k in start && k !in recentInbound && start[k] > now ensures |NoEarlier(start, k)| >= MAX {
        NoEarlierGrows(all, start, k);
      }
    }

    method HasSeenInbound(key: string, cleanAt: int, now: int) returns (seen: bool)
      modifies this
      ensures Cleaned(old(Value()), Value(), cleanAt)
      ensures seen == (key in recentInbound && recentInbound[key] > now)
    {
      CleanupRecentInbound(cleanAt);
      seen := key in recentInbound && recentInbound[key] > now;
    }

    /** The cache may exceed its maximum by the one mark just set. */
    method MarkSeenInbound(key: string, cleanAt: int, now: int)
      modifies this
      ensures exists d :: Cleaned(old(Value()), d, cleanAt) && Value() == d.(marks := d.marks[key := now + TTL])
      ensures |recentInbound| <= MAX + 1
    {
      CleanupRecentInbound(cleanAt);
      ghost var d := Value();
      recentInbound := recentInbound[key := now + TTL];
      assert Value() == d.(marks := d.marks[key := now + TTL]);
      assert recentInbound.Keys == d.marks.Keys + {key};
    }
  }

  // ---------------------------------------------------------------- chained handlers

  /** A handler waits for the one admitted before it under the same key, runs, and is done. */
  datatype Phase = Waiting | Running | Done

  datatype Task = Task(key: string, previous: Option<nat>, phase: Phase)

  /** A successful handler: its key, when it began, and when its mark was set. */
  datatype Success = Success(key: string, beganAt: int, markedAt: int)

  /**
   `tasks` in the order of admission, `chains` is `providerDedupe`. History: the successes, and
   when each running task began.
   */
  datatype State = State(
    tasks: seq<Task>, chains: map<string, nat>, cache: Cache, accepting: bool, clock: int,
    successes: seq<Success>, began: map<nat, int>)

  datatype Step =
    | Admit(key: string)
    | Begin(task: nat, at: int, cache: Cache)
    | Succeed(task: nat, at: int, cache: Cache)
    | Fail(task: nat)
    | Clear(task: nat)
    | StopIntake

  predicate Ready(s: State, t: nat)
    requires t < |s.tasks|
  {
    var p := s.tasks[t].previous;
    p.None? || (p.value < |s.tasks| && s.tasks[p.value].phase.Done?)
  }

  ghost predicate Enabled(s: State, step: Step) {
    match step
    case Admit(_) => s.accepting
    case Begin(t, at, d) =>
      && t < |s.tasks| && s.tasks[t].phase.Waiting? && Ready(s, t)
      && s.clock <= at && Cleaned(s.cache, d, at)
    case Succeed(t, at, d) =>
      t < |s.tasks| && s.tasks[t].phase.Running? && s.clock <= at && Cleaned(s.cache, d, at)
    case Fail(t) => t < |s.tasks| && s.tasks[t].phase.Running?
    case Clear(t) => t < |s.tasks| && s.tasks[t].phase.Done?
    case StopIntake => true
  }

  function SetPhase(s: State, t: nat, phase: Phase): State
    requires t < |s.tasks|
  {
    s.(tasks := s.tasks[t := s.tasks[t].(phase := phase)])
  }

  function Previous(s: State, key: string): Option<nat> { if key in s.chains then Some(s.chains[key]) else None }

  function Cleanup(s: State, d: Cache, at: int): State { s.(cache := d, clock := at) }

  function RunHandler(s: State, t: nat): State
    requires t < |s.tasks|
  {
    SetPhase(s.(began := s.began[t := s.clock]), t, Running)
  }

  function SuccessOf(s: State, t: nat, at: int): Success
    requires t < |s.tasks|
  {
    Success(s.tasks[t].key, if t in s.began then s.began[t] else at, at)
  }

  function WithMark(d: Cache, e: Success): Cache { d.(marks := d.marks[e.key := e.markedAt + TTL]) }

  ghost function After(s: State, step: Step): State
    requires Enabled(s, step)
  {
    match step
    case Admit(key) =>
      s.(tasks := s.tasks + [Task(key, Previous(s, key), Waiting)], chains := s.chains[key := |s.tasks|])
    case Begin(t, at, d) =>
      var key := s.tasks[t].key;
      if s.tasks[t].previous.Some? && !s.accepting then SetPhase(s, t, Done)
      else if key in d.marks && d.marks[key] > at then SetPhase(Cleanup(s, d, at), t, Done)
      else RunHandler(Cleanup(s, d, at), t)
    case Succeed(t, at, d) =>
      var e := SuccessOf(s, t, at);
      SetPhase(s.(cache := WithMark(d, e), clock := at, successes := s.successes + [e]), t, Done)
    case Fail(t) => SetPhase(s.(cache := s.cache.(marks := s.cache.marks - {s.tasks[t].key})), t, Done)
    case Clear(t) =>
      if s.tasks[t].key in s.chains && s.chains[s.tasks[t].key] == t then s.(chains := s.chains - {s.tasks[t].key}) else s
    case StopIntake => s.(accepting := false)
  }

  ghost predicate Reaches(s: State, steps: seq<Step>, t: State)
    decreases |steps|
  {
    if steps == [] then s == t
    else Enabled(s, steps[0]) && Reaches(After(s, steps[0]), steps[1..], t)
  }

  const START := State([], map[], Cache(map[], 0), true, 0, [], map[])

  // ---------------------------------------------------------------- handlers of one key never overlap

  predicate Chained(s: State, u: nat)
    requires u < |s.tasks|
  {
    var key, p := s.tasks[u].key, s.tasks[u].previous;
    && (p.Some? ==> p.value < u && s.tasks[p.value].key == key)
    && (forall t :: 0 <= t < u && s.tasks[t].key == key ==> s.tasks[t].phase.Done? || (p.Some? && t <= p.value))
    && (!s.tasks[u].phase.Waiting? ==> forall t :: 0 <= t < u && s.tasks[t].key == key ==> s.tasks[t].phase.Done?)
  }

  ghost predicate ChainsOk(s: State) {
    && (forall u :: 0 <= u < |s.tasks| ==> Chained(s, u))
    && (forall key :: key in s.chains ==>
          && s.chains[key] < |s.tasks| && s.tasks[s.chains[key]].key == key
          && forall t :: s.chains[key] < t < |s.tasks| ==> s.tasks[t].key != key)
    && (forall t :: 0 <= t < |s.tasks| && s.tasks[t].key !in s.chains ==> s.tasks[t].phase.Done?)
  }

  lemma AdmitKeepsChains(s: State, key: string)
    requires ChainsOk(s) && s.accepting
    ensures ChainsOk(After(s, Admit(key)))
  {
    var s' := After(s, Admit(key));
    forall u | 0 <= u < |s'.tasks| ensures Chained(s', u) {
      if u < |s.tasks| {
        assert Chained(s, u) && s'.tasks[u] == s.tasks[u];
        if s.tasks[u].previous.Some? {
          assert s'.tasks[s.tasks[u].previous.value] == s.tasks[s.tasks[u].previous.value];
        }
      }
    }
  }

  /** A task that may begin has everything admitted before it under its key behind it. */
  lemma ReadyMeansFirst(s: State, u: nat)
    requires ChainsOk(s) && u < |s.tasks| && Ready(s, u)
    ensures forall t :: 0 <= t < u && s.tasks[t].key == s.tasks[u].key ==> s.tasks[t].phase.Done?
  {
    assert Chained(s, u);
    if s.tasks[u].previous.Some? {
      assert Chained(s, s.tasks[u].previous.value);
    }
  }

  lemma PhaseKeepsChains(s: State, t: nat, phase: Phase)
    requires ChainsOk(s) && t < |s.tasks| && !phase.Waiting?
    requires !s.tasks[t].phase.Done?
    requires forall x :: 0 <= x < t && s.tasks[x].key == s.tasks[t].key ==> s.tasks[x].phase.Done?
    ensures ChainsOk(SetPhase(s, t, phase))
  {
    var s' := SetPhase(s, t, phase);
    forall u | 0 <= u < |s'.tasks| ensures Chained(s', u) {
      assert Chained(s, u);
      assert u > t && s.tasks[u].key == s.tasks[t].key ==> s.tasks[u].phase.Waiting?;
    }
  }

  lemma ClearKeepsChains(s: State, t: nat)
    requires ChainsOk(s) && t < |s.tasks| && s.tasks[t].phase.Done?
    ensures ChainsOk(After(s, Clear(t)))
  {
    var s' := After(s, Clear(t));
    assert Chained(s, t);
    forall u | 0 <= u < |s'.tasks| ensures Chained(s', u) { assert Chained(s, u); }
  }

  lemma StepKeepsChains(s: State, step: Step)
    requires ChainsOk(s) && Enabled(s, step)
    ensures ChainsOk(After(s, step))
  {
    match step {
      case Admit(key) => AdmitKeepsChains(s, key);
      case Begin(t, at, d) => BeginKeepsChains(s, t, at, d);
      case Succeed(t, _, _) => EndKeepsChains(s, t, After(s, step));
      case Fail(t) => EndKeepsChains(s, t, After(s, step));
      case Clear(t) => ClearKeepsChains(s, t);
      case StopIntake => ChainsSame(s, After(s, step));
    }
  }

  lemma BeginKeepsChains(s: State, t: nat, at: int, d: Cache)
    requires ChainsOk(s) && Enabled(s, Begin(t, at, d))
    ensures ChainsOk(After(s, Begin(t, at, d)))
  {
    ReadyMeansFirst(s, t);
    var s' := After(s, Begin(t, at, d));
    MoveKeepsChains(s, t, s'.tasks[t].phase, s');
  }

  /** A task moves on, with everything before it under its key behind it. */
  lemma MoveKeepsChains(s: State, t: nat, phase: Phase, s': State)
    requires ChainsOk(s) && t < |s.tasks| && !phase.Waiting? && !s.tasks[t].phase.Done?
    requires forall x :: 0 <= x < t && s.tasks[x].key == s.tasks[t].key ==> s.tasks[x].phase.Done?
    requires s'.tasks == SetPhase(s, t, phase).tasks && s'.chains == s.chains
    ensures ChainsOk(s')
  {
    PhaseKeepsChains(s, t, phase);
    ChainsSame(SetPhase(s, t, phase), s');
  }

  /** A running task ends, one way or the other. */
  lemma EndKeepsChains(s: State, t: nat, s': State)
    requires ChainsOk(s) && t < |s.tasks| && s.tasks[t].phase.Running?
    requires s'.tasks == SetPhase(s, t, Done).tasks && s'.chains == s.chains
    ensures ChainsOk(s')
  {
    assert Chained(s, t);
    MoveKeepsChains(s, t, Done, s');
  }

  lemma ChainsSame(s: State, t: State)
    requires ChainsOk(s) && t.tasks == s.tasks && t.chains == s.chains
    ensures ChainsOk(t)
  {
    forall u | 0 <= u < |t.tasks| ensures Chained(t, u) { assert Chained(s, u); }
  }

  // ---------------------------------------------------------------- at most one success per mark

  /** The other keys that succeeded at or after a time. */
  function Others(h: seq<Success>, key: string, at: int): set<string> {
    set j | 0 <= j < |h| && h[j].key != key && h[j].markedAt >= at :: h[j].key
  }

  /** So many other keys succeeded since that the mark may have been pushed out. */
  predicate Crowded(h: seq<Success>, x: Success) { |Others(h, x.key, x.markedAt)| >= MAX }

  /** A second run of a key began after the mark expired, or after it was pushed out. */
  predicate Justified(h: seq<Success>, x: Success, beganAt: int) { x.markedAt + TTL <= beganAt || Crowded(h, x) }

  predicate Marked(h: seq<Success>, k: string, expires: int) {
    exists j :: 0 <= j < |h| && h[j].key == k && h[j].markedAt + TTL == expires
  }

  /** The mark of a success is there, or has expired, or was pushed out. */
  predicate Accounted(m: Marks, clock: int, h: seq<Success>, x: Success) {
    || (x.key in m && x.markedAt + TTL <= m[x.key])
    || x.markedAt + TTL <= clock
    || Crowded(h, x)
  }

  ghost predicate CacheOk(m: Marks, clock: int, h: seq<Success>) {
    && |m| <= MAX + 1
    && (forall k :: k in m ==> Marked(h, k, m[k]))
    && (forall j :: 0 <= j < |h| ==> Accounted(m, clock, h, h[j]) && h[j].markedAt <= clock)
  }

  /** A running handler of a key: its mark is not in force, and it began with reason. */
  predicate RunnerOk(m: Marks, clock: int, h: seq<Success>, key: string, began: int) {
    && began <= clock
    && (key in m ==> m[key] <= clock)
    && (forall j :: 0 <= j < |h| && h[j].key == key ==> Justified(h, h[j], began))
  }

  ghost predicate RunnersOk(s: State) {
    forall t :: 0 <= t < |s.tasks| && s.tasks[t].phase.Running? ==>
      t in s.began && RunnerOk(s.cache.marks, s.clock, s.successes, s.tasks[t].key, s.began[t])
  }

  /** Successes of one key are spread out. */
  predicate Spread(h: seq<Success>) {
    forall i, j :: 0 <= i < j < |h| && h[i].key == h[j].key ==> Justified(h, h[i], h[j].beganAt)
  }

  ghost predicate Inv(s: State) {
    ChainsOk(s) && CacheOk(s.cache.marks, s.clock, s.successes) && RunnersOk(s) && Spread(s.successes)
  }

  lemma CrowdedGrows(h: seq<Success>, e: Success, x: Success)
    requires Crowded(h, x)
    ensures Crowded(h + [e], x)
  {
    assert Others(h, x.key, x.markedAt) <= Others(h + [e], x.key, x.markedAt) by {
      forall k | k in Others(h, x.key, x.markedAt) ensures k in Others(h + [e], x.key, x.markedAt) {
        var j :| 0 <= j < |h| && h[j].key != x.key && h[j].markedAt >= x.markedAt && h[j].key == k;
        assert (h + [e])[j] == h[j];
      }
    }
    SubsetSize(Others(h, x.key, x.markedAt), Others(h + [e], x.key, x.markedAt));
  }

  lemma JustifiedGrows(h: seq<Success>, e: Success, x: Success, began: int)
    requires Justified(h, x, began)
    ensures Justified(h + [e], x, began)
  {
    if Crowded(h, x) {
      CrowdedGrows(h, e, x);
    }
  }

  /** A mark pushed out before its time has been outlived by as many other keys. */
  lemma PushedOut(c: Cache, d: Cache, at: int, h: seq<Success>, x: Success)
    requires forall k :: k in c.marks ==> Marked(h, k, c.marks[k])
    requires Cleaned(c, d, at) && x.key in c.marks && x.key !in d.marks
    requires x.markedAt + TTL <= c.marks[x.key] && at < c.marks[x.key]
    ensures Crowded(h, x)
  {
    assert NoEarlier(c.marks, x.key) <= Others(h, x.key, x.markedAt) by {
      forall l | l in NoEarlier(c.marks, x.key) ensures l in Others(h, x.key, x.markedAt) {
        var j :| 0 <= j < |h| && h[j].key == l && h[j].markedAt + TTL == c.marks[l];
      }
    }
    SubsetSize(NoEarlier(c.marks, x.key), Others(h, x.key, x.markedAt));
  }

  lemma CleanKeepsAccount(c: Cache, d: Cache, clock: int, at: int, h: seq<Success>, x: Success)
    requires forall k :: k in c.marks ==> Marked(h, k, c.marks[k])
    requires Cleaned(c, d, at) && clock <= at && Accounted(c.marks, clock, h, x)
    ensures Accounted(d.marks, at, h, x)
  {
    if x.key in c.marks && x.markedAt + TTL <= c.marks[x.key] && x.key !in d.marks && at < c.marks[x.key] {
      PushedOut(c, d, at, h, x);
    }
  }

  /** Cleaning up and moving the clock. */
  lemma CleanKeepsCache(c: Cache, d: Cache, clock: int, at: int, h: seq<Success>)
    requires CacheOk(c.marks, clock, h) && Cleaned(c, d, at) && clock <= at
    ensures CacheOk(d.marks, at, h)
  {
    forall j | 0 <= j < |h| ensures Accounted(d.marks, at, h, h[j]) && h[j].markedAt <= at {
      CleanKeepsAccount(c, d, clock, at, h, h[j]);
    }
  }

  lemma CleanKeepsRunner(c: Cache, d: Cache, clock: int, at: int, h: seq<Success>, key: string, began: int)
    requires RunnerOk(c.marks, clock, h, key, began) && Cleaned(c, d, at) && clock <= at
    ensures RunnerOk(d.marks, at, h, key, began)
  {
  }

  /** Setting a mark for a new success. */
  lemma MarkKeepsCache(m: Marks, at: int, h: seq<Success>, e: Success)
    requires CacheOk(m, at, h) && |m| <= MAX && e.markedAt == at
    ensures CacheOk(m[e.key := at + TTL], at, h + [e])
  {
    var m', h' := m[e.key := at + TTL], h + [e];
    assert m'.Keys == m.Keys + {e.key};
    forall k | k in m' ensures Marked(h', k, m'[k]) {
      if k == e.key {
        assert h'[|h|] == e;
      } else {
        var j :| 0 <= j < |h| && h[j].key == k && h[j].markedAt + TTL == m[k];
        assert h'[j] == h[j];
      }
    }
    forall j | 0 <= j < |h'| ensures Accounted(m', at, h', h'[j]) && h'[j].markedAt <= at {
      if j < |h| {
        assert Accounted(m, at, h, h[j]);
        if Crowded(h, h[j]) {
          CrowdedGrows(h, e, h[j]);
        }
      }
    }
  }

  lemma MarkKeepsRunner(m: Marks, at: int, h: seq<Success>, e: Success, key: string, began: int)
    requires RunnerOk(m, at, h, key, began) && key != e.key
    ensures RunnerOk(m[e.key := at + TTL], at, h + [e], key, began)
  {
    var h' := h + [e];
    forall j | 0 <= j < |h'| && h'[j].key == key ensures Justified(h', h'[j], began) {
      JustifiedGrows(h, e, h[j], began);
    }
  }

  /** Removing a mark that is no longer in force. */
  lemma DropKeepsCache(m: Marks, clock: int, h: seq<Success>, key: string)
    requires CacheOk(m, clock, h) && (key in m ==> m[key] <= clock)
    ensures CacheOk(m - {key}, clock, h)
  {
  }

  /** A handler about to run: every earlier success of its key is accounted for otherwise. */
  lemma BeginIsJustified(m: Marks, at: int, h: seq<Success>, key: string)
    requires CacheOk(m, at, h) && !(key in m && m[key] > at)
    ensures RunnerOk(m, at, h, key, at)
  {
  }

  lemma CleanupKeepsRunners(s: State, d: Cache, at: int)
    requires RunnersOk(s) && Cleaned(s.cache, d, at) && s.clock <= at
    ensures RunnersOk(Cleanup(s, d, at))
  {
  }

  lemma DoneKeepsRunners(s: State, t: nat)
    requires RunnersOk(s) && t < |s.tasks|
    ensures RunnersOk(SetPhase(s, t, Done))
  {
  }

  lemma RunKeepsRunners(s: State, t: nat)
    requires RunnersOk(s) && t < |s.tasks|
    requires RunnerOk(s.cache.marks, s.clock, s.successes, s.tasks[t].key, s.clock)
    ensures RunnersOk(RunHandler(s, t))
  {
  }

  lemma BeginKeepsInv(s: State, step: Step)
    requires Inv(s) && Enabled(s, step) && step.Begin?
    ensures Inv(After(s, step))
  {
    var Begin(t, at, d) := step;
    var key := s.tasks[t].key;
    StepKeepsChains(s, step);
    CleanKeepsCache(s.cache, d, s.clock, at, s.successes);
    CleanupKeepsRunners(s, d, at);
    if s.tasks[t].previous.Some? && !s.accepting {
      DoneKeepsRunners(s, t);
    } else if key in d.marks && d.marks[key] > at {
      DoneKeepsRunners(Cleanup(s, d, at), t);
    } else {
      BeginIsJustified(d.marks, at, s.successes, key);
      RunKeepsRunners(Cleanup(s, d, at), t);
    }
  }

  lemma OnlyRunner(s: State, t: nat, u: nat)
    requires ChainsOk(s) && t < |s.tasks| && u < |s.tasks| && t != u
    requires s.tasks[t].phase.Running? && s.tasks[u].phase.Running?
    ensures s.tasks[t].key != s.tasks[u].key
  {
    assert Chained(s, t) && Chained(s, u);
  }

  lemma SucceedKeepsInv(s: State, step: Step)
    requires Inv(s) && Enabled(s, step) && step.Succeed?
    ensures Inv(After(s, step))
  {
    StepKeepsChains(s, step);
    SucceedKeepsCache(s.cache, s.clock, s.successes, SuccessOf(s, step.task, step.at), step.at, step.cache);
    SucceedKeepsRunners(s, step.task, step.at, step.cache);
    SucceedKeepsSpread(s, step.task, step.at, step.cache);
  }

  lemma SucceedKeepsCache(c: Cache, clock: int, h: seq<Success>, e: Success, at: int, d: Cache)
    requires CacheOk(c.marks, clock, h) && Cleaned(c, d, at) && clock <= at && e.markedAt == at
    ensures CacheOk(WithMark(d, e).marks, at, h + [e])
  {
    CleanKeepsCache(c, d, clock, at, h);
    CleanedIsSmall(c, d, at);
    MarkKeepsCache(d.marks, at, h, e);
  }

  lemma CleanedIsSmall(c: Cache, d: Cache, now: int)
    requires Cleaned(c, d, now)
    ensures |d.marks| <= MAX
  {
  }

  lemma SucceedKeepsRunners(s: State, t: nat, at: int, d: Cache)
    requires Inv(s) && Enabled(s, Succeed(t, at, d))
    ensures RunnersOk(After(s, Succeed(t, at, d)))
  {
    var s', e := After(s, Succeed(t, at, d)), SuccessOf(s, t, at);
    forall u | 0 <= u < |s'.tasks| && s'.tasks[u].phase.Running?
      ensures u in s'.began && RunnerOk(s'.cache.marks, s'.clock, s'.successes, s'.tasks[u].key, s'.began[u])
    {
      SucceedKeepsRunner(s, t, at, d, u, e);
    }
  }

  lemma SucceedKeepsSpread(s: State, t: nat, at: int, d: Cache)
    requires Inv(s) && Enabled(s, Succeed(t, at, d))
    ensures Spread(After(s, Succeed(t, at, d)).successes)
  {
    SpreadAppend(s.successes, SuccessOf(s, t, at));
  }

  /** The other running tasks are of other keys. */
  lemma SucceedKeepsRunner(s: State, t: nat, at: int, d: Cache, u: nat, e: Success)
    requires Inv(s) && Enabled(s, Succeed(t, at, d)) && e.key == s.tasks[t].key && e.markedAt == at
    requires u < |s.tasks| && u != t && s.tasks[u].phase.Running?
    ensures u in s.began
    ensures RunnerOk(WithMark(d, e).marks, at, s.successes + [e], s.tasks[u].key, s.began[u])
  {
    OnlyRunner(s, t, u);
    CleanKeepsRunner(s.cache, d, s.clock, at, s.successes, s.tasks[u].key, s.began[u]);
    MarkKeepsRunner(d.marks, at, s.successes, e, s.tasks[u].key, s.began[u]);
  }

  lemma SpreadAppend(h: seq<Success>, e: Success)
    requires Spread(h) && forall j :: 0 <= j < |h| && h[j].key == e.key ==> Justified(h, h[j], e.beganAt)
    ensures Spread(h + [e])
  {
    var h' := h + [e];
    forall i, j | 0 <= i < j < |h'| && h'[i].key == h'[j].key ensures Justified(h', h'[i], h'[j].beganAt) {
      JustifiedGrows(h, e, h[i], h'[j].beganAt);
    }
  }

  lemma DropKeepsRunner(m: Marks, clock: int, h: seq<Success>, gone: string, key: string, began: int)
    requires RunnerOk(m, clock, h, key, began)
    ensures RunnerOk(m - {gone}, clock, h, key, began)
  {
  }

  lemma FailKeepsRunners(s: State, t: nat)
    requires Inv(s) && Enabled(s, Fail(t))
    ensures RunnersOk(After(s, Fail(t)))
  {
    var s' := After(s, Fail(t));
    forall u | 0 <= u < |s'.tasks| && s'.tasks[u].phase.Running?
      ensures u in s'.began && RunnerOk(s'.cache.marks, s'.clock, s'.successes, s'.tasks[u].key, s'.began[u])
    {
      DropKeepsRunner(s.cache.marks, s.clock, s.successes, s.tasks[t].key, s.tasks[u].key, s.began[u]);
    }
  }

  lemma FailKeepsInv(s: State, step: Step)
    requires Inv(s) && Enabled(s, step) && step.Fail?
    ensures Inv(After(s, step))
  {
    StepKeepsChains(s, step);
    FailKeepsRunners(s, step.task);
    DropKeepsCache(s.cache.marks, s.clock, s.successes, s.tasks[step.task].key);
  }

  lemma StepKeepsInv(s: State, step: Step)
    requires Inv(s) && Enabled(s, step)
    ensures Inv(After(s, step))
  {
    match step {
      case Admit(key) => StepKeepsChains(s, step);
      case Begin(_, _, _) => BeginKeepsInv(s, step);
      case Succeed(_, _, _) => SucceedKeepsInv(s, step);
      case Fail(_) => FailKeepsInv(s, step);
      case Clear(_) => StepKeepsChains(s, step);
      case StopIntake => StepKeepsChains(s, step);
    }
  }

  lemma {:induction false} ReachableInv(s: State, steps: seq<Step>, t: State)
    requires Inv(s) && Reaches(s, steps, t)
    ensures Inv(t)
    decreases |steps|
  {
    if steps != [] {
      StepKeepsInv(s, steps[0]);
      ReachableInv(After(s, steps[0]), steps[1..], t);
    }
  }

  // ---------------------------------------------------------------- theorems

  /** Handlers of one key never overlap, and the cache never holds more than its maximum plus one. */
  lemma NeverOverlap(steps: seq<Step>, s: State, t: nat, u: nat)
    requires Reaches(START, steps, s) && t < u < |s.tasks|
    requires s.tasks[t].phase.Running? && s.tasks[u].phase.Running?
    ensures s.tasks[t].key != s.tasks[u].key
  {
    ReachableInv(START, steps, s);
    OnlyRunner(s, t, u);
  }

  /** In every run the cache holds at most one mark more than its maximum. */
  lemma CacheIsBounded(steps: seq<Step>, s: State)
    requires Reaches(START, steps, s)
    ensures |s.cache.marks| <= MAX + 1
  {
    ReachableInv(START, steps, s);
  }

  /**
   At most one success per mark: the second of two successes of a key began only after the
   first one's mark had run its full time, or after at least `MAX` other keys had succeeded
   since that mark was set.
   */
  lemma OneSuccessPerMark(steps: seq<Step>, s: State, i: nat, j: nat)
    requires Reaches(START, steps, s) && i < j < |s.successes| && s.successes[i].key == s.successes[j].key
    ensures || s.successes[i].markedAt + TTL <= s.successes[j].beganAt
            || |Others(s.successes, s.successes[i].key, s.successes[i].markedAt)| >= MAX
  {
    ReachableInv(START, steps, s);
  }

  /** No handler of the key succeeds between the two states. */
  predicate NoSuccessSince(s: State, t: State, key: string) {
    forall i :: |s.successes| <= i < |t.successes| ==> t.successes[i].key != key
  }

  lemma {:induction false} SuccessesGrow(s: State, steps: seq<Step>, t: State)
    requires Reaches(s, steps, t)
    ensures s.successes <= t.successes
    decreases |steps|
  {
    if steps != [] {
      SuccessesGrow(After(s, steps[0]), steps[1..], t);
    }
  }

  /** A key without a mark gets one only from a success. */
  lemma {:induction false} UnmarkedUntilSuccess(s: State, steps: seq<Step>, t: State, key: string)
    requires Reaches(s, steps, t) && key !in s.cache.marks && NoSuccessSince(s, t, key)
    ensures key !in t.cache.marks
    decreases |steps|
  {
    if steps != [] {
      var next := After(s, steps[0]);
      SuccessesGrow(next, steps[1..], t);
      assert steps[0].Succeed? ==> t.successes[|s.successes|] == next.successes[|s.successes|];
      UnmarkedUntilSuccess(next, steps[1..], t, key);
    }
  }
}
