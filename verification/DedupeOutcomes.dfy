/** What a provider event is owed: a task of its own, its turn, and a run unless its key is marked. */
module DedupeOutcomes {
  import opened Protocol
  import opened Dedupe
  import opened Sets

  // ---------------------------------------------------------------- every admitted event has its task

  /** The keys admitted by a run, in order. */
  function Admitted(steps: seq<Step>): seq<string> {
    if steps == [] then []
    else (if steps[0].Admit? then [steps[0].key] else []) + Admitted(steps[1..])
  }

  /** The other tasks of a state keep their key and their place in the chain, and what is done stays done. */
  predicate Continues(s: State, t: State) {
    && |s.tasks| <= |t.tasks|
    && (t.accepting ==> s.accepting)
    && s.successes <= t.successes
    && forall u :: 0 <= u < |s.tasks| ==>
         && t.tasks[u].key == s.tasks[u].key && t.tasks[u].previous == s.tasks[u].previous
         && (s.tasks[u].phase.Done? ==> t.tasks[u] == s.tasks[u])
         && (u in s.began ==> u in t.began)
  }

  /** While events are accepted, an admission adds exactly one task, at the end, waiting, of that key. */
  lemma AdmitAdds(s: State, key: string)
    requires ChainsOk(s) && s.accepting
    ensures var s' := After(s, Admit(key)); var n := |s.tasks|;
            && |s'.tasks| == n + 1 && s'.tasks[..n] == s.tasks
            && s'.tasks[n].key == key && s'.tasks[n].phase.Waiting?
            && s'.cache == s.cache && s'.successes == s.successes && s'.began == s.began && s'.accepting
            && (s'.tasks[n].previous.None? ==>
                  forall t :: 0 <= t < n && s.tasks[t].key == key ==> s.tasks[t].phase.Done?)
            && (s'.tasks[n].previous.Some? ==>
                  var p := s'.tasks[n].previous.value;
                  p < n && s.tasks[p].key == key && forall t :: p < t < n ==> s.tasks[t].key != key)
  {
  }

  lemma StepContinues(s: State, step: Step)
    requires Enabled(s, step)
    ensures Continues(s, After(s, step))
    ensures |After(s, step).tasks| == |s.tasks| + |Admitted([step])|
    ensures step.Admit? ==> After(s, step).tasks[|s.tasks|].key == step.key
  {
    match step {
      case Admit(_) =>
      case Begin(t, at, d) => BeginContinues(s, t, at, d);
      case Succeed(_, _, _) =>
      case Fail(_) =>
      case Clear(_) =>
      case StopIntake =>
    }
  }

  lemma BeginContinues(s: State, t: nat, at: int, d: Cache)
    requires Enabled(s, Begin(t, at, d))
    ensures Continues(s, After(s, Begin(t, at, d))) && |After(s, Begin(t, at, d)).tasks| == |s.tasks|
  {
  }

  lemma ContinuesTwice(r: State, s: State, t: State)
    requires Continues(r, s) && Continues(s, t)
    ensures Continues(r, t)
  {
  }

  lemma {:induction false} AdmittedSplit(a: seq<Step>, b: seq<Step>)
    ensures Admitted(a + b) == Admitted(a) + Admitted(b)
  {
    if a == [] {
      assert a + b == b;
    } else {
      assert (a + b)[0] == a[0] && (a + b)[1..] == a[1..] + b;
      AdmittedSplit(a[1..], b);
    }
  }

  lemma {:induction false} RunContinues(s: State, steps: seq<Step>, t: State)
    requires Reaches(s, steps, t)
    ensures Continues(s, t) && |t.tasks| == |s.tasks| + |Admitted(steps)|
    ensures forall i :: 0 <= i < |Admitted(steps)| ==> t.tasks[|s.tasks| + i].key == Admitted(steps)[i]
    decreases |steps|
  {
    if steps != [] {
      var next := After(s, steps[0]);
      StepContinues(s, steps[0]);
      RunContinues(next, steps[1..], t);
      ContinuesTwice(s, next, t);
      assert Admitted(steps) == Admitted([steps[0]]) + Admitted(steps[1..]);
    }
  }

  /** In every run the i-th task is the i-th admitted event's, and there are no others. */
  lemma TasksAreAdmissions(steps: seq<Step>, s: State)
    requires Reaches(START, steps, s)
    ensures |s.tasks| == |Admitted(steps)|
    ensures forall i :: 0 <= i < |s.tasks| ==> s.tasks[i].key == Admitted(steps)[i]
  {
    RunContinues(START, steps, s);
    forall i | 0 <= i < |s.tasks| ensures s.tasks[i].key == Admitted(steps)[i] {
      assert s.tasks[|START.tasks| + i].key == Admitted(steps)[i];
    }
  }

  // ---------------------------------------------------------------- no task is stuck

  lemma {:induction false} OldestMark(m: Marks) returns (oldest: string)
    requires m != map[]
    ensures oldest in m && forall l :: l in m ==> m[oldest] <= m[l]
    decreases |m|
  {
    var first :| first in m;
    var rest := map l | l in m && m[l] < m[first] :: m[l];
    assert forall l :: l in m ==> l in rest || m[first] <= m[l];
    if rest == map[] {
      oldest := first;
    } else {
      SubsetSize(rest.Keys, m.Keys - {first});
      oldest := OldestMark(rest);
      forall l | l in m ensures m[oldest] <= m[l] {
        assert rest[oldest] == m[oldest];
        if m[l] < m[first] {
          assert rest[oldest] <= rest[l];
        }
      }
    }
  }

  lemma {:induction false} TrimExists(all: Marks, m: Marks) returns (r: Marks)
    requires Trimming(all, m)
    ensures Trimming(all, r) && |r| <= MAX
    decreases |m|
  {
    r := m;
    if |m| > MAX {
      var oldest := OldestMark(m);
      TrimStep(all, m, oldest);
      r := TrimExists(all, m - {oldest});
    }
  }

  lemma CleanExists(c: Cache, now: int) returns (d: Cache)
    ensures Cleaned(c, d, now)
  {
    d := c;
    if now >= c.nextCleanupAt || |c.marks| > MAX {
      var all := map k | k in c.marks && c.marks[k] > now :: c.marks[k];
      var r := TrimExists(all, all);
      d := Cache(r, now + CLEANUP_INTERVAL);
      forall k | k in c.marks && k !in r && c.marks[k] > now ensures |NoEarlier(c.marks, k)| >= MAX {
        NoEarlierGrows(all, c.marks, k);
      }
    }
  }

  /** The oldest unfinished task of a key runs or may begin. */
  lemma {:induction false} EarliestMayGo(s: State, u: nat) returns (v: nat)
    requires ChainsOk(s) && u < |s.tasks| && !s.tasks[u].phase.Done?
    ensures v <= u && s.tasks[v].key == s.tasks[u].key
    ensures s.tasks[v].phase.Running? || (s.tasks[v].phase.Waiting? && Ready(s, v))
  {
    if t :| 0 <= t < u && s.tasks[t].key == s.tasks[u].key && !s.tasks[t].phase.Done? {
      v := EarliestMayGo(s, t);
    } else {
      v := u;
      assert Chained(s, u);
    }
  }

  predicate HandlerStep(step: Step) { step.Begin? || step.Succeed? || step.Fail? }

  /** In every run, as long as a task is unfinished some handler of its key can take a step. */
  lemma NeverStuck(steps: seq<Step>, s: State, u: nat) returns (step: Step)
    requires Reaches(START, steps, s) && u < |s.tasks| && !s.tasks[u].phase.Done?
    ensures HandlerStep(step) && Enabled(s, step)
    ensures step.task <= u && s.tasks[step.task].key == s.tasks[u].key
  {
    ReachableInv(START, steps, s);
    var v := EarliestMayGo(s, u);
    if s.tasks[v].phase.Running? {
      step := Fail(v);
    } else {
      var d := CleanExists(s.cache, s.clock);
      step := Begin(v, s.clock, d);
    }
  }

  function HandlerSteps(steps: seq<Step>): nat {
    if steps == [] then 0 else (if HandlerStep(steps[0]) then 1 else 0) + HandlerSteps(steps[1..])
  }

  function Owed(task: Task): nat {
    match task.phase
    case Waiting => 2
    case Running => 1
    case Done => 0
  }

  function Left(tasks: seq<Task>): nat {
    if tasks == [] then 0 else Left(tasks[..|tasks| - 1]) + Owed(tasks[|tasks| - 1])
  }

  lemma {:induction false} LeftUpdate(tasks: seq<Task>, t: nat, task: Task)
    requires t < |tasks|
    ensures Left(tasks[t := task]) == Left(tasks) - Owed(tasks[t]) + Owed(task)
  {
    var n := |tasks| - 1;
    if t == n {
      assert tasks[t := task][..n] == tasks[..n];
    } else {
      assert tasks[t := task][..n] == tasks[..n][t := task];
      LeftUpdate(tasks[..n], t, task);
    }
  }

  lemma StepPays(s: State, step: Step)
    requires Enabled(s, step)
    ensures Left(After(s, step).tasks) + HandlerSteps([step]) <= Left(s.tasks) + 2 * |Admitted([step])|
  {
    match step {
      case Admit(key) => assert After(s, step).tasks[..|s.tasks|] == s.tasks;
      case Begin(t, _, _) => LeftUpdate(s.tasks, t, After(s, step).tasks[t]);
      case Succeed(t, _, _) => LeftUpdate(s.tasks, t, After(s, step).tasks[t]);
      case Fail(t) => LeftUpdate(s.tasks, t, After(s, step).tasks[t]);
      case Clear(_) =>
      case StopIntake =>
    }
  }

  lemma {:induction false} RunPays(s: State, steps: seq<Step>, t: State)
    requires Reaches(s, steps, t)
    ensures Left(t.tasks) + HandlerSteps(steps) <= Left(s.tasks) + 2 * |Admitted(steps)|
    decreases |steps|
  {
    if steps != [] {
      StepPays(s, steps[0]);
      RunPays(After(s, steps[0]), steps[1..], t);
    }
  }

  /** And no run takes more than two handler steps per admitted event, so every event is finished with. */
  lemma HandlersEnd(steps: seq<Step>, s: State)
    requires Reaches(START, steps, s)
    ensures HandlerSteps(steps) <= 2 * |Admitted(steps)|
  {
    RunPays(START, steps, s);
  }

  // ---------------------------------------------------------------- which handlers run

  /** A handler that was behind another and finds the intake stopped ends without running. */
  predicate Dropped(s: State, u: nat)
    requires u < |s.tasks|
  {
    s.tasks[u].previous.Some? && !s.accepting
  }

  /**
   A duplicate runs its handler when every success of its key was marked a full time to live ago,
   as when there was none; and ends without running it while a success of its key is newer than
   that and fewer than `MAX` other keys have succeeded since.
   */
  lemma RunsUnlessMarked(steps: seq<Step>, s: State, u: nat, at: int, d: Cache)
    requires Reaches(START, steps, s) && Enabled(s, Begin(u, at, d)) && !Dropped(s, u)
    ensures (forall i :: 0 <= i < |s.successes| && s.successes[i].key == s.tasks[u].key
                         ==> s.successes[i].markedAt + TTL <= at)
              ==> After(s, Begin(u, at, d)).tasks[u].phase.Running?
    ensures (exists i :: 0 <= i < |s.successes| && s.successes[i].key == s.tasks[u].key
                         && at < s.successes[i].markedAt + TTL && !Crowded(s.successes, s.successes[i]))
              ==> After(s, Begin(u, at, d)).tasks[u].phase.Done?
  {
    ReachableInv(START, steps, s);
    CleanedMarks(s, d, at);
    MarkDecides(d.marks, at, s.successes, s.tasks[u].key);
    BeginByMark(s, u, at, d);
  }

  lemma CleanedMarks(s: State, d: Cache, at: int)
    requires Inv(s) && Cleaned(s.cache, d, at) && s.clock <= at
    ensures CacheOk(d.marks, at, s.successes)
  {
    CleanKeepsCache(s.cache, d, s.clock, at, s.successes);
  }

  /** A mark in force comes from a success not a full time to live ago, and each of those has one unless crowded out. */
  lemma MarkDecides(m: Marks, at: int, h: seq<Success>, key: string)
    requires CacheOk(m, at, h)
    ensures (forall i :: 0 <= i < |h| && h[i].key == key ==> h[i].markedAt + TTL <= at) ==> !(key in m && m[key] > at)
    ensures (exists i :: 0 <= i < |h| && h[i].key == key && at < h[i].markedAt + TTL && !Crowded(h, h[i]))
              ==> key in m && m[key] > at
  {
    if key in m {
      assert Marked(h, key, m[key]);
    }
  }

  lemma BeginByMark(s: State, u: nat, at: int, d: Cache)
    requires Enabled(s, Begin(u, at, d)) && !Dropped(s, u)
    ensures var key := s.tasks[u].key; var marked := key in d.marks && d.marks[key] > at;
            After(s, Begin(u, at, d)).tasks[u].phase == if marked then Done else Running
  {
  }

  lemma {:induction false} NoneAfterStop(s: State, later: seq<Step>, t: State)
    requires Reaches(s, later, t) && !s.accepting
    ensures !t.accepting && |t.tasks| == |s.tasks|
    decreases |later|
  {
    if later != [] {
      StepContinues(s, later[0]);
      NoneAfterStop(After(s, later[0]), later[1..], t);
    }
  }

  /** Once the intake is stopped no task is added, and what is still behind another handler ends without running. */
  lemma StoppedIntake(s: State, later: seq<Step>, t: State, u: nat, at: int, d: Cache)
    requires Reaches(After(s, StopIntake), later, t) && Enabled(t, Begin(u, at, d))
    ensures |t.tasks| == |s.tasks| && forall key :: !Enabled(t, Admit(key))
    ensures t.tasks[u].previous.Some? ==>
              After(t, Begin(u, at, d)).tasks[u].phase.Done? && After(t, Begin(u, at, d)).began == t.began
  {
    NoneAfterStop(After(s, StopIntake), later, t);
  }

  /** A success is recorded under its task's key, with the time it began and the time of its mark. */
  lemma SuccessIsRecorded(steps: seq<Step>, s: State, u: nat, at: int, d: Cache)
    requires Reaches(START, steps, s) && Enabled(s, Succeed(u, at, d))
    ensures u in s.began
    ensures After(s, Succeed(u, at, d)).successes == s.successes + [Success(s.tasks[u].key, s.began[u], at)]
    ensures After(s, Succeed(u, at, d)).tasks[u].phase.Done?
  {
    ReachableInv(START, steps, s);
  }

  lemma {:induction false} ReachesJoin(s: State, a: seq<Step>, m: State, b: seq<Step>, t: State)
    requires Reaches(s, a, m) && Reaches(m, b, t)
    ensures Reaches(s, a + b, t)
    decreases |a|
  {
    if a == [] {
      assert a + b == b;
    } else {
      assert (a + b)[0] == a[0] && (a + b)[1..] == a[1..] + b;
      ReachesJoin(After(s, a[0]), a[1..], m, b, t);
    }
  }

  lemma ReachesOne(s: State, step: Step)
    requires Enabled(s, step)
    ensures Reaches(s, [step], After(s, step))
  {
    assert Reaches(After(s, step), [step][1..], After(s, step));
  }

  /**
   After a success at `marked`, for the whole time to live, duplicates of its key end without
   running, unless `MAX` other keys have succeeded in between.
   */
  lemma MarkStopsDuplicates(before: seq<Step>, s: State, u: nat, marked: int, c: Cache,
                            later: seq<Step>, t: State, v: nat, at: int, d: Cache)
    requires Reaches(START, before, s) && Enabled(s, Succeed(u, marked, c))
    requires Reaches(After(s, Succeed(u, marked, c)), later, t) && Enabled(t, Begin(v, at, d))
    requires t.tasks[v].key == s.tasks[u].key && at < marked + TTL
    requires |Others(t.successes, s.tasks[u].key, marked)| < MAX
    ensures After(t, Begin(v, at, d)).tasks[v].phase.Done? && After(t, Begin(v, at, d)).began == t.began
  {
    var step := Succeed(u, marked, c);
    SuccessIsRecorded(before, s, u, marked, c);
    ReachesOne(s, step);
    ReachesJoin(START, before, s, [step], After(s, step));
    ReachesJoin(START, before + [step], After(s, step), later, t);
    SuccessesGrow(After(s, step), later, t);
    assert t.successes[|s.successes|] == Success(s.tasks[u].key, s.began[u], marked);
    if !Dropped(t, v) {
      RunsUnlessMarked(before + [step] + later, t, v, at, d);
    }
  }

  // ---------------------------------------------------------------- after a failure

  /** A duplicate that is done has had its handler run. */
  predicate HasRun(s: State, u: nat) { u in s.began }

  /** Without a mark, a handler ends only by running. */
  lemma {:induction false} UnmarkedMustRun(s: State, steps: seq<Step>, t: State, u: nat)
    requires Reaches(s, steps, t) && t.accepting && u < |s.tasks| && u < |t.tasks|
    requires s.tasks[u].key !in s.cache.marks && NoSuccessSince(s, t, s.tasks[u].key)
    requires !s.tasks[u].phase.Waiting? ==> HasRun(s, u)
    ensures !t.tasks[u].phase.Waiting? ==> HasRun(t, u)
    decreases |steps|
  {
    if steps != [] {
      var next := After(s, steps[0]);
      SuccessesGrow(next, steps[1..], t);
      RunContinues(next, steps[1..], t);
      UnmarkedStep(s, steps[0], u);
      assert steps[0].Succeed? ==> t.successes[|s.successes|] == next.successes[|s.successes|];
      UnmarkedMustRun(next, steps[1..], t, u);
    }
  }

  lemma UnmarkedStep(s: State, step: Step, u: nat)
    requires Enabled(s, step) && s.accepting && u < |s.tasks| && s.tasks[u].key !in s.cache.marks
    requires !s.tasks[u].phase.Waiting? ==> HasRun(s, u)
    ensures After(s, step).tasks[u].key == s.tasks[u].key
    ensures !After(s, step).tasks[u].phase.Waiting? ==> HasRun(After(s, step), u)
    ensures s.tasks[u].key in After(s, step).cache.marks ==>
              step.Succeed? && |After(s, step).successes| == |s.successes| + 1
              && After(s, step).successes[|s.successes|].key == s.tasks[u].key
  {
    StepContinues(s, step);
    if step.Begin? {
      var Begin(t, at, d) := step;
      if t == u {
        UnmarkedRuns(s, u, at, d);
      }
      NoNewMark(s.cache, d, at, s.tasks[u].key);
    } else if step.Succeed? {
      NoNewMark(s.cache, step.cache, step.at, s.tasks[u].key);
    }
  }

  lemma NoNewMark(c: Cache, d: Cache, at: int, key: string)
    requires Cleaned(c, d, at) && key !in c.marks
    ensures key !in d.marks
  {
  }

  lemma ChainedWaits(s: State, f: nat, u: nat)
    requires ChainsOk(s) && f < u < |s.tasks| && s.tasks[f].key == s.tasks[u].key && !s.tasks[f].phase.Done?
    ensures s.tasks[u].phase.Waiting?
  {
    assert Chained(s, u);
  }

  /**
   A failed run lets the next duplicate run. Let an event of a key be admitted in any run, and let
   an earlier handler of the key fail after that. The event has a task, the one its admission
   added, which waits until then. From the failure on, as long as events are accepted and no
   handler of the key has succeeded: the task is done only if its handler has run; and until it
   is done, the oldest unfinished handler of the key, which is this one or one admitted before it, is
   running or may begin, and when it begins it runs.
   */
  lemma FailedLetsNextRun(before: seq<Step>, key: string, between: seq<Step>, s: State, f: nat,
                          later: seq<Step>, t: State)
    requires Reaches(START, before + [Admit(key)] + between, s)
    requires Enabled(s, Fail(f)) && f < |Admitted(before)| && s.tasks[f].key == key
    requires Reaches(After(s, Fail(f)), later, t) && t.accepting && NoSuccessSince(After(s, Fail(f)), t, key)
    ensures var u := |Admitted(before)|;
            && u < |s.tasks| && s.tasks[u].key == key && s.tasks[u].phase.Waiting?
            && u < |t.tasks| && t.tasks[u].key == key
            && (t.tasks[u].phase.Done? ==> HasRun(t, u))
            && (!t.tasks[u].phase.Done? ==> exists v: nat :: v <= u && WillRun(t, key, v))
  {
    var u := |Admitted(before)|;
    AdmittedSplit(before, [Admit(key)]);
    AdmittedSplit(before + [Admit(key)], between);
    TasksAreAdmissions(before + [Admit(key)] + between, s);
    ReachableInv(START, before + [Admit(key)] + between, s);
    ChainedWaits(s, f, u);
    AfterFailure(s, f, u, later, t);
  }

  /** The task is of the key and unfinished; it runs, or may begin, and runs whenever it begins. */
  ghost predicate WillRun(s: State, key: string, v: nat) {
    && v < |s.tasks| && s.tasks[v].key == key && !s.tasks[v].phase.Done?
    && (s.tasks[v].phase.Waiting? ==> Ready(s, v))
    && forall at, d :: Enabled(s, Begin(v, at, d)) ==> After(s, Begin(v, at, d)).tasks[v].phase.Running?
  }

  lemma UnmarkedRuns(s: State, v: nat, at: int, d: Cache)
    requires Enabled(s, Begin(v, at, d)) && s.tasks[v].key !in s.cache.marks && s.accepting
    ensures After(s, Begin(v, at, d)).tasks[v].phase.Running?
  {
  }

  lemma AfterFailure(s: State, f: nat, u: nat, later: seq<Step>, t: State)
    requires Inv(s) && Enabled(s, Fail(f)) && u < |s.tasks| && s.tasks[u].key == s.tasks[f].key
    requires u != f && s.tasks[u].phase.Waiting?
    requires Reaches(After(s, Fail(f)), later, t) && t.accepting
    requires NoSuccessSince(After(s, Fail(f)), t, s.tasks[f].key)
    ensures u < |t.tasks| && t.tasks[u].key == s.tasks[u].key
    ensures t.tasks[u].phase.Done? ==> HasRun(t, u)
    ensures !t.tasks[u].phase.Done? ==> exists v: nat :: v <= u && WillRun(t, s.tasks[u].key, v)
  {
    var failed := After(s, Fail(f));
    RunContinues(failed, later, t);
    UnmarkedMustRun(failed, later, t, u);
    UnmarkedUntilSuccess(failed, later, t, s.tasks[f].key);
    FailKeepsInv(s, Fail(f));
    ReachableInv(failed, later, t);
    if !t.tasks[u].phase.Done? {
      UnmarkedWillRun(t, u);
    }
  }

  lemma UnmarkedWillRun(s: State, u: nat)
    requires ChainsOk(s) && s.accepting
    requires u < |s.tasks| && !s.tasks[u].phase.Done? && s.tasks[u].key !in s.cache.marks
    ensures exists v: nat :: v <= u && WillRun(s, s.tasks[u].key, v)
  {
    var v := EarliestMayGo(s, u);
    forall at, d | Enabled(s, Begin(v, at, d)) ensures After(s, Begin(v, at, d)).tasks[v].phase.Running? {
      UnmarkedRuns(s, v, at, d);
    }
    assert WillRun(s, s.tasks[u].key, v);
  }

  // ---------------------------------------------------------------- bookkeeping

  /** Only the newest task of a key leaves the map of chains, and it does. */
  lemma ClearForgets(steps: seq<Step>, s: State, t: nat)
    requires Reaches(START, steps, s) && Enabled(s, Clear(t))
    ensures var s' := After(s, Clear(t));
            && s'.tasks == s.tasks && s'.cache == s.cache
            && ((forall u :: t < u < |s.tasks| ==> s.tasks[u].key != s.tasks[t].key) ==> s.tasks[t].key !in s'.chains)
            && ((exists u :: t < u < |s.tasks| && s.tasks[u].key == s.tasks[t].key) ==> s' == s)
  {
    ReachableInv(START, steps, s);
  }
}
