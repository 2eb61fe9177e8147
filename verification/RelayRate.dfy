/** The relay's request limit per peer, over a sliding minute. */
module RelayRate {
  import opened SlidingWindow

  /** Sixty seconds, in milliseconds of the monotonic clock. */
  const MINUTE := 60000

  datatype Call = Call(peer: string, at: int)

  type Times = map<string, seq<int>>

  function TimesOf(m: Times, peer: string): seq<int> {
    if peer in m then m[peer] else []
  }

  /** The requests of a peer that were let through in a run, with a limit per minute. */
  function Admitted(limit: nat, calls: seq<Call>, peer: string): seq<int> {
    if calls == [] then []
    else
      var n := |calls| - 1;
      var before := Admitted(limit, calls[..n], peer);
      if calls[n].peer == peer && Count(before, calls[n].at - MINUTE, calls[n].at) < limit
      then before + [calls[n].at] else before
  }

  ghost predicate ClockForward(calls: seq<Call>) {
    forall i, j :: 0 <= i < j < |calls| ==> calls[i].at <= calls[j].at
  }

  /** What is kept for a peer is the recent part of what was let through. */
  ghost predicate Keeps(kept: seq<int>, log: seq<int>, cutoff: int) {
    exists c :: c <= cutoff && kept == Newer(log, c)
  }

  /** What is kept after a run whose clock has reached `now`. */
  ghost predicate Tracks(requests: Times, limit: nat, calls: seq<Call>, now: int) {
    forall peer :: Keeps(TimesOf(requests, peer), Admitted(limit, calls, peer), now - MINUTE)
  }

  lemma {:induction false} AdmittedInTime(limit: nat, calls: seq<Call>, peer: string, now: int)
    requires ClockForward(calls) && forall i :: 0 <= i < |calls| ==> calls[i].at <= now
    ensures Sorted(Admitted(limit, calls, peer))
    ensures forall i :: 0 <= i < |Admitted(limit, calls, peer)| ==> Admitted(limit, calls, peer)[i] <= now
  {
    if calls != [] {
      var n := |calls| - 1;
      assert calls == calls[..n] + [calls[n]];
      Before(calls[..n], calls[n]);
      AdmittedInTime(limit, calls[..n], peer, calls[n].at);
    }
  }

  /** Filtering what is kept gives the requests let through in the last minute. */
  lemma {:induction false} KeptIsRecent(kept: seq<int>, log: seq<int>, now: int)
    requires Keeps(kept, log, now - MINUTE) && forall i :: 0 <= i < |log| ==> log[i] <= now
    ensures Newer(kept, now - MINUTE) == Newer(log, now - MINUTE)
    ensures |Newer(kept, now - MINUTE)| == Count(log, now - MINUTE, now)
  {
    var c :| c <= now - MINUTE && kept == Newer(log, c);
    NewerTwice(log, c, now - MINUTE);
    NewerIsCount(log, now - MINUTE, now);
  }

  class RateLimit {
    var requests: Times

    constructor ()
      ensures requests == map[]
    {
      requests := map[];
    }

    /** `rate_allowed`, after the calls given: the answer depends on the last minute of what was let through. */
    method RateAllowed(limit: nat, peer: string, now: int, ghost calls: seq<Call>) returns (allowed: bool)
      requires ClockForward(calls + [Call(peer, now)]) && Tracks(requests, limit, calls, now)
      modifies this
      ensures var log := Admitted(limit, calls, peer);
              allowed <==> Count(log, now - MINUTE, now) < limit
      ensures Admitted(limit, calls + [Call(peer, now)], peer) ==
              Admitted(limit, calls, peer) + if allowed then [now] else []
      ensures Tracks(requests, limit, calls + [Call(peer, now)], now)
      ensures requests == old(requests)[peer := TimesOf(requests, peer)]
    {
      RecentAre(requests, limit, calls, Call(peer, now));
      var recent := Newer(TimesOf(requests, peer), now - MINUTE);
      allowed := |recent| < limit;
      if allowed {
        recent := recent + [now];
      }
      TracksStep(requests, limit, calls, Call(peer, now), recent);
      requests := requests[peer := recent];
    }
  }

  lemma {:induction false} AdmittedNext(limit: nat, calls: seq<Call>, c: Call, peer: string)
    ensures var log := Admitted(limit, calls, peer);
            Admitted(limit, calls + [c], peer) ==
            if c.peer == peer && Count(log, c.at - MINUTE, c.at) < limit then log + [c.at] else log
  {
    assert (calls + [c])[..|calls|] == calls;
  }

  /** What is left after the filter is what was let through in the last minute. */
  lemma {:induction false} RecentCount(requests: Times, limit: nat, calls: seq<Call>, c: Call)
    requires ClockForward(calls + [c]) && Tracks(requests, limit, calls, c.at)
    ensures var recent, log := Newer(TimesOf(requests, c.peer), c.at - MINUTE), Admitted(limit, calls, c.peer);
            recent == Newer(log, c.at - MINUTE) && |recent| == Count(log, c.at - MINUTE, c.at)
  {
    Before(calls, c);
    AdmittedInTime(limit, calls, c.peer, c.at);
    KeptIsRecent(TimesOf(requests, c.peer), Admitted(limit, calls, c.peer), c.at);
  }

  /** The decision of one call, from what is kept. */
  lemma {:induction false} RecentAre(requests: Times, limit: nat, calls: seq<Call>, c: Call)
    requires ClockForward(calls + [c]) && Tracks(requests, limit, calls, c.at)
    ensures var recent := Newer(TimesOf(requests, c.peer), c.at - MINUTE);
            var log := Admitted(limit, calls, c.peer);
            && |recent| == Count(log, c.at - MINUTE, c.at)
            && Admitted(limit, calls + [c], c.peer) == (log + if |recent| < limit then [c.at] else [])
            && Newer(Admitted(limit, calls + [c], c.peer), c.at - MINUTE)
               == recent + if |recent| < limit then [c.at] else []
  {
    RecentCount(requests, limit, calls, c);
    AdmittedNext(limit, calls, c, c.peer);
    NewerAppend(Admitted(limit, calls, c.peer), c.at, c.at - MINUTE);
  }

  lemma {:induction false} TracksStep(requests: Times, limit: nat, calls: seq<Call>, c: Call, recent: seq<int>)
    requires Tracks(requests, limit, calls, c.at)
    requires recent == Newer(Admitted(limit, calls + [c], c.peer), c.at - MINUTE)
    ensures Tracks(requests[c.peer := recent], limit, calls + [c], c.at)
  {
    var all, after := calls + [c], requests[c.peer := recent];
    forall other ensures Keeps(TimesOf(after, other), Admitted(limit, all, other), c.at - MINUTE) {
      if other != c.peer {
        AdmittedNext(limit, calls, c, other);
        assert Keeps(TimesOf(requests, other), Admitted(limit, calls, other), c.at - MINUTE);
      }
    }
  }

  lemma {:induction false} Before(calls: seq<Call>, last: Call)
    requires ClockForward(calls + [last])
    ensures ClockForward(calls) && forall i :: 0 <= i < |calls| ==> calls[i].at <= last.at
  {
    var all := calls + [last];
    assert forall i :: 0 <= i < |calls| ==> calls[i] == all[i];
    assert all[|calls|] == last;
  }

  /** What is tracked stays tracked while no call comes in. */
  lemma {:induction false} TracksLater(requests: Times, limit: nat, calls: seq<Call>, now: int, later: int)
    requires Tracks(requests, limit, calls, now) && now <= later
    ensures Tracks(requests, limit, calls, later)
  {
  }

  /** A log that grows only with room in the last minute stays spaced. */
  lemma {:induction false} SpacedStep(limit: nat, log: seq<int>, at: int)
    requires limit >= 1 && Sorted(log) && Spaced(log, limit, MINUTE) && Count(log, at - MINUTE, at) < limit
    requires forall i :: 0 <= i < |log| ==> log[i] <= at
    ensures Sorted(log + [at]) && Spaced(log + [at], limit, MINUTE)
  {
    NewerIsCount(log, at - MINUTE, at);
    SpacedAppend(log, limit, MINUTE, at, at);
  }

  lemma {:induction false} AdmittedIsSpaced(limit: nat, calls: seq<Call>, peer: string)
    requires ClockForward(calls) && limit >= 1
    ensures Sorted(Admitted(limit, calls, peer)) && Spaced(Admitted(limit, calls, peer), limit, MINUTE)
  {
    if calls != [] {
      var n := |calls| - 1;
      assert calls == calls[..n] + [calls[n]];
      Before(calls[..n], calls[n]);
      AdmittedIsSpaced(limit, calls[..n], peer);
      AdmittedInTime(limit, calls[..n], peer, calls[n].at);
      var log := Admitted(limit, calls[..n], peer);
      if Count(log, calls[n].at - MINUTE, calls[n].at) < limit {
        SpacedStep(limit, log, calls[n].at);
      }
    }
  }

  lemma {:induction false} NothingAdmitted(calls: seq<Call>, peer: string)
    ensures Admitted(0, calls, peer) == []
  {
    if calls != [] {
      NothingAdmitted(calls[..|calls| - 1], peer);
    }
  }

  /** In every run and every window of a minute, a peer gets at most the limit through. */
  lemma {:induction false} AtMostLimit(limit: nat, calls: seq<Call>, peer: string, high: int)
    requires ClockForward(calls)
    ensures Count(Admitted(limit, calls, peer), high - MINUTE, high) <= limit
  {
    if limit == 0 {
      NothingAdmitted(calls, peer);
    } else {
      AdmittedIsSpaced(limit, calls, peer);
      SpacedBoundsCount(Admitted(limit, calls, peer), limit, MINUTE, high);
    }
  }
}
