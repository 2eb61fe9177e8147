/** Counting times in sliding windows, for sequences of times that never go back. */
module SlidingWindow {

  predicate Sorted(log: seq<int>) {
    forall i, j :: 0 <= i < j < |log| ==> log[i] <= log[j]
  }

  /** Any n + 1 consecutive times span at least `width`. */
  predicate Spaced(log: seq<int>, n: nat, width: int) {
    forall i, j :: 0 <= i < |log| && 0 <= j < |log| && j == i + n ==> log[i] + width <= log[j]
  }

  /** How many times lie in (low, high]. */
  function Count(log: seq<int>, low: int, high: int): nat {
    if log == [] then 0
    else
      var n := |log| - 1;
      Count(log[..n], low, high) + (if low < log[n] <= high then 1 else 0)
  }

  /** `filter((t) => t > cutoff)`. */
  function Newer(log: seq<int>, cutoff: int): (r: seq<int>)
    ensures |r| <= |log|
  {
    if log == [] then []
    else
      var n := |log| - 1;
      Newer(log[..n], cutoff) + (if log[n] > cutoff then [log[n]] else [])
  }

  lemma SortedInit(log: seq<int>)
    requires Sorted(log) && log != []
    ensures Sorted(log[..|log| - 1])
    ensures forall i :: 0 <= i < |log| ==> log[i] <= log[|log| - 1]
  {
  }

  /** Where the newer times of a sorted log begin. */
  predicate Begins(log: seq<int>, cutoff: int, k: nat) {
    k <= |log| && (forall i :: 0 <= i < k ==> log[i] <= cutoff) && (forall i :: k <= i < |log| ==> cutoff < log[i])
  }

  /** In a sorted log the newer times are its tail. */
  lemma {:induction false} NewerIsTail(log: seq<int>, cutoff: int) returns (k: nat)
    requires Sorted(log)
    ensures Begins(log, cutoff, k) && Newer(log, cutoff) == log[k..]
  {
    if log == [] {
      k := 0;
    } else if log[|log| - 1] <= cutoff {
      SortedInit(log);
      k := |log|;
      NoneNewer(log, cutoff);
    } else {
      var n := |log| - 1;
      SortedInit(log);
      k := NewerIsTail(log[..n], cutoff);
      assert log == log[..n] + [log[n]];
      BeginsAppend(log[..n], cutoff, k, log[n]);
      assert log[k..] == log[..n][k..] + [log[n]];
    }
  }

  lemma BeginsAppend(log: seq<int>, cutoff: int, k: nat, t: int)
    requires Begins(log, cutoff, k) && cutoff < t
    ensures Begins(log + [t], cutoff, k)
  {
  }

  lemma {:induction false} NoneNewer(log: seq<int>, cutoff: int)
    requires forall i :: 0 <= i < |log| ==> log[i] <= cutoff
    ensures Newer(log, cutoff) == []
  {
    if log != [] {
      NoneNewer(log[..|log| - 1], cutoff);
    }
  }

  /** Filtering twice is filtering by the later cutoff. */
  lemma {:induction false} NewerTwice(log: seq<int>, first: int, second: int)
    requires first <= second
    ensures Newer(Newer(log, first), second) == Newer(log, second)
  {
    if log != [] {
      var n := |log| - 1;
      NewerTwice(log[..n], first, second);
      var before := Newer(log[..n], first);
      if log[n] > first {
        assert (before + [log[n]])[..|before|] == before;
      } else {
        assert before + [] == before;
      }
    }
  }

  lemma NewerAppend(log: seq<int>, t: int, cutoff: int)
    ensures Newer(log + [t], cutoff) == Newer(log, cutoff) + (if t > cutoff then [t] else [])
  {
  }

  /** The newer times are those in the window up to now. */
  lemma {:induction false} NewerIsCount(log: seq<int>, low: int, high: int)
    requires forall i :: 0 <= i < |log| ==> log[i] <= high
    ensures |Newer(log, low)| == Count(log, low, high)
  {
    if log != [] {
      NewerIsCount(log[..|log| - 1], low, high);
    }
  }

  lemma {:induction false} CountSplit(log: seq<int>, k: nat, low: int, high: int)
    requires k <= |log|
    ensures Count(log, low, high) == Count(log[..k], low, high) + Count(log[k..], low, high)
  {
    if k == |log| {
      assert log[..k] == log && log[k..] == [];
    } else {
      var n := |log| - 1;
      CountSplit(log[..n], k, low, high);
      assert log[..n][..k] == log[..k];
      assert log[..n][k..] == log[k..][..|log[k..]| - 1];
    }
  }

  lemma {:induction false} CountNone(log: seq<int>, low: int, high: int)
    requires forall i :: 0 <= i < |log| ==> !(low < log[i] <= high)
    ensures Count(log, low, high) == 0
  {
    if log != [] {
      CountNone(log[..|log| - 1], low, high);
    }
  }

  lemma {:induction false} CountAtMostLength(log: seq<int>, low: int, high: int)
    ensures Count(log, low, high) <= |log|
  {
    if log != [] {
      CountAtMostLength(log[..|log| - 1], low, high);
    }
  }

  /** The bound on every window: spaced times are at most n in any window of that width. */
  lemma {:induction false} SpacedBoundsCount(log: seq<int>, n: nat, width: int, high: int)
    requires Sorted(log) && Spaced(log, n, width) && 1 <= n
    ensures Count(log, high - width, high) <= n
  {
    if |log| <= n {
      CountAtMostLength(log, high - width, high);
    } else if log[|log| - 1] > high {
      assert Spaced(log[..|log| - 1], n, width);
      SpacedBoundsCount(log[..|log| - 1], n, width, high);
    } else {
      LastOnesCount(log, n, width, high);
    }
  }

  /** When the window ends after the log, only the last n times can be in it. */
  lemma LastOnesCount(log: seq<int>, n: nat, width: int, high: int)
    requires Sorted(log) && Spaced(log, n, width) && 1 <= n < |log| && log[|log| - 1] <= high
    ensures Count(log, high - width, high) <= n
  {
    var k := |log| - n;
    CountSplit(log, k, high - width, high);
    CountAtMostLength(log[k..], high - width, high);
    assert log[k - 1] + width <= log[|log| - 1];
    forall i | 0 <= i < k ensures log[..k][i] <= high - width {
      assert log[i] <= log[k - 1];
    }
    CountNone(log[..k], high - width, high);
  }

  /** Adding a time when fewer than n times are newer than a window before it. */
  lemma SpacedAppend(log: seq<int>, n: nat, width: int, now: int, t: int)
    requires Sorted(log) && Spaced(log, n, width) && 1 <= n
    requires now <= t && |Newer(log, now - width)| < n
    requires forall i :: 0 <= i < |log| ==> log[i] <= t
    ensures Sorted(log + [t]) && Spaced(log + [t], n, width)
  {
    var k := NewerIsTail(log, now - width);
    var after := log + [t];
    forall i, j | 0 <= i && j == i + n && j < |after| ensures after[i] + width <= after[j] {
      if j < |log| {
        assert log[i] + width <= log[j];
      }
    }
  }
}
