/** When a stored message is still found, told from the operations of the run alone. */
module MessageReferenceOutcomes {
  import opened Protocol
  import opened MessageReferences

  /** What the stored puts of a run add to the log. */
  function StoredBy(limits: Limits, ops: seq<Op>): seq<LogEntry> {
    if ops == [] then []
    else
      (if ops[0].Put? && ops[0].fit.Stored?
       then [LogEntry(ops[0].key, NewRecord(limits, ops[0].encoded, ops[0].at))] else [])
      + StoredBy(limits, ops[1..])
  }

  predicate Rising(log: seq<LogEntry>) {
    forall i, j :: 0 <= i < j < |log| ==> log[i].record.storedAt < log[j].record.storedAt
  }

  lemma {:induction false} LogGrows(limits: Limits, r: Run, ops: seq<Op>)
    requires Performable(limits, r, ops) && Rising(r.log)
    ensures PerformAll(limits, r, ops).log == r.log + StoredBy(limits, ops) && Rising(PerformAll(limits, r, ops).log)
    decreases |ops|
  {
    if ops != [] {
      LogGrows(limits, Perform(limits, r, ops[0]), ops[1..]);
    }
  }

  lemma {:induction false} PerformConcat(limits: Limits, r: Run, a: seq<Op>, b: seq<Op>)
    ensures PerformAll(limits, r, a + b) == PerformAll(limits, PerformAll(limits, r, a), b)
    ensures Performable(limits, r, a + b) <==> Performable(limits, r, a) && Performable(limits, PerformAll(limits, r, a), b)
    decreases |a|
  {
    if a == [] {
      assert a + b == b;
    } else {
      assert (a + b)[0] == a[0] && (a + b)[1..] == a[1..] + b;
      PerformConcat(limits, Perform(limits, r, a[0]), a[1..], b);
    }
  }

  lemma {:induction false} StoredConcat(limits: Limits, a: seq<Op>, b: seq<Op>)
    ensures StoredBy(limits, a + b) == StoredBy(limits, a) + StoredBy(limits, b)
  {
    if a == [] {
      assert a + b == b;
    } else {
      assert (a + b)[0] == a[0] && (a + b)[1..] == a[1..] + b;
      StoredConcat(limits, a[1..], b);
    }
  }

  // ---------------------------------------------------------------- the latest records of a log

  /** The last entry of the key. */
  predicate LastOf(log: seq<LogEntry>, j: nat, key: string) {
    j < |log| && log[j].key == key && forall i :: j < i < |log| ==> log[i].key != key
  }

  lemma {:induction false} LatestIsLast(log: seq<LogEntry>, key: string) returns (j: nat)
    requires key in Latest(log)
    ensures LastOf(log, j, key) && Latest(log)[key] == log[j].record
  {
    var n := |log| - 1;
    if log[n].key == key {
      j := n;
    } else {
      j := LatestIsLast(log[..n], key);
      assert forall i :: 0 <= i < n ==> log[..n][i] == log[i];
    }
  }

  lemma {:induction false} LoggedIsLatest(log: seq<LogEntry>, i: nat)
    requires i < |log|
    ensures log[i].key in Latest(log)
  {
    var n := |log| - 1;
    if i < n {
      LoggedIsLatest(log[..n], i);
    }
  }

  lemma LastIsUnique(log: seq<LogEntry>, i: nat, j: nat, key: string)
    requires LastOf(log, i, key) && LastOf(log, j, key)
    ensures i == j
  {
  }

  function KeysOf(log: seq<LogEntry>): set<string> { set e | e in log :: e.key }

  /** The keys logged after a place. */
  function KeysAfter(log: seq<LogEntry>, j: nat): set<string>
    requires j < |log|
  {
    KeysOf(log[j + 1..])
  }

  lemma LastIsLatest(log: seq<LogEntry>, j: nat, key: string)
    requires LastOf(log, j, key)
    ensures key in Latest(log) && Latest(log)[key] == log[j].record
  {
    LoggedIsLatest(log, j);
    var i := LatestIsLast(log, key);
    LastIsUnique(log, i, j, key);
  }

  /** In a rising log what is younger than a key is what was logged after it. */
  lemma YoungerIsAfter(log: seq<LogEntry>, j: nat, key: string)
    requires Rising(log) && LastOf(log, j, key)
    ensures key in Latest(log) && Younger(Latest(log), key) == KeysAfter(log, j)
  {
    var m := Latest(log);
    LastIsLatest(log, j, key);
    var after := log[j + 1..];
    forall l | l in Younger(m, key) ensures l in KeysAfter(log, j) {
      var i := LatestIsLast(log, l);
      assert after[i - j - 1] == log[i];
    }
    forall l | l in KeysAfter(log, j) ensures l in Younger(m, key) {
      var i :| 0 <= i < |after| && after[i].key == l;
      LoggedIsLatest(log, j + 1 + i);
      var k := LatestIsLast(log, l);
    }
  }

  /** A key is shown exactly when its last record is unexpired and few enough keys were logged after it. */
  lemma ShownIff(limits: Limits, log: seq<LogEntry>, j: nat, key: string, now: int)
    requires Rising(log) && LastOf(log, j, key) && SameRetention(limits, Latest(log))
    ensures key in Shown(limits, Latest(log), now) <==>
              now < log[j].record.expiresAt && |KeysAfter(log, j)| < limits.maxEntries
    ensures key in Shown(limits, Latest(log), now) ==> Shown(limits, Latest(log), now)[key] == log[j].record
  {
    LastIsLatest(log, j, key);
    YoungerIsAfter(log, j, key);
    if now < log[j].record.expiresAt {
      YoungerUnexpired(limits, Latest(log), key, now);
    }
  }

  // ---------------------------------------------------------------- runs

  /** The keys stored by a run. */
  function StoredKeys(ops: seq<Op>): set<string> {
    if ops == [] then {}
    else (if ops[0].Put? && ops[0].fit.Stored? then {ops[0].key} else {}) + StoredKeys(ops[1..])
  }

  lemma {:induction false} StoredKeysAre(limits: Limits, ops: seq<Op>)
    ensures KeysOf(StoredBy(limits, ops)) == StoredKeys(ops)
  {
    if ops != [] {
      StoredKeysAre(limits, ops[1..]);
      KeysConcat(StoredBy(limits, ops)[..|StoredBy(limits, ops)| - |StoredBy(limits, ops[1..])|], StoredBy(limits, ops[1..]));
    }
  }

  lemma KeysConcat(a: seq<LogEntry>, b: seq<LogEntry>)
    ensures KeysOf(a + b) == KeysOf(a) + KeysOf(b)
  {
  }

  /**
   A stored message is found exactly as long as it is not expired and fewer than `maxEntries` other
   keys have been stored since, whatever was done before and between, restarts included; and what
   is found, in memory and in the files, is what was stored.
   */
  lemma {:induction false} StoredIsFoundIff(limits: Limits, clock: int, before: seq<Op>, key: string, encoded: string, at: int,
                                            later: seq<Op>)
    requires limits.Valid() && Performable(limits, Run(EMPTY, [], clock), before + [Put(key, encoded, Stored, at)] + later)
    requires key !in StoredKeys(later)
    ensures var r := PerformAll(limits, Run(EMPTY, [], clock), before + [Put(key, encoded, Stored, at)] + later);
            && r.store.files == r.store.entries
            && (key in r.store.entries <==> r.clock < at + limits.retention && |StoredKeys(later)| < limits.maxEntries)
            && (key in r.store.entries ==> r.store.entries[key].encoded == encoded)
  {
    var start, put := Run(EMPTY, [], clock), Put(key, encoded, Stored, at);
    var ops := before + [put] + later;
    var r := PerformAll(limits, start, ops);
    EmptyRun(limits, clock);
    RefinesLog(limits, start, ops);
    LogGrows(limits, start, ops);
    var j := PutIsLogged(limits, before, put, later, r.log);
    ShownIff(limits, r.log, j, key, r.clock);
  }

  lemma {:induction false} PutIsLogged(limits: Limits, before: seq<Op>, put: Op, later: seq<Op>, log: seq<LogEntry>)
    returns (j: nat)
    requires put.Put? && put.fit.Stored? && put.key !in StoredKeys(later)
    requires log == [] + StoredBy(limits, before + [put] + later)
    ensures LastOf(log, j, put.key) && log[j].record == NewRecord(limits, put.encoded, put.at)
    ensures KeysAfter(log, j) == StoredKeys(later)
  {
    var first, rest := StoredBy(limits, before), StoredBy(limits, later);
    var entry := LogEntry(put.key, NewRecord(limits, put.encoded, put.at));
    StoredConcat(limits, before + [put], later);
    StoredConcat(limits, before, [put]);
    assert StoredBy(limits, [put]) == [entry];
    StoredKeysAre(limits, later);
    assert log == first + [entry] + rest;
    j := |first|;
    LastIs(first, entry, rest);
  }

  lemma LastIs(first: seq<LogEntry>, entry: LogEntry, rest: seq<LogEntry>)
    requires entry.key !in KeysOf(rest)
    ensures var log := first + [entry] + rest; var j := |first|;
            LastOf(log, j, entry.key) && log[j] == entry && KeysAfter(log, j) == KeysOf(rest)
  {
    var log, j := first + [entry] + rest, |first|;
    assert log[j + 1..] == rest;
    forall i | j < i < |log| ensures log[i].key != entry.key {
      assert log[i] == rest[i - j - 1];
      assert rest[i - j - 1] in rest;
    }
  }

  lemma LatestKeys(log: seq<LogEntry>, key: string)
    ensures key in Latest(log) ==> key in KeysOf(log)
  {
    if key in Latest(log) {
      var j := LatestIsLast(log, key);
      assert log[j] in log;
    }
  }

  /** A message that was never stored is not found. */
  lemma {:induction false} NeverStoredIsAbsent(limits: Limits, clock: int, ops: seq<Op>, key: string)
    requires limits.Valid() && Performable(limits, Run(EMPTY, [], clock), ops) && key !in StoredKeys(ops)
    ensures key !in PerformAll(limits, Run(EMPTY, [], clock), ops).store.entries
  {
    var r := PerformAll(limits, Run(EMPTY, [], clock), ops);
    EmptyRun(limits, clock);
    RefinesLog(limits, Run(EMPTY, [], clock), ops);
    LogGrows(limits, Run(EMPTY, [], clock), ops);
    StoredKeysAre(limits, ops);
    LatestKeys(r.log, key);
  }
}
