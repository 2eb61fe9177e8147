/**
 `MessageReferenceStore`: a map mirrored in files, kept to unexpired keys and at most
 `maxEntries` of them by removing the oldest. It is a view of the plain log of puts.
 */
module MessageReferences {
  import opened Protocol
  import opened Sets

  /** A stored message; its key (chat and message id) also names its file. */
  datatype Record = Record(storedAt: int, expiresAt: int, encoded: string)

  type Entries = map<string, Record>

  datatype Limits = Limits(retention: int, maxEntries: nat) {
    predicate Valid() { retention > 0 && maxEntries > 0 }
  }

  // ---------------------------------------------------------------- what is kept

  function Unexpired(m: Entries, now: int): (r: Entries)
    ensures r.Keys <= m.Keys
  {
    map k | k in m && m[k].expiresAt > now :: m[k]
  }

  /** The keys stored after `k`. */
  function Younger(m: Entries, k: string): set<string>
    requires k in m
  {
    set l | l in m && m[l].storedAt > m[k].storedAt
  }

  /** The newest `max` of a set of records. */
  function Newest(m: Entries, max: nat): (r: Entries)
    ensures r.Keys <= m.Keys
  {
    map k | k in m && |Younger(m, k)| < max :: m[k]
  }

  /** What a store with these limits shows at a time: the newest unexpired keys, each with its latest record. */
  function Shown(limits: Limits, m: Entries, now: int): Entries { Newest(Unexpired(m, now), limits.maxEntries) }

  /** No two keys were stored at the same time. */
  predicate DistinctTimes(m: Entries) {
    forall k, l :: k in m && l in m && m[k].storedAt == m[l].storedAt ==> k == l
  }

  /** Records expire in the order they were stored. */
  predicate SameRetention(limits: Limits, m: Entries) {
    forall k :: k in m ==> m[k].expiresAt == m[k].storedAt + limits.retention
  }

  lemma YoungerMonotone(m: Entries, n: Entries, k: string)
    requires k in n && (forall l :: l in n ==> l in m && m[l] == n[l])
    ensures Younger(n, k) <= Younger(m, k) && |Younger(n, k)| <= |Younger(m, k)|
  {
    SubsetSize(Younger(n, k), Younger(m, k));
  }

  /** Whatever is younger than an unexpired key is unexpired too. */
  lemma YoungerUnexpired(limits: Limits, m: Entries, k: string, now: int)
    requires SameRetention(limits, m) && k in Unexpired(m, now)
    ensures Younger(Unexpired(m, now), k) == Younger(m, k)
  {
  }

  /** The newest of the newest: keys already dropped stay dropped and do not matter. */
  lemma YoungerAmongNewest(m: Entries, max: nat, k: string)
    requires k in Newest(m, max)
    ensures Younger(Newest(m, max), k) == Younger(m, k)
  {
    forall l | l in Younger(m, k) ensures l in Newest(m, max) {
      assert Younger(m, l) <= Younger(m, k);
      SubsetSize(Younger(m, l), Younger(m, k));
    }
  }

  lemma ShownTwice(limits: Limits, m: Entries, earlier: int, now: int)
    requires SameRetention(limits, m) && earlier <= now
    ensures Shown(limits, Shown(limits, m, earlier), now) == Shown(limits, m, now)
  {
    var first := Shown(limits, m, earlier);
    var twice, once := Shown(limits, first, now), Shown(limits, m, now);
    forall k | k in once ensures k in twice && twice[k] == once[k] {
      YoungerUnexpired(limits, m, k, now);
      YoungerUnexpired(limits, m, k, earlier);
      assert k in first;
      YoungerMonotone(m, Unexpired(first, now), k);
    }
    forall k | k in twice ensures k in once {
      YoungerAmongNewest(Unexpired(m, earlier), limits.maxEntries, k);
      YoungerUnexpired(limits, m, k, earlier);
      YoungerUnexpired(limits, m, k, now);
    }
  }

  /** Putting into what is shown, or into the whole log, shows the same afterwards. */
  lemma ShownPut(limits: Limits, m: Entries, key: string, r: Record, earlier: int, now: int)
    requires SameRetention(limits, m) && earlier <= now
    requires r.storedAt == now && r.expiresAt == now + limits.retention && limits.Valid()
    requires forall k :: k in m ==> m[k].storedAt < now
    ensures Shown(limits, Shown(limits, m, earlier)[key := r], now) == Shown(limits, m[key := r], now)
  {
    var first := Shown(limits, m, earlier);
    var small, big := first[key := r], m[key := r];
    var left, right := Shown(limits, small, now), Shown(limits, big, now);
    assert SameRetention(limits, big) && SameRetention(limits, small);
    forall k | k in right ensures k in left && left[k] == right[k] {
      YoungerUnexpired(limits, big, k, now);
      if k != key {
        assert Younger(m, k) - {key} <= Younger(big, k) && key in Younger(big, k);
        PutKeepsNewest(limits, m, key, r, earlier, now, k);
        YoungerMonotone(big, Unexpired(small, now), k);
      } else {
        assert Younger(Unexpired(small, now), key) == {};
      }
    }
    forall k | k in left ensures k in right {
      YoungerUnexpired(limits, small, k, now);
      YoungerUnexpired(limits, big, k, now);
      if k != key {
        YoungerOfPut(limits, m, key, r, earlier, k);
      } else {
        assert Younger(big, key) == {};
      }
    }
  }

  /** A key that is among the newest after a put was among them before. */
  lemma PutKeepsNewest(limits: Limits, m: Entries, key: string, r: Record, earlier: int, now: int, k: string)
    requires SameRetention(limits, m) && earlier <= now && k in m && k != key
    requires r.storedAt == now && forall l :: l in m ==> m[l].storedAt < now
    requires m[k].expiresAt > now && |Younger(m[key := r], k)| < limits.maxEntries
    ensures k in Shown(limits, m, earlier)
  {
    var after := Younger(m[key := r], k);
    assert Younger(m, k) <= after;
    SubsetSize(Younger(m, k), after);
    YoungerUnexpired(limits, m, k, earlier);
  }

  lemma YoungerOfPut(limits: Limits, m: Entries, key: string, r: Record, earlier: int, k: string)
    requires SameRetention(limits, m) && k in Shown(limits, m, earlier) && k != key
    requires forall l :: l in m ==> m[l].storedAt < r.storedAt
    ensures Younger(Shown(limits, m, earlier)[key := r], k) == Younger(m[key := r], k)
  {
    YoungerAmongNewest(Unexpired(m, earlier), limits.maxEntries, k);
    YoungerUnexpired(limits, m, k, earlier);
    var first := Shown(limits, m, earlier);
    assert Younger(first, k) == Younger(m, k);
    assert Younger(first[key := r], k) == Younger(first, k) + {key};
    assert Younger(m[key := r], k) == Younger(m, k) + {key};
  }

  // ---------------------------------------------------------------- runs against the plain log

  datatype LogEntry = LogEntry(key: string, record: Record)

  /** The plain put log as a map: each key with its latest record. */
  function Latest(log: seq<LogEntry>): Entries {
    if log == [] then map[]
    else Latest(log[..|log| - 1])[log[|log| - 1].key := log[|log| - 1].record]
  }

  /** How a `put` ends: refused at once, refused after the clean-up, or stored. */
  datatype Fit = Refused | RefusedLate | Stored

  datatype Op = Put(key: string, encoded: string, fit: Fit, at: int) | Read(at: int) | Reopen(at: int)

  function NewRecord(limits: Limits, encoded: string, now: int): Record { Record(now, now + limits.retention, encoded) }

  /** The index in memory and the records in the directory. */
  datatype Mirror = Mirror(entries: Entries, files: Entries)

  /** Maintaining removes entries, and with each its file. */
  function Kept(limits: Limits, s: Mirror, now: int): Mirror {
    var shown := Shown(limits, s.entries, now);
    Mirror(shown, s.files - (s.entries.Keys - shown.Keys))
  }

  function Written(s: Mirror, key: string, r: Record): Mirror {
    Mirror(s.entries[key := r], s.files[key := r])
  }

  /** `load` in a new process: memory is what the files say, whatever it was before. */
  function Reread(s: Mirror, now: int): Mirror {
    Mirror(Unexpired(s.files, now), Unexpired(s.files, now))
  }

  /** What an operation leaves in memory and on disk. */
  function Step(limits: Limits, s: Mirror, op: Op): Mirror {
    match op
    case Put(key, encoded, fit, at) =>
      if fit.Refused? then s
      else if fit.RefusedLate? then Kept(limits, s, at)
      else Kept(limits, Written(Kept(limits, s, at), key, NewRecord(limits, encoded, at)), at)
    case Read(at) => Kept(limits, s, at)
    case Reopen(at) => Kept(limits, Reread(s, at), at)
  }

  datatype Run = Run(store: Mirror, log: seq<LogEntry>, clock: int)

  const EMPTY := Mirror(map[], map[])

  /** The clock does not go back, and each stored put comes after all earlier ones. */
  predicate InTime(r: Run, op: Op) {
    && r.clock <= op.at
    && (op.Put? && op.fit.Stored? ==> forall i :: 0 <= i < |r.log| ==> r.log[i].record.storedAt < op.at)
  }

  function Perform(limits: Limits, r: Run, op: Op): Run {
    Run(Step(limits, r.store, op),
        if op.Put? && op.fit.Stored? then r.log + [LogEntry(op.key, NewRecord(limits, op.encoded, op.at))] else r.log,
        if op.Put? && op.fit.Refused? then r.clock else op.at)
  }

  predicate Performable(limits: Limits, r: Run, ops: seq<Op>)
    decreases |ops|
  {
    ops == [] || (InTime(r, ops[0]) && Performable(limits, Perform(limits, r, ops[0]), ops[1..]))
  }

  function PerformAll(limits: Limits, r: Run, ops: seq<Op>): Run
    decreases |ops|
  {
    if ops == [] then r else PerformAll(limits, Perform(limits, r, ops[0]), ops[1..])
  }

  /** Memory and files are exactly what the log shows. */
  ghost predicate Inv(limits: Limits, r: Run) {
    && r.store.entries == r.store.files == Shown(limits, Latest(r.log), r.clock)
    && SameRetention(limits, Latest(r.log)) && DistinctTimes(Latest(r.log))
    && (forall k :: k in Latest(r.log) ==> exists i :: 0 <= i < |r.log| && r.log[i].record == Latest(r.log)[k])
  }

  lemma UnexpiredTwice(limits: Limits, m: Entries, now: int)
    ensures Shown(limits, Unexpired(m, now), now) == Shown(limits, m, now)
  {
    assert Unexpired(Unexpired(m, now), now) == Unexpired(m, now);
  }

  /** Equal maps stay equal. */
  lemma KeptMirrors(limits: Limits, m: Entries, now: int)
    ensures Kept(limits, Mirror(m, m), now) == Mirror(Shown(limits, m, now), Shown(limits, m, now))
  {
  }

  lemma StepMirrors(limits: Limits, m: Entries, op: Op)
    ensures Step(limits, Mirror(m, m), op).entries == Step(limits, Mirror(m, m), op).files
    ensures Step(limits, Mirror(m, m), op).entries ==
            if op.Put? && op.fit.Refused? then m
            else if op.Put? && op.fit.Stored?
            then Shown(limits, Shown(limits, m, op.at)[op.key := NewRecord(limits, op.encoded, op.at)], op.at)
            else Shown(limits, m, op.at)
  {
    var shown := Shown(limits, m, op.at);
    KeptMirrors(limits, m, op.at);
    if op.Put? {
      KeptMirrors(limits, shown[op.key := NewRecord(limits, op.encoded, op.at)], op.at);
    } else {
      KeptMirrors(limits, Unexpired(m, op.at), op.at);
      UnexpiredTwice(limits, m, op.at);
    }
  }

  lemma PutKeepsInv(limits: Limits, r: Run, op: Op)
    requires limits.Valid() && Inv(limits, r) && InTime(r, op) && op.Put? && op.fit.Stored?
    ensures Inv(limits, Perform(limits, r, op))
  {
    var m, now := Latest(r.log), op.at;
    var record := NewRecord(limits, op.encoded, now);
    var log := r.log + [LogEntry(op.key, record)];
    assert log[..|log| - 1] == r.log;
    StepMirrors(limits, r.store.entries, op);
    ShownTwice(limits, m, r.clock, now);
    ShownPut(limits, m, op.key, record, now, now);
    forall k | k in Latest(log) ensures exists i :: 0 <= i < |log| && log[i].record == Latest(log)[k] {
      if k == op.key {
        assert log[|r.log|].record == record;
      } else {
        var i :| 0 <= i < |r.log| && r.log[i].record == m[k];
        assert log[i].record == m[k];
      }
    }
  }

  lemma OpKeepsInv(limits: Limits, r: Run, op: Op)
    requires limits.Valid() && Inv(limits, r) && InTime(r, op)
    ensures Inv(limits, Perform(limits, r, op))
  {
    if op.Put? && op.fit.Stored? {
      PutKeepsInv(limits, r, op);
    } else {
      StepMirrors(limits, r.store.entries, op);
      ShownTwice(limits, Latest(r.log), r.clock, op.at);
    }
  }

  /**
   The index refines the log. After any run of puts, reads and reopenings, with no two puts at
   the same time, memory and files hold exactly the newest `maxEntries` unexpired keys of the
   plain put log, each with its latest record.
   */
  lemma {:induction false} RefinesLog(limits: Limits, r: Run, ops: seq<Op>)
    requires limits.Valid() && Inv(limits, r) && Performable(limits, r, ops)
    ensures Inv(limits, PerformAll(limits, r, ops))
    decreases |ops|
  {
    if ops != [] {
      OpKeepsInv(limits, r, ops[0]);
      RefinesLog(limits, Perform(limits, r, ops[0]), ops[1..]);
    }
  }

  lemma EmptyRun(limits: Limits, clock: int)
    ensures Inv(limits, Run(EMPTY, [], clock))
  {
  }

  /** And never more than `maxEntries` of them. */
  lemma {:induction false} NewestIsSmall(m: Entries, max: nat, keys: set<string>)
    requires DistinctTimes(m) && keys <= Newest(m, max).Keys
    ensures |keys| <= max
  {
    if keys != {} {
      var k := OldestOf(m, keys);
      assert keys - {k} <= Younger(m, k) by {
        forall l | l in keys - {k} ensures l in Younger(m, k) { assert m[l].storedAt != m[k].storedAt; }
      }
      SubsetSize(keys - {k}, Younger(m, k));
    }
  }

  /**
   From an empty directory, after any run of puts, reads and restarts that read the files back:
   memory and files are equal, and hold the newest unexpired keys of the log, each with its
   latest value, and at most `maxEntries` of them.
   */
  lemma {:induction false} StoreShowsLog(limits: Limits, clock: int, ops: seq<Op>)
    requires limits.Valid() && Performable(limits, Run(EMPTY, [], clock), ops)
    ensures var r := PerformAll(limits, Run(EMPTY, [], clock), ops);
            && r.store.entries == r.store.files == Shown(limits, Latest(r.log), r.clock)
            && |r.store.entries| <= limits.maxEntries
  {
    EmptyRun(limits, clock);
    RefinesLog(limits, Run(EMPTY, [], clock), ops);
    var r := PerformAll(limits, Run(EMPTY, [], clock), ops);
    NewestIsSmall(Unexpired(Latest(r.log), r.clock), limits.maxEntries, r.store.entries.Keys);
  }

  lemma {:induction false} OldestOf(m: Entries, keys: set<string>) returns (k: string)
    requires keys != {} && keys <= m.Keys
    ensures k in keys && forall l :: l in keys ==> m[k].storedAt <= m[l].storedAt
  {
    var x :| x in keys;
    if keys == {x} {
      k := x;
    } else {
      var y := OldestOf(m, keys - {x});
      k := if m[x].storedAt < m[y].storedAt then x else y;
    }
  }

  /** The keys other than `k` stored no earlier than it. */
  function NotOlder(m: Entries, k: string): set<string>
    requires k in m
  {
    set l | l in m && l != k && m[l].storedAt >= m[k].storedAt
  }

  /**
   The eviction loop half way: what is gone is no newer than what is left, and had at least `max`
   keys no older than itself. Which of several equally old keys goes first is left open.
   */
  ghost predicate Evicting(all: Entries, m: Entries, max: nat) {
    && (forall k :: k in m ==> k in all && m[k] == all[k])
    && (forall k, l :: k in all && k !in m && l in m ==> all[k].storedAt <= all[l].storedAt)
    && (forall k :: k in all && k !in m ==> |NotOlder(all, k)| >= max)
  }

  /** What `maintain` may leave of the entries. */
  ghost predicate Maintained(limits: Limits, m: Entries, kept: Entries, now: int) {
    Evicting(Unexpired(m, now), kept, limits.maxEntries) && |kept| <= limits.maxEntries
  }

  lemma EvictStep(all: Entries, m: Entries, max: nat, oldest: string)
    requires Evicting(all, m, max) && |m| > max
    requires oldest in m && forall l :: l in m ==> m[oldest].storedAt <= m[l].storedAt
    ensures Evicting(all, m - {oldest}, max)
  {
    assert m.Keys - {oldest} <= NotOlder(all, oldest);
    SubsetSize(m.Keys - {oldest}, NotOlder(all, oldest));
  }

  lemma NotOlderIsYounger(all: Entries, k: string)
    requires DistinctTimes(all) && k in all
    ensures NotOlder(all, k) == Younger(all, k)
  {
  }

  lemma EvictDone(all: Entries, m: Entries, max: nat)
    requires Evicting(all, m, max) && |m| <= max && DistinctTimes(all)
    ensures m == Newest(all, max)
  {
    forall k | k in all ensures k in m <==> |Younger(all, k)| < max {
      if k in m {
        YoungerIsLeft(all, m, max, k);
      } else {
        NotOlderIsYounger(all, k);
      }
    }
  }

  /** With no two keys stored at one time, maintaining leaves exactly what is shown. */
  lemma MaintainedIsShown(limits: Limits, m: Entries, kept: Entries, now: int)
    requires Maintained(limits, m, kept, now) && DistinctTimes(m)
    ensures kept == Shown(limits, m, now)
  {
    EvictDone(Unexpired(m, now), kept, limits.maxEntries);
  }

  /** What a put may leave: refused, or stored between two rounds of maintenance. */
  ghost predicate PutLeaves(limits: Limits, m: Entries, after: Entries, key: string, r: Record, fit: Fit, now: int) {
    match fit
    case Refused => after == m
    case RefusedLate => Maintained(limits, m, after, now)
    case Stored => exists kept :: Maintained(limits, m, kept, now) && Maintained(limits, kept[key := r], after, now)
  }

  /** With no two keys stored at one time, and the put later than all of them, it is the step of the runs above. */
  lemma PutIsStep(limits: Limits, m: Entries, after: Entries, key: string, encoded: string, fit: Fit, now: int)
    requires PutLeaves(limits, m, after, key, NewRecord(limits, encoded, now), fit, now)
    requires DistinctTimes(m) && forall k :: k in m ==> m[k].storedAt < now
    ensures Mirror(after, after) == Step(limits, Mirror(m, m), Put(key, encoded, fit, now))
  {
    var r := NewRecord(limits, encoded, now);
    StepMirrors(limits, m, Put(key, encoded, fit, now));
    match fit {
      case Refused =>
      case RefusedLate => MaintainedIsShown(limits, m, after, now);
      case Stored =>
        var kept :| Maintained(limits, m, kept, now) && Maintained(limits, kept[key := r], after, now);
        StoredIsShown(limits, m, kept, after, key, r, now);
    }
  }

  lemma StoredIsShown(limits: Limits, m: Entries, kept: Entries, after: Entries, key: string, r: Record, now: int)
    requires Maintained(limits, m, kept, now) && Maintained(limits, kept[key := r], after, now)
    requires DistinctTimes(m) && r.storedAt == now && forall k :: k in m ==> m[k].storedAt < now
    ensures after == Shown(limits, Shown(limits, m, now)[key := r], now)
  {
    MaintainedIsShown(limits, m, kept, now);
    PutKeepsDistinct(m, kept, key, r);
    MaintainedIsShown(limits, kept[key := r], after, now);
  }

  lemma PutKeepsDistinct(m: Entries, kept: Entries, key: string, r: Record)
    requires DistinctTimes(m) && forall k :: k in kept ==> k in m && kept[k] == m[k]
    requires forall k :: k in m ==> m[k].storedAt < r.storedAt
    ensures DistinctTimes(kept[key := r])
  {
  }

  lemma YoungerIsLeft(all: Entries, m: Entries, max: nat, k: string)
    requires Evicting(all, m, max) && k in m
    ensures |Younger(all, k)| < |m|
  {
    assert Younger(all, k) <= m.Keys - {k};
    SubsetSize(Younger(all, k), m.Keys - {k});
  }

  // ---------------------------------------------------------------- the class

  class Store {
    const limits: Limits
    var entries: Entries
    var files: Entries

    ghost predicate Valid()
      reads this
    {
      limits.Valid() && files == entries
    }

    /** A store in a new process, on a directory that may already hold records. */
    constructor (limits: Limits, files: Entries)
      requires limits.Valid()
      ensures entries == map[] && this.files == files && this.limits == limits
    {
      this.limits := limits;
      this.entries, this.files := map[], files;
    }

    method Remove(key: string)
      modifies this`entries, this`files
      ensures entries == old(entries) - {key}
      ensures files == if key in old(entries) then old(files) - {key} else old(files)
    {
      if key !in entries {
        return;
      }
      files := files - {key};
      entries := entries - {key};
    }

    method Oldest() returns (key: string)
      requires entries != map[]
      ensures key in entries && forall l :: l in entries ==> entries[key].storedAt <= entries[l].storedAt
    {
      key :| key in entries;
      var rest := entries.Keys - {key};
      while rest != {}
        invariant rest <= entries.Keys && key in entries
        invariant forall l :: l in entries && l !in rest ==> entries[key].storedAt <= entries[l].storedAt
        decreases |rest|
      {
        var l :| l in rest;
        if entries[l].storedAt < entries[key].storedAt {
          key := l;
        }
        rest := rest - {l};
      }
    }

    /** The first loop of `maintain`. */
    method DropExpired(now: int)
      requires Valid()
      modifies this`entries, this`files
      ensures Valid() && entries == Unexpired(old(entries), now)
    {
      var rest := entries.Keys;
      while rest != {}
        invariant rest <= old(entries).Keys && files == entries
        invariant forall k :: k in entries ==> k in old(entries) && entries[k] == old(entries)[k]
        invariant forall k :: k in old(entries) ==> (k in entries <==> k in rest || old(entries)[k].expiresAt > now)
        decreases |rest|
      {
        var k :| k in rest;
        rest := rest - {k};
        if entries[k].expiresAt <= now {
          Remove(k);
        }
      }
    }

    /** The second loop of `maintain`: remove the oldest until few enough are left. */
    method Evict()
      requires Valid()
      modifies this`entries, this`files
      ensures Valid() && Evicting(old(entries), entries, limits.maxEntries) && |entries| <= limits.maxEntries
    {
      ghost var all := entries;
      while |entries| > limits.maxEntries
        invariant Valid() && Evicting(all, entries, limits.maxEntries)
        decreases |entries|
      {
        var oldest := Oldest();
        EvictStep(all, entries, limits.maxEntries, oldest);
        Remove(oldest);
      }
    }

    method Maintain(now: int)
      requires Valid()
      modifies this`entries, this`files
      ensures Valid() && Maintained(limits, old(entries), entries, now)
      ensures DistinctTimes(old(entries)) ==> entries == Shown(limits, old(entries), now)
    {
      ghost var before := entries;
      DropExpired(now);
      Evict();
      if DistinctTimes(before) {
        MaintainedIsShown(limits, before, entries, now);
      }
    }

    /** `put`; `fit` says whether key, encoding and sizes pass. */
    method PutMessage(key: string, encoded: string, fit: Fit, now: int) returns (stored: bool)
      requires Valid()
      modifies this`entries, this`files
      ensures Valid() && stored == fit.Stored?
      ensures PutLeaves(limits, old(entries), entries, key, NewRecord(limits, encoded, now), fit, now)
    {
      if fit.Refused? {
        return false;
      }
      ghost var before := entries;
      Maintain(now);
      if fit.RefusedLate? {
        return false;
      }
      ghost var kept := entries;
      var record := NewRecord(limits, encoded, now);
      files := files[key := record];
      entries := entries[key := record];
      Maintain(now);
      assert Maintained(limits, before, kept, now) && Maintained(limits, kept[key := record], entries, now);
      return true;
    }

    method GetMessage(key: string, now: int) returns (found: Option<string>)
      requires Valid()
      modifies this`entries, this`files
      ensures Valid() && Maintained(limits, old(entries), entries, now)
      ensures DistinctTimes(old(entries)) ==>
                Mirror(entries, files) == Step(limits, old(Mirror(entries, files)), Read(now))
      ensures found == if key in entries then Some(entries[key].encoded) else None
    {
      StepMirrors(limits, entries, Read(now));
      Maintain(now);
      found := if key in entries then Some(entries[key].encoded) else None;
    }

    /** `load` in a new process: whatever memory was, it is rebuilt from the files, and expired files go. */
    method Load(now: int)
      requires limits.Valid()
      modifies this`entries, this`files
      ensures Valid() && Maintained(limits, old(files), entries, now)
      ensures DistinctTimes(old(files)) ==>
                Mirror(entries, files) == Step(limits, old(Mirror(entries, files)), Reopen(now))
    {
      ghost var before := files;
      entries := Unexpired(files, now);
      files := entries;
      UnexpiredTwice(limits, before, now);
      assert Unexpired(entries, now) == Unexpired(before, now);
      KeptMirrors(limits, entries, now);
      Maintain(now);
    }
  }
}
