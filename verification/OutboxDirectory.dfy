/** The outbox directory: what its files may hold, and which of its operations a crash can lose. */
module OutboxDirectory {
  import opened Protocol

  /** A payload seen by the conflict comparison: the fields it compares and those it ignores. */
  datatype Payload = Payload(stable: string, volatile: string)

  /**
   An event as its JSON text carries it. A missing number or object is None, and so is a type
   that is not replayable. `bytes` is the length of that text and `fileIdentity` the text
   `encodeURIComponent(eventId)-encodeURIComponent(eventKey)` by which file names carry the event.
   */
  datatype Event = Event(
    version: int, kind: Option<Kind>, ts: Option<int>, accountId: string, eventId: string,
    eventKey: string, observedAt: Option<int>, payload: Option<Payload>, bytes: nat,
    fileIdentity: string)

  /** File contents: JSON of an event-shaped object, other JSON, or text that does not parse. */
  datatype Content = Json(event: Event) | OtherJson | Garbage

  /**
   File names, after the two name patterns of `load`. A record name is a number, written with
   20 digits or not (`padded`), and the rest up to ".json"; a staged name wraps a record name.
   */
  datatype FileName =
    | Final(number: nat, padded: bool, rest: string)
    | Staged(number: nat, padded: bool, rest: string, uuid: nat)
    | Alien(raw: string)

  /** The number in a name, 0 where the patterns find none. */
  function Number(name: FileName): nat { if name.Alien? then 0 else name.number }

  /** The event id in a content, "" where there is none. */
  function IdOf(content: Content): string { if content.Json? then content.event.eventId else "" }

  type Directory = map<FileName, Content>

  function FinalName(sequence: nat, e: Event): FileName { Final(sequence, true, e.fileIdentity) }

  function StagedName(sequence: nat, e: Event, uuid: nat): FileName { Staged(sequence, true, e.fileIdentity, uuid) }

  predicate SafeSequence(n: nat) { 1 <= n <= MAX_SAFE_INTEGER }

  /** `isReplayableEvent`. */
  predicate Replayable(e: Event) {
    && e.version == PROTOCOL_VERSION
    && e.kind.Some?
    && e.ts.Some?
    && e.eventId != ""
    && e.eventKey != ""
    && e.observedAt.Some?
    && e.payload.Some?
  }

  /** `sameReplayableEvent`: equal but for the ignored parts. */
  predicate SameEvent(a: Event, b: Event) {
    && a.version == b.version && a.kind == b.kind && a.accountId == b.accountId
    && a.eventId == b.eventId && a.eventKey == b.eventKey
    && a.payload.Some? == b.payload.Some?
    && (a.payload.Some? ==> a.payload.value.stable == b.payload.value.stable)
  }

  // ---------------------------------------------------------------- directory operations

  datatype DirOp =
    | Put(name: FileName, content: Content)
    | Move(from: FileName, to: FileName, content: Content)
    | Drop(name: FileName)

  function Apply(d: Directory, op: DirOp): Directory {
    match op
    case Put(name, content) => d[name := content]
    case Move(from, to, content) => (d - {from})[to := content]
    case Drop(name) => d - {name}
  }

  function ApplyAll(d: Directory, ops: seq<DirOp>): Directory {
    if ops == [] then d else Apply(ApplyAll(d, ops[..|ops| - 1]), ops[|ops| - 1])
  }

  /** The operations a crash happens to keep, in order. */
  function Kept(ops: seq<DirOp>, keep: seq<bool>): (r: seq<DirOp>)
    requires |keep| == |ops|
    ensures forall op :: op in r ==> op in ops
  {
    if ops == [] then []
    else
      var n := |ops| - 1;
      Kept(ops[..n], keep[..n]) + (if keep[n] then [ops[n]] else [])
  }

  /** The synced directory and the operations since the last directory sync. */
  datatype Disk = Disk(durable: Directory, unsynced: seq<DirOp>) {
    function View(): Directory { ApplyAll(durable, unsynced) }
    function Do(op: DirOp): Disk { this.(unsynced := unsynced + [op]) }
    function Sync(): Disk { Disk(View(), []) }
    function Crash(keep: seq<bool>): Directory
      requires |keep| == |unsynced|
    {
      ApplyAll(durable, Kept(unsynced, keep))
    }
  }

  lemma ViewDo(disk: Disk, op: DirOp)
    ensures disk.Do(op).View() == Apply(disk.View(), op)
  {
  }

  predicate Creates(op: DirOp, name: FileName, content: Content) {
    || op == Put(name, content)
    || (op.Move? && op.to == name && op.content == content)
  }

  predicate Touches(op: DirOp, name: FileName) {
    match op
    case Put(n, _) => n == name
    case Move(from, to, _) => from == name || to == name
    case Drop(n) => n == name
  }

  /** A file and content that may be there after a crash. */
  ghost predicate MayHold(disk: Disk, name: FileName, content: Content) {
    || (name in disk.durable && disk.durable[name] == content)
    || exists i :: 0 <= i < |disk.unsynced| && Creates(disk.unsynced[i], name, content)
  }

  /** Whatever is in the directory after some operations was there before or created by one of them. */
  lemma {:induction false} ApplyAllOrigin(d: Directory, ops: seq<DirOp>, name: FileName)
    requires name in ApplyAll(d, ops)
    ensures MayHold(Disk(d, ops), name, ApplyAll(d, ops)[name])
  {
    if ops != [] {
      var n := |ops| - 1;
      var before := ApplyAll(d, ops[..n]);
      var content := ApplyAll(d, ops)[name];
      if name in before && before[name] == content {
        ApplyAllOrigin(d, ops[..n], name);
        if !(name in d && d[name] == content) {
          var i :| 0 <= i < |ops[..n]| && Creates(ops[..n][i], name, content);
          assert Creates(ops[i], name, content);
        }
      } else {
        assert Creates(ops[n], name, content);
      }
    }
  }

  lemma CrashOrigin(disk: Disk, keep: seq<bool>, name: FileName)
    requires |keep| == |disk.unsynced| && name in disk.Crash(keep)
    ensures MayHold(disk, name, disk.Crash(keep)[name])
  {
    var kept := Kept(disk.unsynced, keep);
    ApplyAllOrigin(disk.durable, kept, name);
    var content := disk.Crash(keep)[name];
    if !(name in disk.durable && disk.durable[name] == content) {
      var i :| 0 <= i < |kept| && Creates(kept[i], name, content);
      assert kept[i] in disk.unsynced;
    }
  }

  lemma {:induction false} ApplyAllUntouched(d: Directory, ops: seq<DirOp>, name: FileName)
    requires name in d
    requires forall op :: op in ops ==> !Touches(op, name)
    ensures name in ApplyAll(d, ops) && ApplyAll(d, ops)[name] == d[name]
  {
    if ops != [] {
      var n := |ops| - 1;
      forall op | op in ops[..n] ensures !Touches(op, name) { assert op in ops; }
      ApplyAllUntouched(d, ops[..n], name);
      assert ops[n] in ops;
    }
  }

  lemma {:induction false} KeptAll(ops: seq<DirOp>, keep: seq<bool>)
    requires |keep| == |ops| && forall i :: 0 <= i < |keep| ==> keep[i]
    ensures Kept(ops, keep) == ops
  {
    if ops != [] {
      var n := |ops| - 1;
      KeptAll(ops[..n], keep[..n]);
      assert ops == ops[..n] + [ops[n]];
    }
  }

  lemma {:induction false} KeptNone(ops: seq<DirOp>, keep: seq<bool>)
    requires |keep| == |ops| && forall i :: 0 <= i < |keep| ==> !keep[i]
    ensures Kept(ops, keep) == []
  {
    if ops != [] {
      var n := |ops| - 1;
      KeptNone(ops[..n], keep[..n]);
    }
  }

  /** A crash may keep every operation, or none since the last sync. */
  lemma CrashExtremes(disk: Disk, keep: seq<bool>)
    requires |keep| == |disk.unsynced|
    ensures (forall i :: 0 <= i < |keep| ==> keep[i]) ==> disk.Crash(keep) == disk.View()
    ensures (forall i :: 0 <= i < |keep| ==> !keep[i]) ==> disk.Crash(keep) == disk.durable
  {
    if forall i :: 0 <= i < |keep| ==> keep[i] { KeptAll(disk.unsynced, keep); }
    if forall i :: 0 <= i < |keep| ==> !keep[i] { KeptNone(disk.unsynced, keep); }
  }

  /** After a sync every crash keeps everything. */
  lemma SyncedSurvives(disk: Disk)
    ensures disk.Sync().View() == disk.View() && disk.Sync().Crash([]) == disk.View()
  {
  }
}
