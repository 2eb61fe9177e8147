/** How a restart reads the outbox directory back. */
module OutboxLoad {
  import opened Protocol
  import opened OutboxDirectory

  datatype Reason =
    | MalformedFilename | SequenceOverflow | MalformedJson | NonReplayable
    | IdentityMismatch | DuplicateSequence | DuplicateEvent

  datatype Verdict = Loaded | Quarantined(reason: Reason) | SizeRejected

  datatype Entry = Entry(sequence: nat, file: FileName, event: Event)

  /** The checks of `load` that look at one file alone; None when it passes them. */
  function Fault(name: FileName, content: Content): Option<Verdict> {
    if name.Alien? then Some(Quarantined(MalformedFilename))
    else if !SafeSequence(name.number) then Some(Quarantined(SequenceOverflow))
    else if content.Garbage? then Some(Quarantined(MalformedJson))
    else if content.OtherJson? || !Replayable(content.event) then Some(Quarantined(NonReplayable))
    else if !name.padded || name.rest != content.event.fileIdentity then Some(Quarantined(IdentityMismatch))
    else if content.event.bytes > MAX_BRIDGE_FRAME_BYTES then Some(SizeRejected)
    else None
  }

  predicate Loadable(name: FileName, content: Content) { Fault(name, content).None? }

  /** The file has the name that an append gives to a record of the event, final or staged. */
  ghost predicate NamedAfter(name: FileName, e: Event) {
    (exists n: nat :: name == FinalName(n, e)) || exists n: nat, uuid: nat :: name == StagedName(n, e, uuid)
  }

  /** A file is accepted, as far as it alone is concerned, exactly when it is a record as an append writes it. */
  lemma LoadableIff(name: FileName, content: Content)
    ensures Loadable(name, content) <==>
            && content.Json? && Replayable(content.event) && content.event.bytes <= MAX_BRIDGE_FRAME_BYTES
            && NamedAfter(name, content.event) && SafeSequence(Number(name))
  {
    if Loadable(name, content) {
      var e := content.event;
      if name.Final? {
        assert name == FinalName(name.number, e);
      } else {
        assert name == StagedName(name.number, e, name.uuid);
      }
    }
  }

  /** A file is size-rejected exactly when only its size is wrong; every other bad file is quarantined. */
  lemma RejectedIs(name: FileName, content: Content)
    ensures Fault(name, content) == Some(SizeRejected) <==>
            && content.Json? && content.event.bytes > MAX_BRIDGE_FRAME_BYTES
            && Loadable(name, Json(content.event.(bytes := 0)))
    ensures !Loadable(name, content) && Fault(name, content) != Some(SizeRejected) ==>
            Fault(name, content).value.Quarantined?
  {
  }

  /** A directory entry as the load loop meets it. */
  datatype File = File(name: FileName, content: Content)

  /** The state of the load loop: accepted entries in order, and the verdict on each file seen. */
  datatype LoadState = LoadState(loaded: seq<Entry>, verdicts: map<FileName, Verdict>)

  predicate HasSequence(loaded: seq<Entry>, n: nat) { exists e :: e in loaded && e.sequence == n }

  predicate HasEvent(loaded: seq<Entry>, id: string) { exists e :: e in loaded && e.event.eventId == id }

  predicate HasFile(loaded: seq<Entry>, name: FileName) { exists e :: e in loaded && e.file == name }

  function LoadFile(s: LoadState, f: File): LoadState {
    var fault := Fault(f.name, f.content);
    if fault.Some? then s.(verdicts := s.verdicts[f.name := fault.value])
    else if HasSequence(s.loaded, f.name.number) then
      s.(verdicts := s.verdicts[f.name := Quarantined(DuplicateSequence)])
    else if HasEvent(s.loaded, f.content.event.eventId) then
      s.(verdicts := s.verdicts[f.name := Quarantined(DuplicateEvent)])
    else
      LoadState(s.loaded + [Entry(f.name.number, f.name, f.content.event)], s.verdicts[f.name := Loaded])
  }

  /** The loop of `load` over a listing of the directory. */
  function LoadAll(files: seq<File>): LoadState {
    if files == [] then LoadState([], map[])
    else LoadFile(LoadAll(files[..|files| - 1]), files[|files| - 1])
  }

  predicate NoRepeat(files: seq<File>) {
    forall i, j :: 0 <= i < j < |files| ==> files[i].name != files[j].name
  }

  predicate StagedLast(files: seq<File>) {
    forall i, j :: 0 <= i < j < |files| ==> !(files[i].name.Staged? && files[j].name.Final?)
  }

  /** A listing of a directory as `load` sorts it: every file once, dot files last. */
  ghost predicate IsListing(files: seq<File>, d: Directory) {
    && (forall f :: f in files ==> f.name in d && d[f.name] == f.content)
    && (forall name :: name in d ==> File(name, d[name]) in files)
    && NoRepeat(files)
    && StagedLast(files)
  }

  function EntriesOf(loaded: seq<Entry>): (m: map<string, Entry>)
    ensures forall id :: id in m ==> m[id] in loaded && m[id].event.eventId == id
    ensures forall e :: e in loaded ==> e.event.eventId in m
  {
    if loaded == [] then map[]
    else var n := |loaded| - 1; EntriesOf(loaded[..n])[loaded[n].event.eventId := loaded[n]]
  }

  /** `max(nextSequence, entry.sequence + 1)` over the entries, starting from 1. */
  function NextAfter(loaded: seq<Entry>): (n: nat)
    ensures 1 <= n
    ensures forall e :: e in loaded ==> e.sequence < n
  {
    if loaded == [] then 1
    else
      var k := |loaded| - 1;
      var before := NextAfter(loaded[..k]);
      if before < loaded[k].sequence + 1 then loaded[k].sequence + 1 else before
  }

  /** The directory a load leaves behind: only accepted files. */
  function Survivors(s: LoadState, d: Directory): Directory {
    map name | name in d && name in s.verdicts && s.verdicts[name].Loaded? :: d[name]
  }

  predicate Distinct(loaded: seq<Entry>) {
    forall i, j :: 0 <= i < j < |loaded| ==>
      && loaded[i].sequence != loaded[j].sequence
      && loaded[i].event.eventId != loaded[j].event.eventId
  }

  /** An accepted entry is what a loadable file says. */
  predicate Sound(e: Entry) {
    Loadable(e.file, Json(e.event)) && e.file.number == e.sequence
  }

  function Source(e: Entry): File { File(e.file, Json(e.event)) }

  predicate HasName(files: seq<File>, name: FileName) { exists f :: f in files && f.name == name }

  /** What holds of the loop state after any files. */
  ghost predicate LoadInvariant(files: seq<File>, s: LoadState) {
    && (forall name :: name in s.verdicts <==> HasName(files, name))
    && Distinct(s.loaded)
    && (forall e :: e in s.loaded ==> Sound(e) && Source(e) in files)
    && (forall name :: name in s.verdicts ==> (s.verdicts[name] == Loaded <==> HasFile(s.loaded, name)))
  }

  lemma HasFileAppend(loaded: seq<Entry>, added: Entry, name: FileName)
    ensures HasFile(loaded + [added], name) <==> HasFile(loaded, name) || added.file == name
  {
  }

  lemma HasNameAppend(files: seq<File>, f: File, name: FileName)
    ensures HasName(files + [f], name) <==> HasName(files, name) || f.name == name
  {
  }

  lemma DistinctAppend(loaded: seq<Entry>, added: Entry)
    requires Distinct(loaded)
    requires !HasSequence(loaded, added.sequence) && !HasEvent(loaded, added.event.eventId)
    ensures Distinct(loaded + [added])
  {
  }

  lemma DistinctMeansEqual(loaded: seq<Entry>, x: Entry, y: Entry)
    requires Distinct(loaded) && x in loaded && y in loaded
    requires x.sequence == y.sequence || x.event.eventId == y.event.eventId
    ensures x == y
  {
  }

  lemma LoadFileKeepsInvariant(files: seq<File>, s: LoadState, f: File)
    requires LoadInvariant(files, s) && !HasName(files, f.name)
    ensures LoadInvariant(files + [f], LoadFile(s, f))
  {
    var t := LoadFile(s, f);
    forall name ensures HasName(files + [f], name) <==> HasName(files, name) || f.name == name {
      HasNameAppend(files, f, name);
    }
    assert forall g :: g in files ==> g in files + [f];
    if t.loaded == s.loaded {
      forall e | e in s.loaded ensures e.file != f.name {
        assert Source(e) in files && Source(e).name == e.file;
      }
    } else {
      var added := Entry(f.name.number, f.name, f.content.event);
      DistinctAppend(s.loaded, added);
      assert Source(added) == f && f in files + [f];
      forall x | x in t.verdicts ensures t.verdicts[x] == Loaded <==> HasFile(t.loaded, x) {
        HasFileAppend(s.loaded, added, x);
      }
    }
  }

  lemma LastNameIsNew(files: seq<File>)
    requires files != [] && NoRepeat(files)
    ensures !HasName(files[..|files| - 1], files[|files| - 1].name)
    ensures NoRepeat(files[..|files| - 1])
  {
  }

  /**
   Every file gets exactly one verdict; the accepted entries have distinct sequences and
   distinct event ids, match their files, and are exactly the files with verdict Loaded.
   */
  lemma {:induction false} LoadKeepsInvariant(files: seq<File>)
    requires NoRepeat(files)
    ensures LoadInvariant(files, LoadAll(files))
  {
    if files != [] {
      var n := |files| - 1;
      LastNameIsNew(files);
      LoadKeepsInvariant(files[..n]);
      LoadFileKeepsInvariant(files[..n], LoadAll(files[..n]), files[n]);
      assert files[..n] + [files[n]] == files;
    }
  }

  lemma {:induction false} LoadedPrefix(files: seq<File>, k: nat)
    requires k <= |files|
    ensures LoadAll(files[..k]).loaded <= LoadAll(files).loaded
  {
    if k == |files| {
      assert files[..k] == files;
    } else {
      var n := |files| - 1;
      LoadedPrefix(files[..n], k);
      assert files[..n][..k] == files[..k];
    }
  }

  lemma {:induction false} PrefixOfNoRepeat(files: seq<File>, k: nat)
    requires k <= |files| && NoRepeat(files)
    ensures NoRepeat(files[..k])
  {
  }

  /** A file that could keep file `f`, holding event `id`, from being accepted. */
  predicate Beats(g: FileName, c: Content, f: FileName, id: string) {
    && g != f && Loadable(g, c)
    && Number(g) == Number(f) && c.event.eventId != id
    && !(f.Final? && g.Staged?)
  }

  lemma UnbeatenStep(seen: seq<File>, s: LoadState, f: File)
    requires LoadInvariant(seen, s) && !HasName(seen, f.name)
    requires Loadable(f.name, f.content)
    requires forall g :: g in seen ==>
               && !Beats(g.name, g.content, f.name, f.content.event.eventId)
               && !(g.name.Staged? && f.name.Final?)
    ensures HasEvent(LoadFile(s, f).loaded, f.content.event.eventId)
  {
  }

  /** Files listed before position k, seen from the file at k. */
  lemma SeenBefore(files: seq<File>, d: Directory, k: nat)
    requires IsListing(files, d) && k < |files|
    ensures !HasName(files[..k], files[k].name)
    ensures forall g :: g in files[..k] ==>
              g.name in d && d[g.name] == g.content && !(g.name.Staged? && files[k].name.Final?)
  {
  }

  lemma UnbeatenAt(files: seq<File>, d: Directory, k: nat)
    requires IsListing(files, d) && k < |files| && Loadable(files[k].name, files[k].content)
    requires forall g :: g in d ==> !Beats(g, d[g], files[k].name, files[k].content.event.eventId)
    ensures HasEvent(LoadFile(LoadAll(files[..k]), files[k]).loaded, files[k].content.event.eventId)
  {
    PrefixOfNoRepeat(files, k);
    LoadKeepsInvariant(files[..k]);
    SeenBefore(files, d, k);
    UnbeatenStep(files[..k], LoadAll(files[..k]), files[k]);
  }

  lemma HasEventLater(files: seq<File>, k: nat, id: string)
    requires k < |files| && HasEvent(LoadFile(LoadAll(files[..k]), files[k]).loaded, id)
    ensures HasEvent(LoadAll(files).loaded, id)
  {
    assert files[..k + 1][..k] == files[..k];
    LoadedPrefix(files, k + 1);
    var e :| e in LoadAll(files[..k + 1]).loaded && e.event.eventId == id;
    assert e in LoadAll(files).loaded;
  }

  /**
   A loadable record that no other file of the directory beats is accepted, or another record
   of the same event is: either way a restart knows the event.
   */
  lemma UnbeatenIsLoaded(files: seq<File>, d: Directory, f: FileName)
    requires IsListing(files, d)
    requires f in d && Loadable(f, d[f])
    requires forall g :: g in d ==> !Beats(g, d[g], f, d[f].event.eventId)
    ensures HasEvent(LoadAll(files).loaded, d[f].event.eventId)
  {
    assert File(f, d[f]) in files;
    var k :| 0 <= k < |files| && files[k] == File(f, d[f]);
    UnbeatenAt(files, d, k);
    HasEventLater(files, k, d[f].event.eventId);
  }

  /** The converse: a beating file listed first costs the event its only record. */
  lemma BeatenCanBeLost(files: seq<File>, d: Directory, f: FileName, g: FileName)
    requires IsListing(files, d)
    requires f in d && Loadable(f, d[f]) && g in d && Beats(g, d[g], f, d[f].event.eventId)
    requires files[0] == File(g, d[g])
    requires forall h :: h in d && h != f && Loadable(h, d[h]) ==> d[h].event.eventId != d[f].event.eventId
    ensures !HasEvent(LoadAll(files).loaded, d[f].event.eventId)
  {
    LoadKeepsInvariant(files);
    LoadedPrefix(files, 1);
    var first := Entry(g.number, g, d[g].event);
    assert files[..1] == [files[0]] && files[..1][..0] == [];
    assert LoadAll(files[..1]) == LoadFile(LoadState([], map[]), files[0]);
    assert LoadAll(files[..1]).loaded == [first];
    var loaded := LoadAll(files).loaded;
    assert loaded[0] == first;
    forall e | e in loaded ensures e.event.eventId != d[f].event.eventId {
      assert Source(e) in files && Sound(e);
      if e.file == f {
        DistinctMeansEqual(loaded, e, first);
      }
    }
  }

  /** Two final files that cannot both be accepted. */
  predicate Rivals(g: FileName, c: Content, f: FileName, id: string) {
    g != f && g.Final? && Loadable(g, c) && (Number(g) == Number(f) || c.event.eventId == id)
  }

  lemma {:induction false} RivallessStep(seen: seq<File>, s: LoadState, f: File)
    requires LoadInvariant(seen, s) && !HasName(seen, f.name) && Loadable(f.name, f.content)
    requires forall g :: g in seen ==>
               !Rivals(g.name, g.content, f.name, f.content.event.eventId) && !g.name.Staged?
    ensures HasFile(LoadFile(s, f).loaded, f.name)
  {
  }

  /**
   A final file wins over staged copies: unless another final file has its number or its event,
   it is the one that is accepted, whatever staged files are there.
   */
  lemma {:induction false} FinalWins(files: seq<File>, d: Directory, f: FileName)
    requires IsListing(files, d) && f in d && f.Final? && Loadable(f, d[f])
    requires forall g :: g in d ==> !Rivals(g, d[g], f, d[f].event.eventId)
    ensures HasFile(LoadAll(files).loaded, f) && f in LoadAll(files).verdicts && LoadAll(files).verdicts[f] == Loaded
  {
    assert File(f, d[f]) in files;
    var k :| 0 <= k < |files| && files[k] == File(f, d[f]);
    PrefixOfNoRepeat(files, k);
    LoadKeepsInvariant(files[..k]);
    SeenBefore(files, d, k);
    RivallessStep(files[..k], LoadAll(files[..k]), files[k]);
    assert files[..k + 1][..k] == files[..k];
    LoadedPrefix(files, k + 1);
    var e :| e in LoadAll(files[..k + 1]).loaded && e.file == f;
    assert e in LoadAll(files).loaded;
    LoadKeepsInvariant(files);
  }

  ghost predicate AllLoadable(files: seq<File>) { forall f :: f in files ==> Loadable(f.name, f.content) }

  predicate NoClash(files: seq<File>) {
    forall i, j :: 0 <= i < j < |files| ==>
      && Number(files[i].name) != Number(files[j].name)
      && IdOf(files[i].content) != IdOf(files[j].content)
  }

  function EntryOf(f: File): (e: Entry)
    requires Loadable(f.name, f.content)
    ensures Source(e) == f && Sound(e)
  {
    Entry(f.name.number, f.name, f.content.event)
  }

  ghost predicate LoadedAll(files: seq<File>, loaded: seq<Entry>) {
    |loaded| == |files| && forall i :: 0 <= i < |files| ==> Source(loaded[i]) == files[i] && Sound(loaded[i])
  }

  lemma CleanStep(files: seq<File>, s: LoadState)
    requires files != [] && NoClash(files) && Loadable(files[|files| - 1].name, files[|files| - 1].content)
    requires LoadedAll(files[..|files| - 1], s.loaded)
    ensures LoadFile(s, files[|files| - 1]).loaded == s.loaded + [EntryOf(files[|files| - 1])]
  {
  }

  /** When all files are loadable with distinct sequences and ids, all are accepted in any order. */
  lemma {:induction false} CleanLoadsAll(files: seq<File>)
    requires AllLoadable(files) && NoClash(files)
    ensures LoadedAll(files, LoadAll(files).loaded)
  {
    if files != [] {
      var n := |files| - 1;
      assert forall f :: f in files[..n] ==> f in files;
      assert files[n] in files;
      CleanLoadsAll(files[..n]);
      CleanStep(files, LoadAll(files[..n]));
    }
  }

  lemma SameElementsSameEntries(a: seq<Entry>, b: seq<Entry>)
    requires Distinct(a) && forall e :: e in a <==> e in b
    ensures EntriesOf(a) == EntriesOf(b)
  {
  }

  /** What a load leaves behind are the sources of what it loaded. */
  lemma SurvivorsAreSources(files: seq<File>, d: Directory, again: seq<File>)
    requires IsListing(files, d)
    requires IsListing(again, Survivors(LoadAll(files), d))
    ensures forall f :: f in again <==> exists e :: e in LoadAll(files).loaded && Source(e) == f
  {
    LoadKeepsInvariant(files);
    var s := LoadAll(files);
    forall f | f in again ensures exists e :: e in s.loaded && Source(e) == f {
      var e :| e in s.loaded && e.file == f.name;
      assert Source(e) in files;
    }
    forall e | e in s.loaded ensures Source(e) in again {
      assert Source(e) in files && HasFile(s.loaded, e.file) && HasName(files, e.file);
      assert e.file in Survivors(s, d);
    }
  }

  lemma SurvivorsAreClean(files: seq<File>, d: Directory, again: seq<File>)
    requires IsListing(files, d)
    requires IsListing(again, Survivors(LoadAll(files), d))
    ensures forall f :: f in again <==> exists e :: e in LoadAll(files).loaded && Source(e) == f
    ensures AllLoadable(again) && NoClash(again)
  {
    LoadKeepsInvariant(files);
    var s := LoadAll(files);
    SurvivorsAreSources(files, d, again);
    forall i, j | 0 <= i < j < |again|
      ensures Number(again[i].name) != Number(again[j].name) && IdOf(again[i].content) != IdOf(again[j].content)
    {
      var x :| x in s.loaded && Source(x) == again[i];
      var y :| y in s.loaded && Source(y) == again[j];
      if x.sequence == y.sequence || x.event.eventId == y.event.eventId {
        DistinctMeansEqual(s.loaded, x, y);
      }
    }
  }

  lemma SameSources(s: seq<Entry>, files: seq<File>, t: seq<Entry>)
    requires forall e :: e in s ==> Sound(e)
    requires forall f :: f in files <==> exists e :: e in s && Source(e) == f
    requires LoadedAll(files, t)
    ensures forall e :: e in s <==> e in t
  {
    forall e | e in s ensures e in t {
      assert Source(e) in files;
      var i :| 0 <= i < |files| && files[i] == Source(e);
      assert t[i] == e;
    }
    forall e | e in t ensures e in s {
      var i :| 0 <= i < |t| && t[i] == e;
      assert files[i] in files;
      var x :| x in s && Source(x) == files[i];
      assert x == e;
    }
  }

  lemma LoadedAllHasFile(files: seq<File>, loaded: seq<Entry>, f: File)
    requires LoadedAll(files, loaded) && f in files
    ensures HasFile(loaded, f.name)
  {
    var i :| 0 <= i < |files| && files[i] == f;
    assert loaded[i] in loaded;
  }

  lemma SurvivesAt(files: seq<File>, d: Directory, s: LoadState, name: FileName)
    requires IsListing(files, d) && LoadInvariant(files, s) && LoadedAll(files, s.loaded) && name in d
    ensures name in s.verdicts && s.verdicts[name].Loaded?
  {
    assert File(name, d[name]) in files && HasName(files, name);
    LoadedAllHasFile(files, s.loaded, File(name, d[name]));
  }

  lemma AllSurvive(files: seq<File>, d: Directory)
    requires IsListing(files, d) && LoadedAll(files, LoadAll(files).loaded)
    ensures Survivors(LoadAll(files), d) == d
  {
    LoadKeepsInvariant(files);
    var s := LoadAll(files);
    forall name | name in d ensures name in s.verdicts && s.verdicts[name].Loaded? {
      SurvivesAt(files, d, s, name);
    }
  }

  /**
   A restart that finds what an earlier load left changes nothing: every file is accepted
   again and the entries are the same, whatever order the directory is listed in.
   */
  lemma SecondLoadChangesNothing(files: seq<File>, d: Directory, again: seq<File>)
    requires IsListing(files, d)
    requires IsListing(again, Survivors(LoadAll(files), d))
    ensures Survivors(LoadAll(again), Survivors(LoadAll(files), d)) == Survivors(LoadAll(files), d)
    ensures EntriesOf(LoadAll(again).loaded) == EntriesOf(LoadAll(files).loaded)
  {
    var s, t := LoadAll(files).loaded, LoadAll(again).loaded;
    SurvivorsAreClean(files, d, again);
    CleanLoadsAll(again);
    AllSurvive(again, Survivors(LoadAll(files), d));
    assert EntriesOf(t) == EntriesOf(s) by {
      LoadKeepsInvariant(files);
      SameSources(s, again, t);
      SameElementsSameEntries(s, t);
    }
  }

  /** The files of a listing that are still there. */
  function Remaining(files: seq<File>, there: seq<bool>): seq<File>
    requires |there| == |files|
  {
    if files == [] then []
    else
      var n := |files| - 1;
      Remaining(files[..n], there[..n]) + (if there[n] then [files[n]] else [])
  }

  /**
   A load cut short by a crash may have removed any of the files it rejects. The next load
   still accepts exactly the same entries.
   */
  lemma {:induction false} InterruptedLoad(files: seq<File>, there: seq<bool>)
    requires |there| == |files|
    requires forall i :: 0 <= i < |files| && !there[i] ==>
               LoadAll(files[..i + 1]).loaded == LoadAll(files[..i]).loaded
    ensures LoadAll(Remaining(files, there)).loaded == LoadAll(files).loaded
  {
    if files != [] {
      var n := |files| - 1;
      forall i | 0 <= i < n && !there[..n][i]
        ensures LoadAll(files[..n][..i + 1]).loaded == LoadAll(files[..n][..i]).loaded
      {
        assert files[..n][..i + 1] == files[..i + 1] && files[..n][..i] == files[..i];
      }
      InterruptedLoad(files[..n], there[..n]);
      var rest := Remaining(files[..n], there[..n]);
      if there[n] {
        assert (rest + [files[n]])[..|rest|] == rest;
      } else {
        assert files[..n + 1] == files;
        assert rest + [] == rest;
      }
    }
  }
}
