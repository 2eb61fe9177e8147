/**
 The reply path of the current message: rows of a chat history are linked by explicit replies
 and, tentatively, by short-gap adjacency, and the path is walked back from the current row.
 */
module ThreadFrame {
  import opened Protocol

  const WINDOW := 64
  const MAX_GAP := 180.0
  const MILLIS_FROM := 100_000_000_000.0

  datatype Role = User | Assistant | OtherRole

  /** The raw time of a row; `Iso` carries what the text parses to, if it names a time zone. */
  datatype Stamp = Absent | Number(value: real) | NotFinite | Iso(parsed: Option<real>)

  /** One history row; an absent id is the empty string, and `senders` are its non-empty sender fields. */
  datatype Row = Row(role: Role, messageId: string, replyTo: string, stamp: Stamp, senders: set<string>)

  /** `_thread_timestamp`: milliseconds are told from seconds by their size. */
  function Seconds(s: Stamp): Option<real> {
    match s
    case Number(v) => Some(if v > MILLIS_FROM then v / 1000.0 else v)
    case Iso(parsed) => parsed
    case Absent => None
    case NotFinite => None
  }

  predicate Shown(row: Row, current: Row) {
    row.role != OtherRole && !(current.messageId != "" && row.messageId == current.messageId)
  }

  function Kept(history: seq<Row>, current: Row): seq<Row> {
    if history == [] then []
    else
      var n := |history| - 1;
      Kept(history[..n], current) + if Shown(history[n], current) then [history[n]] else []
  }

  /** The rows a frame is built from: what is kept of the recent history, then the current message. */
  function Rows(history: seq<Row>, current: Row, replyTo: string): (rows: seq<Row>)
    ensures rows != [] && rows[|rows| - 1].role == User && rows[|rows| - 1].messageId == current.messageId
  {
    var window := if |history| > WINDOW then history[|history| - WINDOW..] else history;
    Kept(window, current) + [current.(role := User, replyTo := if replyTo != "" then replyTo else current.replyTo)]
  }

  lemma {:induction false} KeptIsShown(history: seq<Row>, current: Row)
    ensures |Kept(history, current)| <= |history|
    ensures forall r :: r in Kept(history, current) <==> r in history && Shown(r, current)
  {
    if history != [] {
      var n := |history| - 1;
      assert history == history[..n] + [history[n]];
      KeptIsShown(history[..n], current);
    }
  }

  /** At most the window and the current message, and the current message only at the end. */
  lemma RowsAreRecent(history: seq<Row>, current: Row, replyTo: string)
    ensures var rows := Rows(history, current, replyTo);
            && |rows| <= WINDOW + 1
            && (forall i :: 0 <= i < |rows| - 1 ==> rows[i] in history && rows[i].role != OtherRole)
            && (current.messageId != "" ==>
                  forall i :: 0 <= i < |rows| - 1 ==> rows[i].messageId != rows[|rows| - 1].messageId)
  {
    var window := if |history| > WINDOW then history[|history| - WINDOW..] else history;
    KeptIsShown(window, current);
    var rows := Rows(history, current, replyTo);
    forall i | 0 <= i < |rows| - 1 ensures rows[i] in Kept(window, current) {
      assert rows[i] == Kept(window, current)[i];
    }
  }

  /** The places of the kept rows: exactly the shown ones from a place on and before another, in order. */
  ghost predicate ShownAt(history: seq<Row>, current: Row, from: nat, n: nat, at: seq<nat>)
    requires n <= |history|
  {
    && (forall x, y :: 0 <= x < y < |at| ==> at[x] < at[y])
    && (forall x :: 0 <= x < |at| ==> from <= at[x] < n)
    && (forall k: nat :: from <= k < n ==> (Shown(history[k], current) <==> k in at))
  }

  lemma ShownNext(history: seq<Row>, current: Row, from: nat, n: nat, at: seq<nat>, after: seq<nat>)
    requires from <= n < |history| && ShownAt(history, current, from, n, at)
    requires after == if Shown(history[n], current) then at + [n] else at
    ensures ShownAt(history, current, from, n + 1, after)
  {
    assert forall k: nat :: k in after <==> k in at || (k == n && Shown(history[n], current));
  }

  lemma {:induction false} KeptNext(history: seq<Row>, current: Row, from: nat, n: nat)
    requires from <= n < |history|
    ensures var before := Kept(history[from..n], current);
            Kept(history[from..n + 1], current) == if Shown(history[n], current) then before + [history[n]] else before
  {
    var part := history[from..n + 1];
    assert part[..|part| - 1] == history[from..n] && part[|part| - 1] == history[n];
  }

  /** The rows at the given places. */
  ghost predicate PickedAt(history: seq<Row>, at: seq<nat>, rows: seq<Row>) {
    |rows| == |at| && forall x :: 0 <= x < |at| ==> at[x] < |history| && rows[x] == history[at[x]]
  }

  lemma {:induction false} KeptAt(history: seq<Row>, current: Row, from: nat, n: nat) returns (at: seq<nat>)
    requires from <= n <= |history|
    ensures ShownAt(history, current, from, n, at)
    ensures PickedAt(history, at, Kept(history[from..n], current))
  {
    if from == n {
      at := [];
    } else {
      at := KeptAt(history, current, from, n - 1);
      at := KeptOne(history, current, from, n - 1, at, Kept(history[from..n - 1], current));
    }
  }

  lemma KeptOne(history: seq<Row>, current: Row, from: nat, n: nat, before: seq<nat>, kept: seq<Row>) returns (at: seq<nat>)
    requires from <= n < |history| && kept == Kept(history[from..n], current)
    requires ShownAt(history, current, from, n, before) && PickedAt(history, before, kept)
    ensures ShownAt(history, current, from, n + 1, at)
    ensures PickedAt(history, at, Kept(history[from..n + 1], current))
  {
    at := if Shown(history[n], current) then before + [n] else before;
    KeptNext(history, current, from, n);
    ShownNext(history, current, from, n, before, at);
    PickedNext(history, before, kept, n);
  }

  lemma PickedNext(history: seq<Row>, at: seq<nat>, rows: seq<Row>, m: nat)
    requires PickedAt(history, at, rows) && m < |history|
    ensures PickedAt(history, at + [m], rows + [history[m]])
  {
  }

  /**
   A frame is built from the newest 64 rows of the history: of those, exactly the ones of a user or
   the assistant that are not the current message, in their order, and then the current message as a
   user's, with the reply it names when none is given.
   */
  lemma RowsAreNewest(history: seq<Row>, current: Row, replyTo: string) returns (at: seq<nat>)
    ensures ShownAt(history, current, if |history| > 64 then |history| - 64 else 0, |history|, at)
    ensures var rows := Rows(history, current, replyTo); var n := |rows| - 1;
            && PickedAt(history, at, rows[..n])
            && rows[n].stamp == current.stamp && rows[n].senders == current.senders
            && rows[n].replyTo == if replyTo == "" then current.replyTo else replyTo
  {
    var from := if |history| > 64 then |history| - 64 else 0;
    at := KeptAt(history, current, from, |history|);
    assert history[from..|history|] == if |history| > WINDOW then history[|history| - WINDOW..] else history;
    assert Rows(history, current, replyTo)[..|at|] == Kept(history[from..|history|], current);
  }

  /** A time in seconds and the same time in milliseconds are read alike, from 1973 to the year 5138. */
  lemma SecondsOrMillis(t: real)
    requires MILLIS_FROM / 1000.0 < t <= MILLIS_FROM
    ensures Seconds(Number(t)) == Some(t) && Seconds(Number(1000.0 * t)) == Some(t)
  {
  }

  // ---------------------------------------------------------------- what a link is

  /** The newest row before the i-th with that message id. */
  function Named(rows: seq<Row>, i: nat, id: string): (r: Option<nat>)
    requires i <= |rows|
    ensures r.Some? ==> r.value < i && rows[r.value].messageId == id
    ensures r.Some? ==> forall k :: r.value < k < i ==> rows[k].messageId != id
    ensures r.None? ==> forall k :: 0 <= k < i ==> rows[k].messageId != id
  {
    if i == 0 then None
    else if rows[i - 1].messageId == id then Some(i - 1)
    else Named(rows, i - 1, id)
  }

  predicate ShortGap(before: Option<real>, now: Option<real>) {
    before.Some? && now.Some? && 0.0 <= now.value - before.value <= MAX_GAP
  }

  /** What two neighbouring rows must have of their own for the later to follow the earlier. */
  predicate Adjoins(previous: Row, row: Row) {
    previous.role == User && row.role == User && row.senders != {}
    && ShortGap(Seconds(previous.stamp), Seconds(row.stamp))
  }

  function Parent(rows: seq<Row>, i: nat): (r: Option<nat>)
    requires i < |rows|
    ensures r.Some? ==> r.value < i
    decreases i, 0
  {
    if rows[i].replyTo != "" then Named(rows, i, rows[i].replyTo)
    else if i > 0 && Parent(rows, i - 1).Some? && Adjoins(rows[i - 1], rows[i])
            && rows[i].senders * Participants(rows, i - 1) != {} then Some(i - 1)
    else None
  }

  /** The senders of a row and of all its ancestors. */
  function Participants(rows: seq<Row>, i: nat): set<string>
    requires i < |rows|
    decreases i, 1
  {
    var p := Parent(rows, i);
    rows[i].senders + if p.Some? then Participants(rows, p.value) else {}
  }

  predicate Inferred(rows: seq<Row>, i: nat)
    requires i < |rows|
  {
    Parent(rows, i).Some? && rows[i].replyTo == ""
  }

  // ---------------------------------------------------------------- the loops

  ghost predicate ParentsUpTo(rows: seq<Row>, n: nat, parents: map<nat, nat>)
    requires n <= |rows|
  {
    && (forall i: nat :: i in parents <==> i < n && Parent(rows, i).Some?)
    && (forall i: nat :: i in parents ==> Parent(rows, i) == Some(parents[i]))
  }

  ghost predicate InferredUpTo(rows: seq<Row>, n: nat, inferred: set<nat>)
    requires n <= |rows|
  {
    forall i: nat :: i in inferred <==> i < n && Inferred(rows, i)
  }

  ghost predicate IdsUpTo(rows: seq<Row>, n: nat, byId: map<string, nat>)
    requires n <= |rows|
  {
    && (forall id :: id in byId <==> id != "" && Named(rows, n, id).Some?)
    && (forall id :: id in byId ==> Named(rows, n, id) == Some(byId[id]))
  }

  lemma IdsStep(rows: seq<Row>, n: nat, byId: map<string, nat>)
    requires n < |rows| && IdsUpTo(rows, n, byId)
    ensures IdsUpTo(rows, n + 1, if rows[n].messageId != "" then byId[rows[n].messageId := n] else byId)
  {
  }

  function WithParent(parents: map<nat, nat>, n: nat, parent: Option<nat>): map<nat, nat> {
    if parent.Some? then parents[n := parent.value] else parents
  }

  lemma ParentsStep(rows: seq<Row>, n: nat, parents: map<nat, nat>)
    requires n < |rows| && ParentsUpTo(rows, n, parents)
    ensures ParentsUpTo(rows, n + 1, WithParent(parents, n, Parent(rows, n)))
  {
    var after := WithParent(parents, n, Parent(rows, n));
    forall i: nat
      ensures i in after <==> i < n + 1 && Parent(rows, i).Some?
      ensures i in after ==> Parent(rows, i) == Some(after[i])
    {
      if i != n {
        assert i in parents <==> i < n && Parent(rows, i).Some?;
      }
    }
  }

  lemma InferredStep(rows: seq<Row>, n: nat, inferred: set<nat>)
    requires n < |rows| && InferredUpTo(rows, n, inferred)
    ensures InferredUpTo(rows, n + 1, if Inferred(rows, n) then inferred + {n} else inferred)
  {
  }

  /** The inner loop: collect the senders along the ancestors of a row that has a parent. */
  method CollectParticipants(rows: seq<Row>, n: nat, parents: map<nat, nat>, i: nat)
    returns (participants: set<string>)
    requires i < n <= |rows| && ParentsUpTo(rows, n, parents) && i in parents
    ensures participants == Participants(rows, i)
  {
    participants := rows[i].senders;
    var ancestor: nat := parents[i];
    while true
      invariant ancestor < i
      invariant participants + Participants(rows, ancestor) == Participants(rows, i)
      decreases ancestor
    {
      participants := participants + rows[ancestor].senders;
      if ancestor !in parents {
        break;
      }
      ancestor := parents[ancestor];
    }
  }

  /** The link of one row, from those of the rows before it. */
  method LinkRow(rows: seq<Row>, index: nat, parents: map<nat, nat>, byId: map<string, nat>)
    returns (parent: Option<nat>, adjacent: bool)
    requires index < |rows| && ParentsUpTo(rows, index, parents) && IdsUpTo(rows, index, byId)
    ensures parent == Parent(rows, index) && adjacent == Inferred(rows, index)
  {
    parent, adjacent := None, false;
    var row := rows[index];
    if row.replyTo != "" {
      if row.replyTo in byId {
        parent := Some(byId[row.replyTo]);
      }
    } else if index > 0 && index - 1 in parents && row.role == User {
      var previous := rows[index - 1];
      var now, before := Seconds(row.stamp), Seconds(previous.stamp);
      if previous.role == User && row.senders != {} && ShortGap(before, now) {
        var participants := CollectParticipants(rows, index, parents, index - 1);
        if row.senders * participants != {} {
          parent, adjacent := Some(index - 1), true;
        }
      }
    }
  }

  /** Every parent is the one the links define, and precedes its child. */
  method BuildParents(rows: seq<Row>) returns (parents: map<nat, nat>, inferred: set<nat>)
    ensures ParentsUpTo(rows, |rows|, parents) && InferredUpTo(rows, |rows|, inferred)
    ensures forall i: nat :: i in parents ==> parents[i] < i
  {
    parents, inferred := map[], {};
    var byId: map<string, nat> := map[];
    for index := 0 to |rows|
      invariant ParentsUpTo(rows, index, parents) && InferredUpTo(rows, index, inferred)
      invariant IdsUpTo(rows, index, byId)
    {
      var parent, adjacent := LinkRow(rows, index, parents, byId);
      ParentsStep(rows, index, parents);
      InferredStep(rows, index, inferred);
      IdsStep(rows, index, byId);
      parents := WithParent(parents, index, parent);
      inferred := if adjacent then inferred + {index} else inferred;
      if rows[index].messageId != "" {
        byId := byId[rows[index].messageId := index];
      }
    }
  }

  function Reversed(s: seq<nat>): seq<nat> {
    if s == [] then [] else Reversed(s[1..]) + [s[0]]
  }

  /** The path that leads to row i, oldest first. */
  function Path(rows: seq<Row>, i: nat): (p: seq<nat>)
    requires i < |rows|
    ensures p != [] && p[|p| - 1] == i
  {
    var parent := Parent(rows, i);
    (if parent.Some? then Path(rows, parent.value) else []) + [i]
  }

  method WalkPath(rows: seq<Row>, parents: map<nat, nat>) returns (path: seq<nat>)
    requires rows != [] && ParentsUpTo(rows, |rows|, parents)
    ensures path == Path(rows, |rows| - 1)
  {
    var last := |rows| - 1;
    path := [last];
    assert Path(rows, last) == Path(rows, last) + Reversed([]);
    while last in parents
      invariant last < |rows| && path != [] && path[|path| - 1] == last
      invariant Path(rows, last) + Reversed(path[..|path| - 1]) == Path(rows, |rows| - 1)
      decreases last
    {
      PathStep(rows, last, path);
      last := parents[last];
      path := path + [last];
      assert path[..|path| - 1] + [last] == path;
    }
    ReversedLast(path);
    path := Reversed(path);
  }

  lemma PathStep(rows: seq<Row>, last: nat, path: seq<nat>)
    requires last < |rows| && Parent(rows, last).Some? && path != [] && path[|path| - 1] == last
    ensures Path(rows, Parent(rows, last).value) + Reversed(path) == Path(rows, last) + Reversed(path[..|path| - 1])
  {
    ReversedLast(path);
  }

  lemma {:induction false} ReversedLast(s: seq<nat>)
    requires s != []
    ensures Reversed(s) == [s[|s| - 1]] + Reversed(s[..|s| - 1])
  {
    if |s| > 1 {
      ReversedLast(s[1..]);
      assert s[1..][..|s| - 2] == s[..|s| - 1][1..];
    }
  }

  // ---------------------------------------------------------------- what the path means

  /** The path is strictly increasing, starts at a row without a parent, and follows every link. */
  lemma {:induction false} PathFollowsLinks(rows: seq<Row>, i: nat)
    requires i < |rows|
    ensures var p := Path(rows, i);
            && (forall x :: 0 <= x < |p| ==> p[x] < |rows|)
            && Parent(rows, p[0]).None?
            && (forall x :: 0 <= x < |p| - 1 ==> p[x] < p[x + 1] && Parent(rows, p[x + 1]) == Some(p[x]))
  {
    var parent := Parent(rows, i);
    if parent.Some? {
      PathFollowsLinks(rows, parent.value);
    }
  }

  ghost predicate Linked(rows: seq<Row>, p: seq<nat>) {
    && p != []
    && (forall x :: 0 <= x < |p| ==> p[x] < |rows|)
    && Parent(rows, p[0]).None?
    && (forall x :: 0 <= x < |p| - 1 ==> Parent(rows, p[x + 1]) == Some(p[x]))
  }

  /** And it is the only sequence of rows that does. */
  lemma {:induction false} PathIsUnique(rows: seq<Row>, p: seq<nat>)
    requires Linked(rows, p)
    ensures p == Path(rows, p[|p| - 1])
  {
    var n := |p| - 1;
    if n > 0 {
      assert Parent(rows, p[n - 1 + 1]) == Some(p[n - 1]);
      PathIsUnique(rows, p[..n]);
      assert p == p[..n] + [p[n]];
    }
  }

  /** An explicit reply: row i names row j, and no row in between has that id. */
  ghost predicate Replies(rows: seq<Row>, i: nat, j: nat)
    requires i < |rows|
  {
    && j < i && rows[i].replyTo != "" && rows[i].replyTo == rows[j].messageId
    && forall k :: j < k < i ==> rows[k].messageId != rows[j].messageId
  }

  /** An explicit link leads to the newest earlier row of the id that the row replies to. */
  lemma ReplyIs(rows: seq<Row>, i: nat, j: nat)
    requires i < |rows| && Parent(rows, i) == Some(j) && !Inferred(rows, i)
    ensures Replies(rows, i, j)
  {
  }

  /** An adjacency joins two user rows up to three minutes apart, the earlier one itself linked. */
  lemma InferredIs(rows: seq<Row>, i: nat)
    requires i < |rows| && Inferred(rows, i)
    ensures i > 0 && Parent(rows, i) == Some(i - 1) && Parent(rows, i - 1).Some?
    ensures Adjoins(rows[i - 1], rows[i])
    ensures rows[i].senders * Participants(rows, i - 1) != {}
  {
  }

  /** An adjacency shares a sender with some row of the chain it continues. */
  lemma {:induction false} ParticipantIsOnPath(rows: seq<Row>, i: nat, sender: string) returns (x: nat)
    requires i < |rows| && sender in Participants(rows, i)
    ensures x < |Path(rows, i)| && Path(rows, i)[x] < |rows| && sender in rows[Path(rows, i)[x]].senders
  {
    if sender in rows[i].senders {
      x := |Path(rows, i)| - 1;
    } else {
      x := ParticipantIsOnPath(rows, Parent(rows, i).value, sender);
    }
  }

  lemma AdjacencySharesSender(rows: seq<Row>, i: nat) returns (x: nat, sender: string)
    requires i < |rows| && Inferred(rows, i)
    ensures i > 0 && Adjoins(rows[i - 1], rows[i])
    ensures x < |Path(rows, i - 1)| && Path(rows, i - 1)[x] < |rows|
    ensures sender in rows[i].senders && sender in rows[Path(rows, i - 1)[x]].senders
  {
    InferredIs(rows, i);
    sender :| sender in rows[i].senders * Participants(rows, i - 1);
    x := ParticipantIsOnPath(rows, i - 1, sender);
  }

  lemma {:induction false} OnPathIsParticipant(rows: seq<Row>, i: nat, x: nat)
    requires i < |rows| && x < |Path(rows, i)|
    ensures Path(rows, i)[x] < |rows| && rows[Path(rows, i)[x]].senders <= Participants(rows, i)
  {
    if x < |Path(rows, i)| - 1 {
      OnPathIsParticipant(rows, Parent(rows, i).value, x);
    }
  }

  ghost predicate SentOn(rows: seq<Row>, path: seq<nat>, sender: string) {
    exists x :: 0 <= x < |path| && path[x] < |rows| && sender in rows[path[x]].senders
  }

  lemma SentOnIff(rows: seq<Row>, i: nat, sender: string)
    requires i < |rows|
    ensures SentOn(rows, Path(rows, i), sender) <==> sender in Participants(rows, i)
  {
    var path := Path(rows, i);
    if sender in Participants(rows, i) {
      var x := ParticipantIsOnPath(rows, i, sender);
    } else if SentOn(rows, path, sender) {
      var x :| 0 <= x < |path| && path[x] < |rows| && sender in rows[path[x]].senders;
      OnPathIsParticipant(rows, i, x);
    }
  }

  /** One of the senders of the row also sent some row of the path. */
  ghost predicate SharesSender(rows: seq<Row>, path: seq<nat>, row: Row) {
    exists sender :: sender in row.senders && SentOn(rows, path, sender)
  }

  lemma SharesSenderIff(rows: seq<Row>, i: nat, row: Row)
    requires i < |rows|
    ensures SharesSender(rows, Path(rows, i), row) <==> row.senders * Participants(rows, i) != {}
  {
    forall sender ensures SentOn(rows, Path(rows, i), sender) <==> sender in Participants(rows, i) {
      SentOnIff(rows, i, sender);
    }
    assert forall sender :: sender in row.senders * Participants(rows, i) <==>
                            sender in row.senders && sender in Participants(rows, i);
  }

  /**
   Which links there are, told without the loops. A row that names a reply is linked to the newest
   earlier row of that id, and to nothing if there is none. Another row is linked to the row just
   before it exactly when that one is linked, both are a user's and at most three minutes apart, and it
   shares a sender with the path so far.
   */
  lemma ParentIff(rows: seq<Row>, i: nat, j: nat)
    requires i < |rows|
    ensures rows[i].replyTo != "" ==> (Parent(rows, i) == Some(j) <==> Replies(rows, i, j))
    ensures rows[i].replyTo == "" ==>
              (Parent(rows, i) == Some(j) <==>
                 && i > 0 && j == i - 1 && Parent(rows, j).Some?
                 && rows[j].role == User && rows[i].role == User
                 && Seconds(rows[j].stamp).Some? && Seconds(rows[i].stamp).Some?
                 && 0.0 <= Seconds(rows[i].stamp).value - Seconds(rows[j].stamp).value <= 180.0
                 && SharesSender(rows, Path(rows, j), rows[i]))
  {
    if rows[i].replyTo == "" && i > 0 {
      SharesSenderIff(rows, i - 1, rows[i]);
    }
  }

  /** Adjacency never starts a chain: it extends, row by row without a gap, one that begins with a reply. */
  lemma {:induction false} InferredBlock(rows: seq<Row>, i: nat) returns (j: nat)
    requires i < |rows| && Inferred(rows, i)
    ensures j < i && Parent(rows, j).Some? && rows[j].replyTo != ""
    ensures forall k :: j < k <= i ==> Inferred(rows, k) && Parent(rows, k) == Some(k - 1)
  {
    InferredIs(rows, i);
    if rows[i - 1].replyTo != "" {
      j := i - 1;
    } else {
      j := InferredBlock(rows, i - 1);
    }
  }

  /** So the oldest link of every chain is an explicit reply. */
  lemma ChainHasReply(rows: seq<Row>, i: nat)
    requires i < |rows| && |Path(rows, i)| > 1
    ensures var p := Path(rows, i); p[1] < |rows| && Replies(rows, p[1], p[0])
  {
  }

  /** A chain without any adjacency is explicit: each of its rows replies to the one before. */
  lemma ExplicitChain(rows: seq<Row>, i: nat, x: nat)
    requires i < |rows| && x + 1 < |Path(rows, i)|
    requires forall k :: k in Path(rows, i) && k < |rows| ==> !Inferred(rows, k)
    ensures var p := Path(rows, i); p[x + 1] < |rows| && Replies(rows, p[x + 1], p[x])
  {
    PathFollowsLinks(rows, i);
    var p := Path(rows, i);
    assert p[x + 1] in p;
    ReplyIs(rows, p[x + 1], p[x]);
  }

  /** Along a block of adjacencies time never goes back, and each step adds at most the gap. */
  lemma {:induction false} BlockInTime(rows: seq<Row>, j: nat, i: nat)
    requires j < i < |rows| && forall k :: j < k <= i ==> Inferred(rows, k)
    ensures Seconds(rows[j].stamp).Some? && Seconds(rows[i].stamp).Some?
    ensures var d := Seconds(rows[i].stamp).value - Seconds(rows[j].stamp).value;
            0.0 <= d <= MAX_GAP * (i - j) as real
  {
    InferredIs(rows, i);
    if j < i - 1 {
      BlockInTime(rows, j, i - 1);
    }
  }

  /** The frame of a history: its path is the reply path of the current message. */
  method BuildThreadFrame(history: seq<Row>, current: Row, replyTo: string)
    returns (rows: seq<Row>, path: seq<nat>, inferred: set<nat>)
    ensures rows == Rows(history, current, replyTo)
    ensures Linked(rows, path) && path[|path| - 1] == |rows| - 1
    ensures InferredUpTo(rows, |rows|, inferred)
    ensures |path| > 1 ==> Replies(rows, path[1], path[0])
  {
    rows := Rows(history, current, replyTo);
    var parents;
    parents, inferred := BuildParents(rows);
    path := WalkPath(rows, parents);
    PathIsLinked(rows, |rows| - 1);
    if |path| > 1 {
      ChainHasReply(rows, |rows| - 1);
    }
  }

  lemma PathIsLinked(rows: seq<Row>, i: nat)
    requires i < |rows|
    ensures Linked(rows, Path(rows, i))
  {
    PathFollowsLinks(rows, i);
  }
}
