/**
 The vote tally of one poll: the last vote of every voter wins, whatever order the votes are
 delivered in, and the results count voters per option.
 */
module PollVotes {
  import opened Protocol
  import opened Sets

  const MAX_VOTERS := 2048

  /** One decrypted vote; no selected option means that the voter takes the vote back. */
  datatype Vote = Vote(tag: string, selected: seq<string>, atMs: int)

  datatype Choice = Choice(selected: seq<string>, atMs: int)

  type Votes = map<string, Choice>

  /** Whether a vote is looked at: not older than the stored one, and room for a new voter. */
  predicate Counted(votes: Votes, v: Vote) {
    if v.tag in votes then votes[v.tag].atMs <= v.atMs else |votes| < MAX_VOTERS
  }

  function Recorded(votes: Votes, v: Vote): Votes {
    if !Counted(votes, v) then votes
    else if v.selected != [] then votes[v.tag := Choice(v.selected, v.atMs)]
    else votes - {v.tag}
  }

  /** The stored votes after a sequence of deliveries. */
  function Tally(vs: seq<Vote>): Votes {
    if vs == [] then map[] else Recorded(Tally(vs[..|vs| - 1]), vs[|vs| - 1])
  }

  // ---------------------------------------------------------------- one voter at a time

  /** What a delivery does to the stored vote of its own voter, when there is room. */
  function Next(cell: Option<Choice>, v: Vote): Option<Choice> {
    if cell.Some? && cell.value.atMs > v.atMs then cell
    else if v.selected != [] then Some(Choice(v.selected, v.atMs))
    else None
  }

  function Cell(vs: seq<Vote>, t: string): Option<Choice> {
    if vs == [] then None
    else
      var n := |vs| - 1;
      if vs[n].tag == t then Next(Cell(vs[..n], t), vs[n]) else Cell(vs[..n], t)
  }

  /** The voters that selected something at some time. */
  ghost function Choosers(vs: seq<Vote>): set<string> {
    set v | v in vs && v.selected != [] :: v.tag
  }

  ghost predicate AgreesWith(votes: Votes, vs: seq<Vote>) {
    forall t: string :: (t in votes <==> Cell(vs, t).Some?) && (t in votes ==> Cell(vs, t) == Some(votes[t]))
  }

  /** However many votes arrive, only choosers are stored and never more than the cap. */
  lemma {:induction false} StoredAreChoosers(vs: seq<Vote>)
    ensures Tally(vs).Keys <= Choosers(vs) && |Tally(vs)| <= MAX_VOTERS
  {
    if vs != [] {
      var n := |vs| - 1;
      StoredAreChoosers(vs[..n]);
      assert forall v :: v in vs[..n] ==> v in vs;
      assert vs[n] in vs;
      var before := Tally(vs[..n]);
      if vs[n].tag in before {
        assert before[vs[n].tag := Choice(vs[n].selected, vs[n].atMs)].Keys == before.Keys;
        SubsetSize((before - {vs[n].tag}).Keys, before.Keys);
      }
    }
  }

  /** With room for the voter, a delivery changes the vote of that voter and no other. */
  lemma AgreesStep(before: Votes, vs: seq<Vote>, v: Vote)
    requires AgreesWith(before, vs) && (v.tag !in before && v.selected != [] ==> |before| < MAX_VOTERS)
    ensures AgreesWith(Recorded(before, v), vs + [v])
  {
  }

  /** As long as the choosers fit under the cap, voters do not get in each other's way. */
  lemma {:induction false} TallyByVoter(vs: seq<Vote>)
    requires |Choosers(vs)| <= MAX_VOTERS
    ensures AgreesWith(Tally(vs), vs)
  {
    if vs != [] {
      var n := |vs| - 1;
      var v, before := vs[n], Tally(vs[..n]);
      assert vs == vs[..n] + [v];
      SubsetSize(Choosers(vs[..n]), Choosers(vs));
      TallyByVoter(vs[..n]);
      StoredAreChoosers(vs[..n]);
      if v.tag !in before && v.selected != [] {
        SubsetSize(before.Keys + {v.tag}, Choosers(vs));
      }
      AgreesStep(before, vs[..n], v);
    }
  }

  // ---------------------------------------------------------------- one delivery

  lemma {:induction false} TallyWasDelivered(vs: seq<Vote>, t: string)
    requires t in Tally(vs)
    ensures Vote(t, Tally(vs)[t].selected, Tally(vs)[t].atMs) in vs && Tally(vs)[t].selected != []
  {
    var n := |vs| - 1;
    assert vs == vs[..n] + [vs[n]];
    if t in Tally(vs[..n]) {
      TallyWasDelivered(vs[..n], t);
    }
  }

  /**
   A delivery that is no older than anything its voter selected before has the last word, ties
   included: the selection is stored, and an empty one takes the vote back. Only a new voter of a
   full poll is turned away. An older delivery changes nothing, and no delivery touches other voters.
   */
  lemma DeliveryIs(vs: seq<Vote>, v: Vote)
    ensures var before, after := Tally(vs), Tally(vs + [v]);
            && (forall t :: t != v.tag ==> (t in after <==> t in before) && (t in after ==> after[t] == before[t]))
            && ((forall u :: u in vs && u.tag == v.tag && u.selected != [] ==> u.atMs <= v.atMs)
                && (v.tag in before || |before| < MAX_VOTERS) ==>
                  (v.tag in after <==> v.selected != [])
                  && (v.tag in after ==> after[v.tag] == Choice(v.selected, v.atMs)))
            && (v.tag in before && v.atMs < before[v.tag].atMs ==> after == before)
            && (v.tag !in before && |before| >= MAX_VOTERS ==> after == before)
  {
    assert (vs + [v])[..|vs|] == vs;
    if v.tag in Tally(vs) {
      TallyWasDelivered(vs, v.tag);
    }
  }

  // ---------------------------------------------------------------- when the order matters

  /** `top` is the newest vote of its voter, and no other delivery of that time says anything else. */
  ghost predicate Dominates(vs: seq<Vote>, top: Vote) {
    forall v :: v in vs && v.tag == top.tag ==>
      v.atMs < top.atMs || (v.atMs == top.atMs && v.selected == top.selected)
  }

  ghost predicate Decides(vs: seq<Vote>, top: Vote) {
    top in vs && top.selected != [] && Dominates(vs, top)
  }

  /** One selection of the voter is newer than everything else the voter sent. */
  ghost predicate Settled(vs: seq<Vote>, t: string) {
    exists top :: Decides(vs, top) && top.tag == t
  }

  ghost predicate OrderFree(vs: seq<Vote>) {
    forall ws :: multiset(ws) == multiset(vs) ==> Tally(ws) == Tally(vs)
  }

  /** A vote that dominates is stored from its delivery on; before it only older ones are. */
  lemma {:induction false} DominatingIsStored(vs: seq<Vote>, top: Vote)
    requires top.selected != [] && Dominates(vs, top)
    ensures var cell := Cell(vs, top.tag);
            cell.Some? ==> cell.value.atMs < top.atMs || cell.value == Choice(top.selected, top.atMs)
    ensures top in vs ==> Cell(vs, top.tag) == Some(Choice(top.selected, top.atMs))
  {
    if vs != [] {
      var n := |vs| - 1;
      assert vs == vs[..n] + [vs[n]];
      DominatingIsStored(vs[..n], top);
    }
  }

  /** The stored vote is one that was delivered. */
  lemma {:induction false} StoredWasDelivered(vs: seq<Vote>, t: string)
    requires Cell(vs, t).Some?
    ensures Vote(t, Cell(vs, t).value.selected, Cell(vs, t).value.atMs) in vs && Cell(vs, t).value.selected != []
  {
    var n := |vs| - 1;
    assert vs == vs[..n] + [vs[n]];
    if Cell(vs[..n], t).Some? {
      StoredWasDelivered(vs[..n], t);
    }
  }

  /** The same deliveries with the i-th one held back to the end. */
  ghost function Delayed(vs: seq<Vote>, i: nat): seq<Vote>
    requires i < |vs|
  {
    vs[..i] + vs[i + 1..] + [vs[i]]
  }

  lemma DelayedIsReordered(vs: seq<Vote>, i: nat)
    requires i < |vs|
    ensures multiset(Delayed(vs, i)) == multiset(vs)
  {
    assert vs == vs[..i] + [vs[i]] + vs[i + 1..];
  }

  /** A delivery no older than any selection of its voter has the last word when it comes last. */
  lemma LastWord(vs: seq<Vote>, i: nat)
    requires i < |vs|
    requires forall v :: v in vs && v.tag == vs[i].tag && v.selected != [] ==> v.atMs <= vs[i].atMs
    ensures Cell(Delayed(vs, i), vs[i].tag) ==
            if vs[i].selected != [] then Some(Choice(vs[i].selected, vs[i].atMs)) else None
  {
    var ws, t := Delayed(vs, i), vs[i].tag;
    var rest := vs[..i] + vs[i + 1..];
    assert ws[..|ws| - 1] == rest;
    if Cell(rest, t).Some? {
      StoredWasDelivered(rest, t);
      assert forall v :: v in rest ==> v in vs;
    }
  }

  lemma {:induction false} NewestSelection(vs: seq<Vote>, t: string) returns (i: nat)
    requires t in Choosers(vs)
    ensures i < |vs| && vs[i].tag == t && vs[i].selected != []
    ensures forall v :: v in vs && v.tag == t && v.selected != [] ==> v.atMs <= vs[i].atMs
  {
    var n := |vs| - 1;
    assert vs == vs[..n] + [vs[n]];
    if t in Choosers(vs[..n]) {
      i := NewestSelection(vs[..n], t);
      if vs[n].tag == t && vs[n].selected != [] && vs[n].atMs > vs[i].atMs {
        i := n;
      }
    } else {
      i := n;
    }
  }

  lemma SameChoosers(vs: seq<Vote>, ws: seq<Vote>)
    requires multiset(vs) == multiset(ws)
    ensures Choosers(vs) == Choosers(ws) && forall v :: v in vs <==> v in ws
  {
    forall v ensures v in vs <==> v in ws {
      assert v in multiset(vs) <==> v in vs;
      assert v in multiset(ws) <==> v in ws;
    }
  }

  /** Two deliveries held back in turn leave different votes, so their order matters. */
  lemma OrderMatters(vs: seq<Vote>, i: nat, j: nat)
    requires i < |vs| && j < |vs| && |Choosers(vs)| <= MAX_VOTERS && vs[i].tag == vs[j].tag
    requires Cell(Delayed(vs, i), vs[i].tag) != Cell(Delayed(vs, j), vs[i].tag)
    ensures !OrderFree(vs)
  {
    DelayedIsReordered(vs, i);
    DelayedIsReordered(vs, j);
    SameChoosers(vs, Delayed(vs, i));
    SameChoosers(vs, Delayed(vs, j));
    TallyByVoter(Delayed(vs, i));
    TallyByVoter(Delayed(vs, j));
    assert Tally(Delayed(vs, i)) != Tally(Delayed(vs, j));
  }

  lemma UnsettledMatters(vs: seq<Vote>, t: string)
    requires |Choosers(vs)| <= MAX_VOTERS && t in Choosers(vs) && !Settled(vs, t)
    ensures !OrderFree(vs)
  {
    var i := NewestSelection(vs, t);
    assert !Decides(vs, vs[i]);
    var v :| v in vs && v.tag == t && !(v.atMs < vs[i].atMs || (v.atMs == vs[i].atMs && v.selected == vs[i].selected));
    var j :| 0 <= j < |vs| && vs[j] == v;
    LastWord(vs, i);
    LastWord(vs, j);
    OrderMatters(vs, i, j);
  }

  // ---------------------------------------------------------------- over the cap

  function Part(vs: seq<Vote>, t: string, part: nat): seq<Vote> {
    if vs == [] then []
    else
      var n := |vs| - 1;
      var here := if vs[n].tag != t then 2 else if vs[n].selected != [] then 1 else 0;
      Part(vs[..n], t, part) + if here == part then [vs[n]] else []
  }

  /** What voter t took back, then what t selected, then everybody else. */
  ghost function First(vs: seq<Vote>, t: string): seq<Vote> {
    Part(vs, t, 0) + Part(vs, t, 1) + Part(vs, t, 2)
  }

  lemma {:induction false} FirstIsReordered(vs: seq<Vote>, t: string)
    ensures multiset(First(vs, t)) == multiset(vs)
  {
    if vs != [] {
      var n := |vs| - 1;
      assert vs == vs[..n] + [vs[n]];
      FirstIsReordered(vs[..n], t);
    }
  }

  lemma {:induction false} PartHolds(vs: seq<Vote>, t: string, part: nat)
    requires part < 3
    ensures forall v :: v in Part(vs, t, part) ==>
              part == if v.tag != t then 2 else if v.selected != [] then 1 else 0
    ensures part == 1 && t in Choosers(vs) ==> Part(vs, t, 1) != []
  {
    if vs != [] {
      var n := |vs| - 1;
      assert vs == vs[..n] + [vs[n]];
      PartHolds(vs[..n], t, part);
    }
  }

  /** Taking back what was never given stores nothing. */
  lemma {:induction false} NothingStored(a: seq<Vote>)
    requires forall v :: v in a ==> v.selected == []
    ensures Tally(a) == map[]
  {
    if a != [] {
      var n := |a| - 1;
      assert forall v :: v in a[..n] ==> v in a;
      NothingStored(a[..n]);
    }
  }

  lemma {:induction false} OneStored(a: seq<Vote>, b: seq<Vote>, t: string)
    requires Tally(a) == map[] && forall v :: v in b ==> v.tag == t && v.selected != []
    ensures Tally(a + b).Keys == if b == [] then {} else {t}
  {
    if b == [] {
      assert a + b == a;
    } else {
      var n := |b| - 1;
      assert (a + b)[..|a + b| - 1] == a + b[..n];
      assert forall v :: v in b[..n] ==> v in b;
      OneStored(a, b[..n], t);
      assert b[n] in b;
    }
  }

  lemma {:induction false} OthersLeaveIt(a: seq<Vote>, c: seq<Vote>, t: string)
    requires t in Tally(a) && forall v :: v in c ==> v.tag != t
    ensures t in Tally(a + c)
  {
    if c == [] {
      assert a + c == a;
    } else {
      var n := |c| - 1;
      assert (a + c)[..|a + c| - 1] == a + c[..n];
      assert forall v :: v in c[..n] ==> v in c;
      OthersLeaveIt(a, c[..n], t);
      assert c[n] in c;
    }
  }

  /** Any chooser can be among the stored ones: it depends on who comes first. */
  lemma FirstIsStored(vs: seq<Vote>, t: string)
    requires t in Choosers(vs)
    ensures t in Tally(First(vs, t))
  {
    var a, b, c := Part(vs, t, 0), Part(vs, t, 1), Part(vs, t, 2);
    PartHolds(vs, t, 0);
    PartHolds(vs, t, 1);
    PartHolds(vs, t, 2);
    NothingStored(a);
    OneStored(a, b, t);
    OthersLeaveIt(a + b, c, t);
  }

  lemma OverCapMatters(vs: seq<Vote>)
    requires |Choosers(vs)| > MAX_VOTERS
    ensures !OrderFree(vs)
  {
    StoredAreChoosers(vs);
    if Choosers(vs) <= Tally(vs).Keys {
      SubsetSize(Choosers(vs), Tally(vs).Keys);
    } else {
      var t :| t in Choosers(vs) && t !in Tally(vs);
      FirstIsReordered(vs, t);
      FirstIsStored(vs, t);
    }
  }

  // ---------------------------------------------------------------- the main results

  lemma SettledAgrees(vs: seq<Vote>, ws: seq<Vote>)
    requires |Choosers(vs)| <= MAX_VOTERS && (forall t :: t in Choosers(vs) ==> Settled(vs, t))
    requires multiset(ws) == multiset(vs)
    ensures Tally(ws) == Tally(vs)
  {
    SameChoosers(ws, vs);
    TallyByVoter(vs);
    TallyByVoter(ws);
    forall t: string ensures Cell(ws, t) == Cell(vs, t) {
      if t in Choosers(vs) {
        var top :| Decides(vs, top) && top.tag == t;
        DominatingIsStored(vs, top);
        DominatingIsStored(ws, top);
      } else {
        if Cell(vs, t).Some? { StoredWasDelivered(vs, t); }
        if Cell(ws, t).Some? { StoredWasDelivered(ws, t); }
      }
    }
    forall t: string ensures t in Tally(ws) <==> t in Tally(vs) {
      assert Cell(ws, t) == Cell(vs, t);
    }
    forall t | t in Tally(ws) ensures Tally(ws)[t] == Tally(vs)[t] {
      assert Cell(ws, t) == Cell(vs, t);
    }
  }

  /**
   The stored votes do not depend on the order of delivery exactly when the voters that ever
   selected something fit under the cap and each of them has one selection newer than anything
   else it sent: a retraction that is as new as the newest selection, or two selections of one
   time, make the order matter.
   */
  lemma OrderFreeIff(vs: seq<Vote>)
    ensures OrderFree(vs) <==>
            |Choosers(vs)| <= MAX_VOTERS && forall t :: t in Choosers(vs) ==> Settled(vs, t)
  {
    if |Choosers(vs)| > MAX_VOTERS {
      OverCapMatters(vs);
    } else if t :| t in Choosers(vs) && !Settled(vs, t) {
      UnsettledMatters(vs, t);
    } else {
      forall ws | multiset(ws) == multiset(vs) ensures Tally(ws) == Tally(vs) {
        SettledAgrees(vs, ws);
      }
    }
  }

  /** And then every chooser is stored with its newest selection, and nobody else is. */
  lemma TallyIsNewest(vs: seq<Vote>)
    requires OrderFree(vs)
    ensures Tally(vs).Keys == Choosers(vs)
    ensures forall top :: Decides(vs, top) ==>
              top.tag in Tally(vs) && Tally(vs)[top.tag] == Choice(top.selected, top.atMs)
  {
    OrderFreeIff(vs);
    TallyByVoter(vs);
    StoredAreChoosers(vs);
    forall t | t in Choosers(vs) ensures t in Tally(vs) {
      var top :| Decides(vs, top) && top.tag == t;
      DominatingIsStored(vs, top);
    }
    forall top | Decides(vs, top)
      ensures top.tag in Tally(vs) && Tally(vs)[top.tag] == Choice(top.selected, top.atMs)
    {
      DominatingIsStored(vs, top);
    }
  }

  /** In particular when nobody takes a vote back and no voter votes twice at one time. */
  lemma DistinctTimesAreOrderFree(vs: seq<Vote>)
    requires |Choosers(vs)| <= MAX_VOTERS
    requires forall v :: v in vs ==> v.selected != []
    requires forall v, w :: v in vs && w in vs && v.tag == w.tag && v.atMs == w.atMs ==> v == w
    ensures OrderFree(vs)
  {
    forall t | t in Choosers(vs) ensures Settled(vs, t) {
      var i := NewestSelection(vs, t);
      assert Decides(vs, vs[i]);
    }
    OrderFreeIff(vs);
  }

  // ---------------------------------------------------------------- results

  /** `indexOf` finds an option at its first place only. */
  predicate FirstAt(hashes: seq<string>, i: nat)
    requires i < |hashes|
  {
    forall j :: 0 <= j < i ==> hashes[j] != hashes[i]
  }

  /** The voters among `ts` counted for the i-th option. */
  ghost function Pickers(votes: Votes, ts: set<string>, hashes: seq<string>, i: nat): set<string>
    requires i < |hashes|
  {
    set t | t in ts && t in votes && FirstAt(hashes, i) && hashes[i] in votes[t].selected
  }

  function IndexOf(hashes: seq<string>, h: string): (r: Option<nat>)
    ensures r.Some? ==> r.value < |hashes| && hashes[r.value] == h && FirstAt(hashes, r.value)
    ensures r.None? ==> h !in hashes
  {
    if hashes == [] then None
    else if hashes[0] == h then Some(0)
    else
      var r := IndexOf(hashes[1..], h);
      if r.None? then None else
        assert forall j :: 1 <= j < 1 + r.value ==> hashes[j] == hashes[1..][j - 1];
        Some(1 + r.value)
  }

  datatype PollResults = PollResults(counts: seq<nat>, totalVotes: nat)

  /** Both loops of `results`: voters, and for each the set of what the voter selected. */
  method Results(votes: Votes, hashes: seq<string>) returns (r: PollResults)
    ensures |r.counts| == |hashes| && r.totalVotes == |votes|
    ensures forall i :: 0 <= i < |hashes| ==> r.counts[i] == |Pickers(votes, votes.Keys, hashes, i)|
    ensures forall i :: 0 <= i < |hashes| ==> r.counts[i] <= r.totalVotes
  {
    var counts: seq<nat> := seq(|hashes|, i => 0);
    var left := votes.Keys;
    while left != {}
      invariant left <= votes.Keys
      invariant |counts| == |hashes|
      invariant forall i :: 0 <= i < |hashes| ==> counts[i] == |Pickers(votes, votes.Keys - left, hashes, i)|
    {
      var t :| t in left;
      counts := CountVoter(counts, hashes, votes[t].selected);
      forall i | 0 <= i < |hashes|
        ensures counts[i] == |Pickers(votes, votes.Keys - (left - {t}), hashes, i)|
      {
        PickersStep(votes, votes.Keys - left, t, hashes, i);
        assert votes.Keys - (left - {t}) == (votes.Keys - left) + {t};
      }
      left := left - {t};
    }
    assert votes.Keys - left == votes.Keys;
    forall i | 0 <= i < |hashes| ensures |Pickers(votes, votes.Keys, hashes, i)| <= |votes| {
      SubsetSize(Pickers(votes, votes.Keys, hashes, i), votes.Keys);
    }
    r := PollResults(counts, |votes|);
  }

  lemma PickersStep(votes: Votes, ts: set<string>, t: string, hashes: seq<string>, i: nat)
    requires i < |hashes| && t in votes && t !in ts
    ensures |Pickers(votes, ts + {t}, hashes, i)| ==
            |Pickers(votes, ts, hashes, i)| + if Picks(hashes, votes[t].selected, i) then 1 else 0
  {
    assert Pickers(votes, ts + {t}, hashes, i) ==
           Pickers(votes, ts, hashes, i) + if Picks(hashes, votes[t].selected, i) then {t} else {};
  }

  predicate Picks(hashes: seq<string>, selected: seq<string>, i: nat)
    requires i < |hashes|
  {
    FirstAt(hashes, i) && hashes[i] in selected
  }

  /** The inner loop: one voter adds one to every option selected, however often it is named. */
  method CountVoter(counts: seq<nat>, hashes: seq<string>, selected: seq<string>) returns (r: seq<nat>)
    requires |counts| == |hashes|
    ensures |r| == |hashes|
    ensures forall i :: 0 <= i < |hashes| ==> r[i] == counts[i] + if Picks(hashes, selected, i) then 1 else 0
  {
    r := counts;
    var left := set h | h in selected;
    while left != {}
      invariant left <= set h | h in selected
      invariant |r| == |hashes|
      invariant forall i :: 0 <= i < |hashes| ==>
        r[i] == counts[i] + if Picks(hashes, selected, i) && hashes[i] !in left then 1 else 0
    {
      var choice :| choice in left;
      var index := IndexOf(hashes, choice);
      if index.Some? {
        r := r[index.value := r[index.value] + 1];
      }
      left := left - {choice};
    }
  }

  /** The option counts of two orders of delivery agree, and count every voter's newest selection. */
  lemma ResultsCountNewest(vs: seq<Vote>, ws: seq<Vote>, hashes: seq<string>, i: nat)
    requires OrderFree(vs) && multiset(ws) == multiset(vs) && i < |hashes| && FirstAt(hashes, i)
    ensures Pickers(Tally(ws), Tally(ws).Keys, hashes, i) ==
            set top | top in vs && Decides(vs, top) && hashes[i] in top.selected :: top.tag
  {
    TallyIsNewest(vs);
    OrderFreeIff(vs);
    assert Tally(ws) == Tally(vs);
    forall t | t in Tally(vs) && hashes[i] in Tally(vs)[t].selected
      ensures exists top :: top in vs && Decides(vs, top) && hashes[i] in top.selected && top.tag == t
    {
      var top :| Decides(vs, top) && top.tag == t;
    }
  }
}
