/**
 Pairing the two native copies of one group membership change: a stub message and a
 participant update that may arrive in either order within thirty seconds.
 */
module Membership {

  const TTL := 30000
  const MAX := 256

  datatype Source = Stub | Update

  /** A participant; an absent field is the empty string. */
  datatype Participant = Participant(lid: string, phoneJid: string)

  /** The sorted list of members is kept as the multiset it determines. */
  datatype Signature = Signature(chatJid: string, action: string, members: multiset<string>)

  datatype Copy = Copy(signature: Signature, source: Source, changeId: string, expiresAt: int)

  /**
   One native copy as the handler meets it: `phones` is the phone book at that time, `at` the
   clock, and `uuid` and `copyUuid` the random ids it may draw.
   */
  datatype Capture = Capture(
    source: Source, chatJid: string, action: string, participants: seq<Participant>,
    messageId: string, at: int, phones: map<string, string>, uuid: string, copyUuid: string)

  function Prefix(source: Source): (r: string) {
    match source
    case Stub => "stub:"
    case Update => "update:"
  }

  // ---------------------------------------------------------------- signatures

  /** `withKnownPhone`. */
  function WithKnownPhone(p: Participant, phones: map<string, string>): Participant {
    if p.phoneJid == "" && p.lid != "" && p.lid in phones then p.(phoneJid := phones[p.lid]) else p
  }

  function Name(p: Participant): string {
    if p.lid != "" then p.lid else p.phoneJid
  }

  function Names(ps: seq<Participant>, phones: map<string, string>): multiset<string> {
    if ps == [] then multiset{} else multiset{Name(WithKnownPhone(ps[0], phones))} + Names(ps[1..], phones)
  }

  function SignatureOf(c: Capture): Signature {
    Signature(c.chatJid, c.action, Names(c.participants, c.phones))
  }

  /** What a participant is known by: the LID, or else the phone number. */
  function Label(p: Participant): string { if p.lid == "" then p.phoneJid else p.lid }

  function Labels(ps: seq<Participant>): seq<string> {
    seq(|ps|, i requires 0 <= i < |ps| => Label(ps[i]))
  }

  lemma {:induction false} LabelsFirst(ps: seq<Participant>)
    requires ps != []
    ensures Labels(ps) == [Label(ps[0])] + Labels(ps[1..])
  {
  }

  lemma {:induction false} NameIsLabel(p: Participant, phones: map<string, string>)
    ensures Name(WithKnownPhone(p, phones)) == Label(p)
  {
  }

  /** A signature holds each participant once, by that label. */
  lemma {:induction false} NamesAre(ps: seq<Participant>, phones: map<string, string>)
    ensures Names(ps, phones) == multiset(Labels(ps))
  {
    if ps == [] {
      assert Labels(ps) == [];
    } else {
      NamesAre(ps[1..], phones);
      NameIsLabel(ps[0], phones);
      LabelsFirst(ps);
    }
  }

  /** Two captures have one signature exactly when they are of one chat and action and of the same participants. */
  lemma {:induction false} SignatureIff(c: Capture, d: Capture)
    ensures SignatureOf(c) == SignatureOf(d) <==>
            && c.chatJid == d.chatJid && c.action == d.action
            && multiset(Labels(c.participants)) == multiset(Labels(d.participants))
  {
    NamesAre(c.participants, c.phones);
    NamesAre(d.participants, d.phones);
  }

  /** A phone number learned between the two copies does not keep them apart. */
  lemma {:induction false} NamesIgnorePhones(ps: seq<Participant>, a: map<string, string>, b: map<string, string>)
    ensures Names(ps, a) == Names(ps, b)
  {
    if ps != [] {
      NamesIgnorePhones(ps[1..], a, b);
    }
  }

  lemma {:induction false} NamesConcat(ps: seq<Participant>, qs: seq<Participant>, phones: map<string, string>)
    ensures Names(ps + qs, phones) == Names(ps, phones) + Names(qs, phones)
  {
    if ps == [] {
      assert ps + qs == qs;
    } else {
      assert (ps + qs)[0] == ps[0] && (ps + qs)[1..] == ps[1..] + qs;
      NamesConcat(ps[1..], qs, phones);
    }
  }

  lemma NamesWithout(qs: seq<Participant>, i: nat, phones: map<string, string>)
    requires i < |qs|
    ensures Names(qs, phones) == multiset{Name(WithKnownPhone(qs[i], phones))} + Names(qs[..i] + qs[i + 1..], phones)
  {
    assert qs == qs[..i] + qs[i..];
    NamesConcat(qs[..i], qs[i..], phones);
    NamesConcat(qs[..i], qs[i + 1..], phones);
    assert qs[i..][1..] == qs[i + 1..];
  }

  lemma MultisetWithout(qs: seq<Participant>, i: nat)
    requires i < |qs|
    ensures multiset(qs[..i] + qs[i + 1..]) == multiset(qs) - multiset{qs[i]}
  {
    assert qs == qs[..i] + [qs[i]] + qs[i + 1..];
    assert multiset(qs) == multiset(qs[..i] + qs[i + 1..]) + multiset{qs[i]};
  }

  lemma SameWithout(ps: seq<Participant>, qs: seq<Participant>, i: nat)
    requires ps != [] && i < |qs| && qs[i] == ps[0] && multiset(ps) == multiset(qs)
    ensures multiset(ps[1..]) == multiset(qs[..i] + qs[i + 1..])
  {
    MultisetWithout(qs, i);
    assert ps == [ps[0]] + ps[1..];
    assert multiset(ps[1..]) == multiset(ps) - multiset{ps[0]};
  }

  /** Nor does the order in which the two copies list the participants. */
  lemma {:induction false} NamesIgnoreOrder(ps: seq<Participant>, qs: seq<Participant>, phones: map<string, string>)
    requires multiset(ps) == multiset(qs)
    ensures Names(ps, phones) == Names(qs, phones)
  {
    if ps == [] {
      assert |multiset(qs)| == 0;
    } else {
      assert ps[0] in multiset(qs);
      var i :| 0 <= i < |qs| && qs[i] == ps[0];
      SameWithout(ps, qs, i);
      NamesIgnoreOrder(ps[1..], qs[..i] + qs[i + 1..], phones);
      NamesWithout(qs, i, phones);
    }
  }

  // ---------------------------------------------------------------- one capture

  /** `filter((copy) => copy.expiresAt > timestamp)`. */
  function Live(p: seq<Copy>, now: int): (r: seq<Copy>) {
    if p == [] then [] else (if p[0].expiresAt > now then [p[0]] else []) + Live(p[1..], now)
  }

  predicate Matches(copy: Copy, source: Source, signature: Signature) {
    copy.source != source && copy.signature == signature
  }

  /** `findIndex`: the oldest waiting copy of the other source, or the length when there is none. */
  function Counterpart(p: seq<Copy>, source: Source, signature: Signature): (k: nat)
    ensures k <= |p|
    ensures k < |p| ==> Matches(p[k], source, signature)
    ensures forall i :: 0 <= i < k ==> !Matches(p[i], source, signature)
  {
    if p == [] || Matches(p[0], source, signature) then 0 else 1 + Counterpart(p[1..], source, signature)
  }

  /** The change id a copy opens when it meets no counterpart. */
  function OwnId(c: Capture): string {
    if c.source == Stub && c.messageId != "" then "stub:" + c.messageId else Prefix(c.source) + c.uuid
  }

  /** The id under which the copy itself is deduplicated. */
  function CopyId(c: Capture): string {
    if c.source == Stub && c.messageId != "" then "stub:" + c.messageId else Prefix(c.source) + c.copyUuid
  }

  function Opened(c: Capture): Copy {
    Copy(SignatureOf(c), c.source, OwnId(c), c.at + TTL)
  }

  function Pushed(p: seq<Copy>, copy: Copy): (r: seq<Copy>) {
    if |p| + 1 > MAX then p[1..] + [copy] else p + [copy]
  }

  function Resolve(live: seq<Copy>, c: Capture): (r: (seq<Copy>, string)) {
    var k := Counterpart(live, c.source, SignatureOf(c));
    if k < |live| then (live[..k] + live[k + 1..], live[k].changeId)
    else (Pushed(live, Opened(c)), OwnId(c))
  }

  function Captured(p: seq<Copy>, c: Capture): (r: (seq<Copy>, string)) {
    Resolve(Live(p, c.at), c)
  }

  class Pairing {
    var pendingMembershipCopies: seq<Copy>

    constructor ()
      ensures pendingMembershipCopies == []
    {
      pendingMembershipCopies := [];
    }

    /** The part of `captureMembershipChange` before the change is signalled. */
    method CaptureMembershipChange(c: Capture) returns (changeId: string)
      requires |pendingMembershipCopies| <= MAX
      modifies this
      ensures (pendingMembershipCopies, changeId) == Captured(old(pendingMembershipCopies), c)
      ensures |pendingMembershipCopies| <= MAX
    {
      LiveIsSmall(pendingMembershipCopies, c.at);
      pendingMembershipCopies := Live(pendingMembershipCopies, c.at);
      var signature := SignatureOf(c);
      var counterpart := Counterpart(pendingMembershipCopies, c.source, signature);
      if counterpart < |pendingMembershipCopies| {
        changeId := pendingMembershipCopies[counterpart].changeId;
        pendingMembershipCopies :=
          pendingMembershipCopies[..counterpart] + pendingMembershipCopies[counterpart + 1..];
      } else {
        changeId := OwnId(c);
        pendingMembershipCopies := pendingMembershipCopies + [Copy(signature, c.source, changeId, c.at + TTL)];
        if |pendingMembershipCopies| > MAX {
          ghost var before := pendingMembershipCopies;
          pendingMembershipCopies := pendingMembershipCopies[1..];
          assert before[1..] == Live(old(pendingMembershipCopies), c.at)[1..] + [Opened(c)];
        }
      }
    }
  }

  lemma {:induction false} LiveIsSmall(p: seq<Copy>, now: int)
    ensures |Live(p, now)| <= |p|
  {
    if p != [] {
      LiveIsSmall(p[1..], now);
    }
  }

  // ---------------------------------------------------------------- runs

  /** The buffer and the change ids given out by a run of captures, starting from nothing. */
  function Pending(cs: seq<Capture>): seq<Copy> {
    if cs == [] then [] else Captured(Pending(cs[..|cs| - 1]), cs[|cs| - 1]).0
  }

  function Given(cs: seq<Capture>, i: nat): string
    requires i < |cs|
  {
    Captured(Pending(cs[..i]), cs[i]).1
  }

  ghost predicate ClockForward(cs: seq<Capture>) {
    forall i, j :: 0 <= i < j < |cs| ==> cs[i].at <= cs[j].at
  }

  /** Within a chat no copy is captured twice. */
  ghost predicate DistinctCopies(cs: seq<Capture>) {
    forall i, j :: 0 <= i < j < |cs| && cs[i].chatJid == cs[j].chatJid ==> CopyId(cs[i]) != CopyId(cs[j])
  }

  ghost predicate Drawn(c: Capture) {
    c.source == Update || c.messageId == ""
  }

  /** A change id drawn at random is no other copy's change id. */
  ghost predicate FreshDraws(cs: seq<Capture>) {
    forall i, j :: 0 <= i < |cs| && 0 <= j < |cs| && i != j && Drawn(cs[i]) ==> OwnId(cs[i]) != OwnId(cs[j])
  }

  ghost predicate GoodRun(cs: seq<Capture>) {
    ClockForward(cs) && DistinctCopies(cs) && FreshDraws(cs)
  }

  lemma OwnIdsApart(cs: seq<Capture>, i: nat, j: nat)
    requires GoodRun(cs) && i < j < |cs| && cs[i].chatJid == cs[j].chatJid
    ensures OwnId(cs[i]) != OwnId(cs[j])
  {
  }

  /** The captures that opened the waiting copies, in the order of the buffer. */
  ghost function NextOrigins(p: seq<Copy>, origins: seq<nat>, c: Capture, n: nat): seq<nat>
    requires |origins| == |p| && |Live(p, c.at)| <= |p|
  {
    var live := Live(p, c.at);
    ResolveOrigins(origins[|p| - |live|..], Counterpart(live, c.source, SignatureOf(c)), n)
  }

  ghost function ResolveOrigins(left: seq<nat>, k: nat, n: nat): seq<nat> {
    if k < |left| then left[..k] + left[k + 1..]
    else if |left| + 1 > MAX then left[1..] + [n] else left + [n]
  }

  ghost function Origins(cs: seq<Capture>, n: nat): (r: seq<nat>)
    requires n <= |cs|
    ensures |r| == |Pending(cs[..n])|
  {
    if n == 0 then [] else
      assert cs[..n][..n - 1] == cs[..n - 1];
      LiveIsSmall(Pending(cs[..n - 1]), cs[n - 1].at);
      NextOrigins(Pending(cs[..n - 1]), Origins(cs, n - 1), cs[n - 1], n - 1)
  }

  lemma PendingNext(cs: seq<Capture>, n: nat)
    requires n < |cs|
    ensures Pending(cs[..n + 1]) == Captured(Pending(cs[..n]), cs[n]).0
  {
    assert cs[..n + 1][..n] == cs[..n];
  }

  lemma OriginsNext(cs: seq<Capture>, n: nat)
    requires n < |cs|
    ensures |Live(Pending(cs[..n]), cs[n].at)| <= |Pending(cs[..n])|
    ensures Origins(cs, n + 1) == NextOrigins(Pending(cs[..n]), Origins(cs, n), cs[n], n)
  {
    LiveIsSmall(Pending(cs[..n]), cs[n].at);
  }

  /** Every waiting copy is as its capture opened it; the buffer is in order and within its maximum. */
  ghost predicate From(cs: seq<Capture>, n: nat, p: seq<Copy>, origins: seq<nat>) {
    && n <= |cs|
    && |origins| == |p| <= MAX
    && (forall x :: 0 <= x < |p| ==> origins[x] < n && p[x] == Opened(cs[origins[x]]))
    && (forall x, y :: 0 <= x < y < |p| ==> origins[x] < origins[y])
  }

  ghost predicate InOrder(p: seq<Copy>) {
    forall x, y :: 0 <= x < y < |p| ==> p[x].expiresAt <= p[y].expiresAt
  }

  lemma {:induction false} AllLive(p: seq<Copy>, now: int)
    requires forall x :: 0 <= x < |p| ==> p[x].expiresAt > now
    ensures Live(p, now) == p
  {
    if p != [] {
      AllLive(p[1..], now);
      assert p == [p[0]] + p[1..];
    }
  }

  /** In order of expiry, what is left after the filter is the tail of the buffer. */
  lemma {:induction false} LiveIsTail(p: seq<Copy>, now: int)
    requires InOrder(p)
    ensures |Live(p, now)| <= |p| && Live(p, now) == p[|p| - |Live(p, now)|..]
    ensures forall x :: 0 <= x < |p| ==> (p[x].expiresAt > now <==> x >= |p| - |Live(p, now)|)
  {
    if p != [] && p[0].expiresAt > now {
      AllLive(p, now);
    } else if p != [] {
      var rest := p[1..];
      assert forall x :: 0 <= x < |rest| ==> rest[x] == p[x + 1];
      LiveIsTail(rest, now);
      assert forall x :: 1 <= x < |p| ==> p[x] == rest[x - 1];
    }
  }

  /** What one capture does to the buffer, as indices into the buffer before it. */
  lemma TailOf(cs: seq<Capture>, n: nat, p: seq<Copy>, origins: seq<nat>)
    requires ClockForward(cs) && n < |cs| && From(cs, n, p, origins)
    ensures var live := Live(p, cs[n].at); var d := |p| - |live|;
            d >= 0 && live == p[d..] && From(cs, n, live, origins[d..])
            && (forall x :: 0 <= x < |p| ==> (cs[origins[x]].at + TTL > cs[n].at <==> x >= d))
  {
    assert InOrder(p);
    LiveIsTail(p, cs[n].at);
  }

  lemma FromStep(cs: seq<Capture>, n: nat, p: seq<Copy>, origins: seq<nat>)
    requires ClockForward(cs) && n < |cs| && From(cs, n, p, origins) && |Live(p, cs[n].at)| <= |p|
    ensures From(cs, n + 1, Captured(p, cs[n]).0, NextOrigins(p, origins, cs[n], n))
  {
    TailOf(cs, n, p, origins);
    var live := Live(p, cs[n].at);
    var left := origins[|p| - |live|..];
    FromResolve(cs, n, live, left);
  }

  lemma FromRemoved(cs: seq<Capture>, n: nat, live: seq<Copy>, left: seq<nat>, k: nat)
    requires From(cs, n, live, left) && k < |left|
    ensures From(cs, n, live[..k] + live[k + 1..], left[..k] + left[k + 1..])
  {
  }

  lemma FromPushed(cs: seq<Capture>, n: nat, live: seq<Copy>, left: seq<nat>)
    requires n < |cs| && From(cs, n, live, left) && |live| < MAX
    ensures From(cs, n + 1, live + [Opened(cs[n])], left + [n])
  {
  }

  lemma FromPush(cs: seq<Capture>, n: nat, live: seq<Copy>, left: seq<nat>)
    requires n < |cs| && From(cs, n, live, left)
    ensures From(cs, n + 1, Pushed(live, Opened(cs[n])), ResolveOrigins(left, |left|, n))
  {
    if |left| + 1 > MAX {
      FromRemoved(cs, n, live, left, 0);
      assert live[..0] + live[0 + 1..] == live[1..] && left[..0] + left[0 + 1..] == left[1..];
      FromPushed(cs, n, live[1..], left[1..]);
    } else {
      FromPushed(cs, n, live, left);
    }
  }

  lemma FromLater(cs: seq<Capture>, n: nat, p: seq<Copy>, origins: seq<nat>)
    requires n < |cs| && From(cs, n, p, origins)
    ensures From(cs, n + 1, p, origins)
  {
  }

  lemma FromResolve(cs: seq<Capture>, n: nat, live: seq<Copy>, left: seq<nat>)
    requires n < |cs| && From(cs, n, live, left)
    ensures From(cs, n + 1, Resolve(live, cs[n]).0,
                 ResolveOrigins(left, Counterpart(live, cs[n].source, SignatureOf(cs[n])), n))
  {
    var k := Counterpart(live, cs[n].source, SignatureOf(cs[n]));
    if k < |left| {
      FromRemoved(cs, n, live, left, k);
      FromLater(cs, n, live[..k] + live[k + 1..], left[..k] + left[k + 1..]);
    } else {
      FromPush(cs, n, live, left);
    }
  }

  lemma FromNext(cs: seq<Capture>, n: nat, p: seq<Copy>, origins: seq<nat>)
    requires ClockForward(cs) && n < |cs| && p == Pending(cs[..n]) && origins == Origins(cs, n)
    requires From(cs, n, p, origins)
    ensures From(cs, n + 1, Pending(cs[..n + 1]), Origins(cs, n + 1))
  {
    PendingNext(cs, n);
    OriginsNext(cs, n);
    FromStep(cs, n, p, origins);
  }

  lemma {:induction false} AlwaysFrom(cs: seq<Capture>, n: nat)
    requires ClockForward(cs) && n <= |cs|
    ensures From(cs, n, Pending(cs[..n]), Origins(cs, n))
  {
    if n == 0 {
      assert cs[..0] == [];
    } else {
      var m := n - 1;
      AlwaysFrom(cs, m);
      FromNext(cs, m, Pending(cs[..m]), Origins(cs, m));
    }
  }

  // ---------------------------------------------------------------- what the change ids mean

  /** The change ids given out by a run. */
  ghost function Ids(cs: seq<Capture>): (ids: seq<string>)
    ensures |ids| == |cs|
  {
    if cs == [] then [] else Ids(cs[..|cs| - 1]) + [Given(cs, |cs| - 1)]
  }

  lemma {:induction false} IdsAt(cs: seq<Capture>, i: nat)
    requires i < |cs|
    ensures Ids(cs)[i] == Given(cs, i)
  {
    var n := |cs| - 1;
    if i < n {
      IdsAt(cs[..n], i);
      GivenInPrefix(cs, n, i);
    }
  }

  lemma GivenInPrefix(cs: seq<Capture>, n: nat, i: nat)
    requires i < n <= |cs|
    ensures Given(cs[..n], i) == Given(cs, i)
  {
    assert cs[..n][..i] == cs[..i] && cs[..n][i] == cs[i];
  }

  /** The i-th and the j-th capture can be the two native copies of one change. */
  ghost predicate Paired(cs: seq<Capture>, i: nat, j: nat)
    requires i < j < |cs|
  {
    && cs[i].source != cs[j].source
    && SignatureOf(cs[i]) == SignatureOf(cs[j])
    && cs[j].at < cs[i].at + TTL
  }

  ghost predicate SameChange(cs: seq<Capture>, ids: seq<string>, i: nat, j: nat)
    requires |ids| == |cs| && i < |cs| && j < |cs|
  {
    cs[i].chatJid == cs[j].chatJid && ids[i] == ids[j]
  }

  /** The j-th capture was given the change id that the i-th opened. */
  ghost predicate TakesOver(cs: seq<Capture>, ids: seq<string>, i: nat, j: nat)
    requires |ids| == |cs| && i < j < |cs|
  {
    ids[i] == OwnId(cs[i]) && ids[j] == OwnId(cs[i]) && Paired(cs, i, j)
  }

  /** Before the n-th capture the i-th has opened a change that no other shares. */
  ghost predicate Waits(cs: seq<Capture>, ids: seq<string>, i: nat, n: nat)
    requires |ids| == |cs| && n <= |cs|
  {
    i < n && ids[i] == OwnId(cs[i]) && forall k :: 0 <= k < n && k != i ==> !SameChange(cs, ids, k, i)
  }

  /** Every change id was opened by its own copy or taken over from an earlier one. */
  ghost predicate Explained(cs: seq<Capture>, ids: seq<string>, n: nat)
    requires |ids| == |cs| && n <= |cs|
  {
    forall j :: 0 <= j < n ==> ids[j] == OwnId(cs[j]) || exists i :: 0 <= i < j && TakesOver(cs, ids, i, j)
  }

  ghost predicate PairsOnly(cs: seq<Capture>, ids: seq<string>, n: nat)
    requires |ids| == |cs| && n <= |cs|
  {
    forall i, j :: 0 <= i < j < n && SameChange(cs, ids, i, j) ==> TakesOver(cs, ids, i, j)
  }

  ghost predicate Sound(cs: seq<Capture>, ids: seq<string>, n: nat, origins: seq<nat>)
    requires |ids| == |cs| && n <= |cs|
  {
    && Explained(cs, ids, n)
    && PairsOnly(cs, ids, n)
    && (forall w :: w in origins ==> Waits(cs, ids, w, n))
  }

  /**
   The n-th capture keeps the waiting copies `live`, opened by `left`, finds its counterpart at `k`
   or not at all, and is given `id`; the copies opened by `next` wait afterwards.
   */
  ghost predicate View(cs: seq<Capture>, n: nat, id: string, live: seq<Copy>, left: seq<nat>, k: nat, next: seq<nat>)
    requires n < |cs|
  {
    && From(cs, n, live, left)
    && k <= |live|
    && (forall x :: 0 <= x < k ==> !Matches(live[x], cs[n].source, SignatureOf(cs[n])))
    && (k < |live| ==> Matches(live[k], cs[n].source, SignatureOf(cs[n])))
    && id == (if k < |live| then live[k].changeId else OwnId(cs[n]))
    && (forall x :: 0 <= x < |left| ==> cs[n].at < cs[left[x]].at + TTL)
    && next == ResolveOrigins(left, k, n)
  }

  lemma ViewAt(cs: seq<Capture>, n: nat, origins: seq<nat>)
    returns (live: seq<Copy>, left: seq<nat>, k: nat, d: nat, next: seq<nat>)
    requires ClockForward(cs) && n < |cs| && origins == Origins(cs, n)
    ensures d <= |origins| && left == origins[d..] && next == Origins(cs, n + 1)
    ensures forall x :: 0 <= x < d ==> origins[x] < n && cs[origins[x]].at + TTL <= cs[n].at
    ensures View(cs, n, Ids(cs)[n], live, left, k, next)
  {
    var p := Pending(cs[..n]);
    AlwaysFrom(cs, n);
    TailOf(cs, n, p, origins);
    live := Live(p, cs[n].at);
    d := |p| - |live|;
    left := origins[d..];
    k := Counterpart(live, cs[n].source, SignatureOf(cs[n]));
    OriginsNext(cs, n);
    IdsAt(cs, n);
    next := Origins(cs, n + 1);
    LeftIsYoung(cs, n, origins, d);
  }

  lemma LeftIsYoung(cs: seq<Capture>, n: nat, origins: seq<nat>, d: nat)
    requires n < |cs| && d <= |origins| && forall x :: 0 <= x < |origins| ==> origins[x] < n
    requires forall x :: 0 <= x < |origins| ==> (cs[origins[x]].at + TTL > cs[n].at <==> x >= d)
    ensures forall x :: 0 <= x < |origins[d..]| ==> cs[n].at < cs[origins[d..][x]].at + TTL
  {
  }

  /** A capture that finds a counterpart takes over the id of the oldest one and stops its waiting. */
  lemma TakeStep(cs: seq<Capture>, n: nat, id: string, live: seq<Copy>, left: seq<nat>, k: nat, next: seq<nat>)
    requires n < |cs| && View(cs, n, id, live, left, k, next) && k < |live|
    ensures left[k] < n && id == OwnId(cs[left[k]]) && Paired(cs, left[k], n)
    ensures cs[left[k]].chatJid == cs[n].chatJid
    ensures forall w :: w in next ==> w in left && w != left[k]
  {
  }

  lemma TakeKeepsWaiting(cs: seq<Capture>, ids: seq<string>, n: nat, o: nat, w: nat)
    requires GoodRun(cs) && |ids| == |cs| && n < |cs| && Waits(cs, ids, w, n)
    requires o < n && ids[n] == OwnId(cs[o]) && cs[o].chatJid == cs[n].chatJid && w != o
    ensures Waits(cs, ids, w, n + 1)
  {
  }

  lemma TakeIsSound(cs: seq<Capture>, ids: seq<string>, n: nat, origins: seq<nat>, o: nat, next: seq<nat>)
    requires GoodRun(cs) && |ids| == |cs| && n < |cs| && Sound(cs, ids, n, origins)
    requires o in origins && o < n && ids[n] == OwnId(cs[o]) && Paired(cs, o, n)
    requires cs[o].chatJid == cs[n].chatJid
    requires forall w :: w in next ==> w in origins && w != o
    ensures Sound(cs, ids, n + 1, next)
  {
    assert Waits(cs, ids, o, n);
    assert TakesOver(cs, ids, o, n);
    forall w | w in next ensures Waits(cs, ids, w, n + 1) {
      TakeKeepsWaiting(cs, ids, n, o, w);
    }
    forall i | 0 <= i < n && SameChange(cs, ids, i, n) ensures i == o {
      assert i != o ==> SameChange(cs, ids, i, o);
    }
  }

  lemma OpenIsSound(cs: seq<Capture>, ids: seq<string>, n: nat, origins: seq<nat>, next: seq<nat>)
    requires GoodRun(cs) && |ids| == |cs| && n < |cs| && Sound(cs, ids, n, origins) && ids[n] == OwnId(cs[n])
    requires forall w :: w in next ==> w in origins || w == n
    ensures Sound(cs, ids, n + 1, next)
  {
  }

  /** Sound, with the ids given out and the copies waiting after n captures. */
  ghost predicate SoundAt(cs: seq<Capture>, n: nat)
    requires n <= |cs|
  {
    Sound(cs, Ids(cs), n, Origins(cs, n))
  }

  lemma SoundStep(cs: seq<Capture>, n: nat)
    requires GoodRun(cs) && n < |cs| && SoundAt(cs, n)
    ensures SoundAt(cs, n + 1)
  {
    var live, left, k, d, next := ViewAt(cs, n, Origins(cs, n));
    ViewIsSound(cs, Ids(cs), n, Origins(cs, n), live, left, k, d, next);
  }

  lemma ViewIsSound(
    cs: seq<Capture>, ids: seq<string>, n: nat, origins: seq<nat>,
    live: seq<Copy>, left: seq<nat>, k: nat, d: nat, next: seq<nat>)
    requires GoodRun(cs) && |ids| == |cs| && n < |cs| && Sound(cs, ids, n, origins)
    requires d <= |origins| && left == origins[d..] && View(cs, n, ids[n], live, left, k, next)
    ensures Sound(cs, ids, n + 1, next)
  {
    if k < |live| {
      TakeStep(cs, n, ids[n], live, left, k, next);
      TakeIsSound(cs, ids, n, origins, left[k], next);
    } else {
      OpenIsSound(cs, ids, n, origins, next);
    }
  }

  lemma {:induction false} AlwaysSound(cs: seq<Capture>, n: nat)
    requires GoodRun(cs) && n <= |cs|
    ensures SoundAt(cs, n)
  {
    if n == 0 {
      SoundAtFirst(cs);
    } else {
      AlwaysSound(cs, n - 1);
      SoundStep(cs, n - 1);
    }
  }

  lemma SoundAtFirst(cs: seq<Capture>)
    ensures SoundAt(cs, 0)
  {
  }

  /**
   Whatever copies arrive in whatever order, two captures of a chat are given one change id only
   when they are a stub and an update of one action on the same participants, less than thirty
   seconds apart.
   */
  lemma SameChangeMeansPaired(cs: seq<Capture>, i: nat, j: nat)
    requires GoodRun(cs) && i < j < |cs|
    requires cs[i].chatJid == cs[j].chatJid && Given(cs, i) == Given(cs, j)
    ensures cs[i].source != cs[j].source
    ensures cs[i].action == cs[j].action
    ensures multiset(Labels(cs[i].participants)) == multiset(Labels(cs[j].participants))
    ensures cs[j].at - cs[i].at < 30000
    ensures Given(cs, i) == OwnId(cs[i])
  {
    SignatureIff(cs[i], cs[j]);
    AlwaysSound(cs, |cs|);
    IdsAt(cs, i);
    IdsAt(cs, j);
    assert SameChange(cs, Ids(cs), i, j);
    assert TakesOver(cs, Ids(cs), i, j);
  }

  /** A copy that no earlier one can be paired with opens a change: a stub by its message id, others by a drawn one. */
  lemma UnpairedIsOwn(cs: seq<Capture>, j: nat)
    requires ClockForward(cs) && j < |cs| && forall i :: 0 <= i < j ==> !Paired(cs, i, j)
    ensures cs[j].source == Stub && cs[j].messageId != "" ==> Given(cs, j) == "stub:" + cs[j].messageId
    ensures cs[j].source == Stub && cs[j].messageId == "" ==> Given(cs, j) == "stub:" + cs[j].uuid
    ensures cs[j].source == Update ==> Given(cs, j) == "update:" + cs[j].uuid
  {
    var live, left, k, d, next := ViewAt(cs, j, Origins(cs, j));
    IdsAt(cs, j);
    if k < |live| {
      TakeStep(cs, j, Ids(cs)[j], live, left, k, next);
    }
  }

  /** So no change has a third copy. */
  lemma AtMostTwoCopies(cs: seq<Capture>, i: nat, j: nat, k: nat)
    requires GoodRun(cs) && i < j < k < |cs| && cs[i].chatJid == cs[j].chatJid == cs[k].chatJid
    ensures !(Given(cs, i) == Given(cs, j) == Given(cs, k))
  {
    if Given(cs, i) == Given(cs, j) == Given(cs, k) {
      SameChangeMeansPaired(cs, i, j);
      SameChangeMeansPaired(cs, j, k);
      SameChangeMeansPaired(cs, i, k);
    }
  }

  /** On any run, whatever the clock does. */
  lemma {:induction false} BufferIsBounded(cs: seq<Capture>)
    ensures |Pending(cs)| <= MAX
  {
    if cs != [] {
      var n := |cs| - 1;
      BufferIsBounded(cs[..n]);
      LiveIsSmall(Pending(cs[..n]), cs[n].at);
    }
  }

  // ---------------------------------------------------------------- completeness

  /** A copy opened long ago may have been shifted out; one opened by the last `MAX` captures has not. */
  ghost predicate Recent(cs: seq<Capture>, i: nat, n: nat)
    requires i < n <= |cs|
  {
    n - i <= MAX && cs[n - 1].at < cs[i].at + TTL
  }

  /** The origins hold i, with no more copies behind it than captures after i. */
  ghost predicate Holds(origins: seq<nat>, i: nat, n: nat) {
    exists x :: 0 <= x < |origins| && origins[x] == i && |origins| - x <= n - i
  }

  lemma HoldsStep(left: seq<nat>, k: nat, i: nat, n: nat)
    requires Holds(left, i, n) && n - i < MAX
    requires k < |left| ==> left[k] != i
    ensures Holds(ResolveOrigins(left, k, n), i, n + 1)
  {
    var x :| 0 <= x < |left| && left[x] == i && |left| - x <= n - i;
    var r := ResolveOrigins(left, k, n);
    var y := if k < |left| then (if k < x then x - 1 else x) else if |left| + 1 > MAX then x - 1 else x;
    assert 0 <= y < |r| && r[y] == i && |r| - y <= n + 1 - i;
  }

  lemma HoldsTail(origins: seq<nat>, d: nat, i: nat, n: nat)
    requires Holds(origins, i, n) && d <= |origins|
    requires forall x :: 0 <= x < d ==> origins[x] != i
    ensures Holds(origins[d..], i, n)
  {
  }

  /** The n-th capture takes no copy that waits after it, and opens a change only by pushing. */
  lemma NotTaken(
    cs: seq<Capture>, ids: seq<string>, n: nat, live: seq<Copy>, left: seq<nat>, k: nat, next: seq<nat>, i: nat)
    requires GoodRun(cs) && |ids| == |cs| && n < |cs| && View(cs, n, ids[n], live, left, k, next)
    requires Waits(cs, ids, i, n + 1) && k < |live|
    ensures i < n && left[k] != i
  {
    TakeStep(cs, n, ids[n], live, left, k, next);
    if i == n {
      OwnIdsApart(cs, left[k], n);
    } else {
      assert !SameChange(cs, ids, n, i);
    }
  }

  lemma {:induction false} StaysWaiting(cs: seq<Capture>, i: nat, n: nat)
    requires GoodRun(cs) && i < n <= |cs|
    requires Waits(cs, Ids(cs), i, n) && Recent(cs, i, n)
    ensures Holds(Origins(cs, n), i, n)
  {
    var m, ids := n - 1, Ids(cs);
    var origins := Origins(cs, m);
    if i < m {
      assert cs[m - 1].at <= cs[m].at;
      WaitsEarlier(cs, ids, i, m);
      StaysWaiting(cs, i, m);
    }
    var live, left, k, d, next := ViewAt(cs, m, origins);
    HoldsNext(cs, ids, m, origins, live, left, k, d, next, i);
  }

  lemma WaitsEarlier(cs: seq<Capture>, ids: seq<string>, i: nat, n: nat)
    requires |ids| == |cs| && n < |cs| && i < n && Waits(cs, ids, i, n + 1)
    ensures Waits(cs, ids, i, n)
  {
  }

  lemma HoldsNext(
    cs: seq<Capture>, ids: seq<string>, n: nat, origins: seq<nat>,
    live: seq<Copy>, left: seq<nat>, k: nat, d: nat, next: seq<nat>, i: nat)
    requires GoodRun(cs) && |ids| == |cs| && n < |cs| && View(cs, n, ids[n], live, left, k, next)
    requires d <= |origins| && left == origins[d..]
    requires forall x :: 0 <= x < d ==> origins[x] < n && cs[origins[x]].at + TTL <= cs[n].at
    requires Waits(cs, ids, i, n + 1) && Recent(cs, i, n + 1) && (i < n ==> Holds(origins, i, n))
    ensures Holds(next, i, n + 1)
  {
    if k < |live| {
      NotTaken(cs, ids, n, live, left, k, next, i);
    }
    if i == n {
      assert next[|next| - 1] == i;
    } else {
      HoldsTail(origins, d, i, n);
      HoldsStep(left, k, i, n);
    }
  }

  /** A waiting copy that the next capture could be paired with keeps that capture from opening a change. */
  lemma WaitingIsTaken(
    cs: seq<Capture>, n: nat, id: string, live: seq<Copy>, left: seq<nat>, k: nat, next: seq<nat>, x: nat)
    requires n < |cs| && View(cs, n, id, live, left, k, next)
    requires x < |left| && left[x] < n && Paired(cs, left[x], n)
    ensures k <= x && left[k] <= left[x]
  {
  }

  /**
   A copy whose counterpart was captured less than thirty seconds and at most `MAX` captures
   earlier and is still alone never opens a change of its own: it joins that counterpart, or an
   earlier one of the same signature.
   */
  lemma CounterpartIsFound(cs: seq<Capture>, i: nat, j: nat) returns (o: nat)
    requires GoodRun(cs) && i < j < |cs|
    requires Waits(cs, Ids(cs), i, j) && j - i <= MAX && Paired(cs, i, j)
    ensures o <= i && Given(cs, o) == OwnId(cs[o]) == Given(cs, j) && Paired(cs, o, j)
  {
    assert cs[j - 1].at <= cs[j].at;
    StaysWaiting(cs, i, j);
    var origins, ids := Origins(cs, j), Ids(cs);
    var live, left, k, d, next := ViewAt(cs, j, origins);
    HoldsTail(origins, d, i, j);
    var x :| 0 <= x < |left| && left[x] == i;
    WaitingIsTaken(cs, j, ids[j], live, left, k, next, x);
    TakeStep(cs, j, ids[j], live, left, k, next);
    o := left[k];
    AlwaysSound(cs, j);
    assert origins[d + k] == o;
    assert Waits(cs, ids, o, j);
    IdsAt(cs, o);
    IdsAt(cs, j);
  }

  // ---------------------------------------------------------------- a copy captured again

  /** With one waiting copy or two equal ones, its counterpart takes the first. */
  lemma TakesFirst(copy: Copy, rest: seq<Copy>, c: Capture)
    requires Matches(copy, c.source, SignatureOf(c)) && copy.expiresAt > c.at
    requires rest == [] || rest == [copy]
    ensures Captured([copy] + rest, c) == (rest, copy.changeId)
  {
    var p := [copy] + rest;
    AllLive(p, c.at);
    assert p[..0] + p[0 + 1..] == rest;
  }

  lemma WaitsAgain(copy: Copy, c: Capture)
    requires copy == Opened(c)
    ensures Captured([], c) == ([copy], OwnId(c))
    ensures Captured([copy], c) == ([copy, copy], OwnId(c))
  {
    AllLive([copy], c.at);
    var k := Counterpart([copy], c.source, SignatureOf(c));
    assert k == 1 by { assert k < 1 ==> Matches([copy][k], c.source, SignatureOf(c)); }
    assert Pushed([], copy) == [copy];
    assert [copy] + [copy] == [copy, copy];
  }

  /**
   Distinct copies are needed: a stub whose signal failed is captured again under its message id,
   waits twice, and two updates are then given its one change id.
   */
  lemma RetryGivesThirdCopy(stub: Capture, first: Capture, second: Capture)
    requires stub.source == Stub && stub.messageId != ""
    requires first == stub.(source := Update, uuid := first.uuid, copyUuid := first.copyUuid)
    requires second == stub.(source := Update, uuid := second.uuid, copyUuid := second.copyUuid)
    ensures var cs := [stub, stub, first, second];
            Given(cs, 0) == Given(cs, 1) == Given(cs, 2) == Given(cs, 3)
  {
    SameSignature(stub, first);
    SameSignature(stub, second);
    RetryRun(Opened(stub), stub, first, second);
  }

  lemma SameSignature(stub: Capture, update: Capture)
    requires update == stub.(source := Update, uuid := update.uuid, copyUuid := update.copyUuid)
    ensures SignatureOf(update) == SignatureOf(stub)
  {
  }

  lemma RetryRun(c: Copy, stub: Capture, first: Capture, second: Capture)
    requires c == Opened(stub) && stub.at == first.at == second.at
    requires Matches(c, first.source, SignatureOf(first)) && Matches(c, second.source, SignatureOf(second))
    ensures var cs := [stub, stub, first, second];
            Given(cs, 0) == Given(cs, 1) == Given(cs, 2) == Given(cs, 3)
  {
    WaitsAgain(c, stub);
    TakenTwice(c, first, second);
    RunOfFour([stub, stub, first, second], [c], [c, c], [c], [], c.changeId);
  }

  lemma TakenTwice(copy: Copy, first: Capture, second: Capture)
    requires Matches(copy, first.source, SignatureOf(first)) && copy.expiresAt > first.at
    requires Matches(copy, second.source, SignatureOf(second)) && copy.expiresAt > second.at
    ensures Captured([copy, copy], first) == ([copy], copy.changeId)
    ensures Captured([copy], second) == ([], copy.changeId)
  {
    TakesFirst(copy, [copy], first);
    TakesFirst(copy, [], second);
    assert [copy] + [copy] == [copy, copy] && [copy] + [] == [copy];
  }

  lemma RunOfFour(
    cs: seq<Capture>, one: seq<Copy>, two: seq<Copy>, three: seq<Copy>, four: seq<Copy>, id: string)
    requires |cs| == 4
    requires Captured([], cs[0]) == (one, id) && Captured(one, cs[1]) == (two, id)
    requires Captured(two, cs[2]) == (three, id) && Captured(three, cs[3]) == (four, id)
    ensures Given(cs, 0) == Given(cs, 1) == Given(cs, 2) == Given(cs, 3) == id
  {
    assert cs[..0] == [];
    PendingNext(cs, 0);
    PendingNext(cs, 1);
    PendingNext(cs, 2);
  }

  // ---------------------------------------------------------------- counting, for any run at all

  /** The copies waiting under a change id. */
  function WaitingUnder(p: seq<Copy>, x: string): nat {
    if p == [] then 0 else (if p[0].changeId == x then 1 else 0) + WaitingUnder(p[1..], x)
  }

  lemma {:induction false} WaitingConcat(a: seq<Copy>, b: seq<Copy>, x: string)
    ensures WaitingUnder(a + b, x) == WaitingUnder(a, x) + WaitingUnder(b, x)
  {
    if a == [] {
      assert a + b == b;
    } else {
      assert (a + b)[1..] == a[1..] + b;
      WaitingConcat(a[1..], b, x);
    }
  }

  lemma {:induction false} WaitingLive(p: seq<Copy>, now: int, x: string)
    ensures WaitingUnder(Live(p, now), x) <= WaitingUnder(p, x)
  {
    if p != [] {
      WaitingLive(p[1..], now, x);
      WaitingConcat(if p[0].expiresAt > now then [p[0]] else [], Live(p[1..], now), x);
      assert WaitingUnder([p[0]], x) == if p[0].changeId == x then 1 else 0;
    }
  }

  lemma {:induction false} WaitingWithout(p: seq<Copy>, k: nat, x: string)
    requires k < |p|
    ensures WaitingUnder(p[..k] + p[k + 1..], x) + (if p[k].changeId == x then 1 else 0) == WaitingUnder(p, x)
  {
    WaitingConcat(p[..k], p[k + 1..], x);
    WaitingConcat(p[..k], p[k..], x);
    assert p == p[..k] + p[k..] && p[k..][1..] == p[k + 1..];
  }

  /** The capture takes over a waiting copy's change id. */
  predicate Takes(p: seq<Copy>, c: Capture) {
    var live := Live(p, c.at);
    Counterpart(live, c.source, SignatureOf(c)) < |live|
  }

  /** How many captures of a run opened the change id, and how many took it over. */
  function Openers(cs: seq<Capture>, x: string): nat {
    if cs == [] then 0
    else
      var n := |cs| - 1;
      Openers(cs[..n], x) + if !Takes(Pending(cs[..n]), cs[n]) && OwnId(cs[n]) == x then 1 else 0
  }

  function Takers(cs: seq<Capture>, x: string): nat {
    if cs == [] then 0
    else
      var n := |cs| - 1;
      var p := Pending(cs[..n]);
      Takers(cs[..n], x) + if Takes(p, cs[n]) && Captured(p, cs[n]).1 == x then 1 else 0
  }

  lemma {:induction false} CaptureCounts(p: seq<Copy>, c: Capture, x: string)
    ensures WaitingUnder(Captured(p, c).0, x) + (if Takes(p, c) && Captured(p, c).1 == x then 1 else 0)
            <= WaitingUnder(p, x) + if !Takes(p, c) && OwnId(c) == x then 1 else 0
  {
    WaitingLive(p, c.at, x);
    ResolveCounts(Live(p, c.at), c, x, Counterpart(Live(p, c.at), c.source, SignatureOf(c)));
  }

  lemma {:induction false} ResolveCounts(live: seq<Copy>, c: Capture, x: string, k: nat)
    requires k == Counterpart(live, c.source, SignatureOf(c))
    ensures WaitingUnder(Resolve(live, c).0, x) + (if k < |live| && Resolve(live, c).1 == x then 1 else 0)
            <= WaitingUnder(live, x) + if k == |live| && OwnId(c) == x then 1 else 0
  {
    if k < |live| {
      WaitingWithout(live, k, x);
    } else {
      PushCounts(live, Opened(c), x);
    }
  }

  lemma {:induction false} PushCounts(p: seq<Copy>, copy: Copy, x: string)
    ensures WaitingUnder(Pushed(p, copy), x) <= WaitingUnder(p, x) + if copy.changeId == x then 1 else 0
  {
    WaitingConcat(p, [copy], x);
    if p != [] {
      WaitingConcat(p[1..], [copy], x);
    }
  }

  /**
   On any run, copies captured again and clocks going back included: a change id is taken over at
   most as often as it was opened.
   */
  lemma {:induction false} TakersAtMostOpeners(cs: seq<Capture>, x: string)
    ensures Takers(cs, x) + WaitingUnder(Pending(cs), x) <= Openers(cs, x)
  {
    if cs != [] {
      var n := |cs| - 1;
      TakersAtMostOpeners(cs[..n], x);
      CaptureCounts(Pending(cs[..n]), cs[n], x);
    }
  }

  predicate Named(p: seq<Copy>) {
    forall i :: 0 <= i < |p| ==> Prefix(p[i].source) <= p[i].changeId
  }

  lemma {:induction false} LiveNamed(p: seq<Copy>, now: int)
    requires Named(p)
    ensures Named(Live(p, now))
  {
    if p != [] {
      LiveNamed(p[1..], now);
    }
  }

  lemma {:induction false} PendingNamed(cs: seq<Capture>)
    ensures Named(Pending(cs))
  {
    if cs != [] {
      var n := |cs| - 1;
      PendingNamed(cs[..n]);
      CapturedNamed(Pending(cs[..n]), cs[n]);
    }
  }

  lemma CapturedNamed(p: seq<Copy>, c: Capture)
    requires Named(p)
    ensures Named(Captured(p, c).0)
  {
    LiveNamed(p, c.at);
    OwnIdNamed(c);
    ResolveNamed(Live(p, c.at), Counterpart(Live(p, c.at), c.source, SignatureOf(c)), Opened(c));
  }

  lemma OwnIdNamed(c: Capture)
    ensures Prefix(c.source) <= OwnId(c)
  {
  }

  lemma ResolveNamed(live: seq<Copy>, k: nat, copy: Copy)
    requires Named(live) && Prefix(copy.source) <= copy.changeId
    ensures Named(Pushed(live, copy)) && (k < |live| ==> Named(live[..k] + live[k + 1..]))
  {
  }

  /** Who takes over an id opened by a stub is an update, and the other way round. */
  lemma TakerIsOther(cs: seq<Capture>, i: nat)
    requires i < |cs| && Takes(Pending(cs[..i]), cs[i])
    ensures Prefix(if cs[i].source == Stub then Update else Stub) <= Given(cs, i)
  {
    var p := Pending(cs[..i]);
    PendingNamed(cs[..i]);
    LiveNamed(p, cs[i].at);
    var live := Live(p, cs[i].at);
    var k := Counterpart(live, cs[i].source, SignatureOf(cs[i]));
    assert Matches(live[k], cs[i].source, SignatureOf(cs[i]));
  }
}
