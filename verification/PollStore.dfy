/**
 `PollReferenceStore`: the polls of this bridge with their votes, kept while they are unexpired
 and among the newest, and mirrored in one file.
 */
module PollStore {
  import opened Protocol
  import opened Sets
  import opened PollVotes

  const TTL := 48 * 60 * 60 * 1000
  const MAX_POLLS := 200

  datatype Poll = Poll(options: seq<string>, createdAtMs: int, expiresAtMs: int, updatedAtMs: int, votes: Votes)

  type Polls = map<string, Poll>

  /** What the pair loop of `recordVote` settles on: the first creator and voter that decrypt the vote. */
  ghost predicate DecryptsFirst(
    creators: seq<string>, voters: seq<string>, decrypt: (string, string) -> Option<seq<string>>, c: nat, v: nat)
  {
    && c < |creators| && v < |voters| && decrypt(creators[c], voters[v]).Some?
    && (forall y :: 0 <= y < v ==> decrypt(creators[c], voters[y]).None?)
    && (forall x, y :: 0 <= x < c && 0 <= y < |voters| ==> decrypt(creators[x], voters[y]).None?)
  }

  // ---------------------------------------------------------------- what is kept

  function Unexpired(m: Polls, now: int): (r: Polls)
    ensures r.Keys <= m.Keys
  {
    map k | k in m && m[k].expiresAtMs > now :: m[k]
  }

  /** The other polls that are no older. */
  function NotOlder(m: Polls, k: string): set<string>
    requires k in m
  {
    set l | l in m && l != k && m[l].createdAtMs >= m[k].createdAtMs
  }

  /** The sort and slice of `persist`, part of the way; equally old polls go in either order. */
  ghost predicate Trimming(all: Polls, m: Polls) {
    && (forall k :: k in m ==> k in all && m[k] == all[k])
    && (forall k, l :: k in all && k !in m && l in m ==> all[k].createdAtMs <= all[l].createdAtMs)
    && (forall k :: k in all && k !in m ==> |NotOlder(all, k)| >= MAX_POLLS)
  }

  /** What `persist` may leave: the newest unexpired polls, at most `MAX_POLLS` of them. */
  ghost predicate Persisted(m: Polls, kept: Polls, now: int) {
    Trimming(Unexpired(m, now), kept) && |kept| <= MAX_POLLS
  }

  lemma TrimStep(all: Polls, m: Polls, oldest: string)
    requires Trimming(all, m) && |m| > MAX_POLLS
    requires oldest in m && forall l :: l in m ==> m[oldest].createdAtMs <= m[l].createdAtMs
    ensures Trimming(all, m - {oldest})
  {
    assert m.Keys - {oldest} <= NotOlder(all, oldest);
    SubsetSize(m.Keys - {oldest}, NotOlder(all, oldest));
  }

  /** When few enough are unexpired, exactly they are kept. */
  lemma AllPersisted(m: Polls, kept: Polls, now: int)
    requires Persisted(m, kept, now) && |m.Keys| <= MAX_POLLS
    ensures kept == Unexpired(m, now)
  {
    var all := Unexpired(m, now);
    SubsetSize(all.Keys, m.Keys);
    forall k | k in all ensures k in kept {
      assert NotOlder(all, k) <= all.Keys - {k};
      SubsetSize(NotOlder(all, k), all.Keys - {k});
    }
  }

  /** The other polls were created before that time. */
  predicate AllBefore(m: Polls, key: string, now: int) {
    forall k :: k in m && k != key ==> m[k].createdAtMs < now
  }

  /** A poll newer than all others is kept. */
  lemma NewestIsKept(m: Polls, key: string, poll: Poll, kept: Polls, now: int)
    requires Persisted(m[key := poll], kept, now) && poll.createdAtMs == now < poll.expiresAtMs
    ensures AllBefore(m, key, now) ==> key in kept && kept[key] == poll
  {
    var all := Unexpired(m[key := poll], now);
    assert key in all && all[key] == poll;
    if AllBefore(m, key, now) {
      assert NotOlder(all, key) == {};
    }
  }

  // ---------------------------------------------------------------- the store

  /** The votes delivered to each poll since it was remembered. */
  type Deliveries = map<string, seq<Vote>>

  ghost function Heard(delivered: Deliveries, k: string): seq<Vote> {
    if k in delivered then delivered[k] else []
  }

  /** Every stored poll holds the tally of what was delivered to it. */
  ghost predicate Tallied(polls: Polls, delivered: Deliveries) {
    forall k :: k in polls ==> polls[k].votes == Tally(Heard(delivered, k))
  }

  /** A restart at `clock` or later gets back every poll that is still unexpired then. */
  ghost predicate Restores(polls: Polls, file: Polls, clock: int) {
    && (forall k :: k in polls ==> k in file && file[k] == polls[k])
    && (forall k :: k in file && k !in polls ==> file[k].expiresAtMs <= clock)
  }

  lemma PollsAreFew(polls: Polls, file: Polls, clock: int, key: string)
    requires Restores(polls, file, clock) && |file| <= MAX_POLLS
    ensures |polls.Keys| <= MAX_POLLS && |(polls - {key}).Keys| <= MAX_POLLS
  {
    assert |file| == |file.Keys|;
    SubsetSize(polls.Keys, file.Keys);
    SubsetSize((polls - {key}).Keys, polls.Keys);
  }

  lemma RestartGetsAll(polls: Polls, file: Polls, clock: int, now: int)
    requires Restores(polls, file, clock) && clock <= now
    ensures Unexpired(file, now) == Unexpired(polls, now)
  {
  }

  lemma TrimmedTallied(all: Polls, m: Polls, delivered: Deliveries)
    requires Tallied(all, delivered) && forall k :: k in m ==> k in all && m[k] == all[k]
    ensures Tallied(m, delivered)
  {
  }

  lemma TallyNext(vs: seq<Vote>, v: Vote)
    ensures Tally(vs + [v]) == Recorded(Tally(vs), v)
  {
    assert (vs + [v])[..|vs|] == vs;
  }

  lemma SameTally(m: Polls, delivered: Deliveries, key: string, vote: Vote)
    requires Tallied(m, delivered) && !Counted(Tally(Heard(delivered, key)), vote)
    ensures Tallied(m, delivered[key := Heard(delivered, key) + [vote]])
  {
    TallyNext(Heard(delivered, key), vote);
  }

  function Voted(m: Polls, key: string, vote: Vote, now: int): Polls
    requires key in m
  {
    m[key := m[key].(votes := Recorded(m[key].votes, vote), updatedAtMs := now)]
  }

  method VotedTallied(m: Polls, key: string, vote: Vote, now: int, ghost delivered: Deliveries) returns (voted: Polls)
    requires Tallied(m, delivered) && key in m
    ensures voted == Voted(m, key, vote, now) && |voted.Keys| == |m.Keys|
    ensures Tallied(voted, delivered[key := Heard(delivered, key) + [vote]])
  {
    TallyNext(Heard(delivered, key), vote);
    voted := Voted(m, key, vote, now);
    assert voted.Keys == m.Keys;
  }

  /** Meeting an expired poll drops it and every other expired one; meeting any other changes nothing. */
  function Met(m: Polls, key: string, now: int): Polls {
    if key in m && m[key].expiresAtMs <= now then Unexpired(m, now) else m
  }

  /** A vote that counts updates its poll and drops the expired ones; one that does not changes nothing. */
  function AfterVote(m: Polls, key: string, vote: Vote, now: int): Polls
    requires key in m
  {
    if Counted(m[key].votes, vote) then Unexpired(Voted(m, key, vote, now), now) else m
  }

  class PollReferenceStore {
    var polls: Polls
    var file: Polls
    ghost var delivered: Deliveries
    ghost var clock: int

    ghost predicate Valid()
      reads this
    {
      Restores(polls, file, clock) && Tallied(polls, delivered) && Tallied(file, delivered) && |file| <= MAX_POLLS
    }

    constructor (now: int)
      ensures Valid() && polls == map[] && file == map[] && clock == now
    {
      polls, file, delivered, clock := map[], map[], map[], now;
    }

    /** `open` in a new process: the unexpired polls of the file. */
    method Open(now: int)
      requires Valid() && clock <= now
      modifies this`polls, this`clock
      ensures Valid() && clock == now && polls == Unexpired(old(polls), now)
    {
      RestartGetsAll(polls, file, clock, now);
      polls := Unexpired(file, now);
      clock := now;
    }

    method Oldest() returns (key: string)
      requires polls != map[]
      ensures key in polls && forall l :: l in polls ==> polls[key].createdAtMs <= polls[l].createdAtMs
    {
      key :| key in polls;
      var rest := polls.Keys - {key};
      while rest != {}
        invariant rest <= polls.Keys && key in polls
        invariant forall l :: l in polls && l !in rest ==> polls[key].createdAtMs <= polls[l].createdAtMs
        decreases |rest|
      {
        var l :| l in rest;
        if polls[l].createdAtMs < polls[key].createdAtMs {
          key := l;
        }
        rest := rest - {l};
      }
    }

    /** The slice of `persist`: the oldest go until few enough are left. */
    method Trim()
      modifies this`polls
      ensures Trimming(old(polls), polls) && |polls| <= MAX_POLLS
    {
      ghost var all := polls;
      while |polls| > MAX_POLLS
        invariant Trimming(all, polls)
        decreases |polls|
      {
        var oldest := Oldest();
        TrimStep(all, polls, oldest);
        polls := polls - {oldest};
      }
    }

    /** `persist`: drop expired polls, keep the newest, write the file. */
    method Persist(now: int)
      requires Tallied(polls, delivered)
      modifies this`polls, this`file, this`clock
      ensures Valid() && clock == now && Persisted(old(polls), polls, now) && file == polls
    {
      polls := Unexpired(polls, now);
      ghost var all := polls;
      Trim();
      TrimmedTallied(all, polls, delivered);
      file := polls;
      clock := now;
    }

    /** With few enough polls only the expired ones go. */
    method PersistFew(now: int)
      requires Tallied(polls, delivered) && |polls.Keys| <= MAX_POLLS
      modifies this`polls, this`file, this`clock
      ensures Valid() && clock == now && polls == Unexpired(old(polls), now) && file == polls
    {
      Persist(now);
      AllPersisted(old(polls), polls, now);
    }

    /** `remember`: a poll starts anew without votes. */
    method Remember(key: string, options: seq<string>, now: int)
      requires Valid() && clock <= now
      modifies this
      ensures Valid() && clock == now && delivered == old(delivered)[key := []]
      ensures Persisted(old(polls)[key := Poll(options, now, now + TTL, now, map[])], polls, now) && file == polls
      ensures AllBefore(old(polls), key, now) ==> key in polls && polls[key] == Poll(options, now, now + TTL, now, map[])
    {
      var poll := Poll(options, now, now + TTL, now, map[]);
      ghost var before := polls;
      polls := polls[key := poll];
      delivered := delivered[key := []];
      Persist(now);
      NewestIsKept(before, key, poll, polls, now);
    }

    /** `live`: an expired poll is forgotten as it is met. */
    method Live(key: string, now: int) returns (poll: Option<Poll>)
      requires Valid() && clock <= now
      modifies this`polls, this`file, this`clock
      ensures Valid() && clock == now
      ensures poll == if key in old(polls) && old(polls)[key].expiresAtMs > now then Some(old(polls)[key]) else None
      ensures polls == Met(old(polls), key, now)
    {
      clock := now;
      if key !in polls {
        return None;
      }
      if polls[key].expiresAtMs <= now {
        PollsAreFew(polls, file, clock, key);
        polls := polls - {key};
        assert Unexpired(polls, now) == Unexpired(old(polls), now);
        PersistFew(now);
        return None;
      }
      return Some(polls[key]);
    }

    /** The pair loop of `recordVote`. */
    static method Decrypted(
      creators: seq<string>, voters: seq<string>, decrypt: (string, string) -> Option<seq<string>>)
      returns (found: bool, c: nat, v: nat)
      ensures found <==> exists x, y :: 0 <= x < |creators| && 0 <= y < |voters| && decrypt(creators[x], voters[y]).Some?
      ensures found ==> DecryptsFirst(creators, voters, decrypt, c, v)
    {
      for i := 0 to |creators|
        invariant forall x, y :: 0 <= x < i && 0 <= y < |voters| ==> decrypt(creators[x], voters[y]).None?
      {
        for j := 0 to |voters|
          invariant forall y :: 0 <= y < j ==> decrypt(creators[i], voters[y]).None?
        {
          if decrypt(creators[i], voters[j]).Some? {
            return true, i, j;
          }
        }
      }
      return false, 0, 0;
    }

    /**
     `recordVote`: false for an unknown or expired poll and for a vote that nothing decrypts;
     otherwise the vote of the first pair that decrypts it is among the deliveries.
     */
    method RecordVote(
      key: string, creators: seq<string>, voters: seq<string>, decrypt: (string, string) -> Option<seq<string>>,
      tagOf: string -> string, senderTimestampMs: int, now: int)
      returns (known: bool, ghost vote: Vote)
      requires Valid() && clock <= now
      modifies this
      ensures Valid() && clock == now
      ensures known <==>
                && key in old(polls) && old(polls)[key].expiresAtMs > now
                && exists x, y :: 0 <= x < |creators| && 0 <= y < |voters| && decrypt(creators[x], voters[y]).Some?
      ensures !known ==> delivered == old(delivered)
      ensures known ==> delivered == old(delivered)[key := Heard(old(delivered), key) + [vote]]
      ensures known ==> exists c: nat, v: nat ::
                DecryptsFirst(creators, voters, decrypt, c, v)
                && vote == Vote(tagOf(voters[v]), decrypt(creators[c], voters[v]).value, senderTimestampMs)
      ensures known ==> polls == AfterVote(old(polls), key, vote, now)
      ensures !known ==> polls == Met(old(polls), key, now)
    {
      vote := Vote("", [], 0);
      var poll := Live(key, now);
      if poll.None? {
        return false, vote;
      }
      var found, c, v := Decrypted(creators, voters, decrypt);
      if !found {
        return false, vote;
      }
      var given := Vote(tagOf(voters[v]), decrypt(creators[c], voters[v]).value, senderTimestampMs);
      vote, known := given, true;
      Count(key, given, now);
    }

    /** The rest of `recordVote`: an outdated vote, or one of a voter for whom there is no room, changes nothing. */
    method Count(key: string, vote: Vote, now: int)
      requires Valid() && clock == now && key in polls
      modifies this
      ensures Valid() && clock == now && delivered == old(delivered)[key := Heard(old(delivered), key) + [vote]]
      ensures polls == AfterVote(old(polls), key, vote, now)
    {
      if Counted(polls[key].votes, vote) {
        PollsAreFew(polls, file, clock, key);
        var voted := VotedTallied(polls, key, vote, now, delivered);
        Replace(voted, delivered[key := Heard(delivered, key) + [vote]], now);
      } else {
        SameTally(polls, delivered, key, vote);
        SameTally(file, delivered, key, vote);
        delivered := delivered[key := Heard(delivered, key) + [vote]];
      }
    }

    method Replace(voted: Polls, ghost heard: Deliveries, now: int)
      requires Tallied(voted, heard) && |voted.Keys| <= MAX_POLLS
      modifies this
      ensures Valid() && clock == now && delivered == heard && polls == Unexpired(voted, now)
    {
      polls, delivered := voted, heard;
      PersistFew(now);
    }

    /** `results`: the counts of everything delivered to a live poll since it was remembered. */
    method ResultsOf(key: string, hashOf: string -> string, now: int) returns (r: Option<PollResults>)
      requires Valid() && clock <= now
      modifies this`polls, this`file, this`clock
      ensures Valid() && clock == now && polls == Met(old(polls), key, now)
      ensures r.Some? <==> key in old(polls) && old(polls)[key].expiresAtMs > now
      ensures r.Some? ==>
                var options, votes := old(polls)[key].options, Tally(Heard(delivered, key));
                var hashes := seq(|options|, i requires 0 <= i < |options| => hashOf(options[i]));
                && r.value.totalVotes == |votes| && |r.value.counts| == |options|
                && forall i :: 0 <= i < |options| ==> r.value.counts[i] == |Pickers(votes, votes.Keys, hashes, i)|
    {
      var poll := Live(key, now);
      if poll.None? {
        return None;
      }
      var options := poll.value.options;
      var counted := Results(poll.value.votes, seq(|options|, i requires 0 <= i < |options| => hashOf(options[i])));
      return Some(counted);
    }
  }
}
