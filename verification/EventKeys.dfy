/** Event keys kind by kind: which payload fields they depend on, and when there is none. */
module EventKeys {
  import opened Protocol
  import opened PercentEncoding
  import opened EventIdentity

  // ---------------------------------------------------------------- reading fields

  /** No name of the list has a value in the payload. */
  predicate Missing(p: Payload, names: seq<string>) {
    forall i :: 0 <= i < |names| ==> !(names[i] in p && p[names[i]] != Null)
  }

  /** The value is that of the first name of the list that has one. */
  ghost predicate FirstOf(p: Payload, names: seq<string>, v: Value) {
    exists i :: 0 <= i < |names| && names[i] in p && p[names[i]] == v && v != Null && Missing(p, names[..i])
  }

  /** A chain of `??` takes the first field that is there, and nothing when none is. */
  lemma {:induction false} CoalesceIsFirst(p: Payload, names: seq<string>)
    ensures Missing(p, names) ==> Coalesce(p, names) == Null
    ensures !Missing(p, names) ==> FirstOf(p, names, Coalesce(p, names))
  {
    if names != [] && !(names[0] in p && p[names[0]] != Null) {
      var rest := names[1..];
      CoalesceIsFirst(p, rest);
      assert forall i :: 0 <= i < |rest| ==> rest[i] == names[i + 1];
      if !Missing(p, rest) {
        var i :| 0 <= i < |rest| && rest[i] in p && p[rest[i]] == Coalesce(p, rest) && Missing(p, rest[..i]);
        assert names[i + 1] == rest[i];
        var front, back := names[..i + 1], rest[..i];
        assert forall j :: 1 <= j < |front| ==> front[j] == back[j - 1];
      }
    } else if names != [] {
      assert Missing(p, names[..0]);
    }
  }

  /** A string field is read as its trimmed text. */
  lemma FieldOfString(p: Payload, names: seq<string>, i: nat, x: string)
    requires i < |names| && names[i] in p && p[names[i]] == Str(x) && Missing(p, names[..i])
    ensures Field(p, names) == Trim(x)
  {
    CoalesceAt(p, names, i);
  }

  lemma {:induction false} CoalesceAt(p: Payload, names: seq<string>, i: nat)
    requires i < |names| && names[i] in p && p[names[i]] != Null && Missing(p, names[..i])
    ensures Coalesce(p, names) == p[names[i]]
  {
    if i > 0 {
      assert names[..i][0] == names[0];
      var front, back := names[..i], names[1..][..i - 1];
      assert forall j :: 0 <= j < |back| ==> back[j] == front[j + 1];
      CoalesceAt(p, names[1..], i - 1);
    }
  }

  // ---------------------------------------------------------------- trimming

  predicate AllSpace(s: string) {
    forall i :: 0 <= i < |s| ==> TrimSpace(s[i])
  }

  /** Nothing to trim at either end. */
  predicate Tight(s: string) {
    s == "" || (!TrimSpace(s[0]) && !TrimSpace(s[|s| - 1]))
  }

  lemma {:induction false} TrimStartIs(s: string) returns (k: nat)
    ensures k <= |s| && TrimStart(s) == s[k..] && AllSpace(s[..k]) && (k < |s| ==> !TrimSpace(s[k]))
  {
    if s != "" && TrimSpace(s[0]) {
      var j := TrimStartIs(s[1..]);
      k := j + 1;
      assert s[1..][j..] == s[k..];
      assert forall i :: 1 <= i < k ==> s[..k][i] == s[1..][..j][i - 1];
    } else {
      k := 0;
    }
  }

  lemma {:induction false} TrimEndIs(s: string) returns (k: nat)
    ensures k <= |s| && TrimEnd(s) == s[..k] && AllSpace(s[k..]) && (k > 0 ==> !TrimSpace(s[k - 1]))
  {
    if s != "" && TrimSpace(s[|s| - 1]) {
      var init := s[..|s| - 1];
      k := TrimEndIs(init);
      assert init[..k] == s[..k];
      assert s[k..] == init[k..] + [s[|s| - 1]];
    } else {
      k := |s|;
    }
  }

  /** Trimming takes white space off both ends, all of it and nothing else. */
  lemma TrimIs(s: string) returns (i: nat, j: nat)
    ensures i <= j <= |s| && Trim(s) == s[i..j] && AllSpace(s[..i]) && AllSpace(s[j..]) && Tight(Trim(s))
  {
    i := TrimStartIs(s);
    var k := TrimEndIs(s[i..]);
    j := i + k;
    assert s[i..][..k] == s[i..j] && s[i..][k..] == s[j..];
  }

  // ---------------------------------------------------------------- numbers

  function DigitsValue(t: string): int {
    if t == "" then 0 else DigitsValue(t[..|t| - 1]) * 10 + (t[|t| - 1] as int - 0x30)
  }

  lemma {:induction false} DecimalValue(n: nat)
    ensures DigitsValue(Decimal(n)) == n
  {
    if n < 10 {
      assert Decimal(n)[..0] == "";
    } else {
      DecimalValue(n / 10);
      var t := Decimal(n);
      assert t[..|t| - 1] == Decimal(n / 10);
    }
  }

  lemma DecimalInjective(m: nat, n: nat)
    requires Decimal(m) == Decimal(n)
    ensures m == n
  {
    DecimalValue(m);
    DecimalValue(n);
  }

  // ---------------------------------------------------------------- reading a key back

  /** The parts of a key after its prefix, decoded. */
  function ReadKey(key: string): seq<Option<string>> {
    DecodeAll(Split(key)[1..])
  }

  function DecodeAll(parts: seq<string>): (r: seq<Option<string>>)
    ensures |r| == |parts|
  {
    if parts == [] then [] else [Decode(parts[0])] + DecodeAll(parts[1..])
  }

  function Present(parts: seq<string>): (r: seq<Option<string>>)
    ensures |r| == |parts|
  {
    if parts == [] then [] else [Some(parts[0])] + Present(parts[1..])
  }

  lemma {:induction false} DecodeAllEncoded(parts: seq<string>)
    ensures DecodeAll(EncodeAll(parts)) == Present(parts)
  {
    if parts != [] {
      assert EncodeAll(parts)[1..] == EncodeAll(parts[1..]);
      DecodeEncode(parts[0]);
      DecodeAllEncoded(parts[1..]);
    }
  }

  /** A key gives back the parts it was made of. */
  lemma {:induction false} ReadKeyOf(parts: seq<string>)
    requires parts != []
    ensures ReadKey(KeyOf(parts)) == Present(parts)
  {
    var encoded := EncodeAll(parts);
    SplitFirst("whatsapp", Join(encoded));
    assert "whatsapp:" == "whatsapp" + ":";
    SplitJoin(encoded);
    assert Split(KeyOf(parts))[1..] == encoded;
    DecodeAllEncoded(parts);
  }

  lemma {:induction false} ReadDerived(prim: Primitives, kind: Kind, account: string, p: Payload)
    requires !DigestKeyed(kind) && Derive(prim, kind, account, p).Some?
    ensures ReadKey(Derive(prim, kind, account, p).value.eventKey) ==
            Present([Account(account), Chat(p), KindName(kind)] + ProviderParts(prim, kind, p).value)
  {
    ReadKeyOf([Account(account), Chat(p), KindName(kind)] + ProviderParts(prim, kind, p).value);
  }

  /** Both are there, and have one key. */
  predicate SameKey(prim: Primitives, kind: Kind, a1: string, p1: Payload, a2: string, p2: Payload) {
    && Derive(prim, kind, a1, p1).Some? && Derive(prim, kind, a2, p2).Some?
    && Derive(prim, kind, a1, p1).value.eventKey == Derive(prim, kind, a2, p2).value.eventKey
  }

  predicate SamePlace(a1: string, p1: Payload, a2: string, p2: Payload) {
    Trim(a1) == Trim(a2) && Field(p1, ["chatJid", "chat_jid", "chat"]) == Field(p2, ["chatJid", "chat_jid", "chat"])
  }

  /** There is an account and a chat. */
  predicate Placed(account: string, p: Payload) {
    Trim(account) != "" && Field(p, ["chatJid", "chat_jid", "chat"]) != ""
  }

  // ---------------------------------------------------------------- kind by kind

  /** A message is known by its id: its key can be read back to it, and two share a key exactly for equal ids. */
  lemma {:induction false} MessageKey(prim: Primitives, account: string, p: Payload)
    ensures var id := Field(p, ["messageId", "message_id", "id"]);
            && (Derive(prim, Message, account, p).Some? <==> Placed(account, p) && id != "")
            && (Derive(prim, Message, account, p).Some? ==>
                  ReadKey(Derive(prim, Message, account, p).value.eventKey)
                  == Present([Trim(account), Chat(p), "message"] + [id]))
  {
    if Derive(prim, Message, account, p).Some? { ReadDerived(prim, Message, account, p); }
  }

  lemma {:induction false} SameMessageKey(prim: Primitives, a1: string, p1: Payload, a2: string, p2: Payload)
    requires Derive(prim, Message, a1, p1).Some? && Derive(prim, Message, a2, p2).Some?
    ensures SameKey(prim, Message, a1, p1, a2, p2) <==>
            && SamePlace(a1, p1, a2, p2)
            && Field(p1, ["messageId", "message_id", "id"]) == Field(p2, ["messageId", "message_id", "id"])
  {
    SameKeyIff(prim, Message, a1, p1, Message, a2, p2);
  }

  /** In particular two messages with string ids. */
  lemma MessageIdsDecide(prim: Primitives, a1: string, p1: Payload, x: string, a2: string, p2: Payload, y: string)
    requires "messageId" in p1 && p1["messageId"] == Str(x) && "messageId" in p2 && p2["messageId"] == Str(y)
    requires SameKey(prim, Message, a1, p1, a2, p2)
    ensures Trim(x) == Trim(y)
  {
    SameMessageKey(prim, a1, p1, a2, p2);
    FieldOfString(p1, ["messageId", "message_id", "id"], 0, x);
    FieldOfString(p2, ["messageId", "message_id", "id"], 0, y);
  }

  /** An edit is known by its message and its revision: the provider's own, or else the digest of what it says. */
  lemma {:induction false} EditKey(prim: Primitives, account: string, p: Payload)
    ensures var id := Field(p, ["messageId", "message_id", "id"]);
            var revision := Field(p, ["revision", "editRevision"]);
            && (Derive(prim, Edit, account, p).Some? <==> Placed(account, p) && id != "")
            && (Derive(prim, Edit, account, p).Some? ==>
                  ReadKey(Derive(prim, Edit, account, p).value.eventKey)
                  == Present([Trim(account), Chat(p), "edit"]
                             + [id, if revision != "" then revision else "legacy:" + prim.editDigest(p)]))
  {
    if Derive(prim, Edit, account, p).Some? { ReadDerived(prim, Edit, account, p); }
  }

  lemma {:induction false} SameEditKey(prim: Primitives, a1: string, p1: Payload, a2: string, p2: Payload)
    requires Derive(prim, Edit, a1, p1).Some? && Derive(prim, Edit, a2, p2).Some?
    ensures SameKey(prim, Edit, a1, p1, a2, p2) <==>
            && SamePlace(a1, p1, a2, p2)
            && Field(p1, ["messageId", "message_id", "id"]) == Field(p2, ["messageId", "message_id", "id"])
            && EditRevision(prim, p1) == EditRevision(prim, p2)
  {
    SameKeyIff(prim, Edit, a1, p1, Edit, a2, p2);
    var x, y := ProviderParts(prim, Edit, p1).value, ProviderParts(prim, Edit, p2).value;
    assert x == y <==> x[0] == y[0] && x[1] == y[1];
  }

  lemma {:induction false} DeleteKey(prim: Primitives, account: string, p: Payload)
    ensures var id := Field(p, ["messageId", "message_id", "targetMessageId", "id"]);
            && (Derive(prim, Delete, account, p).Some? <==> Placed(account, p) && id != "")
            && (Derive(prim, Delete, account, p).Some? ==>
                  ReadKey(Derive(prim, Delete, account, p).value.eventKey)
                  == Present([Trim(account), Chat(p), "delete"] + [id]))
  {
    if Derive(prim, Delete, account, p).Some? { ReadDerived(prim, Delete, account, p); }
  }

  lemma {:induction false} SameDeleteKey(prim: Primitives, a1: string, p1: Payload, a2: string, p2: Payload)
    requires Derive(prim, Delete, a1, p1).Some? && Derive(prim, Delete, a2, p2).Some?
    ensures SameKey(prim, Delete, a1, p1, a2, p2) <==>
            && SamePlace(a1, p1, a2, p2)
            && Field(p1, ["messageId", "message_id", "targetMessageId", "id"])
               == Field(p2, ["messageId", "message_id", "targetMessageId", "id"])
  {
    SameKeyIff(prim, Delete, a1, p1, Delete, a2, p2);
  }

  lemma {:induction false} ReactionKey(prim: Primitives, account: string, p: Payload)
    ensures var target := Field(p, ["targetMessageId", "target_message_id", "messageId"]);
            var sender := Field(p, ["senderId", "sender", "participantJid"]);
            && (Derive(prim, Reaction, account, p).Some? <==> Placed(account, p) && target != "")
            && (Derive(prim, Reaction, account, p).Some? ==>
                  ReadKey(Derive(prim, Reaction, account, p).value.eventKey)
                  == Present([Trim(account), Chat(p), "reaction"] + [target, sender]))
  {
    if Derive(prim, Reaction, account, p).Some? { ReadDerived(prim, Reaction, account, p); }
  }

  lemma {:induction false} SameReactionKey(prim: Primitives, a1: string, p1: Payload, a2: string, p2: Payload)
    requires Derive(prim, Reaction, a1, p1).Some? && Derive(prim, Reaction, a2, p2).Some?
    ensures SameKey(prim, Reaction, a1, p1, a2, p2) <==>
            && SamePlace(a1, p1, a2, p2)
            && Field(p1, ["targetMessageId", "target_message_id", "messageId"])
               == Field(p2, ["targetMessageId", "target_message_id", "messageId"])
            && Field(p1, ["senderId", "sender", "participantJid"]) == Field(p2, ["senderId", "sender", "participantJid"])
  {
    SameKeyIff(prim, Reaction, a1, p1, Reaction, a2, p2);
    var x, y := ProviderParts(prim, Reaction, p1).value, ProviderParts(prim, Reaction, p2).value;
    assert x == y <==> x[0] == y[0] && x[1] == y[1];
  }

  /** The status of a receipt in lower case; one without a status was delivered. */
  function Status(prim: Primitives, p: Payload): string {
    prim.toLower(if Missing(p, ["status", "receiptType"]) then "delivered" else Field(p, ["status", "receiptType"]))
  }

  lemma {:induction false} ReceiptKey(prim: Primitives, account: string, p: Payload)
    ensures var id := Field(p, ["messageId", "message_id", "id"]);
            var recipient := Field(p, ["recipientJid", "recipient", "participantJid", "to"]);
            && (Derive(prim, Receipt, account, p).Some? <==> Placed(account, p) && id != "")
            && (Derive(prim, Receipt, account, p).Some? ==>
                  ReadKey(Derive(prim, Receipt, account, p).value.eventKey)
                  == Present([Trim(account), Chat(p), "receipt"] + [id, recipient, Status(prim, p)]))
  {
    CoalesceIsFirst(p, ["status", "receiptType"]);
    if Derive(prim, Receipt, account, p).Some? { ReadDerived(prim, Receipt, account, p); }
  }

  lemma {:induction false} SameReceiptKey(prim: Primitives, a1: string, p1: Payload, a2: string, p2: Payload)
    requires Derive(prim, Receipt, a1, p1).Some? && Derive(prim, Receipt, a2, p2).Some?
    ensures SameKey(prim, Receipt, a1, p1, a2, p2) <==>
            && SamePlace(a1, p1, a2, p2)
            && Field(p1, ["messageId", "message_id", "id"]) == Field(p2, ["messageId", "message_id", "id"])
            && Field(p1, ["recipientJid", "recipient", "participantJid", "to"])
               == Field(p2, ["recipientJid", "recipient", "participantJid", "to"])
            && Status(prim, p1) == Status(prim, p2)
  {
    ReceiptParts(prim, p1);
    ReceiptParts(prim, p2);
    SameKeyIff(prim, Receipt, a1, p1, Receipt, a2, p2);
    var x, y := ProviderParts(prim, Receipt, p1).value, ProviderParts(prim, Receipt, p2).value;
    assert x == y <==> x[0] == y[0] && x[1] == y[1] && x[2] == y[2];
  }

  lemma {:induction false} ReceiptParts(prim: Primitives, p: Payload)
    ensures ProviderParts(prim, Receipt, p).Some? ==>
            ProviderParts(prim, Receipt, p).value
            == [Field(p, ["messageId", "message_id", "id"]),
                Field(p, ["recipientJid", "recipient", "participantJid", "to"]), Status(prim, p)]
  {
    CoalesceIsFirst(p, ["status", "receiptType"]);
  }

  /** A membership change is known by its change id; both of its copies have that key. */
  lemma {:induction false} MembershipKey(prim: Primitives, account: string, p: Payload)
    ensures var change := Field(p, ["changeId"]);
            && (Derive(prim, MembershipChange, account, p).Some? <==>
                  Placed(account, p) && change != "" && Field(p, ["sourceCopyId"]) != "")
            && (Derive(prim, MembershipChange, account, p).Some? ==>
                  ReadKey(Derive(prim, MembershipChange, account, p).value.eventKey)
                  == Present([Trim(account), Chat(p), "membership_change"] + [change]))
  {
    if Derive(prim, MembershipChange, account, p).Some? { ReadDerived(prim, MembershipChange, account, p); }
  }

  lemma {:induction false} SameMembershipKey(prim: Primitives, a1: string, p1: Payload, a2: string, p2: Payload)
    requires Derive(prim, MembershipChange, a1, p1).Some? && Derive(prim, MembershipChange, a2, p2).Some?
    ensures SameKey(prim, MembershipChange, a1, p1, a2, p2) <==>
            SamePlace(a1, p1, a2, p2) && Field(p1, ["changeId"]) == Field(p2, ["changeId"])
  {
    SameKeyIff(prim, MembershipChange, a1, p1, MembershipChange, a2, p2);
  }

  /** A snapshot is known by its time, a safe non-negative integer. */
  predicate HasTime(p: Payload, t: nat) {
    "snapshotAtMs" in p && p["snapshotAtMs"] == Int(t) && t <= MAX_SAFE_INTEGER
  }

  lemma {:induction false} SnapshotKey(prim: Primitives, account: string, p: Payload)
    ensures Derive(prim, MembershipSnapshot, account, p).Some? <==> Placed(account, p) && exists t: nat :: HasTime(p, t)
  {
    CoalesceIsFirst(p, ["snapshotAtMs"]);
    if "snapshotAtMs" in p && p["snapshotAtMs"].Int? && 0 <= p["snapshotAtMs"].n <= MAX_SAFE_INTEGER {
      assert HasTime(p, p["snapshotAtMs"].n);
      CoalesceAt(p, ["snapshotAtMs"], 0);
    }
    if t: nat :| HasTime(p, t) {
      CoalesceAt(p, ["snapshotAtMs"], 0);
    }
  }

  lemma {:induction false} SameSnapshotKey(
    prim: Primitives, a1: string, p1: Payload, t1: nat, a2: string, p2: Payload, t2: nat)
    requires Placed(a1, p1) && HasTime(p1, t1) && Placed(a2, p2) && HasTime(p2, t2)
    ensures SameKey(prim, MembershipSnapshot, a1, p1, a2, p2) <==> SamePlace(a1, p1, a2, p2) && t1 == t2
  {
    CoalesceAt(p1, ["snapshotAtMs"], 0);
    CoalesceAt(p2, ["snapshotAtMs"], 0);
    SnapshotKey(prim, a1, p1);
    SnapshotKey(prim, a2, p2);
    SameKeyIff(prim, MembershipSnapshot, a1, p1, MembershipSnapshot, a2, p2);
    if Decimal(t1) == Decimal(t2) {
      DecimalInjective(t1, t2);
    }
    assert ProviderParts(prim, MembershipSnapshot, p1) == Some([Decimal(t1)]);
    assert ProviderParts(prim, MembershipSnapshot, p2) == Some([Decimal(t2)]);
    assert [Decimal(t1)] == [Decimal(t2)] <==> Decimal(t1) == Decimal(t2);
  }

  /** Group metadata: its key is its digest, and there is none when the metadata is invalid. */
  lemma GroupKey(prim: Primitives, kind: Kind, account: string, p: Payload)
    requires DigestKeyed(kind)
    ensures var digest := prim.groupDigest(kind, Trim(account), Chat(p), p);
            && (Derive(prim, kind, account, p).Some? <==> Placed(account, p) && digest.Some?)
            && (Derive(prim, kind, account, p).Some? ==>
                  Derive(prim, kind, account, p).value.eventKey
                  == "whatsapp:" + (if kind.GroupSubject? then "group_subject" else "group_description") + ":" + digest.value)
  {
  }
}
