/**
 Replay identities of provider events: which fields become the event key, and why two events
 share a key only when all of those fields agree.
 */
module EventIdentity {
  import opened Protocol
  import opened PercentEncoding

  /** A payload field: absent or null, a string, an integer, or anything else as `String(value)` shows it. */
  datatype Value = Null | Str(text: string) | Int(n: int) | Other(shown: string)

  type Payload = map<string, Value>

  /** Foreign primitives: lower-casing, and the digests of an edit snapshot and of group metadata (None when invalid). */
  datatype Primitives = Primitives(
    toLower: string -> string,
    editDigest: Payload -> string,
    groupDigest: (Kind, string, string, Payload) -> Option<string>)

  datatype Identity = Identity(eventKey: string, hashed: string)

  function KindName(kind: Kind): string {
    match kind
    case Message => "message"
    case Edit => "edit"
    case Delete => "delete"
    case Reaction => "reaction"
    case Receipt => "receipt"
    case MembershipChange => "membership_change"
    case MembershipSnapshot => "membership_snapshot"
    case GroupSubject => "group_subject"
    case GroupDescription => "group_description"
  }

  lemma KindNameInjective(a: Kind, b: Kind)
    requires KindName(a) == KindName(b)
    ensures a == b
  {
  }

  /** White space as `String.prototype.trim` removes it. */
  predicate TrimSpace(c: char) {
    var n := c as int;
    || 0x09 <= n <= 0x0D || n == 0x20 || n == 0xA0 || n == 0x1680 || 0x2000 <= n <= 0x200A
    || n == 0x2028 || n == 0x2029 || n == 0x202F || n == 0x205F || n == 0x3000 || n == 0xFEFF
  }

  function TrimStart(s: string): string {
    if s != "" && TrimSpace(s[0]) then TrimStart(s[1..]) else s
  }

  function TrimEnd(s: string): string {
    if s != "" && TrimSpace(s[|s| - 1]) then TrimEnd(s[..|s| - 1]) else s
  }

  function Trim(s: string): string { TrimEnd(TrimStart(s)) }

  function Decimal(n: nat): string {
    if n < 10 then [(0x30 + n) as char] else Decimal(n / 10) + [(0x30 + n % 10) as char]
  }

  function Shown(v: Value): string {
    match v
    case Null => ""
    case Str(s) => s
    case Int(n) => if n >= 0 then Decimal(n) else "-" + Decimal(-n)
    case Other(s) => s
  }

  function IdentityPart(v: Value): string { Trim(Shown(v)) }

  /** `payload.a ?? payload.b ?? …`. */
  function Coalesce(p: Payload, names: seq<string>): Value {
    if names == [] then Null
    else if names[0] in p && p[names[0]] != Null then p[names[0]]
    else Coalesce(p, names[1..])
  }

  function Field(p: Payload, names: seq<string>): string { IdentityPart(Coalesce(p, names)) }

  function EditRevision(prim: Primitives, p: Payload): string {
    var revision := Field(p, ["revision", "editRevision"]);
    if revision != "" then revision else "legacy:" + prim.editDigest(p)
  }

  predicate DigestKeyed(kind: Kind) { kind.GroupSubject? || kind.GroupDescription? }

  function Account(accountId: string): string { Trim(accountId) }

  function Chat(p: Payload): string { Field(p, ["chatJid", "chat_jid", "chat"]) }

  /** The parts of the key after account, chat and type; None where no identity exists. */
  function ProviderParts(prim: Primitives, kind: Kind, p: Payload): (r: Option<seq<string>>)
    requires !DigestKeyed(kind)
  {
    match kind
    case MembershipChange =>
      var change := Field(p, ["changeId"]);
      if change == "" || Field(p, ["sourceCopyId"]) == "" then None else Some([change])
    case MembershipSnapshot =>
      var at := Coalesce(p, ["snapshotAtMs"]);
      if at.Int? && 0 <= at.n <= MAX_SAFE_INTEGER then Some([Decimal(at.n)]) else None
    case Message =>
      var id := Field(p, ["messageId", "message_id", "id"]);
      if id == "" then None else Some([id])
    case Edit =>
      var id := Field(p, ["messageId", "message_id", "id"]);
      if id == "" then None else Some([id, EditRevision(prim, p)])
    case Delete =>
      var id := Field(p, ["messageId", "message_id", "targetMessageId", "id"]);
      if id == "" then None else Some([id])
    case Reaction =>
      var target := Field(p, ["targetMessageId", "target_message_id", "messageId"]);
      var sender := Field(p, ["senderId", "sender", "participantJid"]);
      if target == "" then None else Some([target, sender])
    case Receipt =>
      var id := Field(p, ["messageId", "message_id", "id"]);
      var recipient := Field(p, ["recipientJid", "recipient", "participantJid", "to"]);
      var status := Coalesce(p, ["status", "receiptType"]);
      var shown := prim.toLower(if status == Null then "delivered" else IdentityPart(status));
      if id == "" then None else Some([id, recipient, shown])
  }

  function KeyOf(parts: seq<string>): string { "whatsapp:" + Join(EncodeAll(parts)) }

  /** `deriveProviderEventIdentity`; `hashed` is the text whose digest becomes the event id. */
  function Derive(prim: Primitives, kind: Kind, accountId: string, p: Payload): Option<Identity> {
    var account, chat := Account(accountId), Chat(p);
    if account == "" || chat == "" then None
    else if DigestKeyed(kind) then
      match prim.groupDigest(kind, account, chat, p)
      case None => None
      case Some(digest) => var key := "whatsapp:" + KindName(kind) + ":" + digest; Some(Identity(key, key))
    else
      match ProviderParts(prim, kind, p)
      case None => None
      case Some(provider) =>
        var key := KeyOf([account, chat, KindName(kind)] + provider);
        var hashed := if kind.MembershipChange? then key + ":" + Encode(Field(p, ["sourceCopyId"])) else key;
        Some(Identity(key, hashed))
  }

  /** Everything the event id is hashed from, before encoding. */
  function HashedParts(prim: Primitives, kind: Kind, accountId: string, p: Payload): (r: seq<string>)
    requires !DigestKeyed(kind) && Derive(prim, kind, accountId, p).Some?
  {
    [Account(accountId), Chat(p), KindName(kind)] + ProviderParts(prim, kind, p).value
    + (if kind.MembershipChange? then [Field(p, ["sourceCopyId"])] else [])
  }

  lemma KeyOfInjective(a: seq<string>, b: seq<string>)
    requires a != [] && b != [] && KeyOf(a) == KeyOf(b)
    ensures a == b
  {
    assert KeyOf(a)[|"whatsapp:"|..] == Join(EncodeAll(a));
    assert KeyOf(b)[|"whatsapp:"|..] == Join(EncodeAll(b));
    JoinEncodedInjective(a, b);
  }

  /**
   Outside the digest-keyed types, two events have the same key exactly when their type,
   trimmed account, trimmed chat and provider parts all agree.
   */
  lemma SameKeyIff(prim: Primitives, k1: Kind, a1: string, p1: Payload, k2: Kind, a2: string, p2: Payload)
    requires !DigestKeyed(k1) && !DigestKeyed(k2)
    requires Derive(prim, k1, a1, p1).Some? && Derive(prim, k2, a2, p2).Some?
    ensures Derive(prim, k1, a1, p1).value.eventKey == Derive(prim, k2, a2, p2).value.eventKey
       <==> && k1 == k2
            && Account(a1) == Account(a2)
            && Chat(p1) == Chat(p2)
            && ProviderParts(prim, k1, p1) == ProviderParts(prim, k2, p2)
  {
    var parts1 := [Account(a1), Chat(p1), KindName(k1)] + ProviderParts(prim, k1, p1).value;
    var parts2 := [Account(a2), Chat(p2), KindName(k2)] + ProviderParts(prim, k2, p2).value;
    if KeyOf(parts1) == KeyOf(parts2) {
      KeyOfInjective(parts1, parts2);
      assert parts1[0] == parts2[0] && parts1[1] == parts2[1] && parts1[2] == parts2[2];
      KindNameInjective(k1, k2);
      assert parts1[3..] == ProviderParts(prim, k1, p1).value;
      assert parts2[3..] == ProviderParts(prim, k2, p2).value;
    }
  }

  lemma {:induction false} JoinAppend(parts: seq<string>, last: string)
    requires parts != []
    ensures Join(parts + [last]) == Join(parts) + ":" + last
  {
    if |parts| == 1 {
      assert (parts + [last])[1..] == [last];
    } else {
      assert (parts + [last])[1..] == parts[1..] + [last];
      JoinAppend(parts[1..], last);
    }
  }

  lemma KeyOfAppend(parts: seq<string>, last: string)
    requires parts != []
    ensures KeyOf(parts + [last]) == KeyOf(parts) + ":" + Encode(last)
  {
    JoinAppend(EncodeAll(parts), Encode(last));
    assert EncodeAll(parts + [last]) == EncodeAll(parts) + [Encode(last)];
  }

  /** The hashed text is the key of the hashed parts, so the copy id of a membership change is one more part. */
  lemma HashedIsKey(prim: Primitives, kind: Kind, accountId: string, p: Payload)
    requires !DigestKeyed(kind) && Derive(prim, kind, accountId, p).Some?
    ensures Derive(prim, kind, accountId, p).value.hashed == KeyOf(HashedParts(prim, kind, accountId, p))
  {
    var parts := [Account(accountId), Chat(p), KindName(kind)] + ProviderParts(prim, kind, p).value;
    if kind.MembershipChange? {
      KeyOfAppend(parts, Field(p, ["sourceCopyId"]));
    } else {
      assert parts + [] == parts;
    }
  }

  /**
   Event ids are digests of texts that agree only for the same type, account, chat and parts;
   the two copies of one membership change share a key but never a hashed text.
   */
  lemma SameHashedText(prim: Primitives, k1: Kind, a1: string, p1: Payload, k2: Kind, a2: string, p2: Payload)
    requires !DigestKeyed(k1) && !DigestKeyed(k2)
    requires Derive(prim, k1, a1, p1).Some? && Derive(prim, k2, a2, p2).Some?
    requires Derive(prim, k1, a1, p1).value.hashed == Derive(prim, k2, a2, p2).value.hashed
    ensures Derive(prim, k1, a1, p1).value.eventKey == Derive(prim, k2, a2, p2).value.eventKey
    ensures k1 == k2
    ensures k1.MembershipChange? ==> Field(p1, ["sourceCopyId"]) == Field(p2, ["sourceCopyId"])
  {
    HashedIsKey(prim, k1, a1, p1);
    HashedIsKey(prim, k2, a2, p2);
    var h1, h2 := HashedParts(prim, k1, a1, p1), HashedParts(prim, k2, a2, p2);
    KeyOfInjective(h1, h2);
    assert h1[0] == h2[0] && h1[1] == h2[1] && h1[2] == h2[2];
    KindNameInjective(k1, k2);
    assert h1[|h1| - 1] == h2[|h2| - 1];
    var provider1, provider2 := ProviderParts(prim, k1, p1).value, ProviderParts(prim, k2, p2).value;
    assert provider1 == h1[3..3 + |provider1|] == h2[3..3 + |provider2|] == provider2;
    SameKeyIff(prim, k1, a1, p1, k2, a2, p2);
  }

  /** A digest-keyed key has two parts after the prefix, every other key at least four: they never meet. */
  lemma DigestKeysApart(prim: Primitives, k1: Kind, a1: string, p1: Payload, k2: Kind, a2: string, p2: Payload)
    requires DigestKeyed(k1) && !DigestKeyed(k2)
    requires Derive(prim, k1, a1, p1).Some? && Derive(prim, k2, a2, p2).Some?
    requires ':' !in prim.groupDigest(k1, Account(a1), Chat(p1), p1).value
    ensures Derive(prim, k1, a1, p1).value.eventKey != Derive(prim, k2, a2, p2).value.eventKey
  {
    var digest := prim.groupDigest(k1, Account(a1), Chat(p1), p1).value;
    DigestKeyIs(prim, k1, a1, p1);
    var parts := PartsKeyIs(prim, k2, a2, p2);
    ShortKeyApart(KindName(k1), digest, parts);
  }

  lemma DigestKeyIs(prim: Primitives, kind: Kind, account: string, p: Payload)
    requires DigestKeyed(kind) && Derive(prim, kind, account, p).Some?
    ensures prim.groupDigest(kind, Account(account), Chat(p), p).Some? && ':' !in KindName(kind)
    ensures Derive(prim, kind, account, p).value.eventKey ==
            "whatsapp:" + KindName(kind) + ":" + prim.groupDigest(kind, Account(account), Chat(p), p).value
  {
  }

  lemma PartsKeyIs(prim: Primitives, kind: Kind, account: string, p: Payload) returns (parts: seq<string>)
    requires !DigestKeyed(kind) && Derive(prim, kind, account, p).Some?
    ensures |parts| > 2 && Derive(prim, kind, account, p).value.eventKey == KeyOf(parts)
  {
    parts := [Account(account), Chat(p), KindName(kind)] + ProviderParts(prim, kind, p).value;
  }

  lemma ShortKeyApart(name: string, digest: string, parts: seq<string>)
    requires ':' !in name && ':' !in digest && |parts| > 2
    ensures "whatsapp:" + name + ":" + digest != KeyOf(parts)
  {
    var short, key := [name, digest], "whatsapp:" + name + ":" + digest;
    assert short[1..] == [digest];
    assert key[|"whatsapp:"|..] == Join(short);
    assert KeyOf(parts)[|"whatsapp:"|..] == Join(EncodeAll(parts));
    SplitJoin(short);
    SplitJoin(EncodeAll(parts));
  }
}
