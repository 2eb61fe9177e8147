/**
 `encodeURIComponent`, as the bridge uses it for event keys and file names: UTF-8, with every
 byte outside the unreserved set written as a percent escape (section 2.1 of RFC 3986), and
 the joining of encoded parts with ':'.
 */
module PercentEncoding {
  import opened Protocol

  type Byte = b: int | 0 <= b < 256

  /** The characters `encodeURIComponent` leaves as they are. */
  predicate Unreserved(n: int) {
    || 0x30 <= n <= 0x39 || 0x41 <= n <= 0x5A || 0x61 <= n <= 0x7A
    || n == 0x2D || n == 0x5F || n == 0x2E || n == 0x21 || n == 0x7E
    || n == 0x2A || n == 0x27 || n == 0x28 || n == 0x29
  }

  function HexDigit(n: int): (c: char)
    requires 0 <= n < 16
    ensures c != ':' && HexValue(c) == Some(n)
  {
    if n < 10 then (0x30 + n) as char else (0x37 + n) as char
  }

  function HexValue(c: char): Option<int> {
    var n := c as int;
    if 0x30 <= n <= 0x39 then Some(n - 0x30)
    else if 0x41 <= n <= 0x46 then Some(n - 0x37)
    else if 0x61 <= n <= 0x66 then Some(n - 0x57)
    else None
  }

  function Utf8(c: char): (bytes: seq<Byte>)
    ensures 1 <= |bytes| <= 4
  {
    var n := c as int;
    if n < 0x80 then [n]
    else if n < 0x800 then [0xC0 + n / 64, 0x80 + n % 64]
    else if n < 0x10000 then [0xE0 + n / 4096, 0x80 + n / 64 % 64, 0x80 + n % 64]
    else [0xF0 + n / 262144, 0x80 + n / 4096 % 64, 0x80 + n / 64 % 64, 0x80 + n % 64]
  }

  function EscapeByte(b: Byte): (t: string)
    ensures ':' !in t && t != ""
  {
    if Unreserved(b) then [b as char] else ['%', HexDigit(b / 16), HexDigit(b % 16)]
  }

  function EscapeBytes(bytes: seq<Byte>): (t: string)
    ensures ':' !in t
  {
    if bytes == [] then "" else EscapeByte(bytes[0]) + EscapeBytes(bytes[1..])
  }

  function Utf8All(s: string): (bytes: seq<Byte>)
  {
    if s == "" then [] else Utf8(s[0]) + Utf8All(s[1..])
  }

  /** `encodeURIComponent`. */
  function Encode(s: string): (t: string)
    ensures ':' !in t
  {
    EscapeBytes(Utf8All(s))
  }

  /** Text of unreserved characters is left as it is. */
  lemma {:induction false} EncodeKeeps(s: string)
    requires forall i :: 0 <= i < |s| ==> Unreserved(s[i] as int)
    ensures Encode(s) == s
  {
    if s != "" {
      EncodeKeeps(s[1..]);
      assert Utf8All(s) == [s[0] as int] + Utf8All(s[1..]);
      assert Utf8All(s)[1..] == Utf8All(s[1..]);
      assert s == [s[0]] + s[1..];
    }
  }

  predicate Encoded(t: string) {
    forall i :: 0 <= i < |t| ==> t[i] == '%' || Unreserved(t[i] as int)
  }

  lemma {:induction false} EscapedIsEncoded(bytes: seq<Byte>)
    ensures Encoded(EscapeBytes(bytes))
  {
    if bytes != [] {
      EscapedIsEncoded(bytes[1..]);
    }
  }

  /** Everything else is escaped: only unreserved characters and percent signs are left. */
  lemma EncodeEscapes(s: string)
    ensures Encoded(Encode(s))
  {
    EscapedIsEncoded(Utf8All(s));
  }

  // ---------------------------------------------------------------- decoding

  function UnescapeBytes(t: string): Option<seq<Byte>> {
    if t == "" then Some([])
    else if t[0] == '%' then
      if |t| < 3 then None
      else match (HexValue(t[1]), HexValue(t[2]), UnescapeBytes(t[3..]))
        case (Some(hi), Some(lo), Some(rest)) => Some([16 * hi + lo] + rest)
        case _ => None
    else if t[0] as int >= 0x80 then None
    else match UnescapeBytes(t[1..])
      case Some(rest) => Some([t[0] as int] + rest)
      case None => None
  }

  predicate Scalar(n: int) { 0 <= n < 0xD800 || 0xE000 <= n < 0x110000 }

  predicate Continuation(b: int) { 0x80 <= b < 0xC0 }

  function Above(b: Byte, base: int): int { b - base }

  /** The first character of a UTF-8 byte string and the number of bytes it takes. */
  function FirstChar(b: seq<Byte>): (r: Option<(char, nat)>)
    ensures r.Some? ==> 1 <= r.value.1 <= |b|
  {
    if b == [] then None
    else if 0 <= b[0] < 0x80 then Some((b[0] as char, 1))
    else if 0xC0 <= b[0] < 0xE0 then
      if |b| < 2 || !Continuation(b[1]) then None
      else
        var n := Above(b[0], 0xC0) * 64 + Above(b[1], 0x80);
        if 0x80 <= n && Scalar(n) then Some((n as char, 2)) else None
    else if 0xE0 <= b[0] < 0xF0 then
      if |b| < 3 || !Continuation(b[1]) || !Continuation(b[2]) then None
      else
        var n := Above(b[0], 0xE0) * 4096 + Above(b[1], 0x80) * 64 + Above(b[2], 0x80);
        if 0x800 <= n && Scalar(n) then Some((n as char, 3)) else None
    else if 0xF0 <= b[0] < 0xF8 then
      if |b| < 4 || !Continuation(b[1]) || !Continuation(b[2]) || !Continuation(b[3]) then None
      else
        var n := Above(b[0], 0xF0) * 262144 + Above(b[1], 0x80) * 4096 + Above(b[2], 0x80) * 64 + Above(b[3], 0x80);
        if 0x10000 <= n && Scalar(n) then Some((n as char, 4)) else None
    else None
  }

  function FromUtf8(b: seq<Byte>): Option<string>
    decreases |b|
  {
    if b == [] then Some("")
    else match FirstChar(b)
      case None => None
      case Some((c, k)) =>
        match FromUtf8(b[k..])
        case None => None
        case Some(rest) => Some([c] + rest)
  }

  /** `decodeURIComponent`; None where it throws. */
  function Decode(t: string): Option<string> {
    match UnescapeBytes(t)
    case None => None
    case Some(bytes) => FromUtf8(bytes)
  }

  lemma {:induction false} UnescapeOneByte(b: Byte, rest: string)
    requires UnescapeBytes(rest).Some?
    ensures UnescapeBytes(EscapeByte(b) + rest) == Some([b] + UnescapeBytes(rest).value)
  {
    var t := EscapeByte(b) + rest;
    if Unreserved(b) {
      assert t[1..] == rest;
    } else {
      assert t[3..] == rest;
    }
  }

  lemma {:induction false} UnescapeEscape(bytes: seq<Byte>)
    ensures UnescapeBytes(EscapeBytes(bytes)) == Some(bytes)
  {
    if bytes == [] {
    } else {
      UnescapeEscape(bytes[1..]);
      UnescapeOneByte(bytes[0], EscapeBytes(bytes[1..]));
      assert bytes == [bytes[0]] + bytes[1..];
    }
  }

  lemma Digits64(n: int)
    requires 0 <= n
    ensures n == n / 64 * 64 + n % 64
    ensures n / 64 == n / 4096 * 64 + n / 64 % 64
    ensures n / 4096 == n / 262144 * 64 + n / 4096 % 64
  {
    assert n / 64 / 64 == n / 4096;
    assert n / 4096 / 64 == n / 262144;
  }

  lemma FirstCharUtf8(c: char, rest: seq<Byte>)
    ensures FirstChar(Utf8(c) + rest) == Some((c, |Utf8(c)|))
  {
    Digits64(c as int);
  }

  lemma {:induction false} FromUtf8Utf8All(s: string)
    ensures FromUtf8(Utf8All(s)) == Some(s)
  {
    if s == "" {
    } else {
      FromUtf8Utf8All(s[1..]);
      FirstCharUtf8(s[0], Utf8All(s[1..]));
      assert (Utf8(s[0]) + Utf8All(s[1..]))[|Utf8(s[0])|..] == Utf8All(s[1..]);
      assert s == [s[0]] + s[1..];
    }
  }

  /** The encoding is invertible. */
  lemma DecodeEncode(s: string)
    ensures Decode(Encode(s)) == Some(s)
  {
    UnescapeEscape(Utf8All(s));
    FromUtf8Utf8All(s);
  }

  lemma EncodeInjective(a: string, b: string)
    requires Encode(a) == Encode(b)
    ensures a == b
  {
    DecodeEncode(a);
    DecodeEncode(b);
  }

  // ---------------------------------------------------------------- joining

  function EncodeAll(parts: seq<string>): (r: seq<string>)
    ensures |r| == |parts|
    ensures forall i :: 0 <= i < |r| ==> r[i] == Encode(parts[i])
  {
    seq(|parts|, i requires 0 <= i < |parts| => Encode(parts[i]))
  }

  /** `parts.join(':')`. */
  function Join(parts: seq<string>): string {
    if parts == [] then ""
    else if |parts| == 1 then parts[0]
    else parts[0] + ":" + Join(parts[1..])
  }

  /** Splitting at every ':'. */
  function Split(t: string): (r: seq<string>)
    ensures r != []
  {
    if t == "" then [""]
    else if t[0] == ':' then [""] + Split(t[1..])
    else var rest := Split(t[1..]); [[t[0]] + rest[0]] + rest[1..]
  }

  lemma {:induction false} SplitPlain(t: string)
    requires ':' !in t
    ensures Split(t) == [t]
  {
    if t != "" {
      SplitPlain(t[1..]);
      assert t == [t[0]] + t[1..];
    }
  }

  lemma {:induction false} SplitFirst(head: string, rest: string)
    requires ':' !in head
    ensures Split(head + ":" + rest) == [head] + Split(rest)
  {
    var t := head + ":" + rest;
    if head == "" {
      assert t[1..] == rest;
    } else {
      assert t[1..] == head[1..] + ":" + rest;
      SplitFirst(head[1..], rest);
      assert head == [head[0]] + head[1..];
    }
  }

  lemma {:induction false} SplitJoin(parts: seq<string>)
    requires parts != [] && forall p :: p in parts ==> ':' !in p
    ensures Split(Join(parts)) == parts
  {
    if |parts| == 1 {
      SplitPlain(parts[0]);
    } else {
      SplitJoin(parts[1..]);
      SplitFirst(parts[0], Join(parts[1..]));
    }
  }

  /** Joined encoded parts determine the parts, whatever their number. */
  lemma JoinEncodedInjective(a: seq<string>, b: seq<string>)
    requires a != [] && b != []
    requires Join(EncodeAll(a)) == Join(EncodeAll(b))
    ensures a == b
  {
    var ea, eb := EncodeAll(a), EncodeAll(b);
    SplitJoin(ea);
    SplitJoin(eb);
    forall i | 0 <= i < |a| ensures a[i] == b[i] {
      assert ea[i] == eb[i];
      EncodeInjective(a[i], b[i]);
    }
  }
}
