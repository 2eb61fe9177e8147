/**
 Trust-boundary envelopes for outside text: spellings of the envelope markers and of the runtime
 owner field are replaced, so that outside text can neither open nor close an envelope nor claim
 to be the owner.
 */
module Untrusted {

  // ---------------------------------------------------------------- the two patterns

  /** A pattern item: a word in lower case that matches whatever its case, or one or more separators. */
  datatype Item = Word(text: string) | Gap

  datatype Pattern = Marker | Owner

  const UNTRUSTED := Word("untrusted")

  function Alternatives(p: Pattern): (r: seq<seq<Item>>)
  {
    match p
    case Marker => [[UNTRUSTED, Gap, Word("inbound"), Gap, Word("message")],
                    [UNTRUSTED, Gap, Word("external"), Gap, Word("content")]]
    case Owner => [[Word("runtime_is_owner")]]
  }

  /** The characters that `str.split` and `\s` take as white space. */
  predicate IsSpace(c: char) {
    || '\t' <= c <= '\r' || '\U{1C}' <= c <= ' ' || c == '\U{85}' || c == '\U{A0}' || c == '\U{1680}'
    || '\U{2000}' <= c <= '\U{200A}' || c == '\U{2028}' || c == '\U{2029}' || c == '\U{202F}'
    || c == '\U{205F}' || c == '\U{3000}'
  }

  predicate IsGap(c: char) {
    IsSpace(c) || c == '_' || c == '-'
  }

  /** Equality ignoring case, with the dotted and dotless i and the long s that fold to i and s. */
  predicate Same(c: char, x: char) {
    || x == c
    || ('a' <= c <= 'z' && x as int == c as int - 32)
    || (c == 'i' && (x == '\U{130}' || x == '\U{131}'))
    || (c == 's' && x == '\U{17F}')
  }

  predicate SameWord(w: string, x: string) {
    |x| == |w| && forall i :: 0 <= i < |w| ==> Same(w[i], x[i])
  }

  /** The language of a sequence of items. */
  ghost predicate Spells(items: seq<Item>, x: string) {
    if items == [] then x == ""
    else match items[0]
      case Word(w) => |w| <= |x| && SameWord(w, x[..|w|]) && Spells(items[1..], x[|w|..])
      case Gap => exists n :: 1 <= n <= |x| && AllGaps(x[..n]) && Spells(items[1..], x[n..])
  }

  predicate AllGaps(x: string) {
    forall i :: 0 <= i < |x| ==> IsGap(x[i])
  }

  ghost predicate Spelled(p: Pattern, x: string) {
    exists k :: 0 <= k < |Alternatives(p)| && Spells(Alternatives(p)[k], x)
  }

  /** Some beginning of the text is a spelling of the pattern. */
  ghost predicate Starts(p: Pattern, t: string) {
    exists n :: 0 <= n <= |t| && Spelled(p, t[..n])
  }

  /** No part of the text is a spelling of the pattern. */
  ghost predicate Free(p: Pattern, t: string) {
    forall i :: 0 <= i <= |t| ==> !Starts(p, t[i..])
  }

  // ---------------------------------------------------------------- the matcher

  function GapRun(t: string): (n: nat)
    ensures n <= |t| && AllGaps(t[..n]) && (n < |t| ==> !IsGap(t[n]))
  {
    if t == "" || !IsGap(t[0]) then 0 else
      var n := 1 + GapRun(t[1..]);
      assert forall i :: 1 <= i < n ==> t[..n][i] == t[1..][..n - 1][i - 1];
      n
  }

  /** Words are not empty and hold no bracket; a gap is followed by a word that starts with a letter. */
  predicate WellFormed(items: seq<Item>) {
    && (forall i :: 0 <= i < |items| && items[i].Word? ==> items[i].text != "" && Plain(items[i].text))
    && (forall i :: 0 <= i < |items| && items[i].Gap? ==>
          i + 1 < |items| && items[i + 1].Word? && 'a' <= items[i + 1].text[0] <= 'z')
  }

  predicate Plain(w: string) {
    forall i :: 0 <= i < |w| ==> 'a' <= w[i] <= 'z' || w[i] == '_'
  }

  /** How far the items match at the beginning of a text, taking gaps as long as they go. */
  function Match(items: seq<Item>, t: string): (r: int)
    decreases |items|
  {
    if items == [] then 0
    else match items[0]
      case Word(w) =>
        if |w| <= |t| && SameWord(w, t[..|w|]) then
          var r := Match(items[1..], t[|w|..]);
          if r < 0 then -1 else |w| + r
        else -1
      case Gap =>
        var n := GapRun(t);
        if n == 0 then -1
        else
          var r := Match(items[1..], t[n..]);
          if r < 0 then -1 else n + r
  }

  lemma {:induction false} WellFormedRest(items: seq<Item>)
    requires WellFormed(items) && items != []
    ensures WellFormed(items[1..])
  {
  }

  /** What the matcher takes is in the language. */
  lemma {:induction false} MatchIsSpelled(items: seq<Item>, t: string)
    requires Match(items, t) >= 0
    ensures Match(items, t) <= |t| && Spells(items, t[..Match(items, t)])
    decreases |items|
  {
    if items != [] {
      var n := if items[0].Word? then |items[0].text| else GapRun(t);
      var r := Match(items[1..], t[n..]);
      MatchIsSpelled(items[1..], t[n..]);
      var x := t[..n + r];
      assert x[..n] == t[..n] && x[n..] == t[n..][..r];
    }
  }

  /** And when a beginning of the text is in the language, the matcher finds it: no other length is. */
  lemma {:induction false} SpelledIsMatched(items: seq<Item>, t: string, m: nat)
    requires WellFormed(items) && m <= |t| && Spells(items, t[..m])
    ensures Match(items, t) == m
    decreases |items|
  {
    if items != [] {
      var x := t[..m];
      WellFormedRest(items);
      if items[0].Word? {
        var n := |items[0].text|;
        assert x[..n] == t[..n] && x[n..] == t[n..][..m - n];
        SpelledIsMatched(items[1..], t[n..], m - n);
      } else {
        var n := GapIsTaken(items, t, m);
        SpelledIsMatched(items[1..], t[n..], m - n);
      }
    }
  }

  lemma {:induction false} GapIsTaken(items: seq<Item>, t: string, m: nat) returns (n: nat)
    requires WellFormed(items) && items != [] && items[0].Gap? && m <= |t| && Spells(items, t[..m])
    ensures 1 <= n <= m && n == GapRun(t) && Spells(items[1..], t[n..][..m - n])
  {
    var x := t[..m];
    n :| 1 <= n <= |x| && AllGaps(x[..n]) && Spells(items[1..], x[n..]);
    GapEnds(items, x[n..]);
    assert x[n..] == t[n..][..m - n] && x[..n] == t[..n] && x[n..][0] == t[n];
    RunIs(t, n);
  }

  lemma {:induction false} GapEnds(items: seq<Item>, y: string)
    requires WellFormed(items) && items != [] && items[0].Gap? && Spells(items[1..], y)
    ensures y != "" && !IsGap(y[0])
  {
  }

  lemma {:induction false} RunIs(t: string, n: nat)
    requires n < |t| && AllGaps(t[..n]) && !IsGap(t[n])
    ensures GapRun(t) == n
  {
  }

  /** How much of the text a substitution takes here; nothing when the pattern does not start here. */
  function Taken(p: Pattern, t: string): int {
    var first := Match(Alternatives(p)[0], t);
    if first > 0 || |Alternatives(p)| == 1 then first else Match(Alternatives(p)[1], t)
  }

  lemma {:induction false} PatternsAreWellFormed(p: Pattern)
    ensures forall k :: 0 <= k < |Alternatives(p)| ==> WellFormed(Alternatives(p)[k])
  {
  }

  /** Characters that no spelling of either pattern holds. */
  predicate Breaks(c: char) {
    c == '[' || c == ']' || c == '='
  }

  predicate Unbroken(x: string) {
    forall i :: 0 <= i < |x| ==> !Breaks(x[i])
  }

  lemma {:induction false} UnbrokenConcat(a: string, b: string)
    ensures Unbroken(a + b) <==> Unbroken(a) && Unbroken(b)
  {
    assert forall i :: 0 <= i < |a| ==> a[i] == (a + b)[i];
    assert forall i :: 0 <= i < |b| ==> b[i] == (a + b)[|a| + i];
  }

  lemma {:induction false} WordIsUnbroken(w: string, x: string)
    requires Plain(w) && SameWord(w, x)
    ensures Unbroken(x)
  {
  }

  lemma {:induction false} SpellingIsUnbroken(items: seq<Item>, x: string)
    requires WellFormed(items) && Spells(items, x)
    ensures Unbroken(x)
    ensures items != [] ==> x != ""
    decreases |items|
  {
    if items != [] {
      WellFormedRest(items);
      var n: nat;
      if items[0].Word? {
        n := |items[0].text|;
        WordIsUnbroken(items[0].text, x[..n]);
      } else {
        n :| 1 <= n <= |x| && AllGaps(x[..n]) && Spells(items[1..], x[n..]);
      }
      SpellingIsUnbroken(items[1..], x[n..]);
      UnbrokenConcat(x[..n], x[n..]);
      assert x == x[..n] + x[n..];
    }
  }

  lemma {:induction false} TakenIff(p: Pattern, t: string)
    ensures Taken(p, t) > 0 <==> Starts(p, t)
    ensures Taken(p, t) <= |t|
    ensures Taken(p, t) > 0 ==> Spelled(p, t[..Taken(p, t)])
  {
    PatternsAreWellFormed(p);
    var n := Taken(p, t);
    if n > 0 {
      var k := if Match(Alternatives(p)[0], t) > 0 then 0 else 1;
      MatchIsSpelled(Alternatives(p)[k], t);
      assert Spelled(p, t[..n]);
    }
    if Starts(p, t) {
      var m :| 0 <= m <= |t| && Spelled(p, t[..m]);
      var k :| 0 <= k < |Alternatives(p)| && Spells(Alternatives(p)[k], t[..m]);
      SpelledIsMatched(Alternatives(p)[k], t, m);
      SpellingIsUnbroken(Alternatives(p)[k], t[..m]);
    }
  }

  lemma {:induction false} SpellingsAreUnbroken(q: Pattern, x: string)
    requires Spelled(q, x)
    ensures Unbroken(x)
  {
    PatternsAreWellFormed(q);
    var k :| 0 <= k < |Alternatives(q)| && Spells(Alternatives(q)[k], x);
    SpellingIsUnbroken(Alternatives(q)[k], x);
  }

  // ---------------------------------------------------------------- substitution

  /** `pattern.sub(replacement, text)`: leftmost spellings that do not overlap. */
  function Sub(p: Pattern, replacement: string, t: string): string
    decreases |t|
  {
    var n := Taken(p, t);
    if t == "" then ""
    else if n > 0 && n <= |t| then replacement + Sub(p, replacement, t[n..])
    else [t[0]] + Sub(p, replacement, t[1..])
  }

  const QUOTED_MARKER := "[quoted marker]"
  const QUOTED_FIELD := "[quoted field]"

  function Replacement(p: Pattern): string {
    match p
    case Marker => QUOTED_MARKER
    case Owner => QUOTED_FIELD
  }

  function Neutralize(t: string): string {
    Sub(Owner, QUOTED_FIELD, Sub(Marker, QUOTED_MARKER, t))
  }

  /** `s` copies `t` up to some place and goes on with a bracket, or copies all of it. */
  predicate Edits(t: string, s: string) {
    if t == "" then s == ""
    else s != "" && (s[0] == '[' || (s[0] == t[0] && Edits(t[1..], s[1..])))
  }

  lemma {:induction false} SubEdits(p: Pattern, t: string)
    ensures Edits(t, Sub(p, Replacement(p), t))
    decreases |t|
  {
    var n := Taken(p, t);
    if t != "" && !(n > 0 && n <= |t|) {
      SubEdits(p, t[1..]);
    }
  }

  /** A beginning of substituted text that holds no bracket is a beginning of the original text. */
  lemma {:induction false} UnbrokenIsOriginal(t: string, s: string, m: nat)
    requires Edits(t, s) && m <= |s| && Unbroken(s[..m])
    ensures m <= |t| && t[..m] == s[..m]
  {
    if m > 0 {
      assert s[..m][0] == s[0];
      assert s[..m] == [s[0]] + s[1..][..m - 1];
      UnbrokenConcat([s[0]], s[1..][..m - 1]);
      UnbrokenIsOriginal(t[1..], s[1..], m - 1);
      assert t[..m] == [t[0]] + t[1..][..m - 1];
    }
  }

  /** So a spelling that starts in original text is in the original text: it cannot reach into a replacement. */
  lemma {:induction false} SpellingIsOriginal(q: Pattern, t: string, s: string)
    requires Edits(t, s) && Starts(q, s)
    ensures Starts(q, t)
  {
    var m :| 0 <= m <= |s| && Spelled(q, s[..m]);
    SpellingsAreUnbroken(q, s[..m]);
    UnbrokenIsOriginal(t, s, m);
  }

  /** How a spelling begins. */
  lemma {:induction false} StartsWith(q: Pattern, t: string)
    requires Starts(q, t)
    ensures |t| >= 2
    ensures q == Marker ==> Same('u', t[0]) && Same('n', t[1])
    ensures q == Owner ==> Same('r', t[0]) && Same('u', t[1])
  {
  }

  /** A replacement brings in no spelling, alone or together with what follows it. */
  lemma {:induction false} ReplacementIsFree(p: Pattern, q: Pattern, rest: string, i: nat)
    requires i < |Replacement(p)|
    ensures !Starts(q, Replacement(p)[i..] + rest)
  {
    var r := Replacement(p);
    var t := r[i..] + rest;
    assert t[0] == r[i] && (i + 1 < |r| ==> t[1] == r[i + 1]);
    if Starts(q, t) {
      StartsWith(q, t);
    }
  }

  lemma {:induction false} FreeAfterReplacement(p: Pattern, q: Pattern, rest: string)
    requires Free(q, rest)
    ensures Free(q, Replacement(p) + rest)
  {
    var r := Replacement(p);
    var s := r + rest;
    forall i | 0 <= i <= |s| ensures !Starts(q, s[i..]) {
      if i < |r| {
        ReplacementIsFree(p, q, rest, i);
        assert s[i..] == r[i..] + rest;
      } else {
        assert s[i..] == rest[i - |r|..];
      }
    }
  }

  lemma {:induction false} FreeAfterChar(q: Pattern, c: char, rest: string)
    requires Free(q, rest) && !Starts(q, [c] + rest)
    ensures Free(q, [c] + rest)
  {
    var s := [c] + rest;
    forall i | 0 <= i <= |s| ensures !Starts(q, s[i..]) {
      if i == 0 {
        assert s[0..] == s;
      } else {
        assert s[i..] == rest[i - 1..];
      }
    }
  }

  /** Substituting removes every spelling of its own pattern and creates none of another. */
  lemma {:induction false} SubIsFree(p: Pattern, q: Pattern, t: string)
    requires p == q || Free(q, t)
    ensures Free(q, Sub(p, Replacement(p), t))
    decreases |t|
  {
    var n := Taken(p, t);
    if t == "" {
      NothingStarts(q);
    } else if n > 0 && n <= |t| {
      FreeTail(q, t, n);
      SubIsFree(p, q, t[n..]);
      FreeAfterReplacement(p, q, Sub(p, Replacement(p), t[n..]));
    } else {
      FreeTail(q, t, 1);
      SubIsFree(p, q, t[1..]);
      NotHere(p, q, t);
      FreeAfterChar(q, t[0], Sub(p, Replacement(p), t[1..]));
    }
  }

  lemma {:induction false} NotHere(p: Pattern, q: Pattern, t: string)
    requires (p == q || Free(q, t)) && !(0 < Taken(p, t) <= |t|)
    ensures !Starts(q, Sub(p, Replacement(p), t))
  {
    TakenIff(p, t);
    assert t[0..] == t;
    var s := Sub(p, Replacement(p), t);
    SubEdits(p, t);
    if Starts(q, s) { SpellingIsOriginal(q, t, s); }
  }

  lemma {:induction false} NothingStarts(q: Pattern)
    ensures Free(q, "")
  {
  }

  lemma {:induction false} FreeTail(q: Pattern, t: string, n: nat)
    requires n <= |t|
    ensures Free(q, t) ==> Free(q, t[n..])
  {
  }

  /** A text without a spelling is left as it is. */
  lemma {:induction false} SubUnchanged(p: Pattern, t: string)
    requires Free(p, t)
    ensures Sub(p, Replacement(p), t) == t
    decreases |t|
  {
    if t != "" {
      assert t[0..] == t;
      TakenIff(p, t);
      FreeTail(p, t, 1);
      SubUnchanged(p, t[1..]);
    }
  }

  /** The output has neither a marker phrase nor an owner field, whatever the text. */
  lemma {:induction false} NeutralizedIsFree(t: string)
    ensures Free(Marker, Neutralize(t)) && Free(Owner, Neutralize(t))
  {
    SubIsFree(Marker, Marker, t);
    var once := Sub(Marker, QUOTED_MARKER, t);
    SubIsFree(Owner, Marker, once);
    SubIsFree(Owner, Owner, once);
  }

  /** A text is unchanged exactly when it has neither. */
  lemma {:induction false} UnchangedIff(t: string)
    ensures Neutralize(t) == t <==> Free(Marker, t) && Free(Owner, t)
  {
    if Free(Marker, t) && Free(Owner, t) {
      SubUnchanged(Marker, t);
      SubUnchanged(Owner, t);
    }
    NeutralizedIsFree(t);
  }

  lemma {:induction false} NeutralizeIsIdempotent(t: string)
    ensures Neutralize(Neutralize(t)) == Neutralize(t)
  {
    NeutralizedIsFree(t);
    UnchangedIff(Neutralize(t));
  }

  // ---------------------------------------------------------------- what a substitution keeps

  /** A stretch of the text: a character that is copied, or a spelling that is replaced. */
  datatype Piece = Copied(c: char) | Replaced(spelling: string)

  /**
   The pieces make up the text; what is replaced is a spelling of the pattern, and where a character
   is copied no spelling starts.
   */
  ghost predicate Divides(p: Pattern, t: string, pieces: seq<Piece>)
    decreases |pieces|
  {
    if pieces == [] then t == ""
    else match pieces[0]
      case Copied(c) => t != "" && t[0] == c && !Starts(p, t) && Divides(p, t[1..], pieces[1..])
      case Replaced(x) => x != "" && x <= t && Spelled(p, x) && Divides(p, t[|x|..], pieces[1..])
  }

  function Written(p: Pattern, pieces: seq<Piece>): string {
    if pieces == [] then ""
    else (if pieces[0].Copied? then [pieces[0].c] else Replacement(p)) + Written(p, pieces[1..])
  }

  lemma {:induction false} OneSpelling(p: Pattern, t: string, x: string)
    requires x <= t && Spelled(p, x)
    ensures Taken(p, t) == |x|
  {
    PatternsAreWellFormed(p);
    var k :| 0 <= k < |Alternatives(p)| && Spells(Alternatives(p)[k], x);
    assert t[..|x|] == x;
    SpelledIsMatched(Alternatives(p)[k], t, |x|);
    SpellingIsUnbroken(Alternatives(p)[k], x);
    TakenIs(p, t, k);
  }

  /** Which alternative matches is decided by the second word: at most one does. */
  lemma {:induction false} TakenIs(p: Pattern, t: string, k: nat)
    requires k < |Alternatives(p)| && Match(Alternatives(p)[k], t) > 0
    ensures Taken(p, t) == Match(Alternatives(p)[k], t)
  {
    if k == 1 && Match(Alternatives(p)[0], t) > 0 {
      OneAlternative(t);
    }
  }

  lemma {:induction false} OneAlternative(t: string)
    requires Match(Alternatives(Marker)[0], t) > 0
    ensures Match(Alternatives(Marker)[1], t) <= 0
  {
    var a, b := Alternatives(Marker)[0], Alternatives(Marker)[1];
    var u := t[|"untrusted"|..];
    assert a[1..][1..] == [Word("inbound"), Gap, Word("message")] && b[1..][1..] == [Word("external"), Gap, Word("content")];
    var v := u[GapRun(u)..];
    assert Match(a[1..][1..], v) >= 0;
    assert Same('i', v[0]) by { assert SameWord("inbound", v[..|"inbound"|]); assert v[..|"inbound"|][0] == v[0]; }
    assert Match(b[1..][1..], v) < 0 by {
      if |"external"| <= |v| && SameWord("external", v[..|"external"|]) {
        assert Same('e', v[..|"external"|][0]);
      }
    }
  }

  /** Every division of a text into such pieces is the one that the substitution makes. */
  lemma {:induction false} DivisionIsSub(p: Pattern, t: string, pieces: seq<Piece>)
    requires Divides(p, t, pieces)
    ensures Sub(p, Replacement(p), t) == Written(p, pieces)
    decreases |pieces|
  {
    if pieces != [] {
      TakenIff(p, t);
      match pieces[0] {
        case Copied(c) => DivisionIsSub(p, t[1..], pieces[1..]);
        case Replaced(x) =>
          OneSpelling(p, t, x);
          DivisionIsSub(p, t[|x|..], pieces[1..]);
      }
    }
  }

  /** And every text has one: outside the spellings of the pattern it is copied character by character. */
  lemma {:induction false} SubDivides(p: Pattern, t: string) returns (pieces: seq<Piece>)
    ensures Divides(p, t, pieces) && Sub(p, Replacement(p), t) == Written(p, pieces)
    decreases |t|
  {
    TakenIff(p, t);
    if t == "" {
      pieces := [];
    } else if Taken(p, t) > 0 {
      var x := t[..Taken(p, t)];
      var rest := SubDivides(p, t[|x|..]);
      pieces := [Replaced(x)] + rest;
      assert pieces[1..] == rest;
    } else {
      var rest := SubDivides(p, t[1..]);
      pieces := [Copied(t[0])] + rest;
      assert pieces[1..] == rest;
    }
  }

  /** Neutralizing replaces the spellings of a marker phrase, then those of the owner field, and keeps everything else. */
  lemma NeutralizeDivides(t: string) returns (markers: seq<Piece>, owners: seq<Piece>)
    ensures Divides(Marker, t, markers) && Divides(Owner, Written(Marker, markers), owners)
    ensures Neutralize(t) == Written(Owner, owners)
  {
    markers := SubDivides(Marker, t);
    owners := SubDivides(Owner, Written(Marker, markers));
  }

  /** A header value is the words of the value on one line, with the spellings replaced in the same way. */
  lemma HeaderValueDivides(value: string) returns (markers: seq<Piece>, owners: seq<Piece>)
    ensures Divides(Marker, Joined(Words(value)), markers) && Divides(Owner, Written(Marker, markers), owners)
    ensures HeaderValue(value) == Written(Owner, owners)
  {
    markers, owners := NeutralizeDivides(Joined(Words(value)));
  }

  // ---------------------------------------------------------------- header values

  function Spaces(t: string): (n: nat)
    ensures n <= |t| && (forall i :: 0 <= i < n ==> IsSpace(t[i])) && (n < |t| ==> !IsSpace(t[n]))
  {
    if t == "" || !IsSpace(t[0]) then 0 else 1 + Spaces(t[1..])
  }

  function WordLength(t: string): (n: nat)
    ensures n <= |t| && (forall i :: 0 <= i < n ==> !IsSpace(t[i])) && (n < |t| ==> IsSpace(t[n]))
  {
    if t == "" || IsSpace(t[0]) then 0 else 1 + WordLength(t[1..])
  }

  /** `str.split()`. */
  function Words(t: string): seq<string>
    decreases |t|, 1
  {
    WordsFrom(t[Spaces(t)..])
  }

  function WordsFrom(t: string): seq<string>
    decreases |t|, 0
  {
    var n := WordLength(t);
    if n == 0 then [] else [t[..n]] + Words(t[n..])
  }

  function Joined(ws: seq<string>): string {
    if ws == [] then "" else if |ws| == 1 then ws[0] else ws[0] + " " + Joined(ws[1..])
  }

  function HeaderValue(value: string): string {
    Neutralize(Joined(Words(value)))
  }

  /** The only white space of a one-line text is the plain space. */
  ghost predicate OneLine(t: string) {
    forall i :: 0 <= i < |t| ==> (IsSpace(t[i]) ==> t[i] == ' ')
  }

  predicate NoSpace(w: string) {
    forall i :: 0 <= i < |w| ==> !IsSpace(w[i])
  }

  lemma {:induction false} WordsStep(t: string) returns (k: nat, word: string, rest: string)
    ensures k <= |t| && t[k..] == word + rest && NoSpace(word)
    ensures forall i :: 0 <= i < k ==> IsSpace(t[i])
    ensures if word == "" then Words(t) == [] && rest == "" else Words(t) == [word] + Words(rest)
  {
    k := Spaces(t);
    var tail := t[k..];
    assert tail != "" ==> tail[0] == t[k];
    word, rest := WordStep(tail);
  }

  lemma {:induction false} WordStep(t: string) returns (word: string, rest: string)
    ensures t == word + rest && NoSpace(word)
    ensures word == "" ==> WordsFrom(t) == [] && (t == "" || IsSpace(t[0]))
    ensures word != "" ==> WordsFrom(t) == [word] + Words(rest)
  {
    var n := WordLength(t);
    word, rest := t[..n], t[n..];
  }

  lemma {:induction false} WordsHaveNoSpace(t: string)
    ensures forall i :: 0 <= i < |Words(t)| ==> NoSpace(Words(t)[i])
    decreases |t|
  {
    var _, word, rest := WordsStep(t);
    if word != "" { WordsHaveNoSpace(rest); }
  }

  lemma {:induction false} JoinedIsOneLine(ws: seq<string>)
    requires forall i :: 0 <= i < |ws| ==> NoSpace(ws[i])
    ensures OneLine(Joined(ws))
  {
    if ws != [] {
      JoinedIsOneLine(ws[1..]);
      OneLineConcat(ws[0] + " ", Joined(ws[1..]));
      OneLineConcat(ws[0], " ");
    }
  }

  lemma {:induction false} OneLineConcat(a: string, b: string)
    ensures OneLine(a + b) <==> OneLine(a) && OneLine(b)
  {
    assert forall i :: 0 <= i < |a| ==> a[i] == (a + b)[i];
    assert forall i :: 0 <= i < |b| ==> b[i] == (a + b)[|a| + i];
  }

  lemma {:induction false} ReplacementIsOneLine(p: Pattern)
    ensures OneLine(Replacement(p))
  {
  }

  lemma {:induction false} SubStep(p: Pattern, t: string) returns (m: nat, here: string)
    requires t != ""
    ensures 0 < m <= |t| && Sub(p, Replacement(p), t) == here + Sub(p, Replacement(p), t[m..])
    ensures here == t[..m] || here == Replacement(p)
  {
    var n := Taken(p, t);
    m := if n > 0 && n <= |t| then n else 1;
    here := if n > 0 && n <= |t| then Replacement(p) else t[..1];
  }

  lemma {:induction false} SubKeepsOneLine(p: Pattern, t: string)
    requires OneLine(t)
    ensures OneLine(Sub(p, Replacement(p), t))
    decreases |t|
  {
    if t != "" {
      var m, here := SubStep(p, t);
      SubKeepsOneLine(p, t[m..]);
      ReplacementIsOneLine(p);
      OneLineConcat(here, Sub(p, Replacement(p), t[m..]));
    }
  }

  /** A header value is one line without a marker or an owner field. */
  lemma {:induction false} HeaderValueIsSafe(value: string)
    ensures OneLine(HeaderValue(value)) && '\n' !in HeaderValue(value)
    ensures Free(Marker, HeaderValue(value)) && Free(Owner, HeaderValue(value))
  {
    WordsHaveNoSpace(value);
    JoinedIsOneLine(Words(value));
    SubKeepsOneLine(Marker, Joined(Words(value)));
    SubKeepsOneLine(Owner, Sub(Marker, QUOTED_MARKER, Joined(Words(value))));
    NeutralizedIsFree(Joined(Words(value)));
  }

  /** What is not white space. */
  function Ink(t: string): string {
    if t == "" then "" else (if IsSpace(t[0]) then "" else [t[0]]) + Ink(t[1..])
  }

  lemma {:induction false} InkConcat(a: string, b: string)
    ensures Ink(a + b) == Ink(a) + Ink(b)
  {
    if a == "" {
      assert a + b == b;
    } else {
      assert (a + b)[1..] == a[1..] + b;
      InkConcat(a[1..], b);
    }
  }

  lemma {:induction false} InkOfSpaces(t: string)
    requires forall i :: 0 <= i < |t| ==> IsSpace(t[i])
    ensures Ink(t) == ""
  {
    if t != "" { InkOfSpaces(t[1..]); }
  }

  lemma {:induction false} InkOfWord(w: string)
    requires NoSpace(w)
    ensures Ink(w) == w
  {
    if w != "" {
      InkOfWord(w[1..]);
      assert w == [w[0]] + w[1..];
    }
  }

  function Concat(ws: seq<string>): string {
    if ws == [] then "" else ws[0] + Concat(ws[1..])
  }

  lemma {:induction false} InkOfParts(spaces: string, word: string, rest: string)
    requires (forall i :: 0 <= i < |spaces| ==> IsSpace(spaces[i])) && NoSpace(word)
    ensures Ink(spaces + (word + rest)) == word + Ink(rest)
  {
    InkConcat(spaces, word + rest);
    InkConcat(word, rest);
    InkOfSpaces(spaces);
    InkOfWord(word);
  }

  lemma {:induction false} WordsHoldInk(t: string)
    ensures Concat(Words(t)) == Ink(t)
    decreases |t|
  {
    var k, word, rest := WordsStep(t);
    InkOfParts(t[..k], word, rest);
    assert t == t[..k] + t[k..];
    if word != "" {
      assert Words(t)[1..] == Words(rest);
      WordsHoldInk(rest);
    }
  }

  lemma {:induction false} InkOfSpaced(word: string, rest: string)
    requires NoSpace(word)
    ensures Ink(word + " " + rest) == word + Ink(rest)
  {
    InkConcat(word + " ", rest);
    InkConcat(word, " ");
    InkOfSpaces(" ");
    InkOfWord(word);
  }

  lemma {:induction false} InkOfJoined(ws: seq<string>)
    requires forall i :: 0 <= i < |ws| ==> NoSpace(ws[i])
    ensures Ink(Joined(ws)) == Concat(ws)
  {
    if ws != [] {
      InkOfWord(ws[0]);
      InkOfJoined(ws[1..]);
      InkOfSpaced(ws[0], Joined(ws[1..]));
    }
  }

  /** Making one line of a value keeps everything in it but white space. */
  lemma {:induction false} JoinedKeepsInk(t: string)
    ensures Ink(Joined(Words(t))) == Ink(t)
  {
    WordsHaveNoSpace(t);
    InkOfJoined(Words(t));
    WordsHoldInk(t);
  }
}
