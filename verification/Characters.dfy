/** Bytes as characters: UTF-8 by its encoding of code points (section 3 of RFC 3629), Unicode's
  white space, and where `truncateAtSentence` of `agents/bp-briefer/render.go` cuts. */
module Characters {
  import opened Truncation

  // ---------------------------------------------------------------- code points

  predicate IsScalar(c: int) { 0 <= c <= 0x10FFFF && !(0xD800 <= c <= 0xDFFF) }

  function Encoded(c: int): (s: Text)
    requires IsScalar(c)
    ensures 1 <= |s| <= 4
  {
    if c < 0x80 then [c as byte]
    else if c < 0x800 then [(0xC0 + c / 0x40) as byte, (0x80 + c % 0x40) as byte]
    else if c < 0x10000 then [(0xE0 + c / 0x1000) as byte, (0x80 + c / 0x40 % 0x40) as byte, (0x80 + c % 0x40) as byte]
    else [(0xF0 + c / 0x40000) as byte, (0x80 + c / 0x1000 % 0x40) as byte, (0x80 + c / 0x40 % 0x40) as byte, (0x80 + c % 0x40) as byte]
  }

  ghost predicate AllScalars(cs: seq<int>) { forall k :: 0 <= k < |cs| ==> IsScalar(cs[k]) }

  function EncodedAll(cs: seq<int>): Text
    requires AllScalars(cs)
  {
    if |cs| == 0 then [] else Encoded(cs[0]) + EncodedAll(cs[1..])
  }

  lemma DecodeTwo(a: int, b: int) returns (c: int)
    requires 0xC2 <= a <= 0xDF && 0x80 <= b <= 0xBF
    ensures 0x80 <= c < 0x800 && a == 0xC0 + c / 0x40 && b == 0x80 + c % 0x40
  {
    c := (a - 0xC0) * 0x40 + (b - 0x80);
  }

  lemma DecodeThree(a: int, b: int, d: int) returns (c: int)
    requires 0xE0 <= a <= 0xEF && 0x80 <= b <= 0xBF && 0x80 <= d <= 0xBF
    requires (a == 0xE0 ==> b >= 0xA0) && (a == 0xED ==> b <= 0x9F)
    ensures 0x800 <= c < 0x10000 && IsScalar(c) && a == 0xE0 + c / 0x1000 && b == 0x80 + c / 0x40 % 0x40 && d == 0x80 + c % 0x40
  {
    c := (a - 0xE0) * 0x1000 + (b - 0x80) * 0x40 + (d - 0x80);
    assert c / 0x40 == (a - 0xE0) * 0x40 + (b - 0x80);
  }

  lemma DecodeFour(a: int, b: int, d: int, e: int) returns (c: int)
    requires 0xF0 <= a <= 0xF4 && 0x80 <= b <= 0xBF && 0x80 <= d <= 0xBF && 0x80 <= e <= 0xBF
    requires (a == 0xF0 ==> b >= 0x90) && (a == 0xF4 ==> b <= 0x8F)
    ensures 0x10000 <= c <= 0x10FFFF && a == 0xF0 + c / 0x40000 && b == 0x80 + c / 0x1000 % 0x40
    ensures d == 0x80 + c / 0x40 % 0x40 && e == 0x80 + c % 0x40
  {
    c := (a - 0xF0) * 0x40000 + (b - 0x80) * 0x1000 + (d - 0x80) * 0x40 + (e - 0x80);
    assert c / 0x40 == (a - 0xF0) * 0x1000 + (b - 0x80) * 0x40 + (d - 0x80);
    assert c / 0x1000 == (a - 0xF0) * 0x40 + (b - 0x80);
  }

  /** A character at the front is the encoding of a code point. */
  lemma FrontDecodes(s: Text) returns (c: int)
    requires CharLength(s) > 0
    ensures IsScalar(c) && Encoded(c) == s[..CharLength(s)]
  {
    var n := CharLength(s);
    if n == 1 {
      c := s[0] as int;
    } else if n == 2 {
      c := DecodeTwo(s[0] as int, s[1] as int);
    } else if n == 3 {
      c := DecodeThree(s[0] as int, s[1] as int, s[2] as int);
    } else {
      c := DecodeFour(s[0] as int, s[1] as int, s[2] as int, s[3] as int);
    }
  }

  /** And the encoding of a code point is a character. */
  lemma FrontEncodes(c: int, s: Text)
    requires IsScalar(c) && Encoded(c) <= s
    ensures CharLength(s) == |Encoded(c)|
  {
    var e := Encoded(c);
    assert forall k :: 0 <= k < |e| ==> s[k] == e[k];
    if c >= 0x10000 {
      LeadOfFour(c);
    } else if c >= 0x800 {
      LeadOfThree(c);
    }
  }

  lemma LeadOfThree(c: int)
    requires IsScalar(c) && 0x800 <= c < 0x10000
    ensures var a, b := 0xE0 + c / 0x1000, 0x80 + c / 0x40 % 0x40;
      0xE0 <= a <= 0xEF && 0x80 <= b <= 0xBF && (a == 0xE0 ==> b >= 0xA0) && (a == 0xED ==> b <= 0x9F)
  {
  }

  lemma LeadOfFour(c: int)
    requires 0x10000 <= c <= 0x10FFFF
    ensures var a, b := 0xF0 + c / 0x40000, 0x80 + c / 0x1000 % 0x40;
      0xF0 <= a <= 0xF4 && 0x80 <= b <= 0xBF && (a == 0xF0 ==> b >= 0x90) && (a == 0xF4 ==> b <= 0x8F)
  {
  }

  lemma {:induction false} Decodes(s: Text) returns (cs: seq<int>)
    requires ValidUtf8(s)
    ensures AllScalars(cs) && EncodedAll(cs) == s
    decreases |s|
  {
    if |s| == 0 {
      cs := [];
    } else {
      var c := FrontDecodes(s);
      var rest := Decodes(s[CharLength(s)..]);
      cs := [c] + rest;
      assert cs[1..] == rest;
    }
  }

  lemma {:induction false} EncodesValid(cs: seq<int>)
    requires AllScalars(cs)
    ensures ValidUtf8(EncodedAll(cs))
  {
    if |cs| > 0 {
      var s := EncodedAll(cs);
      EncodesValid(cs[1..]);
      FrontEncodes(cs[0], s);
      assert s[|Encoded(cs[0])|..] == EncodedAll(cs[1..]);
    }
  }

  /** Text is valid exactly when it is the encoding of some code points. */
  lemma ValidExactlyWhen(s: Text)
    ensures ValidUtf8(s) <==> exists cs :: AllScalars(cs) && EncodedAll(cs) == s
  {
    if ValidUtf8(s) {
      var cs := Decodes(s);
    }
    if cs :| AllScalars(cs) && EncodedAll(cs) == s {
      EncodesValid(cs);
    }
  }

  // ---------------------------------------------------------------- white space

  /** The code points with Unicode's White_Space property. */
  predicate IsWhite(c: int) {
    || 0x9 <= c <= 0xD || c == 0x20 || c == 0x85 || c == 0xA0 || c == 0x1680 || 0x2000 <= c <= 0x200A
    || c == 0x2028 || c == 0x2029 || c == 0x202F || c == 0x205F || c == 0x3000
  }

  /** The encoding of one white character. */
  ghost predicate IsWhiteText(e: Text) { exists c :: IsWhite(c) && Encoded(c) == e }

  ghost predicate StartsWhite(s: Text) { exists n :: 0 <= n <= |s| && IsWhiteText(s[..n]) }

  ghost predicate EndsWhite(s: Text) { exists n :: 0 <= n <= |s| && IsWhiteText(s[n..]) }

  lemma WhiteOfThree(c: int)
    requires IsWhite(c) && c >= 0x800
    ensures Encoded(c) == [0xE1, 0x9A, 0x80] || Encoded(c) == [0xE2, 0x81, 0x9F] || Encoded(c) == [0xE3, 0x80, 0x80] ||
      (0x2000 <= c <= 0x202F && Encoded(c) == [0xE2, 0x80, (0x80 + (c - 0x2000)) as byte])
  {
  }

  lemma WhiteOfTwo(c: int)
    requires IsWhite(c) && 0x80 <= c < 0x800
    ensures Encoded(c) == [0xC2, c as byte] && (c == 0x85 || c == 0xA0)
  {
  }

  lemma WhiteBytes(c: int, e: Text)
    requires IsWhite(c) && e == Encoded(c)
    ensures |e| == 1 ==> IsAsciiSpace(e[0])
    ensures |e| == 2 ==> IsSpaceOfTwo(e[0], e[1])
    ensures |e| == 3 ==> IsSpaceOfThree(e[0], e[1], e[2])
    ensures |e| <= 3
  {
    if c >= 0x800 {
      WhiteOfThree(c);
    } else if c >= 0x80 {
      WhiteOfTwo(c);
    }
  }

  /** And back: such bytes are the encoding of a white code point. */
  lemma BytesOfTwo(a: byte, b: byte) returns (c: int)
    requires IsSpaceOfTwo(a, b)
    ensures IsWhite(c) && Encoded(c) == [a, b]
  {
    c := b as int;
  }

  lemma BytesOfThree(a: byte, b: byte, d: byte) returns (c: int)
    requires IsSpaceOfThree(a, b, d)
    ensures IsWhite(c) && Encoded(c) == [a, b, d]
  {
    c := DecodeThree(a as int, b as int, d as int);
  }

  /** The bytes of one white character. */
  predicate WhiteShape(e: Text) {
    || (|e| == 1 && IsAsciiSpace(e[0])) || (|e| == 2 && IsSpaceOfTwo(e[0], e[1]))
    || (|e| == 3 && IsSpaceOfThree(e[0], e[1], e[2]))
  }

  lemma WhiteTextHasShape(e: Text)
    requires IsWhiteText(e)
    ensures WhiteShape(e)
  {
    var c :| IsWhite(c) && Encoded(c) == e;
    WhiteBytes(c, e);
  }

  lemma ShapeIsWhiteText(e: Text)
    requires WhiteShape(e)
    ensures IsWhiteText(e)
  {
    if |e| == 1 {
      assert IsWhite(e[0] as int) && Encoded(e[0] as int) == e;
    } else if |e| == 2 {
      var c := BytesOfTwo(e[0], e[1]);
      assert Encoded(c) == e;
    } else {
      var c := BytesOfThree(e[0], e[1], e[2]);
      assert Encoded(c) == e;
    }
  }

  lemma FrontShape(s: Text, n: nat)
    requires n <= |s|
    ensures WhiteShape(s[..n]) ==> SpaceAtStart(s) == n > 0
    ensures n == SpaceAtStart(s) > 0 ==> WhiteShape(s[..n])
  {
  }

  lemma BackShape(s: Text, n: nat)
    requires n <= |s|
    ensures WhiteShape(s[n..]) ==> SpaceAtEnd(s) == |s| - n > 0
    ensures |s| - n == SpaceAtEnd(s) > 0 ==> WhiteShape(s[n..])
  {
  }

  /** White space is seen at an end of a text exactly when a white character stands there. */
  lemma SpaceExactlyWhen(s: Text)
    ensures SpaceAtStart(s) > 0 <==> StartsWhite(s)
    ensures SpaceAtEnd(s) > 0 <==> EndsWhite(s)
  {
    if SpaceAtStart(s) > 0 {
      FrontShape(s, SpaceAtStart(s));
      ShapeIsWhiteText(s[..SpaceAtStart(s)]);
    }
    if SpaceAtEnd(s) > 0 {
      BackShape(s, |s| - SpaceAtEnd(s));
      ShapeIsWhiteText(s[|s| - SpaceAtEnd(s)..]);
    }
    if n :| 0 <= n <= |s| && IsWhiteText(s[..n]) {
      WhiteTextHasShape(s[..n]);
      FrontShape(s, n);
    }
    if n :| 0 <= n <= |s| && IsWhiteText(s[n..]) {
      WhiteTextHasShape(s[n..]);
      BackShape(s, n);
    }
  }

  ghost predicate AllAre(kind: Text -> bool, es: seq<Text>) { forall k :: 0 <= k < |es| ==> kind(es[k]) }

  ghost predicate AllWhite(es: seq<Text>) { forall k :: 0 <= k < |es| ==> IsWhiteText(es[k]) }

  function Joined(es: seq<Text>): Text {
    if |es| == 0 then [] else es[0] + Joined(es[1..])
  }

  lemma {:induction false} JoinedMore(es: seq<Text>, e: Text)
    ensures Joined(es + [e]) == Joined(es) + e
  {
    if |es| == 0 {
      assert (es + [e])[1..] == [] && e + [] == e;
    } else {
      JoinedMore(es[1..], e);
      assert (es + [e])[1..] == es[1..] + [e];
    }
  }

  lemma NextFromLeft(s: Text) returns (n: nat)
    ensures n <= |s| && (n > 0 ==> WhiteShape(s[..n]) && TrimLeft(s) == TrimLeft(s[n..])) && (n == 0 ==> TrimLeft(s) == s)
  {
    n := SpaceAtStart(s);
    FrontShape(s, n);
  }

  lemma NextFromRight(s: Text) returns (n: nat)
    ensures n <= |s| && (n < |s| ==> WhiteShape(s[n..]) && TrimRight(s) == TrimRight(s[..n])) && (n == |s| ==> TrimRight(s) == s)
  {
    n := |s| - SpaceAtEnd(s);
    BackShape(s, n);
  }

  /** `n` bytes of this kind come off the front, or nothing does. */
  ghost predicate PeelsLeft(trimmed: Text -> Text, kind: Text -> bool, s: Text, n: nat) {
    n <= |s| && (if n == 0 then trimmed(s) == s else kind(s[..n]) && trimmed(s) == trimmed(s[n..]))
  }

  ghost predicate PeelsRight(trimmed: Text -> Text, kind: Text -> bool, s: Text, n: nat) {
    n <= |s| && (if n == |s| then trimmed(s) == s else kind(s[n..]) && trimmed(s) == trimmed(s[..n]))
  }

  ghost predicate CanPeelLeft(trimmed: Text -> Text, kind: Text -> bool, s: Text) { exists n: nat :: PeelsLeft(trimmed, kind, s, n) }

  ghost predicate CanPeelRight(trimmed: Text -> Text, kind: Text -> bool, s: Text) { exists n: nat :: PeelsRight(trimmed, kind, s, n) }

  lemma {:induction false} LeftPieces(trimmed: Text -> Text, kind: Text -> bool, s: Text) returns (pieces: seq<Text>)
    requires forall t :: CanPeelLeft(trimmed, kind, t)
    ensures AllAre(kind, pieces) && s == Joined(pieces) + trimmed(s)
    decreases |s|
  {
    assert CanPeelLeft(trimmed, kind, s);
    var n: nat :| PeelsLeft(trimmed, kind, s, n);
    if n == 0 {
      pieces := [];
    } else {
      var rest := LeftPieces(trimmed, kind, s[n..]);
      pieces := [s[..n]] + rest;
      assert pieces[1..] == rest && s == s[..n] + s[n..];
    }
  }

  lemma {:induction false} RightPieces(trimmed: Text -> Text, kind: Text -> bool, s: Text) returns (pieces: seq<Text>)
    requires forall t :: CanPeelRight(trimmed, kind, t)
    ensures AllAre(kind, pieces) && s == trimmed(s) + Joined(pieces)
    decreases |s|
  {
    assert CanPeelRight(trimmed, kind, s);
    var n: nat :| PeelsRight(trimmed, kind, s, n);
    if n == |s| {
      pieces := [];
    } else {
      var rest := RightPieces(trimmed, kind, s[..n]);
      pieces := rest + [s[n..]];
      JoinedMore(rest, s[n..]);
      assert s == s[..n] + s[n..];
    }
  }

  lemma PiecesAreWhite(es: seq<Text>)
    requires AllAre(WhiteShape, es)
    ensures AllWhite(es)
  {
    forall k | 0 <= k < |es| ensures IsWhiteText(es[k]) {
      ShapeIsWhiteText(es[k]);
    }
  }

  lemma Pieces(s: Text) returns (left: seq<Text>, right: seq<Text>)
    ensures AllAre(WhiteShape, left) && AllAre(WhiteShape, right) && s == Joined(left) + TrimSpace(s) + Joined(right)
  {
    forall t ensures CanPeelLeft(TrimLeft, WhiteShape, t) {
      var n := NextFromLeft(t);
      assert PeelsLeft(TrimLeft, WhiteShape, t, n);
    }
    forall t ensures CanPeelRight(TrimRight, WhiteShape, t) {
      var n := NextFromRight(t);
      assert PeelsRight(TrimRight, WhiteShape, t, n);
    }
    left := LeftPieces(TrimLeft, WhiteShape, s);
    right := RightPieces(TrimRight, WhiteShape, TrimLeft(s));
    JoinedAround(Joined(left), TrimSpace(s), Joined(right));
  }

  lemma JoinedAround(a: Text, b: Text, c: Text)
    ensures a + (b + c) == a + b + c
  {
  }

  /** Trimming drops white characters from both ends, and all of them: none stands at an end of
      what is left. */
  lemma TrimmingDropsWhite(s: Text) returns (left: seq<Text>, right: seq<Text>)
    ensures AllWhite(left) && AllWhite(right) && s == Joined(left) + TrimSpace(s) + Joined(right)
    ensures !StartsWhite(TrimSpace(s)) && !EndsWhite(TrimSpace(s))
  {
    left, right := Pieces(s);
    PiecesAreWhite(left);
    PiecesAreWhite(right);
    EndsAreBare(s);
    SpaceExactlyWhen(TrimSpace(s));
  }

  lemma EndsAreBare(s: Text)
    ensures SpaceAtStart(TrimSpace(s)) == 0 && SpaceAtEnd(TrimSpace(s)) == 0
  {
    var from := TrimLeftIsSuffix(s);
    TrimRightIsPrefix(TrimLeft(s));
    StartsWithoutSpace(TrimLeft(s), TrimSpace(s));
  }

  // ---------------------------------------------------------------- where the text is cut

  /** The last place before `limit` with one of these bytes. */
  ghost predicate LastOf(bytes: set<byte>, text: Text, limit: nat, at: int)
    requires limit <= |text|
  {
    0 <= at < limit && text[at] in bytes && forall k :: at < k < limit ==> text[k] !in bytes
  }

  ghost predicate NoneAfter(bytes: set<byte>, text: Text, limit: nat, from: int)
    requires limit <= |text|
  {
    forall k :: 0 <= k < limit && k > from ==> text[k] !in bytes
  }

  lemma LastIndexIs(p: byte -> bool, bytes: set<byte>, text: Text, limit: nat, at: int)
    requires limit <= |text| && (forall b :: p(b) <==> b in bytes) && at == LastIndex(p, text[..limit])
    ensures at >= 0 ==> LastOf(bytes, text, limit, at)
    ensures forall k :: 0 <= k < limit && k > at ==> text[k] !in bytes
  {
    forall k | 0 <= k < limit && k > at ensures text[k] !in bytes {
      assert text[..limit][k] == text[k];
    }
  }

  const SENTENCE_ENDS: set<byte> := {0x2E, 0x21, 0x3F, 0x0A}

  /** Valid text is cut right after its last full stop, exclamation mark, question mark or new
      line, if that is past half the limit; else before its last blank, if there is one after
      the first byte; else at the last character boundary within the limit. */
  lemma CutInPlainTerms(text: Text, limit: nat, to: nat)
    requires ValidUtf8(text) && limit < |text| && IsCutAt(text, limit, to)
    ensures to <= limit
    ensures !NoneAfter(SENTENCE_ENDS, text, limit, limit / 2) ==> LastOf(SENTENCE_ENDS, text, limit, to - 1) && to - 1 > limit / 2
    ensures NoneAfter(SENTENCE_ENDS, text, limit, limit / 2) && !NoneAfter({0x20}, text, limit, 0) ==> LastOf({0x20}, text, limit, to) && to > 0
    ensures NoneAfter(SENTENCE_ENDS, text, limit, limit / 2) && NoneAfter({0x20}, text, limit, 0) ==>
      ValidUtf8(text[..to]) && forall k :: to < k <= limit ==> !ValidUtf8(text[..k])
  {
    var sentence, blank := LastIndex(EndsSentence, text[..limit]), LastIndex(IsBlank, text[..limit]);
    LastIndexIs(EndsSentence, SENTENCE_ENDS, text, limit, sentence);
    LastIndexIs(IsBlank, {0x20}, text, limit, blank);
    CutIsValid(text, limit, to);
  }
}
