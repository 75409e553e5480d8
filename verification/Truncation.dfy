/** Cutting a brief to a byte limit: `truncateAtSentence` in `agents/bp-briefer/render.go`.

  Text is a sequence of bytes; UTF-8 is as in sections 3 and 4 of RFC 3629. White space is
  Unicode's, as `strings.TrimSpace` knows it. */
module Truncation {

  newtype byte = x: int | 0 <= x < 256

  type Text = seq<byte>

  // ---------------------------------------------------------------- UTF-8

  predicate IsTail(b: byte) { 0x80 <= b <= 0xBF }

  /** The length of the character at the front, or 0 when there is no valid one. */
  function CharLength(s: Text): (n: nat)
    ensures n <= 4 && n <= |s|
  {
    if |s| >= 1 && s[0] <= 0x7F then 1
    else if |s| >= 2 && 0xC2 <= s[0] <= 0xDF && IsTail(s[1]) then 2
    else if |s| >= 3 && IsThree(s[0], s[1]) && IsTail(s[2]) then 3
    else if |s| >= 4 && IsFour(s[0], s[1]) && IsTail(s[2]) && IsTail(s[3]) then 4
    else 0
  }

  predicate IsThree(a: byte, b: byte) {
    match a
    case 0xE0 => 0xA0 <= b <= 0xBF
    case 0xED => 0x80 <= b <= 0x9F
    case _ => 0xE1 <= a <= 0xEF && IsTail(b)
  }

  predicate IsFour(a: byte, b: byte) {
    match a
    case 0xF0 => 0x90 <= b <= 0xBF
    case 0xF4 => 0x80 <= b <= 0x8F
    case _ => 0xF1 <= a <= 0xF3 && IsTail(b)
  }

  predicate ValidUtf8(s: Text) {
    |s| == 0 || (CharLength(s) > 0 && ValidUtf8(s[CharLength(s)..]))
  }

  /** The first character depends on its own bytes only, of which all but the first are tails. */
  lemma CharLengthIsLocal(s: Text, k: nat)
    requires CharLength(s) > 0 && CharLength(s) <= k <= |s|
    ensures CharLength(s[..k]) == CharLength(s)
    ensures forall i :: 1 <= i < CharLength(s) ==> IsTail(s[i])
    ensures !IsTail(s[0])
  {
  }

  /** Valid text is valid up to every byte that is not a tail. */
  lemma {:induction false} ValidUpTo(s: Text, k: nat)
    requires ValidUtf8(s) && k <= |s| && (k < |s| ==> !IsTail(s[k]))
    ensures ValidUtf8(s[..k]) && ValidUtf8(s[k..])
    decreases |s|
  {
    if 0 < k {
      var n := CharLength(s);
      CharLengthIsLocal(s, |s|);
      assert n <= k;
      ValidUpTo(s[n..], k - n);
      CharLengthIsLocal(s, k);
      assert s[..k][n..] == s[n..][..k - n];
      assert s[n..][k - n..] == s[k..];
    } else {
      assert s[..0] == [] && s[0..] == s;
    }
  }

  /** And one byte further when that byte is a character of its own. */
  lemma ValidThrough(s: Text, k: nat)
    requires ValidUtf8(s) && k < |s| && s[k] <= 0x7F
    ensures ValidUtf8(s[..k + 1])
  {
    ValidUpTo(s, k);
    var rest := s[k..];
    assert CharLength(rest) == 1;
    if k + 1 < |s| {
      assert ValidUtf8(rest[1..]);
      var after := rest[1..];
      CharLengthIsLocal(after, |after|);
      assert after[0] == s[k + 1];
      ValidUpTo(s, k + 1);
    } else {
      assert s[..k + 1] == s;
    }
  }

  /** A character boundary is at most three bytes back. */
  lemma {:induction false} BoundaryNear(s: Text, limit: nat) returns (k: nat)
    requires ValidUtf8(s) && limit <= |s|
    ensures k <= limit <= k + 3 && ValidUtf8(s[..k])
    decreases |s|
  {
    var n := CharLength(s);
    if limit == 0 || limit < n {
      k := 0;
    } else {
      k := BoundaryNear(s[n..], limit - n);
      k := n + k;
      CharLengthIsLocal(s, k);
      assert s[..k][n..] == s[n..][..k - n];
    }
  }

  // ---------------------------------------------------------------- white space

  predicate IsAsciiSpace(b: byte) { b == 0x20 || 0x09 <= b <= 0x0D }

  predicate IsSpaceOfTwo(a: byte, b: byte) { a == 0xC2 && (b == 0x85 || b == 0xA0) }

  predicate IsSpaceOfThree(a: byte, b: byte, c: byte) {
    || (a == 0xE1 && b == 0x9A && c == 0x80)
    || (a == 0xE2 && b == 0x80 && (0x80 <= c <= 0x8A || c == 0xA8 || c == 0xA9 || c == 0xAF))
    || (a == 0xE2 && b == 0x81 && c == 0x9F)
    || (a == 0xE3 && b == 0x80 && c == 0x80)
  }

  /** The bytes of the white space character at the front, 0 when there is none. */
  function SpaceAtStart(s: Text): (n: nat)
    ensures n <= |s|
  {
    if |s| >= 1 && IsAsciiSpace(s[0]) then 1
    else if |s| >= 2 && IsSpaceOfTwo(s[0], s[1]) then 2
    else if |s| >= 3 && IsSpaceOfThree(s[0], s[1], s[2]) then 3
    else 0
  }

  function SpaceAtEnd(s: Text): (n: nat)
    ensures n <= |s|
  {
    var e := |s|;
    if e >= 1 && IsAsciiSpace(s[e - 1]) then 1
    else if e >= 2 && IsSpaceOfTwo(s[e - 2], s[e - 1]) then 2
    else if e >= 3 && IsSpaceOfThree(s[e - 3], s[e - 2], s[e - 1]) then 3
    else 0
  }

  function TrimLeft(s: Text): Text
    decreases |s|
  {
    if SpaceAtStart(s) == 0 then s else TrimLeft(s[SpaceAtStart(s)..])
  }

  function TrimRight(s: Text): Text
    decreases |s|
  {
    if SpaceAtEnd(s) == 0 then s else TrimRight(s[..|s| - SpaceAtEnd(s)])
  }

  lemma StartsWithoutSpace(s: Text, t: Text)
    requires t <= s && SpaceAtStart(s) == 0
    ensures SpaceAtStart(t) == 0
  {
  }

  function TrimSpace(s: Text): Text { TrimRight(TrimLeft(s)) }

  lemma {:induction false} TrimLeftIsSuffix(s: Text) returns (n: nat)
    ensures n <= |s| && TrimLeft(s) == s[n..] && SpaceAtStart(TrimLeft(s)) == 0
    ensures SpaceAtStart(s) == 0 ==> n == 0
    decreases |s|
  {
    n := SpaceAtStart(s);
    if n > 0 {
      var m := TrimLeftIsSuffix(s[n..]);
      assert s[n..][m..] == s[n + m..];
      n := n + m;
    }
  }

  lemma {:induction false} TrimRightIsPrefix(s: Text)
    ensures TrimRight(s) <= s && SpaceAtEnd(TrimRight(s)) == 0
    decreases |s|
  {
    if SpaceAtEnd(s) > 0 {
      TrimRightIsPrefix(s[..|s| - SpaceAtEnd(s)]);
    }
  }

  lemma {:induction false} TrimLeftKeepsValid(s: Text)
    requires ValidUtf8(s)
    ensures ValidUtf8(TrimLeft(s))
    decreases |s|
  {
    if SpaceAtStart(s) > 0 {
      assert CharLength(s) == SpaceAtStart(s);
      TrimLeftKeepsValid(s[SpaceAtStart(s)..]);
    }
  }

  lemma {:induction false} TrimRightKeepsValid(s: Text)
    requires ValidUtf8(s)
    ensures ValidUtf8(TrimRight(s))
    decreases |s|
  {
    if SpaceAtEnd(s) > 0 {
      ValidUpTo(s, |s| - SpaceAtEnd(s));
      TrimRightKeepsValid(s[..|s| - SpaceAtEnd(s)]);
    }
  }

  /** Trimming leaves a stretch of the text with no white space at either end. */
  lemma TrimmedIsBare(s: Text, t: Text) returns (from: nat)
    requires t == TrimSpace(s)
    ensures from + |t| <= |s| && t == s[from..from + |t|] && IsBare(t)
    ensures SpaceAtStart(s) == 0 ==> from == 0
  {
    var left := TrimLeft(s);
    from := TrimLeftIsSuffix(s);
    TrimRightIsPrefix(left);
    StartsWithoutSpace(left, t);
  }

  lemma TrimmedIsValid(s: Text, t: Text)
    requires t == TrimSpace(s) && ValidUtf8(s)
    ensures ValidUtf8(t)
  {
    TrimLeftKeepsValid(s);
    TrimRightKeepsValid(TrimLeft(s));
  }

  predicate IsBare(t: Text) { SpaceAtStart(t) == 0 && SpaceAtEnd(t) == 0 }

  // ---------------------------------------------------------------- the cut

  predicate EndsSentence(b: byte) { b == 0x2E || b == 0x21 || b == 0x3F || b == 0x0A }

  predicate IsBlank(b: byte) { b == 0x20 }

  /** The last place of such a byte, or -1. */
  function LastIndex(p: byte -> bool, s: Text): (at: int)
    ensures -1 <= at < |s|
    ensures at >= 0 ==> p(s[at])
    ensures forall k :: at < k < |s| ==> !p(s[k])
  {
    if |s| == 0 then -1 else if p(s[|s| - 1]) then |s| - 1 else LastIndex(p, s[..|s| - 1])
  }

  /** `to` is where valid text ends when bytes are dropped from the end of `text[..from]`
      until what is left is valid. */
  ghost predicate WalkedBack(text: Text, from: nat, to: nat) {
    && to <= from <= |text| && ValidUtf8(text[..to])
    && forall k :: to < k <= from ==> !ValidUtf8(text[..k])
  }

  /** The loop that drops bytes until the rest is valid. */
  method WalkBack(text: Text, from: nat) returns (cut: Text)
    requires from <= |text|
    ensures cut <= text && WalkedBack(text, from, |cut|)
  {
    cut := text[..from];
    while |cut| > 0 && !ValidUtf8(cut)
      invariant |cut| <= from && cut == text[..|cut|]
      invariant forall k :: |cut| < k <= from ==> !ValidUtf8(text[..k])
    {
      cut := cut[..|cut| - 1];
    }
  }

  /** Where the text is cut: after the last sentence end, if that is in the second half of the
      limit, else before the last blank, else at the limit; in the last two cases walked back
      to valid text. */
  ghost predicate IsCutAt(text: Text, limit: nat, to: nat)
    requires limit < |text|
  {
    var sentence, blank := LastIndex(EndsSentence, text[..limit]), LastIndex(IsBlank, text[..limit]);
    if sentence > limit / 2 then to == sentence + 1
    else WalkedBack(text, if blank > 0 then blank else limit, to)
  }

  method TruncateAtSentence(text: Text, limit: nat) returns (r: Text, ghost part: Text)
    ensures |text| <= limit ==> r == text
    ensures |text| > limit ==> part <= text && IsCutAt(text, limit, |part|) && r == TrimSpace(part)
  {
    if |text| <= limit {
      return text, [];
    }
    var cut := text[..limit];
    var at := LastIndex(EndsSentence, cut);
    if at > limit / 2 {
      cut := cut[..at + 1];
    } else {
      at := LastIndex(IsBlank, cut);
      cut := WalkBack(text, if at > 0 then at else limit);
    }
    assert cut <= text;
    r, part := TrimSpace(cut), cut;
  }

  // ---------------------------------------------------------------- what the cut is good for

  /** The cut is at a character boundary, and walking back drops at most three bytes. */
  lemma CutIsValid(text: Text, limit: nat, to: nat)
    requires ValidUtf8(text) && limit < |text| && IsCutAt(text, limit, to)
    ensures to <= limit && ValidUtf8(text[..to])
    ensures LastIndex(EndsSentence, text[..limit]) <= limit / 2 ==>
              var blank := LastIndex(IsBlank, text[..limit]);
              if blank > 0 then to == blank else to + 3 >= limit
  {
    var cut := text[..limit];
    var sentence, blank := LastIndex(EndsSentence, cut), LastIndex(IsBlank, cut);
    if sentence > limit / 2 {
      assert cut[sentence] == text[sentence];
      ValidThrough(text, sentence);
    } else if blank > 0 {
      assert cut[blank] == text[blank];
      ValidUpTo(text, blank);
    } else {
      var k := BoundaryNear(text, limit);
    }
  }

  /** Truncated valid text is valid, fits the limit, has no white space at either end, and is
      what stands in the text after its leading white space. */
  lemma TruncatedIsGood(text: Text, limit: nat, part: Text, r: Text) returns (from: nat)
    requires ValidUtf8(text) && limit < |text| && part <= text && IsCutAt(text, limit, |part|) && r == TrimSpace(part)
    ensures ValidUtf8(r) && IsBare(r)
    ensures from + |r| <= |part| <= limit && r == text[from..from + |r|]
    ensures SpaceAtStart(text) == 0 ==> from == 0
  {
    CutIsValid(text, limit, |part|);
    assert part == text[..|part|];
    TrimmedIsValid(part, r);
    from := TrimmedIsBare(part, r);
    if SpaceAtStart(text) == 0 {
      StartsWithoutSpace(text, part);
    }
  }

  lemma SpaceAtFront(text: Text, r: Text)
    requires r <= text && |r| > 0 && ValidUtf8(r) && SpaceAtStart(text) > 0
    ensures SpaceAtStart(r) > 0
  {
  }

  /** A result that is not empty is a prefix of the text exactly when the text does not start
      with white space, which the caller trims off first. */
  lemma PrefixExactlyWhen(text: Text, limit: nat, part: Text, r: Text)
    requires ValidUtf8(text) && limit < |text| && part <= text && IsCutAt(text, limit, |part|) && r == TrimSpace(part)
    requires |r| > 0
    ensures r <= text <==> SpaceAtStart(text) == 0
  {
    var from := TruncatedIsGood(text, limit, part, r);
    if r <= text && SpaceAtStart(text) > 0 {
      SpaceAtFront(text, r);
      assert false;
    }
  }

  lemma {:induction false} SomethingIsLeft(s: Text)
    requires |s| > 0 && SpaceAtStart(s) == 0
    ensures |TrimRight(s)| > 0
    decreases |s|
  {
    var n := SpaceAtEnd(s);
    if n > 0 {
      StartsWithoutSpace(s, s[..|s| - n]);
      SomethingIsLeft(s[..|s| - n]);
    }
  }

  /** Text that does not start with white space is never cut to nothing, whatever the limit
      from four bytes on. */
  lemma TruncatedIsNotEmpty(text: Text, limit: nat, part: Text, r: Text)
    requires ValidUtf8(text) && 4 <= limit < |text| && part <= text && IsCutAt(text, limit, |part|) && r == TrimSpace(part)
    requires SpaceAtStart(text) == 0
    ensures |r| > 0
  {
    CutIsValid(text, limit, |part|);
    StartsWithoutSpace(text, part);
    SomethingIsLeft(part);
  }
}
