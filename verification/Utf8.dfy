/** What text in UTF-8 is made of: its characters, and where they meet. */
module Utf8 {
  import opened Bytes

  predicate IsContinuation(b: Byte) { 0x80 <= b <= 0xBF }

  // The length of the character a byte starts, none if it starts none.
  function CharLen(b: Byte): (n: nat)
    ensures n <= 4
  {
    if b < 0x80 then 1 else if 0xC0 <= b <= 0xDF then 2 else if 0xE0 <= b <= 0xEF then 3 else if 0xF0 <= b <= 0xF7 then 4 else 0
  }

  // The text starts with a whole character.
  predicate StartsWhole(t: Text) {
    t != [] && 0 < CharLen(t[0]) <= |t| && forall i :: 1 <= i < CharLen(t[0]) ==> IsContinuation(t[i])
  }

  // Every character is whole.
  predicate WellFormed(t: Text) {
    t == [] || (StartsWhole(t) && WellFormed(t[CharLen(t[0])..]))
  }

  // Of the whole characters UTF-8 allows the shortest only, no surrogate and none past U+10FFFF.
  predicate IsAllowed(t: Text)
    requires StartsWhole(t)
  {
    match CharLen(t[0])
    case 2 => t[0] >= 0xC2
    case 3 => (t[0] == 0xE0 ==> t[1] >= 0xA0) && (t[0] == 0xED ==> t[1] <= 0x9F)
    case 4 => t[0] <= 0xF4 && (t[0] == 0xF0 ==> t[1] >= 0x90) && (t[0] == 0xF4 ==> t[1] <= 0x8F)
    case _ => true
  }

  predicate ValidUtf8(t: Text) {
    t == [] || (StartsWhole(t) && IsAllowed(t) && ValidUtf8(t[CharLen(t[0])..]))
  }

  lemma {:induction false} ValidIsWellFormed(t: Text)
    requires ValidUtf8(t)
    ensures WellFormed(t)
  {
    if t != [] {
      ValidIsWellFormed(t[CharLen(t[0])..]);
    }
  }

  predicate IsBoundary(t: Text, i: nat) {
    i == |t| || (i < |t| && !IsContinuation(t[i]))
  }

  // ---- Trimming --------------------------------------------------------------------------------

  // The three bytes of U+1680, U+2000 to U+200A, U+2028, U+2029, U+202F, U+205F or U+3000.
  predicate IsWideSpace(a: Byte, b: Byte, c: Byte) {
    || (a == 0xE1 && b == 0x9A && c == 0x80)
    || (a == 0xE2 && b == 0x80 && (0x80 <= c <= 0x8A || c == 0xA8 || c == 0xA9 || c == 0xAF))
    || (a == 0xE2 && b == 0x81 && c == 0x9F)
    || (a == 0xE3 && b == 0x80 && c == 0x80)
  }

  // A character of white space.
  predicate IsSpaceChar(t: Text): (b: bool)
    ensures b ==> 0 < |t| <= 3
  {
    || (|t| == 1 && (9 <= t[0] <= 13 || t[0] == 32))
    || (|t| == 2 && t[0] == 0xC2 && (t[1] == 0x85 || t[1] == 0xA0))
    || (|t| == 3 && IsWideSpace(t[0], t[1], t[2]))
  }

  // The bytes of a character below U+10000.
  function Encoded(cp: nat): Text
    requires cp < 0x1_0000
  {
    if cp < 0x80 then [cp as Byte]
    else if cp < 0x800 then [(0xC0 + cp / 64) as Byte, (0x80 + cp % 64) as Byte]
    else [(0xE0 + cp / 4096) as Byte, (0x80 + cp / 64 % 64) as Byte, (0x80 + cp % 64) as Byte]
  }

  /** The characters of white space, by their numbers. */
  lemma WhiteSpace(cp: nat)
    requires cp < 0x1_0000
    ensures IsSpaceChar(Encoded(cp)) <==>
              || 9 <= cp <= 13 || cp == 32 || cp == 0x85 || cp == 0xA0 || cp == 0x1680 || 0x2000 <= cp <= 0x200A
              || cp == 0x2028 || cp == 0x2029 || cp == 0x202F || cp == 0x205F || cp == 0x3000
  {
  }

  // The length of the white space character a text starts with, none if it starts with none.
  function SpaceLen(t: Text): (n: nat)
    ensures n <= |t| && (n > 0 ==> IsSpaceChar(t[..n]))
  {
    if |t| >= 1 && IsSpaceChar(t[..1]) then 1
    else if |t| >= 2 && IsSpaceChar(t[..2]) then 2
    else if |t| >= 3 && IsSpaceChar(t[..3]) then 3
    else 0
  }

  // The length of the one it ends with.
  function LastSpaceLen(t: Text): (n: nat)
    ensures n <= |t| && (n > 0 ==> IsSpaceChar(t[|t|-n..]))
  {
    if |t| >= 1 && IsSpaceChar(t[|t|-1..]) then 1
    else if |t| >= 2 && IsSpaceChar(t[|t|-2..]) then 2
    else if |t| >= 3 && IsSpaceChar(t[|t|-3..]) then 3
    else 0
  }

  lemma NoSpaceAtEnds(t: Text)
    ensures SpaceLen(t) == 0 <==> forall k :: 0 <= k <= |t| ==> !IsSpaceChar(t[..k])
    ensures LastSpaceLen(t) == 0 <==> forall k :: 0 <= k <= |t| ==> !IsSpaceChar(t[k..])
  {
    hide IsSpaceChar;
  }

  function TrimStart(t: Text): Text {
    if SpaceLen(t) > 0 then TrimStart(t[SpaceLen(t)..]) else t
  }

  function TrimEnd(t: Text): Text {
    if LastSpaceLen(t) > 0 then TrimEnd(t[..|t|-LastSpaceLen(t)]) else t
  }

  function Trim(t: Text): Text { TrimEnd(TrimStart(t)) }

  // White space and nothing else.
  ghost predicate IsBlank(t: Text) {
    t == [] || exists k :: 0 < k <= |t| && IsSpaceChar(t[..k]) && IsBlank(t[k..])
  }

  lemma {:induction false} BlankMore(a: Text, b: Text)
    requires IsBlank(a) && IsSpaceChar(b)
    ensures IsBlank(a + b)
    decreases |a|
  {
    hide IsSpaceChar;
    if a == [] {
      assert (a + b)[..|b|] == b && (a + b)[|b|..] == [];
    } else {
      var k :| 0 < k <= |a| && IsSpaceChar(a[..k]) && IsBlank(a[k..]);
      BlankMore(a[k..], b);
      assert (a + b)[..k] == a[..k] && (a + b)[k..] == a[k..] + b;
    }
  }

  lemma {:induction false} TrimStartParts(t: Text) returns (blank: Text)
    ensures t == blank + TrimStart(t) && IsBlank(blank) && SpaceLen(TrimStart(t)) == 0
  {
    hide IsSpaceChar, SpaceLen;
    var n := SpaceLen(t);
    if n > 0 {
      var rest := TrimStartParts(t[n..]);
      blank := t[..n] + rest;
      assert blank[..n] == t[..n] && blank[n..] == rest;
    } else {
      blank := [];
    }
  }

  lemma {:induction false} TrimEndParts(t: Text) returns (blank: Text)
    ensures t == TrimEnd(t) + blank && IsBlank(blank) && LastSpaceLen(TrimEnd(t)) == 0
  {
    hide IsSpaceChar, LastSpaceLen;
    var n := LastSpaceLen(t);
    if n > 0 {
      var rest := TrimEndParts(t[..|t|-n]);
      blank := rest + t[|t|-n..];
      BlankMore(rest, t[|t|-n..]);
    } else {
      blank := [];
    }
  }

  lemma NoSpaceFirst(t: Text, r: Text)
    requires SpaceLen(t + r) == 0
    ensures SpaceLen(t) == 0
  {
    hide IsSpaceChar, SpaceLen;
    NoSpaceAtEnds(t + r);
    assert (t + r)[..SpaceLen(t)] == t[..SpaceLen(t)];
  }

  ghost predicate TrimsTo(t: Text, a: Text, core: Text, b: Text) {
    && t == a + core + b && IsBlank(a) && IsBlank(b)
    && forall k :: 0 <= k <= |core| ==> !IsSpaceChar(core[..k]) && !IsSpaceChar(core[k..])
  }

  /** Trimming takes the white space off both ends and nothing else. */
  lemma TrimTakesBlanks(t: Text)
    ensures exists a, b :: TrimsTo(t, a, Trim(t), b)
  {
    hide IsSpaceChar, SpaceLen, LastSpaceLen, IsBlank;
    var a := TrimStartParts(t);
    var b := TrimEndParts(TrimStart(t));
    var core := Trim(t);
    NoSpaceFirst(core, b);
    NoSpaceAtEnds(core);
    assert TrimsTo(t, a, core, b);
  }
}
