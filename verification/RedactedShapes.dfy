/** What is masked of a text, described on its bytes rather than computed, and what replacing a value comes to. */
module RedactedShapes {
  import opened Wrappers
  import opened Bytes
  import opened TokenShapes
  import opened TokenScan
  import opened Secrets

  // Text all of ASCII, as its bytes.
  predicate IsAscii(s: string) { forall i :: 0 <= i < |s| ==> s[i] as int < 128 }

  function Ascii(s: string): (t: Text)
    requires IsAscii(s)
    ensures |t| == |s| && forall i :: 0 <= i < |s| ==> t[i] as int == s[i] as int
  {
    if s == "" then [] else Ascii(s[..|s|-1]) + [s[|s|-1] as int as Byte]
  }

  // The byte is one of the characters.
  predicate OneOf(b: Byte, chars: string) { b as int as char in chars }

  predicate Between(b: Byte, low: char, high: char) { low as int <= b as int <= high as int }

  predicate Base64Byte(b: Byte) { Between(b, 'A', 'Z') || Between(b, 'a', 'z') || Between(b, '0', '9') || OneOf(b, "-_") }

  predicate CredentialByte(b: Byte) { Base64Byte(b) || OneOf(b, ".~+/=") }

  predicate SpaceByte(b: Byte) { b == 32 || b == 9 || b == 10 || b == 12 || b == 13 }

  predicate UserByte(b: Byte) { !OneOf(b, ":@/") && !SpaceByte(b) }

  predicate PasswordByte(b: Byte) { !OneOf(b, "@/") && !SpaceByte(b) }

  /** The words and lengths the scan and the registry know. */
  lemma Words()
    ensures MASK == Ascii("[REDACTED]") && REDACTED == Ascii("REDACTED")
    ensures BEARER == Ascii("Bearer ") && JWT_HEAD == Ascii("eyJ") && SCHEME_END == Ascii("://")
    ensures MIN_SECRET_LEN == 8
  {
  }

  lemma Classes(b: Byte)
    ensures IsBase64Url(b) <==> Base64Byte(b)
    ensures Base64Url.Accepts(b) <==> Base64Byte(b)
    ensures Credential.Accepts(b) <==> CredentialByte(b)
    ensures User.Accepts(b) <==> UserByte(b)
    ensures Password.Accepts(b) <==> PasswordByte(b)
  {
  }

  // ---- The three shapes ------------------------------------------------------------------------

  predicate Starts(t: Text, word: Text) { word <= t }

  // `Bearer `, then as much of a credential as follows.
  predicate BearerShape(t: Text, start: nat, end: nat) {
    && Starts(t, Ascii("Bearer ")) && start == 7 && 7 < end <= |t|
    && (forall i :: 7 <= i < end ==> CredentialByte(t[i]))
    && (end < |t| ==> !CredentialByte(t[end]))
  }

  // Three parts of base64url text with dots between, the first from `eyJ` on and ten long, the last as long as it goes.
  predicate JwtParts(t: Text, a: nat, b: nat, end: nat) {
    && Starts(t, Ascii("eyJ")) && 10 <= a && a + 1 < b && b + 1 < end <= |t|
    && t[a] as int == '.' as int && t[b] as int == '.' as int
    && (forall i :: 0 <= i < end && i != a && i != b ==> Base64Byte(t[i]))
    && (end < |t| ==> !Base64Byte(t[end]))
  }

  ghost predicate JwtShape(t: Text, start: nat, end: nat) {
    start == 0 && exists a: nat, b: nat :: JwtParts(t, a, b, end)
  }

  // `://`, a user name, a colon, a password and an at sign.
  predicate UrlShape(t: Text, start: nat, end: nat) {
    && Starts(t, Ascii("://")) && 4 <= start < end < |t|
    && (forall i :: 3 <= i < start - 1 ==> UserByte(t[i])) && t[start-1] as int == ':' as int
    && (forall i :: start <= i < end ==> PasswordByte(t[i])) && t[end] as int == '@' as int
  }

  // A credential to be masked lies at `start` to `end`; `prev` tells whether a base64url byte comes before the text.
  ghost predicate Shape(prev: bool, t: Text, start: nat, end: nat) {
    BearerShape(t, start, end) || (!prev && JwtShape(t, start, end)) || UrlShape(t, start, end)
  }

  lemma AllClasses()
    ensures forall b :: IsBase64Url(b) <==> Base64Byte(b)
    ensures forall b :: Base64Url.Accepts(b) <==> Base64Byte(b)
    ensures forall b :: Credential.Accepts(b) <==> CredentialByte(b)
    ensures forall b :: User.Accepts(b) <==> UserByte(b)
    ensures forall b :: Password.Accepts(b) <==> PasswordByte(b)
  {
    forall b: Byte
      ensures IsBase64Url(b) <==> Base64Byte(b)
      ensures Base64Url.Accepts(b) <==> Base64Byte(b)
      ensures Credential.Accepts(b) <==> CredentialByte(b)
      ensures User.Accepts(b) <==> UserByte(b)
      ensures Password.Accepts(b) <==> PasswordByte(b)
    {
      Classes(b);
    }
  }

  lemma BearerHit(t: Text, start: nat, end: nat)
    ensures BearerShape(t, start, end) <==>
              BEARER <= t && start == 7 && end == 7 + Span(t[7..], Credential) && end > 7
  {
    hide CredentialByte, Class.Accepts;
    Words();
    AllClasses();
    if BEARER <= t {
      assert forall i :: 7 <= i < |t| ==> t[7..][i-7] == t[i];
      if BearerShape(t, start, end) {
        SpanIs(t[7..], Credential, end - 7);
      }
    }
  }

  lemma UrlHit(t: Text, start: nat, end: nat)
    ensures UrlShape(t, start, end) <==>
              SCHEME_END <= t && start >= 3 && end >= 3 && UserinfoPassword(t[3..]) == Some((start - 3, end - 3))
  {
    SchemeWord();
    if UrlShape(t, start, end) {
      UrlIsHit(t, start, end);
    }
    if SCHEME_END <= t && start >= 3 && end >= 3 && UserinfoPassword(t[3..]) == Some((start - 3, end - 3)) {
      HitIsUrl(t, start, end);
    }
  }

  lemma SchemeWord()
    ensures SCHEME_END == Ascii("://")
  {
    Words();
  }

  lemma UrlIsHit(t: Text, start: nat, end: nat)
    requires UrlShape(t, start, end)
    ensures UserinfoPassword(t[3..]) == Some((start - 3, end - 3))
  {
    hide UserByte, PasswordByte, Class.Accepts, Ascii, Span;
    AllClasses();
    Separators();
    var u := t[3..];
    assert forall i :: 3 <= i < |t| ==> u[i-3] == t[i];
    SpanIs(u, User, start - 4);
    assert u[start-3..] == t[start..];
    assert forall i :: start <= i < |t| ==> t[start..][i-start] == t[i];
    SpanIs(t[start..], Password, end - start);
  }

  lemma HitIsUrl(t: Text, start: nat, end: nat)
    requires SCHEME_END <= t && start >= 3 && end >= 3 && UserinfoPassword(t[3..]) == Some((start - 3, end - 3))
    ensures UrlShape(t, start, end)
  {
    SchemeWord();
    hide UserByte, PasswordByte, Class.Accepts, Ascii, Span;
    AllClasses();
    Separators();
    var u := t[3..];
    assert forall i :: 3 <= i < |t| ==> u[i-3] == t[i];
    var user := Span(u, User);
    assert u[user+1..] == t[start..];
    assert forall i :: start <= i < |t| ==> t[start..][i-start] == t[i];
  }

  // What ends a user name or a password is in neither.
  lemma Separators()
    ensures !User.Accepts(58) && !Password.Accepts(64) && COLON == 58 && AT_SIGN == 64 && DOT == 46 && !IsBase64Url(46)
  {
  }

  lemma JwtHit(t: Text, start: nat, end: nat)
    ensures JwtShape(t, start, end) <==> start == 0 && JWT_HEAD <= t && JwtLen(t) == Some(end)
  {
    hide Base64Byte, Class.Accepts, IsBase64Url;
    Words();
    AllClasses();
    Separators();
    if a: nat, b: nat :| JwtParts(t, a, b, end) {
      JwtIsHit(t, a, b, end);
    }
    if JWT_HEAD <= t && JwtLen(t) == Some(end) {
      HitIsJwt(t, end);
    }
  }

  lemma JwtIsHit(t: Text, a: nat, b: nat, end: nat)
    requires JwtParts(t, a, b, end)
    ensures JwtLen(t) == Some(end)
  {
    hide Base64Byte, Class.Accepts, IsBase64Url;
    AllClasses();
    Separators();
    assert forall i :: a < i < |t| ==> t[a+1..][i-a-1] == t[i];
    assert forall i :: b < i < |t| ==> t[b+1..][i-b-1] == t[i];
    SpanIs(t, Base64Url, a);
    SpanIs(t[a+1..], Base64Url, b - a - 1);
    SpanIs(t[b+1..], Base64Url, end - b - 1);
  }

  lemma HitIsJwt(t: Text, end: nat)
    requires JWT_HEAD <= t && JwtLen(t) == Some(end)
    ensures JwtShape(t, 0, end)
  {
    hide Base64Byte, Class.Accepts, IsBase64Url;
    Words();
    AllClasses();
    Separators();
    var a := Span(t, Base64Url);
    var b := a + 1 + Span(t[a+1..], Base64Url);
    assert forall i :: a < i < |t| ==> t[a+1..][i-a-1] == t[i];
    assert forall i :: b < i < |t| ==> t[b+1..][i-b-1] == t[i];
    assert JwtParts(t, a, b, end);
  }

  /** The scan masks at a place exactly what has one of the three shapes there. */
  lemma HitIsShape(prev: bool, t: Text, start: nat, end: nat)
    ensures Hit(prev, t) == Some((start, end)) <==> Shape(prev, t, start, end)
  {
    BearerHit(t, start, end);
    UrlHit(t, start, end);
    JwtHit(t, start, end);
    HeadsDiffer(t);
    hide BearerShape, JwtShape, UrlShape, UserinfoPassword, JwtLen, Span;
  }

  lemma HeadsDiffer(t: Text)
    ensures BEARER <= t ==> !(JWT_HEAD <= t) && !(SCHEME_END <= t)
    ensures JWT_HEAD <= t ==> !(SCHEME_END <= t)
  {
    assert BEARER[0] == 66 && JWT_HEAD[0] == 101 && SCHEME_END[0] == 58;
  }

  /**
   * A masked text, from its start on: with no shape there the first byte stays; with one, what comes before the credential
   * stays, the mask takes the credential's place, and the text goes on behind it.
   */
  lemma MaskedByShape(prev: bool, t: Text)
    ensures t == [] ==> Masked(prev, t) == []
    ensures forall start: nat, end: nat :: Shape(prev, t, start, end) ==>
              start <= end && 0 < end <= |t|
              && Masked(prev, t) == t[..start] + Ascii("[REDACTED]") + Masked(Base64Byte(t[end-1]), t[end..])
    ensures t != [] && (forall start: nat, end: nat :: !Shape(prev, t, start, end)) ==>
              Masked(prev, t) == [t[0]] + Masked(Base64Byte(t[0]), t[1..])
  {
    Words();
    AllClasses();
    hide Shape, Hit, IsBase64Url, Base64Byte;
    forall start: nat, end: nat
      ensures Hit(prev, t) == Some((start, end)) <==> Shape(prev, t, start, end)
    {
      HitIsShape(prev, t, start, end);
    }
    if Hit(prev, t).Some? {
      assert Shape(prev, t, Hit(prev, t).value.0, Hit(prev, t).value.1);
    }
  }

  /** Masking starts with no byte before, and goes on from there. */
  lemma MaskingStarts(t: Text)
    ensures MaskTokenShapes(t) == Masked(false, t)
  {
  }

  /** Replacing goes by the first place of a value: the text before it stays, the mask takes it, and the rest follows. */
  lemma ReplacedByPlace(t: Text, w: Text, i: nat)
    requires w != [] && At(t, w, i) && forall k :: 0 <= k < i ==> !At(t, w, k)
    ensures Replace(t, w) == t[..i] + Ascii("[REDACTED]") + Replace(t[i+|w|..], w)
  {
    hide Replace, Find, At, Ascii;
    FindIsFirst(t, w);
    MaskWord();
    ReplaceParts(t, w);
  }

  /** With no place of it, the text stays. */
  lemma NotReplaced(t: Text, w: Text)
    requires w != [] && forall k :: !At(t, w, k)
    ensures Replace(t, w) == t
  {
    hide Replace, Find, At;
    FindIsFirst(t, w);
    ReplaceParts(t, w);
  }

  lemma MaskWord()
    ensures MASK == Ascii("[REDACTED]")
  {
    Words();
  }

  /** Redaction takes the registered values in their order, and then the shapes. */
  lemma RedactedInOrder(secrets: seq<Text>, t: Text)
    requires NonEmpty(secrets)
    ensures Redact([], t) == Masked(false, t)
    ensures forall i :: 0 <= i < |secrets| ==>
              NonEmpty(secrets[..i]) && ReplaceAll(t, secrets[..i+1]) == Replace(ReplaceAll(t, secrets[..i]), secrets[i])
    ensures Redact(secrets, t) == Masked(false, ReplaceAll(t, secrets))
  {
    forall i | 0 <= i < |secrets|
      ensures ReplaceAll(t, secrets[..i+1]) == Replace(ReplaceAll(t, secrets[..i]), secrets[i])
    {
      assert secrets[..i+1][..i] == secrets[..i];
    }
  }

  /** A text with no registered value and no shape in it is left as it is. */
  lemma PlainTextStays(secrets: seq<Text>, t: Text)
    requires NonEmpty(secrets) && (forall s :: s in secrets ==> !Contains(t, s))
    requires forall i, start: nat, end: nat :: 0 <= i <= |t| ==> !Shape(false, t[i..], start, end)
    ensures Redact(secrets, t) == t
  {
    NothingToReplace(t, secrets);
    NoShapeStays(false, t);
  }

  lemma {:induction false} NoShapeStays(prev: bool, t: Text)
    requires forall i, start: nat, end: nat :: 0 <= i <= |t| ==> !Shape(false, t[i..], start, end)
    ensures Masked(prev, t) == t
    decreases |t|
  {
    hide Masked, BearerShape, JwtShape, UrlShape;
    MaskedByShape(prev, t);
    if t != [] {
      assert t[0..] == t;
      forall start: nat, end: nat
        ensures !Shape(prev, t, start, end)
      {
        assert !Shape(false, t[0..], start, end);
      }
      forall i, start: nat, end: nat | 0 <= i <= |t| - 1
        ensures !Shape(false, t[1..][i..], start, end)
      {
        assert t[1..][i..] == t[i+1..];
        assert !Shape(false, t[i+1..], start, end);
      }
      NoShapeStays(Base64Byte(t[0]), t[1..]);
    }
  }
}
