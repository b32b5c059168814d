/** The scan that masks credential shapes, over UTF-8, and what it leaves in the text. */
module TokenScan {
  import opened Wrappers
  import opened Bytes
  import opened Utf8
  import opened TokenShapes

  // ---- What is left ----------------------------------------------------------------------------

  // A place in such a text: in what comes before the mask, in the mask, or in the rest.
  lemma Places(a: Text, r: Text, q: nat)
    requires q <= |a + MASK + r|
    ensures q < |a| ==> (a + MASK + r)[q..] == a[q..] + MASK + r
    ensures |a| <= q < |a| + 10 ==> (a + MASK + r)[q] == MASK[q - |a|]
    ensures |a| + 10 <= q ==> (a + MASK + r)[q..] == r[q - |a| - 10..]
  {
  }

  lemma MaskIsPassive(i: nat)
    requires i < 10
    ensures MASK[i] != 66 && MASK[i] != 101 && MASK[i] != COLON
  {
    assert MASK[..5] == [91, 82, 69, 68, 65] && MASK[5..] == [67, 84, 69, 68, 93];
    assert i < 5 ==> MASK[i] == MASK[..5][i];
    assert i >= 5 ==> MASK[i] == MASK[5..][i - 5];
  }

  // A word with no bracket does not reach into the mask.
  lemma GapPrefix(a: Text, r: Text, w: Text)
    requires NoBracket(w) && w <= a + MASK + r
    ensures w <= a
  {
    var o := a + MASK + r;
    assert forall i :: 0 <= i < |w| ==> w[i] == o[i];
    assert o[|a|] == 91;
    assert |w| <= |a|;
    assert forall i :: 0 <= i < |w| ==> w[i] == a[i];
  }

  lemma HeadsHaveNoBracket()
    ensures NoBracket(BEARER) && NoBracket(JWT_HEAD) && NoBracket(SCHEME_END)
    ensures BEARER[0] == 66 && JWT_HEAD[0] == 101 && SCHEME_END[0] == COLON
  {
    BearerHasNoBracket();
  }

  // ---- Bearer ----

  lemma {:induction false} BearerResidue(prev: bool, t: Text, q: nat)
    requires q <= |Masked(prev, t)| && BEARER <= Masked(prev, t)[q..]
    ensures Span(Masked(prev, t)[q..][7..], Credential) == 0
    decreases |t|
  {
    var o := Masked(prev, t);
    HeadsHaveNoBracket();
    hide Span, Masked, Hit, NoBracket, JwtLen, UserinfoPassword, IsBase64Url, IsSpace;
    assert o[q] == o[q..][0] == 66;
    if t == [] {
      assert o == [] by { MaskedNothing(prev); }
    } else if Hit(prev, t).None? {
      MaskedNone(prev, t);
      if q == 0 {
        assert o[0..] == o;
        NoneStays(prev, t);
        NoneMeansNoBearer(prev, o);
      } else {
        assert Masked(IsBase64Url(t[0]), t[1..])[q-1..] == o[q..];
        BearerResidue(IsBase64Url(t[0]), t[1..], q - 1);
      }
    } else {
      var (start, end) := Hit(prev, t).value;
      var r := Masked(IsBase64Url(t[end-1]), t[end..]);
      MaskedHit(prev, t);
      Places(t[..start], r, q);
      if q >= start + 10 {
        BearerResidue(IsBase64Url(t[end-1]), t[end..], q - start - 10);
      } else if q >= start {
        MaskIsPassive(q - start);
      } else {
        HitFacts(prev, t);
        BearerBeforeMask(t, start, end, q, r);
      }
    }
  }

  lemma MaskedNothing(prev: bool)
    ensures Masked(prev, []) == []
  {
  }

  lemma NoneMeansNoBearer(prev: bool, t: Text)
    requires Hit(prev, t).None? && BEARER <= t
    ensures Span(t[7..], Credential) == 0
  {
  }

  lemma BearerBeforeMask(t: Text, start: nat, end: nat, q: nat, r: Text)
    requires q < start <= end <= |t| && BEARER <= t[..start][q..] + MASK + r
    requires (BEARER <= t && start == 7) || (SCHEME_END <= t && start > 3 && UserinfoPassword(t[3..]) == Some((start - 3, end - 3)))
    ensures Span((t[..start][q..] + MASK + r)[7..], Credential) == 0
  {
    BearerHasNoBracket();
    var gap := t[..start][q..];
    GapPrefix(gap, r, BEARER);
    assert gap[6] == BEARER[6] == 32;
    assert gap[6] == t[q + 6];
    if |gap| == 7 {
      assert (gap + MASK + r)[7..] == MASK + r;
      assert (MASK + r)[0] == 91;
    }
  }

  lemma NoSpaceInUserinfo(t: Text, start: nat, end: nat, i: nat)
    requires SCHEME_END <= t && 3 < start <= end <= |t| && UserinfoPassword(t[3..]) == Some((start - 3, end - 3)) && i < start
    ensures !IsSpace(t[i]) && (0 < i < start - 1 ==> t[i] != COLON)
  {
    if i < 3 {
      assert t[i] == SCHEME_END[i];
    } else {
      assert t[i] == t[3..][i-3];
    }
  }

  // ---- Passwords ----

  predicate PasswordIsMask(u: Text) {
    SCHEME_END <= u && UserinfoPassword(u[3..]).Some? ==>
      var (start, end) := UserinfoPassword(u[3..]).value; u[3..][start..end] == MASK
  }

  lemma {:induction false} PasswordResidue(prev: bool, t: Text, q: nat)
    requires q <= |Masked(prev, t)|
    ensures PasswordIsMask(Masked(prev, t)[q..])
    decreases |t|
  {
    var o := Masked(prev, t);
    hide Masked, Hit, UserinfoPassword;
    if t == [] || q == |o| {
      assert o == [] || q == |o| by { if t == [] { MaskedNothing(prev); } }
      assert o[q..] == [];
    } else if Hit(prev, t).None? {
      MaskedNone(prev, t);
      if q == 0 {
        assert o[0..] == o;
        NoneStays(prev, t);
        NoneMeansNoPassword(prev, o);
      } else {
        assert Masked(IsBase64Url(t[0]), t[1..])[q-1..] == o[q..];
        PasswordResidue(IsBase64Url(t[0]), t[1..], q - 1);
      }
    } else {
      var (start, end) := Hit(prev, t).value;
      var r := Masked(IsBase64Url(t[end-1]), t[end..]);
      MaskedHit(prev, t);
      Places(t[..start], r, q);
      if q >= start + 10 {
        PasswordResidue(IsBase64Url(t[end-1]), t[end..], q - start - 10);
      } else if q >= start {
        MaskIsPassive(q - start);
        assert o[q..][0] == o[q];
      } else {
        HitFacts(prev, t);
        if end < |t| {
          assert t[end..][0] == t[end];
          if t[end] == AT_SIGN { FirstAfter(IsBase64Url(t[end-1]), t[end..]); }
        }
        PasswordBeforeMask(t, start, end, q, r);
      }
    }
  }

  lemma NoneMeansNoPassword(prev: bool, t: Text)
    requires Hit(prev, t).None?
    ensures PasswordIsMask(t)
  {
    if SCHEME_END <= t {
      assert t[0] == SCHEME_END[0];
      assert BEARER[0] == 66 && JWT_HEAD[0] == 101;
    }
  }

  lemma PasswordBeforeMask(t: Text, start: nat, end: nat, q: nat, r: Text)
    requires q < start <= end <= |t|
    requires || (BEARER <= t && start == 7)
             || (SCHEME_END <= t && start > 3 && UserinfoPassword(t[3..]) == Some((start - 3, end - 3))
                 && r != [] && r[0] == AT_SIGN)
    ensures PasswordIsMask(t[..start][q..] + MASK + r)
  {
    var gap := t[..start][q..];
    var u := gap + MASK + r;
    hide UserinfoPassword, IsBase64Url, Span, IsSpace;
    if SCHEME_END <= u {
      GapPrefix(gap, r, SCHEME_END);
      assert gap[0] == SCHEME_END[0] == COLON && gap[0] == t[q];
      if BEARER <= t {
        assert t[q] == BEARER[q];
        NoColonInBearer(q);
      } else if q > 0 {
        NoSpaceInUserinfo(t, start, end, q);
      } else {
        assert gap == t[..start];
        PasswordOfGap(t, start, end, r);
      }
    }
  }

  lemma PasswordOfGap(t: Text, start: nat, end: nat, r: Text)
    requires 3 < start <= end <= |t| && SCHEME_END <= t && UserinfoPassword(t[3..]) == Some((start - 3, end - 3))
    requires r != [] && r[0] == AT_SIGN && SCHEME_END <= t[..start] + MASK + r
    ensures PasswordIsMask(t[..start] + MASK + r)
  {
    hide UserinfoPassword;
    var u := t[..start] + MASK + r;
    PasswordHead(t, start, end);
    UserinfoOf(t[..start], r);
    assert u[3..][start-3..start+7] == u[start..start+10] == MASK;
  }

  lemma NoColonInBearer(i: nat)
    requires i < 7
    ensures BEARER[i] != COLON
  {
    assert BEARER[..3] == [66, 101, 97] && BEARER[3..] == [114, 101, 114, 32];
    assert i < 3 ==> BEARER[i] == BEARER[..3][i];
    assert i >= 3 ==> BEARER[i] == BEARER[3..][i - 3];
  }

  // ---- JWTs ----

  // A place in the user name of a URL.
  ghost predicate InUserName(o: Text, q: nat) {
    exists p: nat :: p + 3 <= q < |o| && SCHEME_END <= o[p..] && q < p + 3 + Span(o[p..][3..], User)
  }

  lemma InUserNameLater(a: Text, o: Text, q: nat)
    requires InUserName(o, q)
    ensures InUserName(a + o, |a| + q)
  {
    hide Span;
    var p: nat :| p + 3 <= q < |o| && SCHEME_END <= o[p..] && q < p + 3 + Span(o[p..][3..], User);
    assert (a + o)[|a| + p..] == o[p..];
  }

  // A JWT that continues no word.
  ghost predicate JwtAt(prev: bool, o: Text, q: nat) {
    q <= |o| && JWT_HEAD <= o[q..] && JwtLen(o[q..]).Some? && !Before(prev, o, q)
  }

  lemma JwtFurther(prev: bool, prev': bool, a: Text, o: Text, q: nat)
    requires q > |a| > 0 && JwtAt(prev, a + o, q)
    ensures JwtAt(prev', o, q - |a|)
  {
    hide JwtLen;
    assert (a + o)[q..] == o[q-|a|..];
    assert (a + o)[q-1] == o[q-|a|-1];
  }

  lemma {:induction false} JwtResidue(prev: bool, t: Text, q: nat)
    requires JwtAt(prev, Masked(prev, t), q)
    ensures InUserName(Masked(prev, t), q)
    decreases |t|
  {
    hide Masked, Hit, InUserName, JwtAt, IsBase64Url;
    if t == [] {
      MaskedNothing(prev);
      NoJwtInNothing(prev, q);
    } else if Hit(prev, t).None? {
      var p := IsBase64Url(t[0]);
      var rest := Masked(p, t[1..]);
      MaskedNone(prev, t);
      if q == 0 {
        JwtNotFirst(prev, t);
      } else {
        JwtNext(prev, t[0], rest, q);
        JwtResidue(p, t[1..], q - 1);
        InUserNameLater([t[0]], rest, q - 1);
      }
    } else {
      var (start, end) := Hit(prev, t).value;
      var p := IsBase64Url(t[end-1]);
      var rest := Masked(p, t[end..]);
      MaskedHit(prev, t);
      if q > start + 10 {
        JwtFurther(prev, p, t[..start] + MASK, rest, q);
        JwtResidue(p, t[end..], q - start - 10);
        InUserNameLater(t[..start] + MASK, rest, q - start - 10);
      } else {
        JwtAtHit(prev, t, q);
      }
    }
  }

  lemma NoJwtInNothing(prev: bool, q: nat)
    ensures !JwtAt(prev, [], q)
  {
  }

  lemma JwtNotFirst(prev: bool, t: Text)
    requires t != [] && Hit(prev, t).None?
    ensures !JwtAt(prev, Masked(prev, t), 0)
  {
    NoneStays(prev, t);
    var o := Masked(prev, t);
    hide Masked, Hit;
    assert o[0..] == o;
    if JWT_HEAD <= o && !prev {
      NoneMeansNoJwt(prev, o);
    }
  }

  lemma JwtNext(prev: bool, b: Byte, o: Text, q: nat)
    requires q > 0 && JwtAt(prev, [b] + o, q)
    ensures JwtAt(IsBase64Url(b), o, q - 1)
  {
    hide JwtLen, IsBase64Url;
    assert ([b] + o)[q..] == o[q-1..];
    assert q > 1 ==> ([b] + o)[q-1] == o[q-2];
  }

  // No JWT starts in a mask or right behind one.
  lemma JwtAtHit(prev: bool, t: Text, q: nat)
    requires Hit(prev, t).Some? && q <= Hit(prev, t).value.0 + 10 && JwtAt(prev, Masked(prev, t), q)
    ensures InUserName(Masked(prev, t), q)
  {
    hide Masked, Hit, JwtLen, UserinfoPassword, InUserName;
    var (start, end) := Hit(prev, t).value;
    var rest := Masked(IsBase64Url(t[end-1]), t[end..]);
    MaskedHit(prev, t);
    Places(t[..start], rest, q);
    JwtNotBehind(prev, t);
    assert JWT_HEAD[0] == 101;
    assert Masked(prev, t)[q] == Masked(prev, t)[q..][0] == 101;
    assert rest[0..] == rest;
    if q == start + 10 {
    } else if q >= start {
      MaskIsPassive(q - start);
    } else {
      HitFacts(prev, t);
      JwtBeforeMask(t, start, end, q, rest);
    }
  }

  lemma JwtNotBehind(prev: bool, t: Text)
    requires Hit(prev, t).Some?
    ensures var end := Hit(prev, t).value.1;
            !(JWT_HEAD <= Masked(IsBase64Url(t[end-1]), t[end..]))
  {
    var end := Hit(prev, t).value.1;
    HitFacts(prev, t);
    HeadsHaveNoBracket();
    hide Masked, Hit, JwtLen, UserinfoPassword;
    assert end < |t| ==> t[end] == t[end..][0];
    if JWT_HEAD <= Masked(IsBase64Url(t[end-1]), t[end..]) {
      PrefixBack(IsBase64Url(t[end-1]), t[end..], JWT_HEAD);
    }
  }

  lemma NoneMeansNoJwt(prev: bool, t: Text)
    requires Hit(prev, t).None? && JWT_HEAD <= t && !prev
    ensures JwtLen(t).None?
  {
    assert t[0] == JWT_HEAD[0] && BEARER[0] == 66;
  }

  lemma JwtBeforeMask(t: Text, start: nat, end: nat, q: nat, r: Text)
    requires q < start <= end <= |t| && JWT_HEAD <= t[..start][q..] + MASK + r
    requires (BEARER <= t && start == 7) || (SCHEME_END <= t && start > 3 && UserinfoPassword(t[3..]) == Some((start - 3, end - 3)))
    ensures InUserName(t[..start] + MASK + r, q)
  {
    var gap := t[..start][q..];
    hide UserinfoPassword;
    HeadsHaveNoBracket();
    GapPrefix(gap, r, JWT_HEAD);
    assert gap[0] == JWT_HEAD[0] == 101 && gap[1] == JWT_HEAD[1] == 121;
    assert gap[0] == t[q] && gap[1] == t[q+1];
    if BEARER <= t {
      assert t[q] == BEARER[q] && t[q+1] == BEARER[q+1];
      NoJwtInBearer(q);
    } else {
      PasswordHead(t, start, end);
      JwtInUserName(t[..start], r, q);
    }
  }

  lemma NoJwtInBearer(i: nat)
    requires i < 6
    ensures BEARER[i] == 101 ==> BEARER[i+1] != 121
  {
    assert BEARER[..3] == [66, 101, 97] && BEARER[3..] == [114, 101, 114, 32];
    assert i < 2 ==> BEARER[i+1] == BEARER[..3][i+1];
    assert i >= 2 ==> BEARER[i+1] == BEARER[3..][i-2];
  }

  lemma JwtInUserName(head: Text, r: Text, q: nat)
    requires SCHEME_END <= head && |head| > 3 && Span(head[3..], User) == |head| - 4 && head[|head|-1] == COLON
    requires q < |head| && head[q] == 101
    ensures InUserName(head + MASK + r, q)
  {
    hide Span;
    var o := head + MASK + r;
    assert o[0..] == o && SCHEME_END <= o;
    UserOf(head, r);
    AfterScheme(head, q);
  }

  lemma UserOf(head: Text, r: Text)
    requires |head| > 3 && Span(head[3..], User) == |head| - 4 && head[|head|-1] == COLON
    ensures Span((head + MASK + r)[3..], User) == |head| - 4
  {
    hide Span;
    var user := head[3..];
    var authority := (head + MASK + r)[3..];
    assert authority == user + MASK + r;
    assert forall i :: 0 <= i < |user| ==> authority[i] == user[i];
    SpanIs(authority, User, |head| - 4);
  }

  lemma AfterScheme(head: Text, q: nat)
    requires SCHEME_END <= head && q < |head| && head[q] == 101
    ensures q >= 3
  {
    assert forall i :: 0 <= i < 3 ==> head[i] == SCHEME_END[i];
    assert SCHEME_END[0] == 58 && SCHEME_END[1] == 47 && SCHEME_END[2] == 47;
  }

  /**
   * What the scan leaves: after `Bearer ` comes no credential, the only password of a URL is the mask, and a JWT that
   * continues no word stands only in the user name of a URL.
   */
  lemma NoShapeIsLeft(t: Text, q: nat)
    requires q <= |MaskTokenShapes(t)|
    ensures var o := MaskTokenShapes(t);
            && (BEARER <= o[q..] ==> Span(o[q..][7..], Credential) == 0)
            && PasswordIsMask(o[q..])
            && (JwtAt(false, o, q) ==> InUserName(o, q))
  {
    hide Masked;
    if BEARER <= MaskTokenShapes(t)[q..] {
      BearerResidue(false, t, q);
    }
    PasswordResidue(false, t, q);
    if JwtAt(false, MaskTokenShapes(t), q) {
      JwtResidue(false, t, q);
    }
  }

  // ---- The scan --------------------------------------------------------------------------------

  // A slice of a string, which may cut no character.
  function Slice(t: Text, i: nat, j: nat): Text
    requires i <= j && IsBoundary(t, i) && IsBoundary(t, j)
  {
    t[i..j]
  }

  lemma {:induction false} SuffixWellFormed(t: Text, i: nat)
    requires WellFormed(t) && IsBoundary(t, i)
    ensures WellFormed(t[i..])
    decreases |t|
  {
    if i == 0 {
      assert t[i..] == t;
    } else if t != [] {
      var n := CharLen(t[0]);
      assert i >= n;
      assert i < |t| ==> t[n..][i-n] == t[i];
      SuffixWellFormed(t[n..], i - n);
      assert t[n..][i-n..] == t[i..];
    }
  }

  // After a character of one byte, another starts.
  lemma {:induction false} AfterAscii(t: Text, i: nat)
    requires WellFormed(t) && i < |t| && t[i] < 0x80
    ensures IsBoundary(t, i + 1)
    decreases |t|
  {
    var n := CharLen(t[0]);
    if i == 0 {
      assert t[1..] != [] ==> CharLen(t[1..][0]) > 0;
    } else {
      assert t[n..][i-n] == t[i];
      AfterAscii(t[n..], i - n);
      assert i + 1 < |t| ==> t[n..][i+1-n] == t[i+1];
    }
  }

  predicate Contains(t: Text, w: Text) {
    exists k :: 0 <= k <= |t| && w <= t[k..]
  }

  lemma ContainsLater(t: Text, w: Text)
    requires t != [] && Contains(t[1..], w)
    ensures Contains(t, w)
  {
    var k :| 0 <= k <= |t[1..]| && w <= t[1..][k..];
    assert t[1..][k..] == t[k+1..];
  }

  lemma ContainsFirst(t: Text, w: Text)
    requires w <= t
    ensures Contains(t, w)
  {
    assert t[0..] == t;
  }

  lemma {:induction false} NothingToMask(prev: bool, t: Text)
    requires !Contains(t, BEARER) && !Contains(t, JWT_HEAD) && !Contains(t, SCHEME_END)
    ensures Masked(prev, t) == t
    decreases |t|
  {
    hide Contains;
    if t != [] {
      if BEARER <= t { ContainsFirst(t, BEARER); }
      if JWT_HEAD <= t { ContainsFirst(t, JWT_HEAD); }
      if SCHEME_END <= t { ContainsFirst(t, SCHEME_END); }
      if Contains(t[1..], BEARER) { ContainsLater(t, BEARER); }
      if Contains(t[1..], JWT_HEAD) { ContainsLater(t, JWT_HEAD); }
      if Contains(t[1..], SCHEME_END) { ContainsLater(t, SCHEME_END); }
      NothingToMask(IsBase64Url(t[0]), t[1..]);
      MaskedNone(prev, t);
      hide Masked;
      assert t == [t[0]] + t[1..];
    }
  }

  lemma Regroup(a: Text, b: Text, c: Text)
    ensures a + (b + c) == a + b + c
  {
  }

  // A character at which nothing is masked passes whole.
  lemma SkipChar(prev: bool, t: Text)
    requires t != [] && WellFormed(t) && Hit(prev, t).None?
    ensures var n := CharLen(t[0]);
            0 < n <= |t| && Masked(prev, t) == t[..n] + Masked(IsBase64Url(t[n-1]), t[n..])
  {
    hide Masked, Hit, WellFormed, CharLen, Passive, IsBase64Url, Before;
    var n := CharLen(t[0]);
    MaskedNone(prev, t);
    CharTail(t, IsBase64Url(t[0]));
    var head := t[1..n];
    PassThrough(IsBase64Url(t[0]), head, t[n..]);
    assert t[1..] == head + t[n..];
    assert [t[0]] + head == t[..n];
    Regroup([t[0]], head, Masked(IsBase64Url(t[n-1]), t[n..]));
  }

  lemma CharTail(t: Text, prev: bool)
    requires t != [] && WellFormed(t)
    ensures var n := CharLen(t[0]);
            0 < n <= |t| && Passive(prev, t[1..n]) && WellFormed(t[n..])
            && Before(IsBase64Url(t[0]), t[1..n], n - 1) == IsBase64Url(t[n-1])
  {
    var head := t[1..CharLen(t[0])];
    assert forall i :: 0 <= i < |head| ==> head[i] == t[i+1] && IsContinuation(t[i+1]);
  }

  // What is masked from `at` on lies between character boundaries.
  lemma HitOnBoundaries(t: Text, at: nat, prev: bool)
    requires WellFormed(t) && at < |t| && IsBoundary(t, at) && Hit(prev, t[at..]).Some?
    ensures var (start, end) := Hit(prev, t[at..]).value;
            IsBoundary(t, at + start) && IsBoundary(t, at + end) && WellFormed(t[at+end..])
  {
    hide Hit, WellFormed;
    HitBytes(prev, t[at..]);
    var (start, end) := Hit(prev, t[at..]).value;
    if start > 0 {
      AfterAscii(t, at + start - 1);
    }
    if t[at+end-1] < 0x80 {
      AfterAscii(t, at + end - 1);
    }
    SuffixWellFormed(t, at + end);
  }

  // The bytes at the ends of what is masked are ASCII where it matters.
  lemma HitBytes(prev: bool, t: Text)
    requires Hit(prev, t).Some?
    ensures var (start, end) := Hit(prev, t).value;
            && (start > 0 ==> t[start-1] < 0x80)
            && (t[end-1] < 0x80 || (end < |t| && t[end] == AT_SIGN))
  {
    HitFacts(prev, t);
    var (start, end) := Hit(prev, t).value;
    if BEARER <= t {
      assert t[6] == BEARER[6] == 32;
      assert Credential.Accepts(t[7..][end-8]) && t[7..][end-8] == t[end-1];
    } else if start == 0 {
      JwtFacts(t);
    } else {
      PasswordHead(t, start, end);
    }
  }

  /** The scan over valid text: it stops and cuts only between characters, and masks what is to be masked. */
  method ScanTokenShapes(text: Text) returns (masked: Text)
    requires WellFormed(text)
    ensures masked == MaskTokenShapes(text)
  {
    if !Contains(text, BEARER) && !Contains(text, JWT_HEAD) && !Contains(text, SCHEME_END) {
      NothingToMask(false, text);
      return text;
    }
    masked := Scan(text);
  }

  method Scan(text: Text) returns (masked: Text)
    requires WellFormed(text)
    ensures masked == MaskTokenShapes(text)
  {
    hide MaskTokenShapes, Scanned, JwtLen, UserinfoPassword, Masked, WellFormed, Before, CharLen, Hit;
    var out: Text := [];
    var copied, at := 0, 0;
    ScanStarts(text);
    while at < |text|
      invariant copied <= at <= |text|
      invariant IsBoundary(text, copied) && IsBoundary(text, at) && WellFormed(text[at..])
      invariant copied == 0 ==> out == []
      invariant Scanned(text, out, copied, at) == MaskTokenShapes(text)
    {
      var rest := Slice(text, at, |text|);
      var hit := FindShape(text, at);
      if hit.Some? {
        var (start, end) := hit.value;
        HitOnBoundaries(text, at, Before(false, text, at));
        StepHit(text, copied, at, start, end, out);
        out := out + Slice(text, copied, start) + MASK;
        copied := end;
        at := end;
      } else {
        StepChar(text, copied, at, out);
        at := at + CharLen(rest[0]);
      }
    }
    ScanEnds(text, out, copied);
    if copied == 0 {
      return text;
    }
    masked := out + Slice(text, copied, |text|);
  }

  // What the scan will put out, from where it is: what it has, what it has passed since, and the rest masked.
  function Scanned(text: Text, out: Text, copied: nat, at: nat): Text
    requires copied <= at <= |text|
  {
    out + text[copied..at] + Masked(Before(false, text, at), text[at..])
  }

  lemma ScanStarts(text: Text)
    requires WellFormed(text)
    ensures Scanned(text, [], 0, 0) == MaskTokenShapes(text) && IsBoundary(text, 0) && WellFormed(text[0..])
  {
    assert text[0..] == text;
    hide Masked;
  }

  lemma ScanEnds(text: Text, out: Text, copied: nat)
    requires copied <= |text|
    ensures Scanned(text, out, copied, |text|) == out + text[copied..]
    ensures out == [] && copied == 0 ==> out + text[copied..] == text
  {
    assert text[|text|..] == [];
  }

  // One look of the scan: what is to be masked at `at`, in positions of the whole text.
  method FindShape(text: Text, at: nat) returns (hit: Option<(nat, nat)>)
    requires at < |text|
    ensures hit == match Hit(Before(false, text, at), text[at..])
                   case Some((start, end)) => Some((at + start, at + end))
                   case None => None
  {
    hide JwtLen, UserinfoPassword, Span, IsBase64Url;
    var rest := text[at..];
    assert |rest| >= 7 ==> text[at + 7..] == rest[7..];
    assert |rest| >= 3 ==> text[at + 3..] == rest[3..];
    if BEARER <= rest {
      var start := at + 7;
      var end := start + Span(text[start..], Credential);
      hit := if end > start then Some((start, end)) else None;
    } else if JWT_HEAD <= rest && (at == 0 || !IsBase64Url(text[at-1])) {
      var len := JwtLen(rest);
      hit := if len.Some? then Some((at, at + len.value)) else None;
    } else if SCHEME_END <= rest {
      var authority := at + 3;
      var password := UserinfoPassword(text[authority..]);
      hit := if password.Some? then Some((authority + password.value.0, authority + password.value.1)) else None;
    } else {
      hit := None;
    }
  }

  lemma StepHit(text: Text, copied: nat, at: nat, start: nat, end: nat, out: Text)
    requires copied <= at < |text| && at <= start < end <= |text|
    requires Hit(Before(false, text, at), text[at..]) == Some((start - at, end - at))
    ensures Scanned(text, out, copied, at) == Scanned(text, out + text[copied..start] + MASK, end, end)
  {
    hide Hit, Masked;
    MaskedHit(Before(false, text, at), text[at..]);
    Suffix(text, at, end - at);
    Middle(text, at, start);
    GlueHit(out, text[copied..at], text[at..start], Masked(Before(false, text, end), text[end..]));
    assert text[copied..at] + text[at..start] == text[copied..start];
    assert text[end..end] == [];
  }

  lemma Middle(t: Text, at: nat, start: nat)
    requires at <= start <= |t|
    ensures t[at..][..start-at] == t[at..start]
  {
  }

  lemma GlueHit(out: Text, a: Text, b: Text, more: Text)
    ensures out + a + (b + MASK + more) == out + (a + b) + MASK + [] + more
  {
  }

  lemma StepChar(text: Text, copied: nat, at: nat, out: Text)
    requires copied <= at < |text| && WellFormed(text[at..]) && Hit(Before(false, text, at), text[at..]).None?
    ensures var n := CharLen(text[at]);
            && at + n <= |text| && n > 0 && WellFormed(text[at+n..]) && IsBoundary(text, at + n)
            && Scanned(text, out, copied, at) == Scanned(text, out, copied, at + n)
  {
    hide Hit, Masked, WellFormed, IsBase64Url;
    var rest := text[at..];
    var n := CharLen(text[at]);
    SkipChar(Before(false, text, at), rest);
    CharTail(rest, false);
    hide Passive, CharLen;
    Suffix(text, at, n);
    StartsChar(text[at+n..]);
    assert text[copied..at] + text[at..at+n] == text[copied..at+n];
    GlueChar(out, text[copied..at], text[at..at+n], Masked(Before(false, text, at + n), text[at+n..]));
  }

  lemma Suffix(t: Text, at: nat, n: nat)
    requires at < at + n <= |t|
    ensures t[at..][..n] == t[at..at+n] && t[at..][n..] == t[at+n..] && t[at..][n-1] == t[at+n-1] && t[at..][0] == t[at]
  {
  }

  lemma GlueChar(out: Text, a: Text, b: Text, more: Text)
    ensures out + a + (b + more) == out + (a + b) + more
  {
  }

  lemma StartsChar(t: Text)
    requires WellFormed(t)
    ensures t != [] ==> !IsContinuation(t[0])
  {
  }
}
