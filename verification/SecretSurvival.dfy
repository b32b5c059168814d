/** Exactly which registered values can still be read in a redacted text, and what the registry's order is for. */
module SecretSurvival {
  import opened Wrappers
  import opened Bytes
  import opened TokenShapes
  import opened TokenScan
  import opened Secrets

  // ---- A value and the whole of redaction ------------------------------------------------------

  /**
   * A word can come back over a mask it overlaps, with the bytes that lead to it in front: over one of its own, when
   * it does not occur earlier behind those bytes, or over one of the scan's, which follows no base64url byte.
   */
  predicate Returns(w: Text) {
    exists d :: -|w| < d < |MASK| && OverlapsAt(w, d)
      && (d < 0 ==> Find(w[..-d] + w, w) == Some(-d) || !IsBase64Url(w[-d-1]))
  }

  predicate SurvivesRedaction(t: Text, w: Text)
    requires w != []
  {
    Contains(Redact([w], t), w)
  }

  lemma RedactOne(t: Text, w: Text)
    requires w != []
    ensures Redact([w], t) == Masked(false, Replace(t, w))
  {
    assert [w][..0] == [];
    assert ReplaceAll(t, []) == t;
  }

  lemma HitFollows(prev: bool, t: Text)
    requires Hit(prev, t).Some?
    ensures var start := Hit(prev, t).value.0;
            if start == 0 then !prev else !IsBase64Url(t[start-1])
  {
    HitFacts(prev, t);
    var start := Hit(prev, t).value.0;
    hide Span, JwtLen, Hit;
    if BEARER <= t {
      assert t[6] == BEARER[6];
    } else if start > 0 {
      assert t[3..][start-4] == t[start-1];
    }
  }

  // What the scan masks follows no base64url byte.
  lemma {:induction false} MaskFollows(prev: bool, t: Text)
    ensures var (gap, p, n) := FirstHit(prev, t);
            n > 0 ==> gap <= n && (if gap == 0 then !prev else !IsBase64Url(t[gap-1]))
    decreases |t|
  {
    hide Hit, IsBase64Url;
    if t != [] {
      if Hit(prev, t).Some? {
        HitFollows(prev, t);
      } else {
        MaskFollows(IsBase64Url(t[0]), t[1..]);
      }
    }
  }

  // A word in a scanned text was in it before, or returns.
  lemma {:induction false} ScanBringsReturning(prev: bool, t: Text, w: Text, k: int)
    requires w != [] && At(Masked(prev, t), w, k)
    ensures Returns(w) || exists j :: At(t, w, j)
    decreases |t|
  {
    FirstHitParts(prev, t);
    MaskFollows(prev, t);
    hide Masked, Find, FirstHit;
    var (gap, p, n) := FirstHit(prev, t);
    if n == 0 {
      assert At(t, w, k);
    } else {
      var rest := Masked(p, t[n..]);
      AroundMask(t[..gap], rest, w, k);
      if k + |w| <= gap {
        Shallower(t, gap, w, k);
      } else if k >= gap + |MASK| {
        ScanBringsReturning(p, t[n..], w, k - gap - |MASK|);
        if !Returns(w) {
          var j :| At(t[n..], w, j);
          Deeper(t, n, w, j);
        }
      } else if k < gap {
        LeadsTo(t[..gap], rest, w, gap - k);
        assert t[gap-1] == t[..gap][k..][gap-k-1] == w[gap-k-1];
      }
    }
  }

  lemma SurvivorReturns(t: Text, w: Text)
    requires w != [] && SurvivesRedaction(t, w)
    ensures Returns(w)
  {
    hide Find, Replace, Masked;
    RedactOne(t, w);
    NotFound(Redact([w], t), w);
    var k :| At(Redact([w], t), w, k);
    ScanBringsReturning(false, Replace(t, w), w, k);
    if !Returns(w) {
      var j :| At(Replace(t, w), w, j);
      SurvivorSurfaces(t, w, j);
    }
  }

  // No byte a shape starts with.
  predicate Headless(t: Text) {
    forall i :: 0 <= i < |t| ==> t[i] != 66 && t[i] != 101 && t[i] != COLON
  }

  lemma BytesHeadless(t: Text)
    requires forall b :: b in t ==> b != 66 && b != 101 && b != COLON
    ensures Headless(t)
  {
    assert forall i :: 0 <= i < |t| ==> t[i] in t;
  }

  lemma HeadlessHitsNot(prev: bool, t: Text)
    requires t != [] && t[0] != 66 && t[0] != 101 && t[0] != COLON
    ensures Hit(prev, t).None?
  {
    assert BEARER[0] == 66 && JWT_HEAD[0] == 101 && SCHEME_END[0] == COLON;
  }

  lemma {:induction false} HeadlessPasses(prev: bool, t: Text, r: Text)
    requires Headless(t)
    ensures Masked(prev, t + r) == t + Masked(if t == [] then prev else IsBase64Url(t[|t|-1]), r)
    decreases |t|
  {
    hide Hit, Masked, IsBase64Url;
    if t == [] {
      assert t + r == r;
    } else {
      HeadlessHitsNot(prev, t + r);
      MaskedNone(prev, t + r);
      assert (t + r)[1..] == t[1..] + r;
      HeadlessPasses(IsBase64Url(t[0]), t[1..], r);
    }
  }

  // "eyJeeeeeee.e.e"
  const TOKEN: Text := [101, 121, 74, 101, 101, 101, 101, 101, 101, 101, 46, 101, 46, 101]

  lemma TokenIsAJwt()
    ensures JwtLen(TOKEN) == Some(14)
  {
    hide JwtLen, Span;
    TokenHeader();
    assert TOKEN[11..] == [101, 46, 101] && TOKEN[13..] == [101];
    OneByte([46, 101]);
    OneByte([]);
    assert [101] + [46, 101] == [101, 46, 101] && [101] + [] == [101];
    ThreeParts(TOKEN, 10, 1, 1);
  }

  lemma ThreeParts(t: Text, header: nat, payload: nat, signature: nat)
    requires header >= 10 && payload > 0 && signature > 0 && |t| == header + payload + signature + 2
    requires Span(t, Base64Url) == header && t[header] == DOT
    requires Span(t[header+1..], Base64Url) == payload && t[header+1+payload] == DOT
    requires Span(t[header+1+payload+1..], Base64Url) == signature
    ensures JwtLen(t) == Some(|t|)
  {
  }

  lemma TokenHeader()
    ensures Span(TOKEN, Base64Url) == 10
  {
    assert forall i :: 0 <= i < 10 ==> TOKEN[i] == 101 || TOKEN[i] == 121 || TOKEN[i] == 74;
    SpanIs(TOKEN, Base64Url, 10);
  }

  lemma OneByte(r: Text)
    requires r == [] || r[0] == DOT
    ensures Span([101] + r, Base64Url) == 1
  {
    SpanIs([101] + r, Base64Url, 1);
  }

  lemma TokenIsHit()
    ensures Hit(false, TOKEN) == Some((0, 14))
  {
    hide JwtLen, UserinfoPassword, Span;
    TokenIsAJwt();
    assert JWT_HEAD <= TOKEN && BEARER[0] != TOKEN[0];
  }

  lemma TokenIsMasked()
    ensures Masked(false, TOKEN) == MASK
  {
    hide Hit;
    TokenIsHit();
    MaskedHit(false, TOKEN);
    hide Masked;
    MaskedNothing(IsBase64Url(TOKEN[13]));
    assert TOKEN[14..] == [];
  }

  // A word that occurs earlier behind its own first bytes repeats itself from there on.
  lemma {:induction false} Repeats(w: Text, a: nat, k: nat, i: nat)
    requires k < a < |w| && At(w[..a] + w, w, k) && a + i < |w|
    ensures w[a+i] == w[i]
  {
    var u := w[..a] + w;
    assert u[k..][..|w|] == w;
    var p := a - k;
    assert forall j :: 0 <= j < |w| ==> w[j] == u[k+j];
    assert forall j :: p <= j < |w| ==> w[j] == w[j-p];
    Shifted(w, p, k, i, u);
  }

  lemma {:induction false} Shifted(w: Text, p: nat, k: nat, i: nat, u: Text)
    requires p > 0 && p + k < |w| && p + k + i < |w| && u == w[..p+k] + w
    requires forall j :: 0 <= j < |w| ==> w[j] == u[k+j]
    ensures w[p+k+i] == w[i]
    decreases i
  {
    assert u[k+(p+k+i)] == w[k+i];
    if i < p {
      assert u[k+i] == w[k+i];
    } else {
      assert w[i] == u[k+i] == w[i-p];
      Shifted(w, p, k, i - p, u);
      assert w[k+i] == u[k+(k+i)] == w[k+i-p];
    }
  }

  // Over a mask of its own: what surfaces returns, and with no shape about it the scan lets it pass.
  lemma SurfacingReturns(w: Text) returns (t: Text)
    requires w != [] && Headless(w) && Surfaces(w)
    ensures SurvivesRedaction(t, w)
  {
    hide Find, Replace, Masked;
    var d :| -|w| < d < |MASK| && OverlapsAt(w, d) && (d < 0 ==> Find(w[..-d] + w, w) == Some(-d));
    t := SurfacingSurvives(w, d);
    assert forall b :: b in w ==> b != 66 && b != 101 && b != COLON;
    assert forall b :: b in Replace(t, w) ==> b != 66 && b != 101 && b != COLON;
    BytesHeadless(Replace(t, w));
    HeadlessPasses(false, Replace(t, w), []);
    MaskedNothing(false);
    MaskedNothing(true);
    assert Replace(t, w) + [] == Replace(t, w);
    RedactOne(t, w);
    NotFound(Redact([w], t), w);
  }

  // Over one of the scan's, behind the bytes that lead to it.
  lemma ScannedReturns(w: Text, a: nat)
    requires |w| >= MIN_SECRET_LEN && Headless(w) && 0 < a < |w| && OverlapsAt(w, 0 - a) && !IsBase64Url(w[a-1])
    requires |w| - a <= |MASK|
    ensures SurvivesRedaction(w[..a] + TOKEN, w)
  {
    hide Find, Replace, Masked;
    var t := w[..a] + TOKEN;
    NotFound(t, w);
    if k :| At(t, w, k) {
      InTokenHasHead(w, a, k);
    }
    TokenIsMasked();
    HeadlessPasses(false, w[..a], TOKEN);
    RedactOne(t, w);
    ShowsAgain(w, 0 - a, a, []);
    assert w[..a] + MASK + [] == w[..a] + MASK;
    NotFound(Redact([w], t), w);
  }

  lemma InTokenHasHead(w: Text, a: nat, k: int)
    requires |w| >= MIN_SECRET_LEN && a < |w| && At(w[..a] + TOKEN, w, k)
    ensures !Headless(w)
  {
    var t := w[..a] + TOKEN;
    assert t[k..][..|w|] == w;
    assert forall i :: 0 <= i < |w| ==> w[i] == t[k+i];
    var e := if k <= a then a - k else if k <= a + 3 then a + 3 - k else 0;
    assert k + |w| <= |t|;
    assert w[e] == t[k+e] == TOKEN[k+e-a];
  }

  /**
   * A value is read in some text it was redacted from, the scan for shapes included, only if it returns; if it has no
   * byte a shape starts with, exactly if it returns; and if it has no bracket, exactly if it is the mask's own word.
   */
  lemma ValueSurvivesIffItReturns(w: Text)
    requires |w| >= MIN_SECRET_LEN
    ensures (exists t: Text :: SurvivesRedaction(t, w)) ==> Returns(w)
    ensures Headless(w) ==> ((exists t: Text :: SurvivesRedaction(t, w)) <==> Returns(w))
    ensures NoBracket(w) ==> ((exists t: Text :: SurvivesRedaction(t, w)) <==> w == REDACTED)
  {
    if t: Text :| SurvivesRedaction(t, w) {
      SurvivorReturns(t, w);
    }
    if Headless(w) && Returns(w) {
      ReturningSurvives(w);
    }
    if NoBracket(w) && w != REDACTED {
      PlainSecretsAreClear(w);
    }
    MaskWordSurvives();
    RedactOne(REDACTED, REDACTED);
    assert SurvivesRedaction(REDACTED, REDACTED);
  }

  lemma ReturningSurvives(w: Text)
    requires |w| >= MIN_SECRET_LEN && Headless(w) && Returns(w)
    ensures exists t: Text :: SurvivesRedaction(t, w)
  {
    hide Find;
    if Surfaces(w) {
      var t := SurfacingReturns(w);
    } else {
      var d :| -|w| < d < |MASK| && OverlapsAt(w, d) && (d < 0 ==> !IsBase64Url(w[-d-1]));
      RepeatedMaskSurfaces(w, -d);
      ScannedReturns(w, -d);
    }
  }

  // A word led to by itself that goes past the mask it overlaps starts with the whole mask.
  lemma RepeatedMaskSurfaces(w: Text, a: nat)
    requires 0 < a < |w| && OverlapsAt(w, 0 - a) && Find(w[..a] + w, w) != Some(a)
    ensures |w| - a > |MASK| ==> Surfaces(w)
  {
    var u := w[..a] + w;
    FindIsFirst(u, w);
    assert u[a..] == w;
    assert At(u, w, a);
    var k := Find(u, w).value;
    if |w| - a > |MASK| {
      forall i | 0 <= i < |w| && 0 <= 0 + i < |MASK|
        ensures w[i] == MASK[0+i]
      {
        Repeats(w, a, k, i);
        OverlapByte(w, 0 - a, a + i);
      }
      assert OverlapsAt(w, 0);
    }
  }

  // ---- Longest first ---------------------------------------------------------------------------

  lemma LongerNotWithin(t: Text, w: Text)
    requires |w| >= |t| && w != t && w != []
    ensures !Contains(t, w) && Replace(t, w) == t
  {
    NotFound(t, w);
    assert t[0..] == t;
  }

  // The registered values before `w` leave it alone, and those behind it leave its mask alone.
  lemma {:induction false} ReplacedWhole(secrets: seq<Text>, n: nat, w: Text)
    requires RegistryOk(secrets) && n < |secrets| && secrets[n] == w
    requires forall i :: n < i < |secrets| ==> !Contains(MASK, secrets[i])
    ensures NonEmpty(secrets) && ReplaceAll(w, secrets) == MASK
    decreases |secrets|
  {
    hide Replace, Find;
    var rest, last := secrets[..|secrets|-1], secrets[|secrets|-1];
    if n == |secrets| - 1 {
      AloneBefore(rest, w);
      ReplacedItself(w);
    } else {
      ReplacedWhole(rest, n, w);
      NotFound(MASK, last);
    }
  }

  lemma {:induction false} AloneBefore(secrets: seq<Text>, w: Text)
    requires forall i :: 0 <= i < |secrets| ==> |secrets[i]| >= |w| && secrets[i] != w && secrets[i] != []
    ensures ReplaceAll(w, secrets) == w
  {
    if secrets != [] {
      AloneBefore(secrets[..|secrets|-1], w);
      LongerNotWithin(w, secrets[|secrets|-1]);
    }
  }

  lemma ReplacedItself(w: Text)
    requires w != []
    ensures Replace(w, w) == MASK
  {
    assert w[..0] == [] && w[|w|..] == [];
    assert Replace([], w) == [];
    assert Find(w, w) == Some(0);
  }

  /**
   * Longest first, a registered value is masked whole, whatever other registered values it contains: alone in a text it
   * leaves the mask and nothing else, unless another value is to be read in the mask itself.
   */
  lemma SecretIsMaskedWhole(values: seq<Text>, w: Text)
    requires w in RegisteredAll(values)
    requires forall s :: s in RegisteredAll(values) && s != w ==> !Contains(MASK, s)
    ensures NonEmpty(RegisteredAll(values)) && Redact(RegisteredAll(values), w) == MASK
  {
    var secrets := RegisteredAll(values);
    RegistryInvariant(values);
    var n: nat :| n < |secrets| && secrets[n] == w;
    assert forall i :: 0 <= i < |secrets| ==> secrets[i] in secrets;
    ReplacedWhole(secrets, n, w);
    MaskedNothing(false);
    JwtTwice(false, []);
    assert MASK + [] == MASK;
  }

  /** Shorter first, it is not: once a value it contains has been replaced, what is around that one stays in the text. */
  lemma ShorterFirstLeavesRemainder(v: Text, w: Text)
    requires v != [] && |v| < |w| && Contains(w, v) && ClearOfMask(w)
    ensures ReplaceAll(w, [v, w]) == Replace(w, v)
    ensures exists i, rest :: 0 <= i <= |w| && Find(w, v) == Some(i) && ReplaceAll(w, [v, w]) == w[..i] + MASK + rest
    ensures |ReplaceAll(w, [v, w])| > |MASK|
  {
    hide Find;
    var o := Replace(w, v);
    FindIsFirst(w, v);
    NotFound(w, v);
    var i := Find(w, v).value;
    var rest := Replace(w[i+|v|..], v);
    assert o == w[..i] + MASK + rest;
    RestStays(w[i+|v|..], v);
    NotFound(o, w);
    if k :| At(o, w, k) {
      AroundMask(w[..i], rest, w, k);
      ReplaceBringsNone(w[i+|v|..], v, w, k - i - |MASK|);
    }
    assert [v, w][..1] == [v] && [v][..0] == [];
    assert ReplaceAll(w, [v]) == o;
  }

  lemma RestStays(t: Text, v: Text)
    requires v != []
    ensures t != [] ==> Replace(t, v) != []
  {
    FindIsFirst(t, v);
  }

  // ---- A registry of plain values --------------------------------------------------------------

  lemma PlainNotInMask(w: Text)
    requires |w| >= MIN_SECRET_LEN && NoBracket(w) && w != REDACTED
    ensures !Contains(MASK, w)
  {
    NotFound(MASK, w);
    if k :| At(MASK, w, k) {
      assert MASK[k..][..|w|] == w;
      assert forall i :: 0 <= i < |w| ==> w[i] == MASK[k+i];
      assert OverlapsAt(w, k);
      PlainOverlap(w, k);
    }
  }

  /**
   * Among values without brackets, however many are registered: one can be read in some redacted text if and only if it
   * is the mask's own word.
   */
  lemma PlainSecretSurvivesIffMaskWord(values: seq<Text>, w: Text)
    requires w in RegisteredAll(values) && forall s :: s in RegisteredAll(values) ==> NoBracket(s)
    ensures NonEmpty(RegisteredAll(values))
    ensures (exists t: Text :: Contains(Redact(RegisteredAll(values), t), w)) <==> w == REDACTED
  {
    var secrets := RegisteredAll(values);
    RegistryInvariant(values);
    if w != REDACTED {
      forall t: Text
        ensures !Contains(Redact(secrets, t), w)
      {
        NoSecretSurvives(values, t, w);
      }
    } else {
      forall s | s in secrets && s != w
        ensures !Contains(MASK, s)
      {
        PlainNotInMask(s);
      }
      SecretIsMaskedWhole(values, w);
      assert MASK[1..] == REDACTED + [93];
      assert Contains(Redact(secrets, w), w);
    }
  }
}
