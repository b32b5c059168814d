/** Masking of credentials by their shape: what follows `Bearer `, a JWT, and the password of a URL's userinfo. */
module TokenShapes {
  import opened Wrappers
  import opened Bytes

  // "[REDACTED]", "Bearer ", "eyJ" and "://".
  const MASK: Text := [91, 82, 69, 68, 65, 67, 84, 69, 68, 93]
  const BEARER: Text := [66, 101, 97, 114, 101, 114, 32]
  const JWT_HEAD: Text := [101, 121, 74]
  const SCHEME_END: Text := [58, 47, 47]

  const COLON: Byte := 58
  const SLASH: Byte := 47
  const AT_SIGN: Byte := 64
  const DOT: Byte := 46

  predicate IsSpace(b: Byte) { b == 32 || b == 9 || b == 10 || b == 12 || b == 13 }

  predicate IsBase64Url(b: Byte) {
    48 <= b <= 57 || 65 <= b <= 90 || 97 <= b <= 122 || b == 45 || b == 95
  }

  datatype Class = Base64Url | Credential | User | Password {
    predicate Accepts(b: Byte) {
      match this
      case Base64Url => IsBase64Url(b)
      case Credential => IsBase64Url(b) || b == DOT || b == 126 || b == 43 || b == SLASH || b == 61
      case User => b != COLON && b != AT_SIGN && b != SLASH && !IsSpace(b)
      case Password => b != AT_SIGN && b != SLASH && !IsSpace(b)
    }
  }

  // How many leading bytes are of the class.
  function Span(t: Text, c: Class): (n: nat)
    ensures n <= |t|
    ensures n < |t| ==> !c.Accepts(t[n])
    ensures forall i :: 0 <= i < n ==> c.Accepts(t[i])
  {
    if t == [] || !c.Accepts(t[0]) then 0 else 1 + Span(t[1..], c)
  }

  lemma SpanIs(t: Text, c: Class, n: nat)
    requires n <= |t| && (forall i :: 0 <= i < n ==> c.Accepts(t[i])) && (n < |t| ==> !c.Accepts(t[n]))
    ensures Span(t, c) == n
  {
  }

  // The length of the JWT the text starts with.
  function JwtLen(t: Text): (len: Option<nat>)
    ensures len.Some? ==> 0 < len.value <= |t|
  {
    var header := Span(t, Base64Url);
    if header < 10 || header >= |t| || t[header] != DOT then None
    else
      var payload := Span(t[header + 1..], Base64Url);
      var dot := header + 1 + payload;
      if payload == 0 || dot >= |t| || t[dot] != DOT then None
      else
        var signature := Span(t[dot + 1..], Base64Url);
        if signature == 0 then None else Some(dot + 1 + signature)
  }

  lemma JwtFacts(t: Text)
    requires JwtLen(t).Some?
    ensures var end := JwtLen(t).value;
            && (end < |t| ==> !IsBase64Url(t[end]))
            && forall i :: 0 <= i < end ==> IsBase64Url(t[i]) || t[i] == DOT
  {
    var end := JwtLen(t).value;
    var header := Span(t, Base64Url);
    var payload := Span(t[header + 1..], Base64Url);
    var dot := header + 1 + payload;
    var signature := Span(t[dot + 1..], Base64Url);
    assert end < |t| ==> t[dot + 1..][signature] == t[end];
    forall i | 0 <= i < end
      ensures IsBase64Url(t[i]) || t[i] == DOT
    {
      if header < i < dot {
        assert t[header + 1..][i - header - 1] == t[i];
      } else if dot < i {
        assert t[dot + 1..][i - dot - 1] == t[i];
      }
    }
  }

  // Where the password of the userinfo the text starts with lies.
  function UserinfoPassword(t: Text): (at: Option<(nat, nat)>)
    ensures at.Some? ==> 0 < at.value.0 < at.value.1 < |t| && t[at.value.1] == AT_SIGN
  {
    var user := Span(t, User);
    if user >= |t| || t[user] != COLON then None
    else
      var start := user + 1;
      var end := start + Span(t[start..], Password);
      if end > start && end < |t| && t[end] == AT_SIGN then Some((start, end)) else None
  }

  // What is to be masked of a text about to be scanned, `prev` telling whether a base64url byte comes before it.
  function Hit(prev: bool, t: Text): (at: Option<(nat, nat)>)
    ensures at.Some? ==> at.value.0 < at.value.1 <= |t|
  {
    if BEARER <= t then
      var end := 7 + Span(t[7..], Credential);
      if end > 7 then Some((7, end)) else None
    else if JWT_HEAD <= t && !prev then
      match JwtLen(t) case Some(len) => Some((0, len)) case None => None
    else if SCHEME_END <= t then
      match UserinfoPassword(t[3..]) case Some(at) => Some((3 + at.0, 3 + at.1)) case None => None
    else None
  }

  // The text masked from here on: leftmost shapes first, none within another.
  function Masked(prev: bool, t: Text): Text
    decreases |t|
  {
    if t == [] then []
    else
      match Hit(prev, t)
      case Some((start, end)) => t[..start] + MASK + Masked(IsBase64Url(t[end-1]), t[end..])
      case None => [t[0]] + Masked(IsBase64Url(t[0]), t[1..])
  }

  function MaskTokenShapes(t: Text): Text { Masked(false, t) }

  // ---- What a hit looks like -------------------------------------------------------------------

  // A hit starts at the first byte of one of the three shapes, keeps its head, and is followed by no byte that
  // could go on with it.
  lemma HitFacts(prev: bool, t: Text)
    requires Hit(prev, t).Some?
    ensures var (start, end) := Hit(prev, t).value;
            || (BEARER <= t && start == 7 && end < |t| + 1 && (end < |t| ==> !Credential.Accepts(t[end])))
            || (t[0] == 101 && start == 0 && !prev && JwtLen(t) == Some(end) && (end < |t| ==> !IsBase64Url(t[end])))
            || (SCHEME_END <= t && UserinfoPassword(t[3..]) == Some((start - 3, end - 3)) && start > 3
                && end < |t| && t[end] == AT_SIGN)
  {
    var (start, end) := Hit(prev, t).value;
    if BEARER <= t {
      assert end < |t| ==> t[7..][end - 7] == t[end];
    } else if JWT_HEAD <= t && !prev {
      JwtFacts(t);
    } else {
      assert t[3..][end - 3] == t[end];
    }
  }

  // Only a JWT looks at what comes before it.
  lemma PrevMatters(prev: bool, prev': bool, t: Text)
    requires prev == prev' || t == [] || t[0] != 101
    ensures Masked(prev, t) == Masked(prev', t)
  {
    assert JWT_HEAD[0] == 101;
  }

  // Bytes that start no shape where they stand.
  predicate Passive(prev: bool, head: Text) {
    forall i :: 0 <= i < |head| ==>
      && head[i] != 66 && head[i] != COLON
      && (head[i] == 101 ==> Before(prev, head, i))
  }

  predicate Before(prev: bool, t: Text, i: nat)
    requires i <= |t|
  {
    if i == 0 then prev else IsBase64Url(t[i-1])
  }

  lemma {:induction false} PassThrough(prev: bool, head: Text, t: Text)
    requires Passive(prev, head)
    ensures Masked(prev, head + t) == head + Masked(Before(prev, head, |head|), t)
    decreases |head|
  {
    hide Passive, Masked, IsBase64Url;
    if head == [] {
      assert head + t == t;
      assert head + Masked(prev, t) == Masked(prev, t);
    } else {
      PassiveRest(prev, head);
      var p := IsBase64Url(head[0]);
      var rest := Masked(Before(prev, head, |head|), t);
      PassOne(prev, head[0], head[1..] + t);
      PassThrough(p, head[1..], t);
      assert head + t == [head[0]] + (head[1..] + t);
      assert head + rest == [head[0]] + (head[1..] + rest);
    }
  }

  lemma PassOne(prev: bool, b: Byte, t: Text)
    requires b != 66 && b != COLON && (b == 101 ==> prev)
    ensures Masked(prev, [b] + t) == [b] + Masked(IsBase64Url(b), t)
  {
    PassiveByte(prev, [b] + t);
    assert ([b] + t)[1..] == t;
  }

  lemma PassiveByte(prev: bool, t: Text)
    requires t != [] && t[0] != 66 && t[0] != COLON && (t[0] == 101 ==> prev)
    ensures Hit(prev, t).None?
  {
    assert BEARER[0] == 66 && JWT_HEAD[0] == 101 && SCHEME_END[0] == COLON;
  }

  lemma PassiveRest(prev: bool, head: Text)
    requires Passive(prev, head) && head != []
    ensures head[0] != 66 && head[0] != COLON && (head[0] == 101 ==> prev)
    ensures Passive(IsBase64Url(head[0]), head[1..])
    ensures Before(IsBase64Url(head[0]), head[1..], |head| - 1) == Before(prev, head, |head|)
  {
    var rest := head[1..];
    assert forall i :: 0 <= i < |rest| ==> rest[i] == head[i + 1];
  }

  // ---- What the output says about the input ----------------------------------------------------

  predicate NoBracket(t: Text) { forall i :: 0 <= i < |t| ==> t[i] != 91 && t[i] != 93 }

  // What the output starts with, before any bracket, the input starts with.
  lemma {:induction false} PrefixBack(prev: bool, t: Text, w: Text)
    requires NoBracket(w) && w <= Masked(prev, t)
    ensures w <= t
    decreases |t|
  {
    if t != [] && w != [] {
      match Hit(prev, t)
      case Some((start, end)) =>
        var o := t[..start] + MASK + Masked(IsBase64Url(t[end-1]), t[end..]);
        assert o[start] == 91;
        assert |w| <= start;
        assert w == o[..|w|] == t[..|w|];
      case None =>
        var o := Masked(IsBase64Url(t[0]), t[1..]);
        assert w[1..] <= o;
        PrefixBack(IsBase64Url(t[0]), t[1..], w[1..]);
        assert w == [t[0]] + w[1..];
    }
  }

  // The output starts as the input does, but for a JWT masked at once.
  lemma FirstByte(prev: bool, t: Text)
    requires t != [] && (Hit(prev, t).None? || Hit(prev, t).value.0 > 0)
    ensures Masked(prev, t) != [] && Masked(prev, t)[0] == t[0]
  {
  }

  lemma SpanSplit(a: Text, b: Text, c: Class)
    requires forall i :: 0 <= i < |a| ==> c.Accepts(a[i])
    ensures Span(a + b, c) == |a| + Span(b, c)
  {
    var n := |a| + Span(b, c);
    assert forall i :: 0 <= i < n ==> c.Accepts((a + b)[i]);
    SpanIs(a + b, c, n);
  }

  // Both texts run on to the same stopping byte of the class; past a colon, the second is the first masked.
  ghost predicate SameStop(t: Text, o: Text, c: Class) {
    var i, j := Span(t, c), Span(o, c);
    && (i == |t| <==> j == |o|) && (i == 0 <==> j == 0)
    && (i < |t| ==> t[i] == o[j])
    && (i < |t| && c == User && t[i] == COLON ==> exists p :: o[j..] == Masked(p, t[i..]))
  }

  // Accepted stretches in front, empty in neither or both, change nothing.
  lemma StopBehind(a: Text, t: Text, b: Text, o: Text, c: Class)
    requires SameStop(t, o, c) && a != [] && b != []
    requires forall i :: 0 <= i < |a| ==> c.Accepts(a[i])
    requires forall i :: 0 <= i < |b| ==> c.Accepts(b[i])
    ensures SameStop(a + t, b + o, c)
  {
    hide Masked, Span;
    SpanSplit(a, t, c);
    SpanSplit(b, o, c);
    var i, j := Span(t, c), Span(o, c);
    Shift(a, t, i);
    Shift(b, o, j);
  }

  lemma Shift(a: Text, t: Text, i: nat)
    requires i <= |t|
    ensures (a + t)[|a| + i..] == t[i..] && (i < |t| ==> (a + t)[|a| + i] == t[i])
  {
  }

  lemma StopInFront(prev: bool, t: Text, c: Class)
    requires t != [] && !c.Accepts(t[0]) && (Hit(prev, t).None? || Hit(prev, t).value.0 > 0)
    ensures SameStop(t, Masked(prev, t), c)
  {
    FirstByte(prev, t);
    var o := Masked(prev, t);
    assert t[0..] == t && o[0..] == o;
    assert Span(t, c) == 0 && Span(o, c) == 0;
    assert o[0..] == Masked(prev, t[0..]);
  }

  // Masking moves neither end of a URL's user name or password: what stops the span stops it still.
  lemma {:induction false} FirstStop(prev: bool, t: Text, c: Class)
    requires c == User || c == Password
    ensures SameStop(t, Masked(prev, t), c)
    decreases |t|
  {
    if t == [] {
    } else if Hit(prev, t).None? {
      if c.Accepts(t[0]) {
        FirstStop(IsBase64Url(t[0]), t[1..], c);
        StopBehind([t[0]], t[1..], [t[0]], Masked(IsBase64Url(t[0]), t[1..]), c);
        assert t == [t[0]] + t[1..];
      } else {
        StopInFront(prev, t, c);
      }
    } else {
      HitFacts(prev, t);
      var (start, end) := Hit(prev, t).value;
      if BEARER <= t {
        BearerStop(prev, t, c);
      } else if start == 0 {
        FirstStop(IsBase64Url(t[end-1]), t[end..], c);
        JwtStop(prev, t, c);
      } else {
        SchemeStop(prev, t, c);
      }
    }
  }

  // A JWT and the mask are both within the spans.
  lemma JwtStop(prev: bool, t: Text, c: Class)
    requires (c == User || c == Password) && Hit(prev, t).Some? && Hit(prev, t).value.0 == 0
    requires JwtLen(t) == Some(Hit(prev, t).value.1)
    requires var end := Hit(prev, t).value.1;
             SameStop(t[end..], Masked(IsBase64Url(t[end-1]), t[end..]), c)
    ensures SameStop(t, Masked(prev, t), c)
  {
    hide SameStop, Hit, JwtLen, Masked;
    var end := Hit(prev, t).value.1;
    var rest := Masked(IsBase64Url(t[end-1]), t[end..]);
    MaskedHit(prev, t);
    assert t[..0] + MASK + rest == MASK + rest;
    JwtFacts(t);
    MaskIsPassword();
    assert forall i :: 0 <= i < |MASK| ==> c.Accepts(MASK[i]);
    StopBehind(t[..end], t[end..], MASK, rest, c);
    assert t == t[..end] + t[end..];
  }

  // The space of `Bearer ` stops both spans.
  lemma BearerStop(prev: bool, t: Text, c: Class)
    requires (c == User || c == Password) && BEARER <= t && Hit(prev, t).Some?
    ensures SameStop(t, Masked(prev, t), c)
  {
    var o := Masked(prev, t);
    assert forall k :: 0 <= k < 7 ==> t[k] == BEARER[k] && o[k] == t[k];
    SpanIs(t, c, 6);
    SpanIs(o, c, 6);
  }

  // So do the colon and the slashes of `://`.
  lemma SchemeStop(prev: bool, t: Text, c: Class)
    requires (c == User || c == Password) && SCHEME_END <= t && Hit(prev, t).Some? && Hit(prev, t).value.0 > 3
    ensures SameStop(t, Masked(prev, t), c)
  {
    var o := Masked(prev, t);
    assert forall k :: 0 <= k < 3 ==> t[k] == SCHEME_END[k] && o[k] == t[k];
    if c == User {
      StopInFront(prev, t, c);
    } else {
      SpanIs(t, c, 1);
      SpanIs(o, c, 1);
    }
  }

  // ---- Masking twice ---------------------------------------------------------------------------

  // A JWT in the output was there in the input.
  lemma NoNewJwt(prev: bool, t: Text)
    requires JwtLen(Masked(prev, t)).Some?
    ensures JwtLen(t).Some?
  {
    hide JwtLen, Masked;
    var o := Masked(prev, t);
    JwtFacts(o);
    var w := o[..JwtLen(o).value];
    PrefixBack(prev, t, w);
    JwtStays(o, t);
  }

  lemma JwtStays(o: Text, t: Text)
    requires JwtLen(o).Some? && o[..JwtLen(o).value] <= t
    ensures JwtLen(t).Some?
  {
    hide Span;
    var end := JwtLen(o).value;
    assert forall i :: 0 <= i < end ==> t[i] == o[i];
    var header := Span(o, Base64Url);
    SpanIs(t, Base64Url, header);
    var payload := Span(o[header + 1..], Base64Url);
    var dot := header + 1 + payload;
    SameAhead(o, t, end, header + 1);
    SpanIs(t[header + 1..], Base64Url, payload);
    SameAhead(o, t, end, dot + 1);
    NotEmptySpan(o[dot + 1..], t[dot + 1..], Base64Url);
  }

  // Texts that agree as far as `end` agree so from a place before it.
  lemma SameAhead(o: Text, t: Text, end: nat, at: nat)
    requires at <= end <= |o| && end <= |t| && forall i :: 0 <= i < end ==> t[i] == o[i]
    ensures forall i :: 0 <= i < end - at ==> t[at..][i] == o[at..][i]
  {
  }

  lemma NotEmptySpan(o: Text, t: Text, c: Class)
    requires o != [] && t != [] && t[0] == o[0] && Span(o, c) > 0
    ensures Span(t, c) > 0
  {
  }

  // A password in the output, past a `://` not masked, was there in the input.
  lemma NoNewPassword(prev: bool, t: Text)
    requires UserinfoPassword(Masked(prev, t)).Some?
    ensures UserinfoPassword(t).Some?
  {
    FirstStop(prev, t, User);
    var o := Masked(prev, t);
    var i, j := Span(t, User), Span(o, User);
    var p :| o[j..] == Masked(p, t[i..]);
    AfterColon(p, t[i..]);
    assert o[j..][1..] == o[j + 1..] && t[i..][1..] == t[i + 1..];
    var start := j + 1;
    assert o[start..][Span(o[start..], Password)] == AT_SIGN;
  }

  lemma AfterColon(p: bool, t: Text)
    requires t != [] && t[0] == COLON
    ensures var o := Masked(p, t);
            o != [] && var i, j := Span(t[1..], Password), Span(o[1..], Password);
            (i == 0 <==> j == 0) && (i == |t[1..]| <==> j == |o[1..]|) && (i < |t[1..]| ==> t[1..][i] == o[1..][j])
  {
    var o := Masked(p, t);
    if Hit(p, t).None? {
      FirstStop(IsBase64Url(t[0]), t[1..], Password);
      assert o[1..] == Masked(IsBase64Url(t[0]), t[1..]);
    } else {
      HitFacts(p, t);
      assert BEARER[0] == 66 && SCHEME_END[1] == SLASH;
      assert o[1] == t[1] == SLASH;
      assert o[1..][0] == SLASH && t[1..][0] == SLASH;
    }
  }

  lemma BearerHasNoBracket()
    ensures NoBracket(BEARER)
  {
    assert BEARER[..3] == [66, 101, 97] && BEARER[3..] == [114, 101, 114, 32];
    forall i | 0 <= i < 7
      ensures BEARER[i] != 91 && BEARER[i] != 93
    {
      assert i < 3 ==> BEARER[i] == BEARER[..3][i];
      assert i >= 3 ==> BEARER[i] == BEARER[3..][i - 3];
    }
  }

  // Where nothing is masked, nothing is in what comes out.
  lemma NoneStays(prev: bool, t: Text)
    requires t != [] && Hit(prev, t).None?
    ensures Hit(prev, Masked(prev, t)).None?
  {
    var o := Masked(prev, t);
    if BEARER <= o {
      BearerHasNoBracket();
      PrefixBack(prev, t, BEARER);
      BearerNone(prev, t);
    } else if JWT_HEAD <= o && !prev {
      PrefixBack(prev, t, JWT_HEAD);
      assert !(BEARER <= t) by { assert JWT_HEAD[0] == t[0] && BEARER[0] == 66; }
      if JwtLen(o).Some? {
        NoNewJwt(prev, t);
      }
    } else if SCHEME_END <= o {
      PrefixBack(prev, t, SCHEME_END);
      SchemeNone(prev, t);
    }
  }

  lemma BearerNone(prev: bool, t: Text)
    requires BEARER <= t && Hit(prev, t).None?
    ensures Hit(prev, Masked(prev, t)).None?
  {
    var rest := BEARER[1..] + t[7..];
    var o := Masked(prev, t);
    assert t[1..] == rest;
    PassThrough(true, BEARER[1..], t[7..]);
    assert o == BEARER + Masked(false, t[7..]);
    assert o[7..] == Masked(false, t[7..]);
    if t[7..] != [] {
      assert !Credential.Accepts(t[7..][0]);
      assert t[7..][0] != 101;
      FirstAfter(false, t[7..]);
    }
  }

  // A byte that starts no JWT comes out first, as it went in.
  lemma FirstAfter(prev: bool, t: Text)
    requires t != [] && t[0] != 101
    ensures Masked(prev, t) != [] && Masked(prev, t)[0] == t[0]
  {
    if Hit(prev, t).Some? {
      HitFacts(prev, t);
    }
    FirstByte(prev, t);
  }

  lemma SchemeNone(prev: bool, t: Text)
    requires SCHEME_END <= t && Hit(prev, t).None?
    ensures Hit(prev, Masked(prev, t)).None?
  {
    assert t[0] == SCHEME_END[0] == COLON;
    assert !(BEARER <= t) && !(JWT_HEAD <= t) by { assert BEARER[0] == 66 && JWT_HEAD[0] == 101; }
    var o := Masked(prev, t);
    assert t[1..] == SCHEME_END[1..] + t[3..];
    PassThrough(false, SCHEME_END[1..], t[3..]);
    assert o == SCHEME_END + Masked(false, t[3..]);
    assert o[3..] == Masked(false, t[3..]);
    assert o[0] == COLON;
    assert !(BEARER <= o) && !(JWT_HEAD <= o) by { assert BEARER[0] == 66 && JWT_HEAD[0] == 101; }
    if UserinfoPassword(o[3..]).Some? {
      NoNewPassword(false, t[3..]);
    }
  }

  // What follows a mask comes out the same again, whatever is taken to come before it.
  lemma RestTwice(p: bool, p': bool, u: Text)
    requires u == [] || u[0] != 101
    requires Masked(p, Masked(p, u)) == Masked(p, u)
    ensures Masked(p', Masked(p, u)) == Masked(p, u)
  {
    if u != [] {
      FirstAfter(p, u);
    }
    PrevMatters(p', p, Masked(p, u));
  }

  lemma JwtTwice(prev: bool, r: Text)
    requires Masked(false, r) == r
    ensures Masked(prev, MASK + r) == MASK + r
  {
    PassThrough(prev, MASK, r);
  }

  lemma BearerTwice(prev: bool, r: Text)
    requires Masked(false, r) == r
    ensures Masked(prev, BEARER + MASK + r) == BEARER + MASK + r
  {
    hide Masked;
    var o := BEARER + MASK + r;
    NoCredentialInMask(prev, r);
    var tail := BEARER[1..] + MASK;
    assert o == [66] + (tail + r);
    assert o[1..] == tail + r;
    MaskedNone(prev, o);
    BearerIsPassive();
    hide Hit;
    PassThrough(true, tail, r);
  }

  lemma MaskedNone(prev: bool, t: Text)
    requires t != [] && Hit(prev, t).None?
    ensures Masked(prev, t) == [t[0]] + Masked(IsBase64Url(t[0]), t[1..])
  {
  }

  lemma NoCredentialInMask(prev: bool, r: Text)
    ensures Hit(prev, BEARER + MASK + r).None?
  {
    var o := BEARER + MASK + r;
    assert o[7..] == MASK + r;
    assert o[7..][0] == 91;
    assert BEARER <= o;
  }

  lemma BearerIsPassive()
    ensures Passive(true, BEARER[1..] + MASK) && !Before(true, BEARER[1..] + MASK, |BEARER[1..] + MASK|)
  {
    var tail := BEARER[1..] + MASK;
    assert tail == [101, 97, 114, 101, 114, 32, 91, 82, 69, 68, 65, 67, 84, 69, 68, 93];
    assert tail[..4] == [101, 97, 114, 101] && tail[4..8] == [114, 32, 91, 82];
    assert tail[8..12] == [69, 68, 65, 67] && tail[12..] == [84, 69, 68, 93];
  }

  lemma PasswordTwice(prev: bool, head: Text, r: Text)
    requires SCHEME_END <= head && |head| > 3 && Span(head[3..], User) == |head| - 4 && head[|head|-1] == COLON
    requires r != [] && r[0] == AT_SIGN && Masked(false, r) == r
    ensures Masked(prev, head + MASK + r) == head + MASK + r
  {
    var o := head + MASK + r;
    var n := |head|;
    assert o[0] == SCHEME_END[0] == COLON;
    assert !(BEARER <= o) && !(JWT_HEAD <= o) by { assert BEARER[0] == 66 && JWT_HEAD[0] == 101; }
    assert SCHEME_END <= o;
    UserinfoOf(head, r);
    assert Hit(prev, o) == Some((n, n + 10));
    assert o[..n] == head && o[n + 10..] == r && o[n + 9] == 93;
  }

  lemma EmptySpan(t: Text, c: Class)
    requires t != [] && !c.Accepts(t[0])
    ensures Span(t, c) == 0
  {
  }

  lemma MaskIsPassword()
    ensures forall i :: 0 <= i < |MASK| ==> Password.Accepts(MASK[i]) && User.Accepts(MASK[i])
  {
  }

  lemma UserinfoOf(head: Text, r: Text)
    requires |head| > 3 && Span(head[3..], User) == |head| - 4 && head[|head|-1] == COLON
    requires r != [] && r[0] == AT_SIGN
    ensures UserinfoPassword((head + MASK + r)[3..]) == Some((|head| - 3, |head| + 7))
  {
    hide Span;
    var user := head[3..];
    var o := user + MASK + r;
    var n := |user|;
    assert (head + MASK + r)[3..] == o;
    assert forall i :: 0 <= i < n ==> o[i] == user[i];
    SpanIs(o, User, n - 1);
    assert o[n..] == MASK + r;
    MaskIsPassword();
    SpanSplit(MASK, r, Password);
    EmptySpan(r, Password);
    assert o[n + 10] == r[0];
  }

  lemma {:induction false} MaskedTwice(prev: bool, t: Text)
    ensures Masked(prev, Masked(prev, t)) == Masked(prev, t)
    decreases |t|
  {
    var o := Masked(prev, t);
    if t == [] {
    } else if Hit(prev, t).None? {
      NoneStays(prev, t);
      MaskedTwice(IsBase64Url(t[0]), t[1..]);
      assert o[0] == t[0] && o[1..] == Masked(IsBase64Url(t[0]), t[1..]);
    } else {
      var (start, end) := Hit(prev, t).value;
      MaskedTwice(IsBase64Url(t[end-1]), t[end..]);
      HitTwice(prev, t);
    }
  }

  // What is masked at once: the output is what comes before the mask, the mask, and the rest masked.
  lemma MaskedHit(prev: bool, t: Text)
    requires Hit(prev, t).Some?
    ensures var (start, end) := Hit(prev, t).value;
            Masked(prev, t) == t[..start] + MASK + Masked(IsBase64Url(t[end-1]), t[end..])
  {
  }

  lemma HitTwice(prev: bool, t: Text)
    requires Hit(prev, t).Some?
    requires var end := Hit(prev, t).value.1;
             var p := IsBase64Url(t[end-1]);
             Masked(p, Masked(p, t[end..])) == Masked(p, t[end..])
    ensures Masked(prev, Masked(prev, t)) == Masked(prev, t)
  {
    hide Masked, Hit, JwtLen, UserinfoPassword;
    HitFacts(prev, t);
    MaskedHit(prev, t);
    var (start, end) := Hit(prev, t).value;
    var p := IsBase64Url(t[end-1]);
    var r := Masked(p, t[end..]);
    assert end < |t| ==> t[end..][0] == t[end];
    RestTwice(p, false, t[end..]);
    assert BEARER[0] == 66 && SCHEME_END[0] == COLON;
    if BEARER <= t {
      assert t[0] == BEARER[0];
      assert t[..start] == BEARER;
      BearerTwice(prev, r);
    } else if start == 0 {
      assert t[..start] + MASK + r == MASK + r;
      JwtTwice(prev, r);
    } else {
      PasswordHead(t, start, end);
      FirstAfter(p, t[end..]);
      PasswordTwice(prev, t[..start], r);
    }
  }

  lemma PasswordHead(t: Text, start: nat, end: nat)
    requires SCHEME_END <= t && 3 < start <= end <= |t| && UserinfoPassword(t[3..]) == Some((start - 3, end - 3))
    ensures SCHEME_END <= t[..start] && Span(t[..start][3..], User) == start - 4 && t[start-1] == COLON
  {
    var u := t[3..];
    var head := t[..start][3..];
    assert forall i :: 0 <= i < |head| ==> head[i] == u[i];
    SpanIs(head, User, start - 4);
    assert u[start - 4] == t[start - 1];
  }

  /** Masking what has been masked changes nothing. */
  lemma MaskingIsIdempotent(t: Text)
    ensures MaskTokenShapes(MaskTokenShapes(t)) == MaskTokenShapes(t)
  {
    MaskedTwice(false, t);
  }
}
