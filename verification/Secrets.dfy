/** The registry of secret values, and the redaction of a text by it. */
module Secrets {
  import opened Wrappers
  import opened Bytes
  import opened Utf8
  import opened TokenShapes
  import opened TokenScan

  const MIN_SECRET_LEN := 8

  // "REDACTED".
  const REDACTED: Text := [82, 69, 68, 65, 67, 84, 69, 68]

  // ---- The registry ----------------------------------------------------------------------------

  // A stable sort, longest first: each value goes behind those at least as long.
  function SortLongestFirst(values: seq<Text>): seq<Text> {
    if values == [] then []
    else Insert(SortLongestFirst(values[..|values|-1]), values[|values|-1])
  }

  function Insert(sorted: seq<Text>, value: Text): seq<Text> {
    if sorted == [] || |sorted[|sorted|-1]| >= |value| then sorted + [value]
    else Insert(sorted[..|sorted|-1], value) + [sorted[|sorted|-1]]
  }

  // What `register` makes of the registry, for a value already trimmed.
  function Registered(secrets: seq<Text>, value: Text): seq<Text> {
    if |value| < MIN_SECRET_LEN || value in secrets then secrets else SortLongestFirst(secrets + [value])
  }

  function RegisteredAll(values: seq<Text>): seq<Text> {
    if values == [] then [] else Registered(RegisteredAll(values[..|values|-1]), values[|values|-1])
  }

  function Trimmed(texts: seq<Text>): seq<Text> {
    if texts == [] then [] else Trimmed(texts[..|texts|-1]) + [Trim(texts[|texts|-1])]
  }

  // The registry after registering the texts in turn.
  function RegistryOf(texts: seq<Text>): seq<Text> {
    if texts == [] then [] else Registered(RegistryOf(texts[..|texts|-1]), Trim(texts[|texts|-1]))
  }

  predicate LongestFirst(secrets: seq<Text>) {
    forall i, j :: 0 <= i < j < |secrets| ==> |secrets[i]| >= |secrets[j]|
  }

  ghost predicate RegistryOk(secrets: seq<Text>) {
    && LongestFirst(secrets)
    && (forall i, j :: 0 <= i < j < |secrets| ==> secrets[i] != secrets[j])
    && (forall i :: 0 <= i < |secrets| ==> |secrets[i]| >= MIN_SECRET_LEN)
  }

  // ---- Redaction -------------------------------------------------------------------------------

  // The first place a text contains a word.
  function Find(t: Text, w: Text): (at: Option<nat>)
    ensures at.Some? ==> at.value + |w| <= |t|
  {
    if w <= t then Some(0)
    else if t == [] then None
    else match Find(t[1..], w) case Some(i) => Some(i + 1) case None => None
  }

  // `str::replace`: every occurrence, leftmost first, none overlapping.
  function Replace(t: Text, w: Text): Text
    requires w != []
    decreases |t|
  {
    match Find(t, w)
    case None => t
    case Some(i) => t[..i] + MASK + Replace(t[i+|w|..], w)
  }

  predicate NonEmpty(secrets: seq<Text>) {
    forall i :: 0 <= i < |secrets| ==> secrets[i] != []
  }

  function ReplaceAll(t: Text, secrets: seq<Text>): Text
    requires NonEmpty(secrets)
  {
    if secrets == [] then t else Replace(ReplaceAll(t, secrets[..|secrets|-1]), secrets[|secrets|-1])
  }

  function Redact(secrets: seq<Text>, t: Text): Text
    requires NonEmpty(secrets)
  {
    MaskTokenShapes(ReplaceAll(t, secrets))
  }

  class SecretRegistry {
    var secrets: seq<Text>

    constructor ()
      ensures secrets == []
    {
      secrets := [];
    }

    method Register(text: Text)
      modifies this
      ensures secrets == Registered(old(secrets), Trim(text))
    {
      var value := Trim(text);
      if |value| < MIN_SECRET_LEN {
        return;
      }
      if value in secrets {
        return;
      }
      secrets := secrets + [value];
      secrets := SortLongestFirst(secrets);
    }

    method RedactText(text: Text) returns (redacted: Text)
      requires RegistryOk(secrets) && WellFormed(text)
      requires forall s :: s in secrets ==> WellFormed(s)
      ensures redacted == Redact(secrets, text)
    {
      var out := text;
      var i := 0;
      while i < |secrets|
        invariant 0 <= i <= |secrets|
        invariant out == ReplaceAll(text, secrets[..i]) && WellFormed(out)
      {
        assert secrets[..i+1][..i] == secrets[..i];
        assert secrets[i] in secrets;
        NotFound(out, secrets[i]);
        ReplaceWellFormed(out, secrets[i]);
        if Contains(out, secrets[i]) {
          out := Replace(out, secrets[i]);
        }
        i := i + 1;
      }
      assert secrets[..i] == secrets;
      redacted := ScanTokenShapes(out);
    }
  }

  // ---- The registry's order --------------------------------------------------------------------

  // Where a value goes: behind the last of the values at least as long.
  function Place(sorted: seq<Text>, value: Text): (i: nat)
    ensures i <= |sorted|
    ensures i > 0 ==> |sorted[i-1]| >= |value|
    ensures forall j :: i <= j < |sorted| ==> |sorted[j]| < |value|
  {
    if sorted == [] || |sorted[|sorted|-1]| >= |value| then |sorted| else Place(sorted[..|sorted|-1], value)
  }

  lemma {:induction false} InsertPlaces(sorted: seq<Text>, value: Text)
    ensures var i := Place(sorted, value); Insert(sorted, value) == sorted[..i] + [value] + sorted[i..]
  {
    var n := |sorted|;
    if sorted == [] || |sorted[n-1]| >= |value| {
      assert sorted[..n] == sorted && sorted[n..] == [];
    } else {
      InsertPlaces(sorted[..n-1], value);
      var i := Place(sorted, value);
      assert sorted[..n-1][..i] == sorted[..i];
      assert sorted[..n-1][i..] + [sorted[n-1]] == sorted[i..];
    }
  }

  lemma {:induction false} SortSorted(values: seq<Text>)
    requires LongestFirst(values)
    ensures SortLongestFirst(values) == values
  {
    if values != [] {
      SortSorted(values[..|values|-1]);
      assert values == values[..|values|-1] + [values[|values|-1]];
    }
  }

  /** Registering a new value puts it behind the values at least as long and moves nothing else. */
  lemma RegisterInserts(secrets: seq<Text>, value: Text)
    requires RegistryOk(secrets) && |value| >= MIN_SECRET_LEN && value !in secrets
    ensures var i := Place(secrets, value);
            Registered(secrets, value) == secrets[..i] + [value] + secrets[i..]
  {
    assert (secrets + [value])[..|secrets|] == secrets;
    SortSorted(secrets);
    InsertPlaces(secrets, value);
  }

  lemma RegisterKeeps(secrets: seq<Text>, value: Text)
    requires RegistryOk(secrets)
    ensures RegistryOk(Registered(secrets, value))
    ensures forall s :: s in Registered(secrets, value) <==> s in secrets || (s == value && |value| >= MIN_SECRET_LEN)
  {
    if |value| >= MIN_SECRET_LEN && value !in secrets {
      RegisterInserts(secrets, value);
      PlacedKeeps(secrets, value, Place(secrets, value));
    } else {
      assert forall s :: s in secrets ==> |s| >= MIN_SECRET_LEN;
    }
  }

  lemma PlacedKeeps(secrets: seq<Text>, value: Text, i: nat)
    requires RegistryOk(secrets) && |value| >= MIN_SECRET_LEN && value !in secrets && i <= |secrets|
    requires (i > 0 ==> |secrets[i-1]| >= |value|) && forall j :: i <= j < |secrets| ==> |secrets[j]| < |value|
    ensures var after := secrets[..i] + [value] + secrets[i..];
            RegistryOk(after) && forall s :: s in after <==> s in secrets || s == value
  {
    var after := secrets[..i] + [value] + secrets[i..];
    assert secrets == secrets[..i] + secrets[i..];
    PlacedAt(secrets, value, i);
    OrderKept(secrets, value, i, after);
  }

  lemma PlacedAt(secrets: seq<Text>, value: Text, i: nat)
    requires i <= |secrets|
    ensures var after := secrets[..i] + [value] + secrets[i..];
            && |after| == |secrets| + 1
            && forall j {:trigger after[j]} :: 0 <= j < |after| ==>
               after[j] == (if j < i then secrets[j] else if j == i then value else secrets[j-1])
  {
  }

  lemma OrderKept(secrets: seq<Text>, value: Text, i: nat, after: seq<Text>)
    requires RegistryOk(secrets) && |value| >= MIN_SECRET_LEN && value !in secrets && i <= |secrets|
    requires (i > 0 ==> |secrets[i-1]| >= |value|) && forall j :: i <= j < |secrets| ==> |secrets[j]| < |value|
    requires |after| == |secrets| + 1
    requires forall j {:trigger after[j]} :: 0 <= j < |after| ==>
               after[j] == (if j < i then secrets[j] else if j == i then value else secrets[j-1])
    ensures RegistryOk(after)
  {
    forall j, k | 0 <= j < k < |after|
      ensures |after[j]| >= |after[k]| && after[j] != after[k]
    {
      var j', k' := if j < i then j else j - 1, if k < i then k else k - 1;
      assert j != i ==> after[j] == secrets[j'] && secrets[j'] in secrets;
      assert k != i ==> after[k] == secrets[k'] && secrets[k'] in secrets;
      if k == i {
        assert |secrets[j]| >= |secrets[i-1]|;
      } else if j != i {
        assert |secrets[j']| >= |secrets[k']| && secrets[j'] != secrets[k'];
      }
    }
    forall j | 0 <= j < |after|
      ensures |after[j]| >= MIN_SECRET_LEN
    {
      assert j != i ==> after[j] == secrets[if j < i then j else j - 1];
    }
  }

  /** Whatever is registered, the registry is free of duplicates, longest first, and holds exactly the long enough values. */
  lemma {:induction false} RegistryInvariant(values: seq<Text>)
    ensures RegistryOk(RegisteredAll(values))
    ensures forall s :: s in RegisteredAll(values) <==> s in values && |s| >= MIN_SECRET_LEN
  {
    if values != [] {
      var rest := values[..|values|-1];
      RegistryInvariant(rest);
      RegisterKeeps(RegisteredAll(rest), values[|values|-1]);
      assert values == rest + [values[|values|-1]];
    }
  }

  /** A registry holds, of the texts registered, those that trimmed are long enough, as trimmed. */
  lemma {:induction false} RegistryIsOfTrimmed(texts: seq<Text>)
    ensures RegistryOf(texts) == RegisteredAll(Trimmed(texts))
    ensures forall s :: s in RegistryOf(texts) <==> |s| >= MIN_SECRET_LEN && exists x :: x in texts && Trim(x) == s
  {
    hide Trim;
    if texts != [] {
      var rest, last := texts[..|texts|-1], texts[|texts|-1];
      RegistryIsOfTrimmed(rest);
      assert Trimmed(texts)[..|texts|-1] == Trimmed(rest) by { TrimmedLen(rest); }
      TrimmedLen(texts);
      RegistryInvariant(Trimmed(rest));
      RegisterKeeps(RegistryOf(rest), Trim(last));
      assert texts == rest + [last];
    }
  }

  lemma {:induction false} TrimmedLen(texts: seq<Text>)
    ensures |Trimmed(texts)| == |texts|
  {
    if texts != [] {
      TrimmedLen(texts[..|texts|-1]);
    }
  }

  // ---- What replacing leaves -------------------------------------------------------------------

  predicate At(t: Text, w: Text, k: int) {
    0 <= k <= |t| && w <= t[k..]
  }

  lemma {:induction false} FindIsFirst(t: Text, w: Text)
    ensures match Find(t, w)
            case Some(i) => At(t, w, i) && forall k :: 0 <= k < i ==> !At(t, w, k)
            case None => forall k :: !At(t, w, k)
  {
    if w <= t {
      assert t[0..] == t;
    } else if t == [] {
      forall k
        ensures !At(t, w, k)
      {
        assert 0 <= k <= |t| ==> t[k..] == t;
      }
    } else {
      FindIsFirst(t[1..], w);
      forall k | 0 <= k <= |t|
        ensures At(t, w, k) <==> k > 0 && At(t[1..], w, k - 1)
      {
        assert t[0..] == t;
        assert k > 0 ==> t[1..][k-1..] == t[k..];
      }
    }
  }

  lemma NotFound(t: Text, w: Text)
    requires w != []
    ensures !Contains(t, w) ==> Replace(t, w) == t
    ensures Contains(t, w) <==> exists k :: At(t, w, k)
  {
    FindIsFirst(t, w);
    if Contains(t, w) {
      var k :| 0 <= k <= |t| && w <= t[k..];
      assert At(t, w, k);
    }
  }

  // A word and the mask agree wherever they both are, the word starting `d` bytes into the mask (or before it).
  predicate OverlapsAt(w: Text, d: int) {
    && -|w| < d < |MASK|
    && forall i :: 0 <= i < |w| && 0 <= d + i < |MASK| ==> w[i] == MASK[d+i]
  }

  /** No copy of the word shares a byte with the mask. */
  predicate ClearOfMask(w: Text) {
    forall d :: -|w| < d < |MASK| ==> !OverlapsAt(w, d)
  }

  // Around a mask, a word is before it, behind it, or overlaps it.
  lemma AroundMask(a: Text, r: Text, w: Text, k: int)
    requires At(a + MASK + r, w, k)
    ensures k + |w| <= |a| ==> At(a, w, k)
    ensures k >= |a| + |MASK| ==> At(r, w, k - |a| - |MASK|)
    ensures |a| < k + |w| && k < |a| + |MASK| ==> OverlapsAt(w, k - |a|)
  {
    var o := a + MASK + r;
    var d := k - |a|;
    assert forall i :: 0 <= i < |w| ==> w[i] == o[k+i];
    if k + |w| <= |a| {
      assert forall i :: 0 <= i < |w| ==> a[k..][i] == o[k+i];
    } else if d >= |MASK| {
      assert o[k..] == r[d-|MASK|..];
    } else {
      forall i | 0 <= i < |w| && 0 <= d + i < |MASK|
        ensures w[i] == MASK[d+i]
      {
        assert o[k+i] == MASK[d+i];
      }
    }
  }

  lemma Deeper(t: Text, i: nat, w: Text, k: int)
    requires i <= |t| && At(t[i..], w, k)
    ensures At(t, w, i + k)
  {
    assert t[i..][k..] == t[i+k..];
  }

  lemma Shallower(t: Text, i: nat, w: Text, k: int)
    requires i <= |t| && At(t[..i], w, k)
    ensures At(t, w, k)
  {
    assert t[..i][k..] + t[i..] == t[k..];
  }

  // Masking brings about no word that is clear of the mask.
  lemma {:induction false} ReplaceBringsNone(t: Text, v: Text, w: Text, k: int)
    requires v != [] && ClearOfMask(w) && w != [] && At(Replace(t, v), w, k)
    ensures exists j :: At(t, w, j)
    decreases |t|
  {
    var at := Find(t, v);
    if at.Some? {
      var i := at.value;
      var rest := Replace(t[i+|v|..], v);
      AroundMask(t[..i], rest, w, k);
      if k + |w| <= i {
        Shallower(t, i, w, k);
      } else if k >= i + |MASK| {
        ReplaceBringsNone(t[i+|v|..], v, w, k - i - |MASK|);
        var j :| At(t[i+|v|..], w, j);
        Deeper(t, i + |v|, w, j);
      }
    }
  }

  lemma {:induction false} MaskingBringsNone(prev: bool, t: Text, w: Text, k: int)
    requires ClearOfMask(w) && w != [] && At(Masked(prev, t), w, k)
    ensures exists j :: At(t, w, j)
    decreases |t|
  {
    FirstHitParts(prev, t);
    hide Masked;
    var (gap, p, n) := FirstHit(prev, t);
    if n == 0 {
      assert At(t, w, k);
    } else {
      var rest := Masked(p, t[n..]);
      AroundMask(t[..gap], rest, w, k);
      if k + |w| <= gap {
        Shallower(t, gap, w, k);
      } else if k >= gap + |MASK| {
        MaskingBringsNone(p, t[n..], w, k - gap - |MASK|);
        var j :| At(t[n..], w, j);
        Deeper(t, n, w, j);
      }
    }
  }

  // The text before the first mask, what comes before the rest, and how much of the text that takes; nothing masked
  // takes none.
  function FirstHit(prev: bool, t: Text): (r: (nat, bool, nat))
    ensures r.2 <= |t| && r.0 <= |t|
    decreases |t|
  {
    if t == [] then (0, prev, 0)
    else
      match Hit(prev, t)
      case Some((start, end)) => (start, IsBase64Url(t[end-1]), end)
      case None =>
        var (gap, p, n) := FirstHit(IsBase64Url(t[0]), t[1..]);
        if n == 0 then (0, prev, 0) else (gap + 1, p, n + 1)
  }

  lemma {:induction false} FirstHitParts(prev: bool, t: Text)
    ensures var (gap, p, n) := FirstHit(prev, t);
            if n == 0 then Masked(prev, t) == t else Masked(prev, t) == t[..gap] + MASK + Masked(p, t[n..])
    decreases |t|
  {
    hide Hit, Masked, IsBase64Url;
    if t == [] {
      MaskedNothing(prev);
    } else if Hit(prev, t).Some? {
      MaskedHit(prev, t);
    } else {
      FirstHitParts(IsBase64Url(t[0]), t[1..]);
      MaskedNone(prev, t);
      var (gap, p, n) := FirstHit(IsBase64Url(t[0]), t[1..]);
      if n == 0 {
        assert t == [t[0]] + t[1..];
      } else {
        assert t[1..][n..] == t[n+1..];
        assert [t[0]] + t[1..][..gap] == t[..gap+1];
        Glue([t[0]], t[1..][..gap], Masked(p, t[n+1..]));
      }
    }
  }

  lemma Glue(b: Text, gap: Text, rest: Text)
    ensures b + (gap + MASK + rest) == b + gap + MASK + rest
  {
  }

  // ---- When a secret survives ------------------------------------------------------------------

  /** A replaced word can show again where its masking makes it: over a mask that the word's own first place brought. */
  predicate Surfaces(w: Text) {
    exists d :: -|w| < d < |MASK| && OverlapsAt(w, d) && (d < 0 ==> Find(w[..-d] + w, w) == Some(-d))
  }

  lemma {:induction false} SurvivorSurfaces(t: Text, w: Text, k: int)
    requires w != [] && At(Replace(t, w), w, k)
    ensures Surfaces(w)
    decreases |t|
  {
    hide Find, ClearOfMask;
    FindIsFirst(t, w);
    if Find(t, w).Some? {
      var i := Find(t, w).value;
      AroundMask(t[..i], Replace(t[i+|w|..], w), w, k);
      if k + |w| <= i {
        Shallower(t, i, w, k);
      } else if k < i + |MASK| {
        var d := k - i;
        if d < 0 {
          FirstInContext(t, w, i, -d, Replace(t[i+|w|..], w));
        }
        assert OverlapsAt(w, d);
      } else {
        SurvivorSurfaces(t[i+|w|..], w, k - i - |MASK|);
      }
    }
  }

  // The word's first place in the text is its first place behind the bytes that lead to it.
  lemma FirstInContext(t: Text, w: Text, i: nat, a: nat, r: Text)
    requires w != [] && Find(t, w) == Some(i) && 0 < a <= i && a < |w|
    requires At(t[..i] + MASK + r, w, i - a)
    ensures Find(w[..a] + w, w) == Some(a)
  {
    hide Find;
    LeadsTo(t[..i], r, w, a);
    FindIsFirst(t, w);
    var u := t[i-a..i+|w|];
    Around(t, w, i, a);
    FindIsFirst(u, w);
    assert u[a..] == w && At(u, w, a);
    forall k | 0 <= k < a
      ensures !At(u, w, k)
    {
      if At(u, w, k) {
        Within(t, i - a, i + |w|, w, k);
      }
    }
  }

  lemma Around(t: Text, w: Text, i: nat, a: nat)
    requires a <= i <= |t| && a < |w| && w <= t[i..] && t[..i][i-a..] == w[..a]
    ensures t[i-a..i+|w|] == w[..a] + w
  {
    assert t[i..][..|w|] == w == t[i..i+|w|];
    assert t[i-a..i] == w[..a];
  }

  lemma LeadsTo(before: Text, r: Text, w: Text, a: nat)
    requires a <= |before| && a < |w| && At(before + MASK + r, w, |before| - a)
    ensures before[|before|-a..] == w[..a]
  {
    var o := before + MASK + r;
    var k := |before| - a;
    assert o[k..][..a] == before[k..];
    assert w[..a] == o[k..][..|w|][..a];
  }

  lemma Within(t: Text, lo: nat, hi: nat, w: Text, k: int)
    requires lo <= hi <= |t| && At(t[lo..hi], w, k)
    ensures At(t, w, lo + k)
  {
    assert t[lo..hi][k..] + t[hi..] == t[lo+k..];
  }

  lemma SurfacingSurvives(w: Text, d: int) returns (t: Text)
    requires w != [] && OverlapsAt(w, d) && (d < 0 ==> Find(w[..-d] + w, w) == Some(-d))
    ensures At(Replace(t, w), w, if d < 0 then 0 else d)
    ensures forall b :: b in Replace(t, w) ==> b in w || b in MASK
  {
    hide Find, Replace;
    var a := if d < 0 then -d else 0;
    var past := d + |w| - |MASK|;
    var pre := w[..a];
    var post := if past > 0 then w[|w|-past..] else [];
    t := pre + w + post;
    FirstOf(w, a, post);
    ReplaceParts(t, w);
    assert t[..a] == pre && t[a+|w|..] == post;
    ShortStays(post, w);
    ShowsAgain(w, d, a, post);
  }

  // Between the bytes that lead to it and those that follow it, the mask shows the word.
  lemma ShowsAgain(w: Text, d: int, a: nat, post: Text)
    requires OverlapsAt(w, d) && a == (if d < 0 then -d else 0)
    requires post == (if d + |w| > |MASK| then w[|MASK|-d..] else [])
    ensures At(w[..a] + MASK + post, w, if d < 0 then 0 else d)
  {
    var o := w[..a] + MASK + post;
    var k := if d < 0 then 0 else d;
    forall i | 0 <= i < |w|
      ensures k + i < |o| && o[k+i] == w[i]
    {
      if i >= a && d + i < |MASK| {
        assert o[k+i] == MASK[d+i];
      }
    }
    assert w == o[k..][..|w|];
  }

  lemma FirstOf(w: Text, a: nat, post: Text)
    requires w != [] && a <= |w| && (a > 0 ==> Find(w[..a] + w, w) == Some(a))
    ensures Find(w[..a] + w + post, w) == Some(a)
  {
    hide Find;
    var u := w[..a] + w;
    var t := u + post;
    FindIsFirst(t, w);
    FindIsFirst(u, w);
    assert t[a..] == w + post;
    assert At(t, w, a);
    forall k | 0 <= k < a
      ensures At(t, w, k) ==> At(u, w, k)
    {
      if At(t, w, k) {
        assert t[k..][..|w|] == u[k..][..|w|];
      }
    }
  }

  lemma ShortStays(t: Text, w: Text)
    requires w != [] && |t| < |w|
    ensures Replace(t, w) == t
  {
    FindIsFirst(t, w);
  }

  predicate Survives(t: Text, w: Text)
    requires w != []
  {
    Contains(Replace(t, w), w)
  }

  /** A word can be left in a text whose copies of it are replaced if and only if it surfaces. */
  lemma WordSurvivesIffItSurfaces(w: Text)
    requires w != []
    ensures (exists t :: Survives(t, w)) <==> Surfaces(w)
  {
    if t :| Survives(t, w) {
      NotFound(Replace(t, w), w);
      var k :| At(Replace(t, w), w, k);
      SurvivorSurfaces(t, w, k);
    }
    if Surfaces(w) {
      var d :| -|w| < d < |MASK| && OverlapsAt(w, d) && (d < 0 ==> Find(w[..-d] + w, w) == Some(-d));
      var t := SurfacingSurvives(w, d);
      NotFound(Replace(t, w), w);
      assert Survives(t, w);
    }
  }

  lemma OverlapByte(w: Text, d: int, i: int)
    requires OverlapsAt(w, d) && 0 <= i < |w| && 0 <= d + i < |MASK|
    ensures w[i] == MASK[d+i]
  {
  }

  lemma PlainOverlap(w: Text, d: int)
    requires |w| >= MIN_SECRET_LEN && NoBracket(w) && OverlapsAt(w, d)
    ensures w == REDACTED
  {
    if d <= 0 {
      OverlapByte(w, d, -d);
    } else if d + |w| > 9 {
      OverlapByte(w, d, 9 - d);
    } else {
      assert forall i :: 0 <= i < 8 ==> w[i] == MASK[1+i];
      assert MASK[1..9] == REDACTED;
    }
  }

  /** The values a host need not fear for: those without brackets, but for the mask's own word. */
  lemma PlainSecretsAreClear(w: Text)
    requires |w| >= MIN_SECRET_LEN && NoBracket(w) && w != REDACTED
    ensures ClearOfMask(w) && !Surfaces(w)
  {
    forall d | -|w| < d < |MASK|
      ensures !OverlapsAt(w, d)
    {
      if OverlapsAt(w, d) {
        PlainOverlap(w, d);
      }
    }
  }

  lemma ReplaceRemoves(t: Text, w: Text)
    requires w != [] && ClearOfMask(w)
    ensures !Contains(Replace(t, w), w)
  {
    NotFound(Replace(t, w), w);
    if k :| At(Replace(t, w), w, k) {
      SurvivorSurfaces(t, w, k);
    }
  }

  lemma ReplaceKeepsAway(t: Text, v: Text, w: Text)
    requires v != [] && w != [] && ClearOfMask(w) && !Contains(t, w)
    ensures !Contains(Replace(t, v), w)
  {
    NotFound(t, w);
    NotFound(Replace(t, v), w);
    if k :| At(Replace(t, v), w, k) {
      ReplaceBringsNone(t, v, w, k);
    }
  }

  lemma {:induction false} ReplacedAway(t: Text, secrets: seq<Text>, w: Text)
    requires NonEmpty(secrets) && w in secrets && ClearOfMask(w)
    ensures !Contains(ReplaceAll(t, secrets), w)
    decreases |secrets|
  {
    var rest, last := secrets[..|secrets|-1], secrets[|secrets|-1];
    if last == w {
      ReplaceRemoves(ReplaceAll(t, rest), w);
    } else {
      assert w in rest;
      ReplacedAway(t, rest, w);
      ReplaceKeepsAway(ReplaceAll(t, rest), last, w);
    }
  }

  /**
   * Whatever has been registered, no registered secret that is clear of the mask is in a redacted text, in the
   * company of any other secrets; without brackets, every secret but the mask's own word is clear of it.
   */
  lemma NoSecretSurvives(values: seq<Text>, t: Text, w: Text)
    requires w in RegisteredAll(values) && (ClearOfMask(w) || (NoBracket(w) && w != REDACTED))
    ensures NonEmpty(RegisteredAll(values)) && !Contains(Redact(RegisteredAll(values), t), w)
  {
    var secrets := RegisteredAll(values);
    RegistryInvariant(values);
    if !ClearOfMask(w) {
      PlainSecretsAreClear(w);
    }
    ReplacedAway(t, secrets, w);
    NotFound(ReplaceAll(t, secrets), w);
    NotFound(Redact(secrets, t), w);
    if k :| At(Redact(secrets, t), w, k) {
      MaskingBringsNone(false, ReplaceAll(t, secrets), w, k);
    }
  }

  /** The mask's own word, registered, is in every text it is redacted from. */
  lemma MaskWordSurvives()
    ensures RegisteredAll([REDACTED]) == [REDACTED] && Contains(Redact([REDACTED], REDACTED), REDACTED)
  {
    OneSecret(REDACTED);
    hide Replace, RegisteredAll, Masked;
    MaskWordReplaced();
    MaskedNothing(false);
    JwtTwice(false, []);
    assert MASK + [] == MASK;
    assert MASK[1..] == REDACTED + [93];
  }

  lemma OneSecret(w: Text)
    requires |w| >= MIN_SECRET_LEN
    ensures RegisteredAll([w]) == [w] && ReplaceAll(w, [w]) == Replace(w, w)
  {
    assert [w][..0] == [];
    assert RegisteredAll([]) == [];
    assert [] + [w] == [w];
    assert SortLongestFirst([]) == [];
    assert ReplaceAll(w, []) == w;
  }

  lemma MaskWordReplaced()
    ensures Replace(REDACTED, REDACTED) == MASK
  {
    assert REDACTED[8..] == [];
    assert Replace([], REDACTED) == [];
    assert REDACTED[..0] + MASK + [] == MASK;
  }

  /** Redacting what has been redacted changes nothing, when every secret is clear of the mask. */
  lemma RedactingIsIdempotent(values: seq<Text>, t: Text)
    requires forall w :: w in RegisteredAll(values) ==> ClearOfMask(w)
    ensures NonEmpty(RegisteredAll(values))
    ensures Redact(RegisteredAll(values), Redact(RegisteredAll(values), t)) == Redact(RegisteredAll(values), t)
  {
    var secrets := RegisteredAll(values);
    RegistryInvariant(values);
    var o := Redact(secrets, t);
    forall w | w in secrets
      ensures !Contains(o, w)
    {
      NoSecretSurvives(values, t, w);
    }
    NothingToReplace(o, secrets);
    MaskingIsIdempotent(ReplaceAll(t, secrets));
  }

  lemma {:induction false} NothingToReplace(t: Text, secrets: seq<Text>)
    requires NonEmpty(secrets) && forall s :: s in secrets ==> !Contains(t, s)
    ensures ReplaceAll(t, secrets) == t
  {
    if secrets != [] {
      NothingToReplace(t, secrets[..|secrets|-1]);
      assert secrets[|secrets|-1] in secrets;
      NotFound(t, secrets[|secrets|-1]);
    }
  }

  // ---- Redacted text is still valid text -------------------------------------------------------

  lemma {:induction false} WellFormedJoin(a: Text, b: Text)
    requires WellFormed(a) && WellFormed(b)
    ensures WellFormed(a + b)
    decreases |a|
  {
    hide CharLen;
    if a == [] {
      assert a + b == b;
    } else {
      var n := CharLen(a[0]);
      WellFormedJoin(a[n..], b);
      FirstChar(a, b, n);
    }
  }

  lemma FirstChar(a: Text, b: Text, n: nat)
    requires 0 < n <= |a|
    ensures (a + b)[n..] == a[n..] + b && forall i :: 0 <= i < n ==> (a + b)[i] == a[i]
  {
  }

  lemma {:induction false} PrefixWellFormed(t: Text, i: nat)
    requires WellFormed(t) && IsBoundary(t, i)
    ensures WellFormed(t[..i])
    decreases |t|
  {
    if i > 0 {
      var n := CharLen(t[0]);
      assert i >= n;
      assert i < |t| ==> t[n..][i-n] == t[i];
      PrefixWellFormed(t[n..], i - n);
      assert t[..i][n..] == t[n..][..i-n];
    }
  }

  lemma {:induction false} TrimStartWellFormed(t: Text)
    requires WellFormed(t)
    ensures WellFormed(TrimStart(t))
  {
    var n := SpaceLen(t);
    if n > 0 {
      SpaceIsAChar(t, n);
      TrimStartWellFormed(t[n..]);
    }
  }

  lemma SpaceIsAChar(t: Text, n: nat)
    requires n <= |t| && IsSpaceChar(t[..n])
    ensures CharLen(t[0]) == n
  {
    assert t[..n][0] == t[0];
  }

  lemma {:induction false} TrimEndWellFormed(t: Text)
    requires WellFormed(t)
    ensures WellFormed(TrimEnd(t))
  {
    var n := LastSpaceLen(t);
    if n > 0 {
      assert t[|t|-n..][0] == t[|t|-n];
      PrefixWellFormed(t, |t| - n);
      TrimEndWellFormed(t[..|t|-n]);
    }
  }

  /** What is registered of a text of whole characters is so itself. */
  lemma TrimWellFormed(t: Text)
    requires WellFormed(t)
    ensures WellFormed(Trim(t))
  {
    TrimStartWellFormed(t);
    TrimEndWellFormed(TrimStart(t));
  }

  lemma MaskWellFormed()
    ensures WellFormed(MASK)
  {
    assert WellFormed([]);
    assert MASK[1..] == [82, 69, 68, 65, 67, 84, 69, 68, 93];
    AsciiWellFormed(MASK);
  }

  lemma {:induction false} AsciiWellFormed(t: Text)
    requires forall i :: 0 <= i < |t| ==> t[i] < 0x80
    ensures WellFormed(t)
  {
    if t != [] {
      AsciiWellFormed(t[1..]);
    }
  }

  // A whole secret found in a text starts and ends between its characters.
  lemma FoundOnBoundaries(t: Text, w: Text, i: nat)
    requires WellFormed(t) && WellFormed(w) && w != [] && At(t, w, i)
    ensures IsBoundary(t, i) && IsBoundary(t, i + |w|)
    decreases |w|
  {
    var n := CharLen(w[0]);
    assert t[i] == w[0] by { assert t[i..][0] == t[i]; }
    SuffixWellFormed(t, i);
    assert t[i..][0] == w[0];
    StartsChar(t[i..][n..]);
    assert t[i..][n..] == t[i+n..];
    assert i + n < |t| ==> t[i+n..][0] == t[i+n];
    if n < |w| {
      assert w[n..] <= t[i+n..] by { assert forall j :: 0 <= j < |w| - n ==> w[n..][j] == w[n+j] && t[i+n..][j] == t[i..][n+j]; }
      FoundOnBoundaries(t, w[n..], i + n);
    }
  }

  lemma ReplaceParts(t: Text, w: Text)
    requires w != []
    ensures Find(t, w).None? ==> Replace(t, w) == t
    ensures Find(t, w).Some? ==>
              var i := Find(t, w).value; Replace(t, w) == t[..i] + MASK + Replace(t[i+|w|..], w)
  {
    hide Find;
  }

  lemma {:induction false} ReplaceWellFormed(t: Text, w: Text)
    requires WellFormed(t) && WellFormed(w) && w != []
    ensures WellFormed(Replace(t, w))
    decreases |t|
  {
    hide WellFormed, Find, IsBoundary, Replace;
    FindIsFirst(t, w);
    ReplaceParts(t, w);
    if Find(t, w).Some? {
      var i := Find(t, w).value;
      FoundOnBoundaries(t, w, i);
      PrefixWellFormed(t, i);
      SuffixWellFormed(t, i + |w|);
      ReplaceWellFormed(t[i+|w|..], w);
      MaskWellFormed();
      WellFormedJoin(t[..i], MASK);
      WellFormedJoin(t[..i] + MASK, Replace(t[i+|w|..], w));
    }
  }
}
