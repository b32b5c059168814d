/** Slack's `mrkdwn`: the three characters with a meaning of their own, escaped. */
module Mrkdwn {

  // `str::replace` of one character.
  function Replace(s: string, c: char, by_: string): string {
    if s == "" then "" else (if s[0] == c then by_ else [s[0]]) + Replace(s[1..], c, by_)
  }

  function EscapeMrkdwn(text: string): string {
    Replace(Replace(Replace(text, '&', "&amp;"), '<', "&lt;"), '>', "&gt;")
  }

  // What one character is escaped to.
  function Entity(c: char): string {
    if c == '&' then "&amp;" else if c == '<' then "&lt;" else if c == '>' then "&gt;" else [c]
  }

  function EscapeEach(s: string): string {
    if s == "" then "" else Entity(s[0]) + EscapeEach(s[1..])
  }

  // What the reader makes of it, from left to right.
  function Unescape(s: string): string
    decreases |s|
  {
    if s == "" then ""
    else if "&amp;" <= s then "&" + Unescape(s[5..])
    else if "&lt;" <= s then "<" + Unescape(s[4..])
    else if "&gt;" <= s then ">" + Unescape(s[4..])
    else [s[0]] + Unescape(s[1..])
  }

  lemma {:induction false} ReplaceJoin(a: string, b: string, c: char, by_: string)
    ensures Replace(a + b, c, by_) == Replace(a, c, by_) + Replace(b, c, by_)
  {
    if a == "" {
      assert a + b == b;
    } else {
      ReplaceJoin(a[1..], b, c, by_);
      assert (a + b)[1..] == a[1..] + b;
      var head := if a[0] == c then by_ else [a[0]];
      assert head + (Replace(a[1..], c, by_) + Replace(b, c, by_)) == Replace(a, c, by_) + Replace(b, c, by_);
    }
  }

  lemma {:induction false} ReplaceAbsent(s: string, c: char, by_: string)
    requires c !in s
    ensures Replace(s, c, by_) == s
  {
    if s != "" {
      ReplaceAbsent(s[1..], c, by_);
      assert s == [s[0]] + s[1..];
    }
  }

  /** Replacing the three characters one after another escapes each character on its own. */
  lemma {:induction false} EscapesEachOnItsOwn(s: string)
    ensures EscapeMrkdwn(s) == EscapeEach(s)
  {
    if s != "" {
      var c, rest := s[0], s[1..];
      EscapesEachOnItsOwn(rest);
      var a := if c == '&' then "&amp;" else [c];
      var ra := Replace(rest, '&', "&amp;");
      ReplaceJoin(a, ra, '<', "&lt;");
      var b := Replace(a, '<', "&lt;");
      var rb := Replace(ra, '<', "&lt;");
      ReplaceJoin(b, rb, '>', "&gt;");
      OneCharacter(c);
    }
  }

  lemma OneCharacter(c: char)
    ensures Replace(Replace(if c == '&' then "&amp;" else [c], '<', "&lt;"), '>', "&gt;") == Entity(c)
  {
    if c == '&' {
      ReplaceAbsent("&amp;", '<', "&lt;");
      ReplaceAbsent("&amp;", '>', "&gt;");
    } else if c == '<' {
      assert [c][1..] == "";
      assert Replace([c], '<', "&lt;") == "&lt;";
      ReplaceAbsent("&lt;", '>', "&gt;");
    } else {
      ReplaceAbsent([c], '<', "&lt;");
      if c == '>' {
        assert [c][1..] == "";
        assert Replace([c], '>', "&gt;") == "&gt;";
      } else {
        ReplaceAbsent([c], '>', "&gt;");
      }
    }
  }

  predicate StartsEntity(s: string) { "&amp;" <= s || "&lt;" <= s || "&gt;" <= s }

  /** Nothing in an escaped text has a meaning to Slack but the three escapes. */
  lemma {:induction false} NoControlIsLeft(s: string, i: nat)
    requires i < |EscapeEach(s)|
    ensures EscapeEach(s)[i] != '<' && EscapeEach(s)[i] != '>'
    ensures EscapeEach(s)[i] == '&' ==> StartsEntity(EscapeEach(s)[i..])
  {
    var head, rest := Entity(s[0]), EscapeEach(s[1..]);
    var o := head + rest;
    if i >= |head| {
      NoControlIsLeft(s[1..], i - |head|);
      assert o[i..] == rest[i-|head|..];
    } else {
      assert o[i] == head[i];
      if i == 0 {
        assert o[0..] == head + rest;
      }
    }
  }

  lemma {:induction false} UnescapeEach(s: string)
    ensures Unescape(EscapeEach(s)) == s
  {
    if s != "" {
      var head, rest := Entity(s[0]), EscapeEach(s[1..]);
      var o := head + rest;
      UnescapeEach(s[1..]);
      assert o[|head|..] == rest;
      assert o[0] == head[0];
      if s[0] == '&' {
        assert "&amp;" <= o;
      } else if s[0] == '<' {
        assert o[1] == 'l' && "&lt;" <= o;
      } else if s[0] == '>' {
        assert o[1] == 'g' && "&gt;" <= o;
      }
      assert s == [s[0]] + s[1..];
    }
  }

  /** Whatever is escaped holds no control character of Slack's, and is read back as it was typed. */
  lemma EscapingIsSafeAndReversible(s: string)
    ensures var o := EscapeMrkdwn(s);
            && Unescape(o) == s
            && '<' !in o && '>' !in o
            && forall i :: 0 <= i < |o| && o[i] == '&' ==> StartsEntity(o[i..])
  {
    EscapesEachOnItsOwn(s);
    UnescapeEach(s);
    var o := EscapeEach(s);
    forall i | 0 <= i < |o|
      ensures o[i] != '<' && o[i] != '>' && (o[i] == '&' ==> StartsEntity(o[i..]))
    {
      NoControlIsLeft(s, i);
    }
  }
}

/** Events let through once in a window: the key they are known by, and the times they last passed. */
module NotifyDedup {
  import opened Wrappers
  import opened Clock

  type Key = (string, string)

  // The values of the key fields; a missing one is empty.
  function Values(keys: seq<string>, fields: map<string, string>): (vs: seq<string>)
    ensures |vs| == |keys|
  {
    if keys == [] then []
    else Values(keys[..|keys|-1], fields) + [if keys[|keys|-1] in fields then fields[keys[|keys|-1]] else ""]
  }

  // Joined with a NUL in between.
  function Join(vs: seq<string>): string {
    if vs == [] then ""
    else if |vs| == 1 then vs[0]
    else Join(vs[..|vs|-1]) + "\0" + vs[|vs|-1]
  }

  lemma JoinNext(keys: seq<string>, i: nat, fields: map<string, string>)
    requires i < |keys|
    ensures Join(Values(keys[..i+1], fields)) ==
            Join(Values(keys[..i], fields)) + (if i > 0 then "\0" else "")
            + (if keys[i] in fields then fields[keys[i]] else "")
  {
    var vs := Values(keys[..i], fields);
    var v := if keys[i] in fields then fields[keys[i]] else "";
    assert keys[..i+1][..i] == keys[..i];
    assert Values(keys[..i+1], fields) == vs + [v];
    assert (vs + [v])[..i] == vs;
    if i == 0 {
      assert vs == [];
      assert Join(vs) + "" + v == v;
    }
  }

  method BuildDedupKey(eventName: string, keys: seq<string>, fields: map<string, string>) returns (key: Key)
    ensures key == DedupKey(eventName, keys, fields)
  {
    var joined := "";
    var i := 0;
    while i < |keys|
      invariant 0 <= i <= |keys|
      invariant joined == Join(Values(keys[..i], fields))
    {
      JoinNext(keys, i, fields);
      if i > 0 {
        joined := joined + "\0";
      }
      if keys[i] in fields {
        joined := joined + fields[keys[i]];
      }
      i := i + 1;
    }
    assert keys[..i] == keys;
    key := (eventName, joined);
  }

  function Nuls(s: string): nat {
    if s == "" then 0 else Nuls(s[..|s|-1]) + (if s[|s|-1] == '\0' then 1 else 0)
  }

  lemma {:induction false} NulsJoin(a: string, b: string)
    ensures Nuls(a + b) == Nuls(a) + Nuls(b)
    decreases |b|
  {
    if b == "" {
      assert a + b == a;
    } else {
      NulsJoin(a, b[..|b|-1]);
      assert (a + b)[..|a+b|-1] == a + b[..|b|-1];
    }
  }

  lemma {:induction false} NoNuls(s: string)
    ensures Nuls(s) == 0 <==> '\0' !in s
  {
    if s != "" {
      NoNuls(s[..|s|-1]);
      assert s == s[..|s|-1] + [s[|s|-1]];
    }
  }

  predicate Whole(vs: seq<string>) { forall i :: 0 <= i < |vs| ==> '\0' !in vs[i] }

  lemma {:induction false} JoinNuls(vs: seq<string>)
    requires vs != []
    ensures Nuls(Join(vs)) >= |vs| - 1
    ensures Whole(vs) <==> Nuls(Join(vs)) == |vs| - 1
    decreases |vs|
  {
    var n := |vs|;
    if n == 1 {
      NoNuls(vs[0]);
    } else {
      JoinNuls(vs[..n-1]);
      NulsJoin(Join(vs[..n-1]), "\0");
      NulsJoin(Join(vs[..n-1]) + "\0", vs[n-1]);
      assert "\0"[..0] == "";
      assert Nuls("\0") == 1;
      NoNuls(vs[n-1]);
      assert Whole(vs) <==> Whole(vs[..n-1]) && '\0' !in vs[n-1] by {
        assert forall i :: 0 <= i < n - 1 ==> vs[..n-1][i] == vs[i];
      }
    }
  }

  // The last value is what follows the last NUL.
  lemma SplitLast(a: string, x: string, b: string, y: string)
    requires a + "\0" + x == b + "\0" + y && '\0' !in x && '\0' !in y
    ensures a == b && x == y
  {
    var s, t := a + "\0" + x, b + "\0" + y;
    assert s[|a|] == '\0' && t[|b|] == '\0';
    assert forall i :: |a| < i < |s| ==> s[i] == x[i-|a|-1] && s[i] in x;
    assert forall i :: |b| < i < |t| ==> t[i] == y[i-|b|-1] && t[i] in y;
    assert |a| == |b|;
    assert a == s[..|a|] && b == t[..|b|] && x == s[|a|+1..] && y == t[|b|+1..];
  }

  lemma {:induction false} WholeJoinsDiffer(vs: seq<string>, ws: seq<string>)
    requires |vs| == |ws| && Whole(vs) && Whole(ws) && Join(vs) == Join(ws)
    ensures vs == ws
    decreases |vs|
  {
    var n := |vs|;
    if n > 1 {
      SplitLast(Join(vs[..n-1]), vs[n-1], Join(ws[..n-1]), ws[n-1]);
      WholeJoinsDiffer(vs[..n-1], ws[..n-1]);
      assert vs == vs[..n-1] + [vs[n-1]] && ws == ws[..n-1] + [ws[n-1]];
    }
  }

  // Values in front of the same ones join alike if they did before.
  lemma {:induction false} JoinBehind(a: seq<string>, b: seq<string>, c: seq<string>)
    requires |a| == |b| > 0 && Join(a) == Join(b)
    ensures Join(a + c) == Join(b + c)
    decreases |c|
  {
    if c == [] {
      assert a + c == a && b + c == b;
    } else {
      var n := |c|;
      JoinBehind(a, b, c[..n-1]);
      assert (a + c)[..|a + c|-1] == a + c[..n-1] && (b + c)[..|b + c|-1] == b + c[..n-1];
    }
  }

  // A value with a NUL and its neighbour can be cut at another place.
  lemma OtherCut(vs: seq<string>, i: nat) returns (ws: seq<string>)
    requires |vs| > 1 && i < |vs| && '\0' in vs[i]
    ensures |ws| == |vs| && ws != vs && Join(ws) == Join(vs)
  {
    hide Join;
    var k :| 0 <= k < |vs[i]| && vs[i][k] == '\0';
    var x, y := vs[i][..k], vs[i][k+1..];
    assert vs[i] == x + "\0" + y;
    var j := if i == 0 then 0 else i - 1;
    var cut := if i == 0 then [x, y + "\0" + vs[1]] else [vs[i-1] + "\0" + x, y];
    ws := vs[..j] + cut + vs[j+2..];
    assert vs == vs[..j] + [vs[j], vs[j+1]] + vs[j+2..];
    var a, b := vs[..j] + cut, vs[..j] + [vs[j], vs[j+1]];
    PairJoin(vs[..j], cut[0], cut[1]);
    PairJoin(vs[..j], vs[j], vs[j+1]);
    if i == 0 {
      assert x + "\0" + (y + "\0" + vs[1]) == x + "\0" + y + "\0" + vs[1];
    } else {
      assert vs[j] + "\0" + x + "\0" + y == vs[j] + "\0" + (x + "\0" + y);
    }
    JoinBehind(a, b, vs[j+2..]);
    assert ws[j] == cut[0] && |cut[0]| != |vs[j]|;
  }

  lemma PairJoin(front: seq<string>, x: string, y: string)
    ensures Join(front + [x, y]) == Lead(front) + (x + "\0" + y)
  {
    var all := front + [x, y];
    assert all[..|all|-1] == front + [x];
    if front == [] {
      assert all[..1] == [x];
      assert Lead(front) + (x + "\0" + y) == x + "\0" + y;
    } else {
      assert (front + [x])[..|front|] == front;
      assert Join(front) + "\0" + x + "\0" + y == Join(front) + "\0" + (x + "\0" + y);
    }
  }

  function Lead(front: seq<string>): string { if front == [] then "" else Join(front) + "\0" }

  // No other values of the same fields make the same key.
  ghost predicate TellsApart(vs: seq<string>) {
    forall ws: seq<string> :: |ws| == |vs| && Join(ws) == Join(vs) ==> ws == vs
  }

  /**
   * The joined key stands for its values alone exactly when there is at most one of them or none holds the separator;
   * a value with a NUL among others is confused with another cut of the same text.
   */
  lemma KeyTellsValuesApartIff(vs: seq<string>)
    ensures TellsApart(vs) <==> |vs| <= 1 || Whole(vs)
  {
    if |vs| > 1 {
      if Whole(vs) {
        forall ws: seq<string> | |ws| == |vs| && Join(ws) == Join(vs)
          ensures ws == vs
        {
          JoinNuls(vs);
          JoinNuls(ws);
          WholeJoinsDiffer(vs, ws);
        }
      } else {
        var i :| 0 <= i < |vs| && '\0' in vs[i];
        var ws := OtherCut(vs, i);
      }
    }
  }

  function DedupKey(eventName: string, keys: seq<string>, fields: map<string, string>): Key {
    (eventName, Join(Values(keys, fields)))
  }

  predicate Distinct(keys: seq<string>) { forall i, j :: 0 <= i < j < |keys| ==> keys[i] != keys[j] }

  // The fields of an event that has the value `vs[i]` in the field `keys[i]`.
  function FieldsOf(keys: seq<string>, vs: seq<string>): map<string, string>
    requires |keys| == |vs|
  {
    if keys == [] then map[] else FieldsOf(keys[..|keys|-1], vs[..|vs|-1])[keys[|keys|-1] := vs[|vs|-1]]
  }

  lemma {:induction false} ValuesAt(keys: seq<string>, fields: map<string, string>, i: nat)
    requires i < |keys|
    ensures Values(keys, fields)[i] == if keys[i] in fields then fields[keys[i]] else ""
  {
    if i < |keys| - 1 {
      ValuesAt(keys[..|keys|-1], fields, i);
    }
  }

  lemma {:induction false} FieldsHave(keys: seq<string>, vs: seq<string>, i: nat)
    requires |keys| == |vs| && Distinct(keys) && i < |keys|
    ensures keys[i] in FieldsOf(keys, vs) && FieldsOf(keys, vs)[keys[i]] == vs[i]
  {
    if i < |keys| - 1 {
      FieldsHave(keys[..|keys|-1], vs[..|vs|-1], i);
    }
  }

  // Distinct fields can have any values.
  lemma AnyValues(keys: seq<string>, vs: seq<string>)
    requires |keys| == |vs| && Distinct(keys)
    ensures Values(keys, FieldsOf(keys, vs)) == vs
  {
    forall i | 0 <= i < |keys|
      ensures Values(keys, FieldsOf(keys, vs))[i] == vs[i]
    {
      ValuesAt(keys, FieldsOf(keys, vs), i);
      FieldsHave(keys, vs, i);
    }
  }

  // Another event has the key of this one, and differs in its name or in a field the rule looks at.
  ghost predicate Collides(eventName: string, keys: seq<string>, fields: map<string, string>) {
    exists other: string, g: map<string, string> ::
      DedupKey(other, keys, g) == DedupKey(eventName, keys, fields)
      && (other != eventName || Values(keys, g) != Values(keys, fields))
  }

  /** For a rule over distinct fields, an event is taken for another exactly when one of several values holds a NUL. */
  lemma EventsCollideIff(eventName: string, keys: seq<string>, fields: map<string, string>)
    requires Distinct(keys)
    ensures Collides(eventName, keys, fields) <==> |keys| > 1 && !Whole(Values(keys, fields))
  {
    var vs := Values(keys, fields);
    KeyTellsValuesApartIff(vs);
    if |keys| > 1 && !Whole(vs) {
      var ws: seq<string> :| |ws| == |vs| && Join(ws) == Join(vs) && ws != vs;
      AnyValues(keys, ws);
      assert DedupKey(eventName, keys, FieldsOf(keys, ws)) == DedupKey(eventName, keys, fields);
    }
  }

  /** Whatever fields a rule names, one of them twice too, values without a NUL are told apart. */
  lemma WholeEventsNeverCollide(eventName: string, keys: seq<string>, fields: map<string, string>)
    requires |keys| <= 1 || Whole(Values(keys, fields))
    ensures !Collides(eventName, keys, fields)
  {
    KeyTellsValuesApartIff(Values(keys, fields));
  }

  // ---- The window ------------------------------------------------------------------------------

  function Passed(last: map<Key, nat>, key: Key, now: nat, window: nat): bool {
    key in last ==> Since(now, last[key]) >= window
  }

  class DedupMap {
    var last: map<Key, nat>

    constructor ()
      ensures last == map[]
    {
      last := map[];
    }

    method Passes(key: Key, now: nat, window: nat) returns (passes: bool)
      modifies this
      ensures passes == Passed(old(last), key, now, window)
      ensures last == if passes then old(last)[key := now] else old(last)
    {
      if key in last && Since(now, last[key]) < window {
        return false;
      }
      last := last[key := now];
      passes := true;
    }
  }

  // One decision: the clock was read at `at`, before the lock was taken at `locked`.
  datatype Decision = Decision(key: Key, at: nat, locked: nat, passed: bool)

  datatype Event = Tick(to: nat) | Read(call: nat, key: Key) | Decide(call: nat)

  // Calls between their look at the clock and their turn; decisions in the order they were made.
  datatype State = State(now: nat, last: map<Key, nat>, waiting: map<nat, (Key, nat)>, decisions: seq<Decision>)

  function Init(): State { State(0, map[], map[], []) }

  function Next(s: State, window: nat, e: Event): State {
    match e
    case Tick(to) => if to >= s.now then s.(now := to) else s
    case Read(call, key) => if call in s.waiting then s else s.(waiting := s.waiting[call := (key, s.now)])
    case Decide(call) =>
      if call !in s.waiting then s
      else
        var (key, at) := s.waiting[call];
        var passed := Passed(s.last, key, at, window);
        s.(waiting := s.waiting - {call}, last := if passed then s.last[key := at] else s.last,
           decisions := s.decisions + [Decision(key, at, s.now, passed)])
  }

  function Exec(s: State, window: nat, es: seq<Event>): State
    decreases |es|
  {
    if es == [] then s else Next(Exec(s, window, es[..|es|-1]), window, es[|es|-1])
  }

  predicate PassOf(d: Decision, key: Key) { d.passed && d.key == key }

  ghost predicate ClocksOk(s: State) {
    && (forall c :: c in s.waiting ==> s.waiting[c].1 <= s.now)
    && (forall i :: 0 <= i < |s.decisions| ==> s.decisions[i].at <= s.decisions[i].locked <= s.now)
    && (forall i, j :: 0 <= i < j < |s.decisions| ==> s.decisions[i].locked <= s.decisions[j].locked)
  }

  // The time remembered for a key is that of a pass of it.
  ghost predicate RememberedOk(s: State) {
    forall key :: key in s.last ==> LastPass(s, key)
  }

  // Passes of a key are apart, and none is after the remembered one.
  ghost predicate PassesOk(s: State, window: nat) {
    && (forall i, key :: 0 <= i < |s.decisions| && PassOf(s.decisions[i], key) ==>
          key in s.last && (window > 0 ==> s.decisions[i].at <= s.last[key]))
    && (forall i, j, key :: 0 <= i < j < |s.decisions| && PassOf(s.decisions[i], key) && PassOf(s.decisions[j], key) && window > 0 ==>
          s.decisions[i].at + window <= s.decisions[j].at)
  }

  ghost predicate ShadowedOk(s: State, window: nat) {
    forall j :: 0 <= j < |s.decisions| && !s.decisions[j].passed ==> Shadowed(s.decisions, j, window)
  }

  ghost predicate Inv(s: State, window: nat) {
    ClocksOk(s) && RememberedOk(s) && PassesOk(s, window) && ShadowedOk(s, window)
  }

  ghost predicate LastPass(s: State, key: Key)
    requires key in s.last
  {
    exists i :: 0 <= i < |s.decisions| && PassOf(s.decisions[i], key) && s.decisions[i].at == s.last[key]
  }

  // An earlier pass of the key is less than a window old by the clock of the call.
  ghost predicate Shadowed(decisions: seq<Decision>, j: nat, window: nat)
    requires j < |decisions|
  {
    exists i :: 0 <= i < j && PassOf(decisions[i], decisions[j].key) && Since(decisions[j].at, decisions[i].at) < window
  }

  lemma ShadowStays(decisions: seq<Decision>, d: Decision, j: nat, window: nat)
    requires j < |decisions| && Shadowed(decisions, j, window)
    ensures Shadowed(decisions + [d], j, window)
  {
    var i :| 0 <= i < j && PassOf(decisions[i], decisions[j].key) && Since(decisions[j].at, decisions[i].at) < window;
    var more := decisions + [d];
    assert more[i] == decisions[i] && more[j] == decisions[j];
  }

  lemma DecideKeeps(s: State, window: nat, call: nat)
    requires Inv(s, window) && call in s.waiting
    ensures Inv(Next(s, window, Decide(call)), window)
  {
    assert ClocksOk(Next(s, window, Decide(call)));
    hide ClocksOk, RememberedOk, PassesOk, ShadowedOk;
    DecideRemembers(s, window, call);
    DecideSpaces(s, window, call);
    DecideShadows(s, window, call);
  }

  lemma DecideRemembers(s: State, window: nat, call: nat)
    requires RememberedOk(s) && call in s.waiting
    ensures RememberedOk(Next(s, window, Decide(call)))
  {
    var t := Next(s, window, Decide(call));
    var n := |s.decisions|;
    var d := t.decisions[n];
    assert forall i :: 0 <= i < n ==> t.decisions[i] == s.decisions[i];
    forall key | key in t.last
      ensures LastPass(t, key)
    {
      if d.passed && key == d.key {
        assert PassOf(t.decisions[n], key);
      } else {
        assert LastPass(s, key);
        var i :| 0 <= i < n && PassOf(s.decisions[i], key) && s.decisions[i].at == s.last[key];
        assert PassOf(t.decisions[i], key);
      }
    }
  }

  lemma DecideSpaces(s: State, window: nat, call: nat)
    requires PassesOk(s, window) && call in s.waiting
    ensures PassesOk(Next(s, window, Decide(call)), window)
  {
    var t := Next(s, window, Decide(call));
    assert forall i :: 0 <= i < |s.decisions| ==> t.decisions[i] == s.decisions[i];
  }

  lemma DecideShadows(s: State, window: nat, call: nat)
    requires RememberedOk(s) && ShadowedOk(s, window) && call in s.waiting
    ensures ShadowedOk(Next(s, window, Decide(call)), window)
  {
    var t := Next(s, window, Decide(call));
    var n := |s.decisions|;
    var d := t.decisions[n];
    forall j | 0 <= j < |t.decisions| && !t.decisions[j].passed
      ensures Shadowed(t.decisions, j, window)
    {
      if j < n {
        ShadowStays(s.decisions, d, j, window);
      } else {
        assert LastPass(s, d.key);
        var i :| 0 <= i < n && PassOf(s.decisions[i], d.key) && s.decisions[i].at == s.last[d.key];
        assert PassOf(t.decisions[i], d.key);
      }
    }
  }

  lemma {:induction false} ReachedInv(window: nat, es: seq<Event>)
    ensures Inv(Exec(Init(), window, es), window)
    decreases |es|
  {
    if es != [] {
      var s, e := Exec(Init(), window, es[..|es|-1]), es[|es|-1];
      ReachedInv(window, es[..|es|-1]);
      if e.Decide? && e.call in s.waiting {
        DecideKeeps(s, window, e.call);
      } else {
        Others(s, window, e);
      }
    }
  }

  lemma Others(s: State, window: nat, e: Event)
    requires Inv(s, window) && (e.Decide? ==> e.call !in s.waiting)
    ensures Inv(Next(s, window, e), window)
  {
    var t := Next(s, window, e);
    assert t.decisions == s.decisions && t.last == s.last;
    hide PassOf, Passed;
    forall key | key in t.last
      ensures LastPass(t, key)
    {
      assert LastPass(s, key);
    }
  }

  /**
   * Of one key, what passes passes a window or more after what passed before it; what does not, has a pass of its key
   * behind it less than a window before its own look at the clock.
   */
  lemma OnePassInAWindow(window: nat, es: seq<Event>, i: nat, j: nat)
    requires i < j < |Exec(Init(), window, es).decisions|
    ensures var ds := Exec(Init(), window, es).decisions;
            && (ds[i].passed && ds[j].passed && ds[i].key == ds[j].key && window > 0 ==> ds[i].at + window <= ds[j].at)
            && (!ds[j].passed ==>
                  exists k :: 0 <= k < j && PassOf(ds[k], ds[j].key) && ds[j].at < ds[k].at + window && ds[k].at <= ds[j].locked)
  {
    ReachedInv(window, es);
    var ds := Exec(Init(), window, es).decisions;
    assert ds[i].passed ==> PassOf(ds[i], ds[i].key);
    assert ds[j].passed && ds[i].key == ds[j].key ==> PassOf(ds[j], ds[i].key);
    if !ds[j].passed {
      assert Shadowed(ds, j, window);
      var k :| 0 <= k < j && PassOf(ds[k], ds[j].key) && Since(ds[j].at, ds[k].at) < window;
      assert ds[k].locked <= ds[j].locked;
    }
  }
}

/** Lines held back until their batch is due, and the flusher that posts them. */
module NotifyBatches {
  import opened Wrappers
  import opened Clock

  datatype Line = Line(queuedAt: nat, text: string)

  datatype Buffer = Buffer(channel: string, interval: nat, lines: seq<Line>)

  type Buffers = map<string, Buffer>

  // The first line of an event fixes its channel and interval.
  function Enqueued(buffers: Buffers, event: string, channel: string, interval: nat, line: Line): Buffers {
    var b := if event in buffers then buffers[event] else Buffer(channel, interval, []);
    buffers[event := b.(lines := b.lines + [line])]
  }

  predicate Ripe(b: Buffer, now: nat) {
    b.lines != [] && Since(now, b.lines[0].queuedAt) >= b.interval
  }

  function Kept(buffers: Buffers, now: nat): Buffers {
    map e | e in buffers :: if Ripe(buffers[e], now) then buffers[e].(lines := []) else buffers[e]
  }

  function Drained(buffers: Buffers, now: nat): map<string, Buffer> {
    map e | e in buffers && Ripe(buffers[e], now) :: buffers[e]
  }

  class BatchBuffers {
    var byEvent: Buffers

    constructor ()
      ensures byEvent == map[]
    {
      byEvent := map[];
    }

    method Enqueue(event: string, channel: string, interval: nat, line: Line)
      modifies this
      ensures byEvent == Enqueued(old(byEvent), event, channel, interval, line)
    {
      if event !in byEvent {
        byEvent := byEvent[event := Buffer(channel, interval, [])];
      }
      var buffer := byEvent[event];
      byEvent := byEvent[event := buffer.(lines := buffer.lines + [line])];
    }

    // The flusher's section: takes the lines of every ripe buffer.
    method Drain(now: nat) returns (toPost: map<string, Buffer>)
      modifies this
      ensures byEvent == Kept(old(byEvent), now) && toPost == Drained(old(byEvent), now)
    {
      toPost := map[];
      ghost var was := byEvent;
      var pending := byEvent.Keys;
      while pending != {}
        invariant pending <= was.Keys && byEvent.Keys == was.Keys
        invariant forall e :: e in was ==>
          byEvent[e] == if e !in pending && Ripe(was[e], now) then was[e].(lines := []) else was[e]
        invariant toPost == map e | e in was && e !in pending && Ripe(was[e], now) :: was[e]
        decreases pending
      {
        var e :| e in pending;
        pending := pending - {e};
        var buffer := byEvent[e];
        if buffer.lines != [] {
          if Since(now, buffer.lines[0].queuedAt) >= buffer.interval {
            byEvent := byEvent[e := buffer.(lines := [])];
            toPost := toPost[e := buffer];
          }
        }
      }
    }
  }

  datatype Flusher = Idle | Due(now: nat) | Posting(toPost: map<string, Buffer>)

  datatype Post = Post(event: string, channel: string, lines: seq<Line>)

  // `enqueued` is the history of every event's lines.
  datatype State = State(now: nat, buffers: Buffers, flusher: Flusher, posts: seq<Post>, enqueued: map<string, seq<Line>>)

  datatype Event =
    | Tick(to: nat)
    | Enqueue(event: string, channel: string, interval: nat, text: string)
    | ReadClock
    | Drain
    | PostOne(event: string)
    | FinishFlush

  function Init(): State { State(0, map[], Idle, [], map[]) }

  function Lines(m: map<string, seq<Line>>, event: string): seq<Line> { if event in m then m[event] else [] }

  function Held(m: map<string, Buffer>, event: string): seq<Line> { if event in m then m[event].lines else [] }

  function InTransit(f: Flusher, event: string): seq<Line> { if f.Posting? then Held(f.toPost, event) else [] }

  function PostedLines(posts: seq<Post>, event: string): seq<Line> {
    if posts == [] then []
    else
      var p := posts[|posts|-1];
      PostedLines(posts[..|posts|-1], event) + (if p.event == event then p.lines else [])
  }

  function Next(s: State, e: Event): State {
    match e
    case Tick(to) => if to >= s.now then s.(now := to) else s
    case Enqueue(event, channel, interval, text) =>
      var line := Line(s.now, text);
      s.(buffers := Enqueued(s.buffers, event, channel, interval, line),
         enqueued := s.enqueued[event := Lines(s.enqueued, event) + [line]])
    case ReadClock => if s.flusher.Idle? then s.(flusher := Due(s.now)) else s
    case Drain =>
      if s.flusher.Due?
      then s.(buffers := Kept(s.buffers, s.flusher.now), flusher := Posting(Drained(s.buffers, s.flusher.now)))
      else s
    case PostOne(event) =>
      if s.flusher.Posting? && event in s.flusher.toPost then
        var b := s.flusher.toPost[event];
        s.(flusher := Posting(s.flusher.toPost - {event}), posts := s.posts + [Post(event, b.channel, b.lines)])
      else s
    case FinishFlush => if s.flusher.Posting? && s.flusher.toPost == map[] then s.(flusher := Idle) else s
  }

  function Exec(s: State, es: seq<Event>): State
    decreases |es|
  {
    if es == [] then s else Next(Exec(s, es[..|es|-1]), es[|es|-1])
  }

  predicate Ordered(lines: seq<Line>, now: nat) {
    && (forall i, j :: 0 <= i < j < |lines| ==> lines[i].queuedAt <= lines[j].queuedAt)
    && (forall i :: 0 <= i < |lines| ==> lines[i].queuedAt <= now)
  }

  predicate Accounted(s: State, event: string) {
    PostedLines(s.posts, event) + InTransit(s.flusher, event) + Held(s.buffers, event) == Lines(s.enqueued, event)
  }

  ghost predicate Inv(s: State) {
    && (forall event: string :: Accounted(s, event))
    && (forall e :: e in s.buffers ==> Ordered(s.buffers[e].lines, s.now))
  }

  lemma PostedMore(posts: seq<Post>, p: Post, event: string)
    ensures PostedLines(posts + [p], event) == PostedLines(posts, event) + (if p.event == event then p.lines else [])
  {
    assert (posts + [p])[..|posts|] == posts;
  }

  lemma Regroup(a: seq<Line>, b: seq<Line>, c: seq<Line>)
    ensures a + b + c == a + (b + c) && a + [] + c == a + c && a + c + [] == a + c
  {
  }

  lemma AccountedStep(s: State, e: Event, event: string)
    requires Accounted(s, event)
    ensures Accounted(Next(s, e), event)
  {
    hide PostedLines;
    var posted := PostedLines(s.posts, event);
    match e
    case Enqueue(x, channel, interval, text) =>
      if x == event {
        Regroup(posted + InTransit(s.flusher, event), Held(s.buffers, event), [Line(s.now, text)]);
      }
    case Drain => Regroup(posted, [], Held(s.buffers, event));
    case PostOne(x) =>
      if s.flusher.Posting? && x in s.flusher.toPost {
        var b := s.flusher.toPost[x];
        PostedMore(s.posts, Post(x, b.channel, b.lines), event);
        Regroup(posted, InTransit(s.flusher, event), Held(s.buffers, event));
        Regroup(posted, [], Held(s.buffers, event));
        Regroup(posted + InTransit(s.flusher, event), [], Held(s.buffers, event));
      }
    case _ =>
  }

  lemma {:induction false} ReachedInv(es: seq<Event>)
    ensures Inv(Exec(Init(), es))
    decreases |es|
  {
    if es != [] {
      var s, e := Exec(Init(), es[..|es|-1]), es[|es|-1];
      ReachedInv(es[..|es|-1]);
      forall event: string
        ensures Accounted(Next(s, e), event)
      {
        AccountedStep(s, e, event);
      }
      hide Accounted;
      OrderedStep(s, e);
    }
  }

  lemma OrderedStep(s: State, e: Event)
    requires forall e :: e in s.buffers ==> Ordered(s.buffers[e].lines, s.now)
    ensures forall x :: x in Next(s, e).buffers ==> Ordered(Next(s, e).buffers[x].lines, Next(s, e).now)
  {
  }

  /** Of every event, what has been posted, what is being posted and what is held are the lines enqueued, in order. */
  lemma LinesAreConserved(es: seq<Event>, event: string)
    ensures var s := Exec(Init(), es);
            PostedLines(s.posts, event) + InTransit(s.flusher, event) + Held(s.buffers, event) == Lines(s.enqueued, event)
  {
    ReachedInv(es);
    assert Accounted(Exec(Init(), es), event);
  }

  /** A flush leaves no line that has waited its interval by the flush's clock, and takes whole every buffer that has one. */
  lemma FlushTakesWhatIsRipe(es: seq<Event>, event: string, i: nat)
    requires var s := Exec(Init(), es); s.flusher.Due? && event in s.buffers && i < |s.buffers[event].lines|
    ensures var s := Exec(Init(), es);
            var t := Next(s, Drain);
            var b := s.buffers[event];
            && event in t.buffers && t.flusher.Posting?
            && (t.buffers[event].lines == b.lines || (t.buffers[event].lines == [] && event in t.flusher.toPost
                                                     && t.flusher.toPost[event] == b))
            && (Since(s.flusher.now, b.lines[i].queuedAt) >= b.interval ==> t.buffers[event].lines == [])
            && (forall j :: 0 <= j < |t.buffers[event].lines| ==>
                  Since(s.flusher.now, t.buffers[event].lines[j].queuedAt) < t.buffers[event].interval)
  {
    ReachedInv(es);
    var b := Exec(Init(), es).buffers[event];
    assert Ordered(b.lines, Exec(Init(), es).now);
    assert i > 0 ==> b.lines[0].queuedAt <= b.lines[i].queuedAt;
  }

  /** A flush posts a ripe buffer in the channel of its first line, as it was held, and leaves it empty. */
  lemma RipeBatchIsPosted(s: State, event: string)
    requires s.flusher.Idle? && event in s.buffers && Ripe(s.buffers[event], s.now)
    ensures var b := s.buffers[event];
            var t := Next(Next(Next(s, ReadClock), Drain), PostOne(event));
            && t.posts == s.posts + [Post(event, b.channel, b.lines)]
            && Held(t.buffers, event) == [] && InTransit(t.flusher, event) == []
  {
  }
}
