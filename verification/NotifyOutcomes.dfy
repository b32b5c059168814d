/** What becomes of a notified event, written out: its text, its turn at the dedup map, and its batch. */
module NotifyOutcomes {
  import opened Wrappers
  import M = Mrkdwn
  import D = NotifyDedup
  import B = NotifyBatches

  // ---- Text ------------------------------------------------------------------------------------

  /** The three characters are escaped so, and any other is left. */
  lemma EscapedCharacters(c: char)
    ensures M.EscapeMrkdwn("&") == "&amp;" && M.EscapeMrkdwn("<") == "&lt;" && M.EscapeMrkdwn(">") == "&gt;"
    ensures c != '&' && c != '<' && c != '>' ==> M.EscapeMrkdwn([c]) == [c]
    ensures M.EscapeMrkdwn("") == ""
  {
    M.EscapesEachOnItsOwn("&");
    M.EscapesEachOnItsOwn("<");
    M.EscapesEachOnItsOwn(">");
    M.EscapesEachOnItsOwn([c]);
    assert [c][1..] == "";
  }

  /** And a text character by character. */
  lemma {:induction false} EscapedInParts(a: string, b: string)
    ensures M.EscapeMrkdwn(a + b) == M.EscapeMrkdwn(a) + M.EscapeMrkdwn(b)
  {
    M.EscapesEachOnItsOwn(a);
    M.EscapesEachOnItsOwn(b);
    M.EscapesEachOnItsOwn(a + b);
    EachInParts(a, b);
  }

  lemma {:induction false} EachInParts(a: string, b: string)
    ensures M.EscapeEach(a + b) == M.EscapeEach(a) + M.EscapeEach(b)
  {
    hide M.Entity;
    if a == "" {
      assert a + b == b;
    } else {
      EachInParts(a[1..], b);
      assert (a + b)[1..] == a[1..] + b;
      var head := M.Entity(a[0]);
      assert head + (M.EscapeEach(a[1..]) + M.EscapeEach(b)) == M.EscapeEach(a) + M.EscapeEach(b);
    }
  }

  // ---- Dedup -----------------------------------------------------------------------------------

  // What an event has in a field of the rule.
  function FieldValue(fields: map<string, string>, name: string): string { if name in fields then fields[name] else "" }

  /** An event's key is its name, and its values in the rule's fields one after another with a NUL between two, missing ones empty. */
  lemma KeyOutcome(event: string, keys: seq<string>, name: string, fields: map<string, string>)
    ensures D.DedupKey(event, [], fields) == (event, "")
    ensures D.DedupKey(event, [name], fields) == (event, FieldValue(fields, name))
    ensures keys != [] ==>
              D.DedupKey(event, keys + [name], fields) ==
                (event, D.DedupKey(event, keys, fields).1 + "\0" + FieldValue(fields, name))
  {
    assert [name][..0] == [];
    assert D.Values([name], fields) == [FieldValue(fields, name)];
    if keys != [] {
      assert (keys + [name])[..|keys|] == keys;
      var vs := D.Values(keys, fields);
      assert D.Values(keys + [name], fields) == vs + [FieldValue(fields, name)];
      assert (vs + [FieldValue(fields, name)])[..|vs|] == vs;
    }
  }

  /** An event passes when its key never did, or did the window ago or earlier. */
  lemma PassOutcome(last: map<D.Key, nat>, key: D.Key, now: nat, window: nat)
    ensures D.Passed(last, key, now, window) <==> key !in last || window == 0 || last[key] + window <= now
  {
  }

  /** A call reads the clock, and at its turn decides by what it read; a pass is noted, and the decision is final. */
  lemma DecideOutcome(s: D.State, window: nat, call: nat, key: D.Key)
    ensures call !in s.waiting ==> D.Next(s, window, D.Read(call, key)) == s.(waiting := s.waiting[call := (key, s.now)])
    ensures call in s.waiting ==>
              var (k, at) := s.waiting[call];
              var passes := k !in s.last || window == 0 || s.last[k] + window <= at;
              D.Next(s, window, D.Decide(call)) ==
                s.(waiting := s.waiting - {call}, last := if passes then s.last[k := at] else s.last,
                   decisions := s.decisions + [D.Decision(k, at, s.now, passes)])
  {
  }

  // ---- Batches ---------------------------------------------------------------------------------

  /** For both, time passes and never goes back. */
  lemma TickOutcome(s: D.State, t: B.State, window: nat, to: nat)
    ensures D.Next(s, window, D.Tick(to)) == s.(now := if to < s.now then s.now else to)
    ensures B.Next(t, B.Tick(to)) == t.(now := if to < t.now then t.now else to)
  {
  }

  /** A line joins its event's buffer, made by the first of them with its channel and interval. */
  lemma EnqueueOutcome(s: B.State, event: string, channel: string, interval: nat, text: string)
    ensures var t := B.Next(s, B.Enqueue(event, channel, interval, text));
            var line := B.Line(s.now, text);
            && t.posts == s.posts && t.flusher == s.flusher && t.now == s.now
            && t.buffers ==
                 if event in s.buffers
                 then s.buffers[event :=
                          B.Buffer(s.buffers[event].channel, s.buffers[event].interval, s.buffers[event].lines + [line])]
                 else s.buffers[event := B.Buffer(channel, interval, [line])]
  {
    assert [] + [B.Line(s.now, text)] == [B.Line(s.now, text)];
  }

  // The first line of the buffer has waited its interval by the flush's clock.
  predicate IsDue(b: B.Buffer, at: nat) {
    b.lines != [] && (b.interval == 0 || b.lines[0].queuedAt + b.interval <= at)
  }

  /** A flush takes exactly the buffers whose first line has waited its interval by the clock it read, each whole. */
  lemma FlushOutcome(s: B.State, event: string)
    requires s.flusher.Due? && event in s.buffers
    ensures var t := B.Next(s, B.Drain);
            var b := s.buffers[event];
            && t.flusher.Posting? && t.posts == s.posts && t.buffers.Keys == s.buffers.Keys
            && if IsDue(b, s.flusher.now)
               then t.buffers[event] == B.Buffer(b.channel, b.interval, []) && event in t.flusher.toPost
                    && t.flusher.toPost[event] == b
               else t.buffers[event] == b && event !in t.flusher.toPost
  {
  }

  /** It reads the clock before, and posts after what it took, each in its channel, until there is nothing left of it. */
  lemma PostOutcome(s: B.State, event: string)
    ensures s.flusher == B.Idle ==> B.Next(s, B.ReadClock) == s.(flusher := B.Due(s.now))
    ensures s.flusher.Posting? && event in s.flusher.toPost ==>
              var b := s.flusher.toPost[event];
              B.Next(s, B.PostOne(event)) ==
                s.(flusher := B.Posting(s.flusher.toPost - {event}), posts := s.posts + [B.Post(event, b.channel, b.lines)])
    ensures s.flusher.Posting? ==>
              B.Next(s, B.FinishFlush) == if s.flusher.toPost == map[] then s.(flusher := B.Idle) else s
  {
  }
}
