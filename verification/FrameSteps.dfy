/** What the flags of the shell page mean, field by field and after any inputs. */
module FrameSteps {
  import opened FrameQueue

  // A frame is made: at the start, for a reload that the frame cannot be asked for, or when it did not answer in time.
  predicate Makes(s: State, i: Input) {
    i.Bootstrap? || (i.Reload? && s.frame && !(s.reloadSupported && s.loaded)) || (i.Timeout? && s.timeout)
  }

  // The frame is asked to reload by itself.
  predicate Asked(s: State, i: Input) { i.Reload? && s.frame && s.reloadSupported && s.loaded }

  // A message of the current frame, from its own origin unless any will do.
  predicate Heard(s: State, i: Input) {
    i.FromFrame? && s.frame && i.generation == s.generation && (s.origin == Any || (s.origin == Own && i.originMatches))
  }

  predicate Loads(s: State, i: Input) { i.Load? && s.frame && i.generation == s.generation }

  lemma FlagsExactly(s: State, i: Input)
    ensures var s' := Step(s, i);
      var leaves := Heard(s, i) && i.message == WillReload;
      && s'.generation == s.generation + (if Makes(s, i) then 1 else 0)
      && (s'.frame <==> s.frame || Makes(s, i))
      && s'.origin == (if i.Bootstrap? then i.origin else s.origin)
      && (s'.loaded <==> (s.loaded || Loads(s, i)) && !Makes(s, i) && !leaves)
      && (s'.timeout <==> (s.timeout || Asked(s, i)) && !Makes(s, i) && !leaves)
      && (s'.reloadSupported <==>
            !Makes(s, i) && if Heard(s, i) && i.message.Ready? then i.message.reloadSupported else s.reloadSupported)
  {
    FlushFrame(s.(loaded := true));
    hide Flush;
  }

  lemma FlushFrame(s: State)
    ensures Flush(s) == s.(pending := [], sent := Flush(s).sent)
  {
    SendAllFrame(s.(pending := []), s.pending);
  }

  // The events: what one input posts, hands to the frame, and keeps waiting.
  lemma EventsExactly(s: State, i: Input)
    requires Inv(s)
    ensures var s' := Step(s, i);
      var reload := Event(s.generation, "reload_iframe", "{}");
      var new_ := if i.Post? then [Event(s.generation, i.eventType, i.eventData)]
                  else if Asked(s, i) then [reload] else [];
      var waits := i.Post? && !(s.frame && s.loaded);
      var all := s.pending + new_;
      && s'.posted == s.posted + new_
      && s'.pending == (if Makes(s, i) || Loads(s, i) then []
                        else if waits then all[if |all| > 64 then |all| - 64 else 0..]
                        else s.pending)
      && s'.sent == s.sent + (if s.origin == Missing then [] else if Loads(s, i) then s.pending
                              else if waits then [] else new_)
  {
    hide Sub;
    assert s.sent + [] == s.sent && s.posted + [] == s.posted;
    if Loads(s, i) {
      SendAllSends(s.(loaded := true, pending := []), s.pending);
    }
    hide SendAll;
  }

  // What the flags mean, in terms of the inputs so far

  // Input n does p.
  ghost predicate Does(inputs: seq<Input>, n: nat, p: (State, Input) -> bool)
    requires n < |inputs|
  {
    p(After(inputs[..n]), inputs[n])
  }

  // One input does p, and none after it does q.
  ghost predicate Since(inputs: seq<Input>, p: (State, Input) -> bool, q: (State, Input) -> bool) {
    exists n | 0 <= n < |inputs| :: Does(inputs, n, p) && forall m | n < m < |inputs| :: !Does(inputs, m, q)
  }

  lemma DoesBefore(before: seq<Input>, i: Input, n: nat, p: (State, Input) -> bool)
    requires n < |before|
    ensures Does(before + [i], n, p) <==> Does(before, n, p)
  {
    assert (before + [i])[..n] == before[..n];
  }

  lemma DoesLast(before: seq<Input>, i: Input, p: (State, Input) -> bool)
    ensures Does(before + [i], |before|, p) <==> p(After(before), i)
  {
    assert (before + [i])[..|before|] == before;
  }

  lemma SinceMore(before: seq<Input>, i: Input, p: (State, Input) -> bool, q: (State, Input) -> bool)
    ensures Since(before + [i], p, q) <==> p(After(before), i) || (Since(before, p, q) && !q(After(before), i))
  {
    var inputs := before + [i];
    DoesLast(before, i, p);
    DoesLast(before, i, q);
    forall n: nat | n < |before|
      ensures Does(inputs, n, p) <==> Does(before, n, p)
      ensures Does(inputs, n, q) <==> Does(before, n, q)
    {
      DoesBefore(before, i, n, p);
      DoesBefore(before, i, n, q);
    }
    hide Does;
    if p(After(before), i) {
      assert Does(inputs, |before|, p);
    }
    if Since(before, p, q) && !q(After(before), i) {
      var n :| 0 <= n < |before| && Does(before, n, p) && forall m | n < m < |before| :: !Does(before, m, q);
      assert Does(inputs, n, p);
      assert forall m | n < m < |inputs| :: !Does(inputs, m, q);
    }
    if n :| 0 <= n < |inputs| && Does(inputs, n, p) && forall m | n < m < |inputs| :: !Does(inputs, m, q) {
      assert n < |before| ==> Does(before, n, p) && forall m | n < m < |before| :: !Does(before, m, q);
    }
  }

  // A new frame, or the frame's word that it reloads.
  predicate Unloads(s: State, i: Input) { Makes(s, i) || (Heard(s, i) && i.message == WillReload) }

  // The frame counts as loaded exactly when its load event came after it was made and after it last said that it
  // reloads; the reload timer runs exactly when the frame was asked to reload after both.
  lemma {:induction false} LoadedMeans(inputs: seq<Input>)
    ensures After(inputs).loaded <==> Since(inputs, Loads, Unloads)
    ensures After(inputs).timeout <==> Since(inputs, Asked, Unloads)
    decreases |inputs|
  {
    if inputs == [] {
    } else {
      var before, i := inputs[..|inputs| - 1], inputs[|inputs| - 1];
      LoadedMeans(before);
      assert inputs == before + [i];
      FlagsExactly(After(before), i);
      OneAtATime(After(before), i);
      SinceMore(before, i, Loads, Unloads);
      SinceMore(before, i, Asked, Unloads);
      hide Since, Step, Loads, Asked, Heard, Makes;
    }
  }

  lemma OneAtATime(s: State, i: Input)
    ensures Loads(s, i) || Asked(s, i) ==> !Unloads(s, i)
  {
  }

  lemma {:induction false} OfExactly(events: seq<Event>, g: nat, e: Event)
    ensures multiset(Of(events, g))[e] == if e.generation == g then multiset(events)[e] else 0
    decreases |events|
  {
    if events == [] {
    } else {
      assert events == events[..|events| - 1] + [events[|events| - 1]];
      OfExactly(events[..|events| - 1], g, e);
    }
  }
}
