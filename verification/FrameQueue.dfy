/** The shell page of a web app: events for its frame are queued while the frame loads. */
module FrameQueue {
  const MAX_PENDING_EVENTS := 64

  // An event, with the generation of the frame it was posted to.
  datatype Event = Event(generation: nat, eventType: string, eventData: string)

  // Which origin the frame must have: any, or its own one, which may be missing.
  datatype Origin = Any | Own | Missing

  // frame: there is an iframe; the last one that was made has the current generation. posted: every event given to
  // postToFrame, and every reload command. sent: what was handed to a frame.
  datatype State = State(
    frame: bool, loaded: bool, generation: nat, origin: Origin, reloadSupported: bool, timeout: bool,
    pending: seq<Event>, posted: seq<Event>, sent: seq<Event>)

  const START := State(false, false, 0, Any, false, false, [], [], [])

  datatype Message = Ready(reloadSupported: bool) | WillReload | Other

  datatype Input =
    | Bootstrap(origin: Origin)
    | Post(eventType: string, eventData: string)
    | Load(generation: nat)             // the load event of the frame that was made with this generation
    | FromFrame(generation: nat, originMatches: bool, message: Message)
    | Reload
    | Timeout                           // the reload timer fires

  // Steps

  function Send(s: State, e: Event): State {
    if !s.frame || e.generation != s.generation || s.origin.Missing? then s else s.(sent := s.sent + [e])
  }

  function LastEvents(pending: seq<Event>): seq<Event> {
    if |pending| <= MAX_PENDING_EVENTS then pending else pending[|pending| - MAX_PENDING_EVENTS..]
  }

  predicate Open(s: State) { s.frame && s.loaded }

  function PostToFrame(s: State, eventType: string, eventData: string): State {
    var e := Event(s.generation, eventType, eventData);
    var s1 := s.(posted := s.posted + [e]);
    if !Open(s) then s1.(pending := LastEvents(s.pending + [e])) else Send(s1, e)
  }

  function SendAll(s: State, events: seq<Event>): State {
    if events == [] then s else Send(SendAll(s, events[..|events| - 1]), events[|events| - 1])
  }

  function Flush(s: State): State { SendAll(s.(pending := []), s.pending) }

  function CreateFrame(s: State): State {
    s.(frame := true, loaded := false, generation := s.generation + 1, reloadSupported := false, timeout := false,
       pending := [])
  }

  predicate Asks(s: State) { s.reloadSupported && s.loaded }

  function Step(s: State, i: Input): State {
    match i
    case Bootstrap(origin) => CreateFrame(s.(origin := origin))
    case Post(eventType, eventData) => PostToFrame(s, eventType, eventData)
    case Load(generation) => if s.frame && generation == s.generation then Flush(s.(loaded := true)) else s
    case FromFrame(generation, originMatches, message) =>
      if !s.frame || generation != s.generation || s.origin.Missing? || (s.origin.Own? && !originMatches) then s
      else (match message
            case Ready(reloadSupported) => s.(reloadSupported := reloadSupported)
            case WillReload => s.(timeout := false, loaded := false)
            case Other => s)
    case Reload =>
      if !s.frame then s
      else if Asks(s) then
        var e := Event(s.generation, "reload_iframe", "{}");
        Send(s.(posted := s.posted + [e]), e).(timeout := true)
      else CreateFrame(s)
    case Timeout => if s.timeout then CreateFrame(s) else s
  }

  function After(inputs: seq<Input>): State {
    if inputs == [] then START else Step(After(inputs[..|inputs| - 1]), inputs[|inputs| - 1])
  }

  // Subsequences

  // a can be had from b by leaving events out.
  predicate Sub(a: seq<Event>, b: seq<Event>) {
    if b == [] then a == []
    else
      var rest := b[..|b| - 1];
      Sub(a, rest) || (a != [] && a[|a| - 1] == b[|b| - 1] && Sub(a[..|a| - 1], rest))
  }

  lemma SubMore(a: seq<Event>, b: seq<Event>, e: Event)
    requires Sub(a, b)
    ensures Sub(a, b + [e]) && Sub(a + [e], b + [e])
  {
    assert (b + [e])[..|b|] == b && (a + [e])[..|a|] == a;
  }

  lemma {:induction false} SubShorter(a: seq<Event>, b: seq<Event>)
    requires Sub(a, b)
    ensures |a| <= |b| && (|a| == |b| ==> a == b)
    decreases |b|
  {
    if b == [] {
    } else {
      var rest := b[..|b| - 1];
      if Sub(a, rest) {
        SubShorter(a, rest);
      } else {
        SubShorter(a[..|a| - 1], rest);
        assert a == a[..|a| - 1] + [a[|a| - 1]] && b == rest + [b[|b| - 1]];
      }
    }
  }

  lemma {:induction false} SubWithout(a: seq<Event>, i: nat, b: seq<Event>)
    requires i < |a| && Sub(a, b)
    ensures Sub(a[..i] + a[i + 1..], b)
    decreases |b|
  {
    var r := a[..i] + a[i + 1..];
    var rest := b[..|b| - 1];
    if Sub(a, rest) {
      SubWithout(a, i, rest);
    } else if i == |a| - 1 {
      assert r == a[..|a| - 1];
    } else {
      SubWithout(a[..|a| - 1], i, rest);
      assert r[..|r| - 1] == a[..|a| - 1][..i] + a[..|a| - 1][i + 1..];
    }
  }

  lemma {:induction false} SubPrefix(a: seq<Event>, n: nat, b: seq<Event>)
    requires n <= |a| && Sub(a, b)
    ensures Sub(a[..n], b)
    decreases |a|
  {
    if n == |a| {
      assert a[..n] == a;
    } else {
      SubWithout(a, |a| - 1, b);
      assert a[..|a| - 1] + a[|a|..] == a[..|a| - 1];
      SubPrefix(a[..|a| - 1], n, b);
      assert a[..|a| - 1][..n] == a[..n];
    }
  }

  // The invariant

  ghost predicate Inv(s: State) {
    && |s.pending| <= MAX_PENDING_EVENTS
    && (forall e :: e in s.pending ==> e.generation == s.generation)
    && (s.pending != [] ==> !Open(s))
    && (s.loaded ==> s.frame) && (s.timeout ==> s.frame)
    && Sub(s.sent + s.pending, s.posted)
    && (forall e :: e in s.posted ==> e.generation <= s.generation)
  }

  // The events that one input loses: the oldest of more than 64, those sent while the frame has no origin, and those
  // that wait when the frame is replaced.
  predicate Loses(s: State, i: Input) {
    match i
    case Bootstrap(_) => s.pending != []
    case Post(_, _) => if Open(s) then s.origin.Missing? else |s.pending| == MAX_PENDING_EVENTS
    case Load(generation) => s.frame && generation == s.generation && s.origin.Missing? && s.pending != []
    case FromFrame(_, _, _) => false
    case Reload => s.frame && if Asks(s) then s.origin.Missing? else s.pending != []
    case Timeout => s.timeout && s.pending != []
  }

  lemma {:induction false} SendAllSends(s: State, events: seq<Event>)
    requires forall e :: e in events ==> e.generation == s.generation
    requires s.frame
    ensures SendAll(s, events) == if s.origin.Missing? then s else s.(sent := s.sent + events)
    decreases |events|
  {
    if events == [] {
      assert s.sent + [] == s.sent;
    } else {
      var rest, e := events[..|events| - 1], events[|events| - 1];
      assert forall x :: x in rest ==> x in events;
      SendAllSends(s, rest);
      assert (s.sent + rest) + [e] == s.sent + events;
    }
  }

  ghost predicate Exact(s: State) { s.sent + s.pending == s.posted }

  // One input keeps the invariant, and loses events exactly when Loses says so.
  ghost predicate Goes(s: State, s': State, loses: bool) {
    && Inv(s')
    && (if loses then |s'.sent| + |s'.pending| - |s'.posted| < |s.sent| + |s.pending| - |s.posted|
        else |s'.sent| + |s'.pending| - |s'.posted| == |s.sent| + |s.pending| - |s.posted|)
  }

  lemma CreateGoes(s: State, origin: Origin)
    requires Inv(s)
    ensures Goes(s, CreateFrame(s.(origin := origin)), s.pending != [])
  {
    SubPrefix(s.sent + s.pending, |s.sent|, s.posted);
    assert (s.sent + s.pending)[..|s.sent|] == s.sent && s.sent + [] == s.sent;
  }

  lemma PostGoes(s: State, eventType: string, eventData: string)
    requires Inv(s)
    ensures Goes(s, PostToFrame(s, eventType, eventData), Loses(s, Post(eventType, eventData)))
  {
    var e := Event(s.generation, eventType, eventData);
    hide Sub;
    if Open(s) {
      SubMore(s.sent + s.pending, s.posted, e);
      assert s.sent + [] == s.sent && (s.sent + [e]) + [] == s.sent + [e];
    } else {
      WaitingMore(s.sent, s.pending, s.posted, e);
    }
  }

  lemma WaitingMore(sent: seq<Event>, pending: seq<Event>, posted: seq<Event>, e: Event)
    requires |pending| <= MAX_PENDING_EVENTS && Sub(sent + pending, posted)
    ensures Sub(sent + LastEvents(pending + [e]), posted + [e])
  {
    hide Sub;
    SubMore(sent + pending, posted, e);
    assert (sent + pending) + [e] == sent + (pending + [e]);
    if |pending| == MAX_PENDING_EVENTS {
      OldestOut(sent, pending + [e], posted + [e]);
    }
  }

  lemma OldestOut(sent: seq<Event>, waiting: seq<Event>, posted: seq<Event>)
    requires waiting != [] && Sub(sent + waiting, posted)
    ensures Sub(sent + waiting[1..], posted)
  {
    var all := sent + waiting;
    SubWithout(all, |sent|, posted);
    assert all[..|sent|] == sent && all[|sent| + 1..] == waiting[1..];
    hide Sub;
  }

  lemma LoadGoes(s: State)
    requires Inv(s) && s.frame
    ensures Goes(s, Flush(s.(loaded := true)), s.origin.Missing? && s.pending != [])
  {
    SendAllSends(s.(loaded := true, pending := []), s.pending);
    SubPrefix(s.sent + s.pending, |s.sent|, s.posted);
    assert (s.sent + s.pending)[..|s.sent|] == s.sent && s.sent + [] == s.sent;
    assert (s.sent + s.pending) + [] == s.sent + s.pending;
  }

  lemma ReloadGoes(s: State)
    requires Inv(s) && s.frame && Asks(s)
    ensures Goes(s, Step(s, Reload), s.origin.Missing?)
  {
    var e := Event(s.generation, "reload_iframe", "{}");
    SubMore(s.sent + s.pending, s.posted, e);
    assert s.sent + [] == s.sent && (s.sent + [e]) + [] == s.sent + [e];
  }

  lemma StepGoes(s: State, i: Input)
    requires Inv(s)
    ensures Goes(s, Step(s, i), Loses(s, i))
  {
    hide Sub, Flush, CreateFrame, PostToFrame;
    match i {
      case Bootstrap(origin) => CreateGoes(s, origin);
      case Post(eventType, eventData) => PostGoes(s, eventType, eventData);
      case Load(generation) =>
        if s.frame && generation == s.generation {
          LoadGoes(s);
        }
      case FromFrame(_, _, _) =>
      case Reload =>
        CreateGoes(s, s.origin);
        if s.frame && Asks(s) {
          ReloadGoes(s);
        }
      case Timeout => CreateGoes(s, s.origin);
    }
  }

  // Theorems

  // After any inputs: at most 64 events wait, all for the current frame, and only while it is not loaded; what was
  // sent and what waits, in this order, are events in the order in which they were posted.
  lemma {:induction false} QueueKeeps(inputs: seq<Input>)
    ensures Inv(After(inputs))
    decreases |inputs|
  {
    if inputs == [] {
    } else {
      QueueKeeps(inputs[..|inputs| - 1]);
      StepGoes(After(inputs[..|inputs| - 1]), inputs[|inputs| - 1]);
      hide Inv, Step, Loses;
    }
  }

  // No input lost an event.
  ghost predicate Lossless(inputs: seq<Input>) {
    forall n :: 0 <= n < |inputs| ==> !Loses(After(inputs[..n]), inputs[n])
  }

  // Everything posted was sent or waits, exactly when no input lost anything: no more than 64 events waited, no frame
  // was replaced while events waited for it, and nothing was sent to a frame without origin.
  lemma {:induction false} NothingIsLost(inputs: seq<Input>)
    ensures Exact(After(inputs)) <==> Lossless(inputs)
    decreases |inputs|
  {
    QueueKeeps(inputs);
    var s := After(inputs);
    SubShorter(s.sent + s.pending, s.posted);
    if inputs == [] {
    } else {
      var before, i := inputs[..|inputs| - 1], inputs[|inputs| - 1];
      NothingIsLost(before);
      QueueKeeps(before);
      StepGoes(After(before), i);
      SubShorter(After(before).sent + After(before).pending, After(before).posted);
      LosslessMore(before, i);
      assert inputs == before + [i];
      hide Inv, Step, Loses, Lossless, Sub;
    }
  }

  lemma LosslessMore(before: seq<Input>, i: Input)
    ensures Lossless(before + [i]) <==> Lossless(before) && !Loses(After(before), i)
  {
    var inputs := before + [i];
    assert forall n :: 0 <= n <= |before| ==> inputs[..n] == before[..n];
    assert before[..|before|] == before;
    hide Loses, After;
    if Lossless(inputs) {
      assert !Loses(After(inputs[..|before|]), inputs[|before|]);
      forall n | 0 <= n < |before| ensures !Loses(After(before[..n]), before[n]) {
        assert !Loses(After(inputs[..n]), inputs[n]);
      }
    }
  }

  function Of(events: seq<Event>, g: nat): seq<Event> {
    if events == [] then []
    else Of(events[..|events| - 1], g) + if events[|events| - 1].generation == g then [events[|events| - 1]] else []
  }

  lemma {:induction false} SubOf(a: seq<Event>, b: seq<Event>, g: nat)
    requires Sub(a, b)
    ensures Sub(Of(a, g), Of(b, g))
    decreases |b|
  {
    if b == [] {
    } else {
      var rest, e := b[..|b| - 1], b[|b| - 1];
      if Sub(a, rest) {
        SubOf(a, rest, g);
        SubMore(Of(a, g), Of(rest, g), e);
        assert Of(rest, g) + [] == Of(rest, g);
      } else {
        SubOf(a[..|a| - 1], rest, g);
        SubMore(Of(a[..|a| - 1], g), Of(rest, g), e);
        assert Of(rest, g) + [] == Of(rest, g) && Of(a[..|a| - 1], g) + [] == Of(a[..|a| - 1], g);
      }
    }
  }

  // What the frame of each generation got is a subsequence of what was posted during that generation.
  lemma FrameGetsItsOwn(inputs: seq<Input>, g: nat)
    ensures Sub(Of(After(inputs).sent, g), Of(After(inputs).posted, g))
  {
    QueueKeeps(inputs);
    var s := After(inputs);
    SubPrefix(s.sent + s.pending, |s.sent|, s.posted);
    assert (s.sent + s.pending)[..|s.sent|] == s.sent;
    SubOf(s.sent, s.posted, g);
  }

  // The page

  function OriginOf(sameOrigin: bool, frameOrigin: string): Origin {
    if !sameOrigin then Any else if frameOrigin == "" then Missing else Own
  }

  // The loop of postToFrame that drops the oldest events.
  method KeepLast(all: seq<Event>) returns (pending: seq<Event>)
    ensures pending == LastEvents(all)
  {
    pending := all;
    while |pending| > MAX_PENDING_EVENTS
      invariant |pending| <= |all| && pending == all[|all| - |pending|..]
      invariant |all| > MAX_PENDING_EVENTS ==> |pending| >= MAX_PENDING_EVENTS
      invariant |all| <= MAX_PENDING_EVENTS ==> |pending| == |all|
    {
      pending := pending[1..];
    }
  }

  class Shell {
    var iframe: bool
    var frameLoaded: bool
    var frameGeneration: nat
    var sameOrigin: bool
    var frameOrigin: string
    var reloadSupported: bool
    var reloadTimeout: bool
    var pendingEvents: seq<Event>
    ghost var posted: seq<Event>
    var sent: seq<Event>

    ghost function View(): State
      reads this
    {
      State(iframe, frameLoaded, frameGeneration, OriginOf(sameOrigin, frameOrigin), reloadSupported, reloadTimeout,
            pendingEvents, posted, sent)
    }

    constructor ()
      ensures View() == START && Inv(View())
    {
      iframe, frameLoaded, frameGeneration, sameOrigin, frameOrigin := false, false, 0, false, "";
      reloadSupported, reloadTimeout, pendingEvents, posted, sent := false, false, [], [], [];
    }

    method SendToFrame(e: Event)
      modifies this`sent
      ensures View() == Send(old(View()), e)
      ensures sent == if iframe && e.generation == frameGeneration && (sameOrigin ==> frameOrigin != "")
                      then old(sent) + [e] else old(sent)
    {
      if !iframe || e.generation != frameGeneration {
        return;
      }
      if sameOrigin && frameOrigin == "" {
        return;
      }
      sent := sent + [e];
    }

    method PostToFrame(eventType: string, eventData: string)
      requires Inv(View())
      modifies this`pendingEvents, this`posted, this`sent
      ensures View() == Step(old(View()), Post(eventType, eventData))
      ensures Goes(old(View()), View(), Loses(old(View()), Post(eventType, eventData)))
    {
      StepGoes(View(), Post(eventType, eventData));
      hide Inv, Loses, Goes;
      var e := Event(frameGeneration, eventType, eventData);
      posted := posted + [e];
      if !iframe || !frameLoaded {
        pendingEvents := KeepLast(pendingEvents + [e]);
        return;
      }
      SendToFrame(e);
    }

    method FlushPendingEvents()
      modifies this`pendingEvents, this`sent
      ensures View() == Flush(old(View()))
    {
      var pending := pendingEvents;
      pendingEvents := [];
      ghost var s := View();
      var n := 0;
      while n < |pending|
        invariant 0 <= n <= |pending|
        invariant View() == SendAll(s, pending[..n])
      {
        assert pending[..n + 1][..n] == pending[..n];
        SendAllFrame(s, pending[..n]);
        var event := pending[n];
        if event.generation == frameGeneration {
          SendToFrame(event);
        }
        n := n + 1;
      }
      assert pending[..n] == pending;
    }

    method CreateIframe()
      modifies this
      ensures View() == CreateFrame(old(View()))
    {
      if reloadTimeout {
        reloadTimeout := false;
      }
      frameGeneration := frameGeneration + 1;
      pendingEvents := [];
      frameLoaded := false;
      reloadSupported := false;
      iframe := true;
    }

    method OnLoad(generation: nat)
      requires Inv(View())
      modifies this
      ensures View() == Step(old(View()), Load(generation))
      ensures Goes(old(View()), View(), Loses(old(View()), Load(generation)))
    {
      StepGoes(View(), Load(generation));
      hide Inv, Loses, Goes;
      if !iframe || generation != frameGeneration {
        return;
      }
      frameLoaded := true;
      hide Flush;
      FlushPendingEvents();
    }

    method OnMessage(generation: nat, originMatches: bool, message: Message)
      requires Inv(View())
      modifies this`reloadSupported, this`reloadTimeout, this`frameLoaded
      ensures View() == Step(old(View()), FromFrame(generation, originMatches, message))
      ensures Goes(old(View()), View(), Loses(old(View()), FromFrame(generation, originMatches, message)))
      ensures var heard := iframe && generation == frameGeneration
          && (sameOrigin ==> frameOrigin != "" && originMatches);
        && reloadSupported == (if heard && message.Ready? then message.reloadSupported else old(reloadSupported))
        && (frameLoaded <==> old(frameLoaded) && !(heard && message.WillReload?))
        && (reloadTimeout <==> old(reloadTimeout) && !(heard && message.WillReload?))
    {
      StepGoes(View(), FromFrame(generation, originMatches, message));
      hide Inv, Loses, Goes;
      if !iframe || generation != frameGeneration {
        return;
      }
      if sameOrigin && (frameOrigin == "" || !originMatches) {
        return;
      }
      match message {
        case Ready(supported) => reloadSupported := supported;
        case WillReload =>
          if reloadTimeout {
            reloadTimeout := false;
          }
          frameLoaded := false;
        case Other =>
      }
    }

    method ReloadFrame()
      requires Inv(View())
      modifies this
      ensures View() == Step(old(View()), Reload)
      ensures Goes(old(View()), View(), Loses(old(View()), Reload))
    {
      StepGoes(View(), Reload);
      hide Inv, Loses, Goes;
      if !iframe {
        return;
      }
      if reloadSupported && frameLoaded {
        var e := Event(frameGeneration, "reload_iframe", "{}");
        posted := posted + [e];
        SendToFrame(e);
        reloadTimeout := true;
        return;
      }
      CreateIframe();
    }

    method OnReloadTimeout()
      requires Inv(View()) && reloadTimeout
      modifies this
      ensures View() == Step(old(View()), Timeout)
      ensures Goes(old(View()), View(), Loses(old(View()), Timeout))
    {
      StepGoes(View(), Timeout);
      hide Inv, Loses, Goes;
      reloadTimeout := false;
      CreateIframe();
    }

    method Bootstrap(sameOrigin: bool, originFromUrl: string)
      requires Inv(View())
      modifies this
      ensures View() == Step(old(View()), Input.Bootstrap(OriginOf(sameOrigin, originFromUrl)))
      ensures Goes(old(View()), View(), Loses(old(View()), Input.Bootstrap(OriginOf(sameOrigin, originFromUrl))))
    {
      StepGoes(View(), Input.Bootstrap(OriginOf(sameOrigin, originFromUrl)));
      hide Inv, Loses, Goes;
      this.sameOrigin := sameOrigin;
      frameOrigin := if sameOrigin then originFromUrl else "";
      CreateIframe();
    }
  }

  lemma {:induction false} SendAllFrame(s: State, events: seq<Event>)
    ensures SendAll(s, events) == s.(sent := SendAll(s, events).sent)
    decreases |events|
  {
    if events == [] {
    } else {
      SendAllFrame(s, events[..|events| - 1]);
    }
  }
}
