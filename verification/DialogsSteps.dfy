/** What each call and each reply does to the chats list loader, on its fields alone. */
module DialogsSteps {
  import opened DialogsProtocol

  // The main list is still being loaded.
  predicate Open(s: State) { 0 in s.states && !s.states[0].listReceived }

  // All that a request of the list of f changes: it is the next one, and the pinned half is asked for with it unless
  // that is there or asked for already. Only a request of the main list looks at the date boundary again.
  ghost predicate SentOne(s: State, s': State, f: Folder) {
    f in s.states
    && var l := s.states[f];
    var withPins := !l.pinnedReceived && l.pinnedRequestId == 0;
    && s'.states == s.states[f := Load(l.offset, s.nextId, l.listReceived,
                                       if withPins then s.nextId + 1 else l.pinnedRequestId, l.pinnedReceived)]
    && s'.lists == s.lists[s.nextId := f]
    && s'.pins == (if withPins then s.pins[s.nextId + 1 := f] else s.pins)
    && s'.nextId == s.nextId + (if withPins then 2 else 1)
    && s'.mayBlock == (if f == 0 then s.till > 0 && !l.listReceived else s.mayBlock)
    && !s'.blocked
    && s'.slice == s.slice && s'.till == s.till && s'.done == s.done
    && s'.listsEnded == s.listsEnded && s'.pinsEnded == s.pinsEnded && s'.stale == s.stale
  }

  lemma PinnedIsAskedFor(s: State, f: Folder)
    ensures var s' := RequestPinned(s, f);
      if f in s.states && !s.states[f].pinnedReceived && s.states[f].pinnedRequestId == 0 then
        s' == s.(states := s.states[f := s.states[f].(pinnedRequestId := s.nextId)], pins := s.pins[s.nextId := f],
                 nextId := s.nextId + 1)
      else s' == s
  {
  }

  lemma MoreExactly(s: State, f: Folder)
    requires Inv(s)
    ensures var s' := RequestMore(s, f);
      if f in s.states && s.states[f].requestId == 0 && !s.blocked then SentOne(s, s', f) else s' == s
  {
    hide Inv;
    assert s.nextId > 0 by { Positive(s); }
    if f in s.states && s.states[f].requestId == 0 && !s.blocked {
      PinnedIsAskedFor(SendList(s, f), f);
    }
    hide RequestPinned;
  }

  lemma Positive(s: State)
    requires Inv(s)
    ensures s.nextId > 0
  {
  }

  // An archive that is not known yet is asked for from the start.
  lemma DialogsExactly(run: seq<State>, n: nat, f: Folder)
    requires IsRun(run) && n < |run|
    ensures var s, s' := run[n], RequestDialogs(run[n], f);
      var known := if f == 0 || f in s.states then s
                   else s.(states := s.states[f := Load(Offset(0, 0, 0), 0, false, 0, false)]);
      if f in known.states && known.states[f].requestId == 0 && !s.blocked then SentOne(known, s', f) else s' == known
  {
    RunKeeps(run, n);
    var s := run[n];
    if f != 0 && f !in s.states {
      FreshKeeps(s, f);
      MoreExactly(s.(states := s.states[f := FRESH]), f);
    } else {
      MoreExactly(s, f);
    }
    hide RequestMore, Inv, IsRun, SentOne;
  }

  // The folder whose list goes on without being asked for: the main one first, then the archive.
  ghost predicate GoesOn(s: State, s': State, exceptions: bool, archive: bool) {
    if !exceptions && Open(s) && s.states[0].requestId == 0 && !s.blocked then SentOne(s, s', 0)
    else if !exceptions && !Open(s) && archive && 1 in s.states && s.states[1].requestId == 0 && !s.blocked then
      SentOne(s, s', 1)
    else s' == s
  }

  lemma IfNeededExactly(s: State, exceptions: bool, archive: bool)
    requires Inv(s)
    ensures GoesOn(s, IfNeeded(s, exceptions, archive), exceptions, archive)
  {
    MoreExactly(s, 0);
    MoreExactly(s, 1);
    hide RequestMore, Inv, SentOne;
  }

  // A part of the main list: the offset is the one it ends at, and the next part is asked for at once, unless chats of
  // filters are loaded first or the part ends at or before the date boundary, where the list waits.
  lemma MainPartExactly(run: seq<State>, n: nat, req: ReqId, o: Offset, exceptions: bool, archive: bool)
    requires IsRun(run) && n < |run| && req in run[n].lists && run[n].lists[req] == 0 && o.date != 0
    ensures var s, s' := run[n], ListDone(run[n], req, Slice(o), exceptions, archive);
      var waits := s.till > 0 && 0 < o.date <= s.till;
      && 0 in s'.states && s'.states[0].offset == o && !s'.states[0].listReceived
      && s'.blocked == waits && s'.mayBlock == (s.till > 0) && s'.done == s.done
      && if waits || exceptions then s'.lists == s.lists - {req} && s'.states[0].requestId == 0
         else s'.lists == (s.lists - {req})[s.nextId := 0] && s'.states[0].requestId == s.nextId
  {
    RunKeeps(run, n);
    var s := run[n];
    assert ListOf(s, req, 0);
    RepliedKeeps(s, req, Slice(o));
    var s1 := s.(lists := s.lists - {req}, states := s.states[0 := s.states[0].(offset := o, requestId := 0)]);
    assert Replied(s.(lists := s.lists - {req}), 0, Slice(o)) == s1;
    Unblocked(s1);
    RefreshedKeeps(s1);
    hide Inv, IsRun, Replied, IfNeeded;
    IfNeededExactly(Refreshed(s1), exceptions, archive);
  }

  // A part of another folder's list: which list goes on then has nothing to do with the folder.
  lemma FolderPartExactly(run: seq<State>, n: nat, req: ReqId, o: Offset, exceptions: bool, archive: bool)
    requires IsRun(run) && n < |run| && req in run[n].lists && run[n].lists[req] != 0 && o.date != 0
    ensures var s, f := run[n], run[n].lists[req];
      && f in s.states
      && GoesOn(s.(lists := s.lists - {req}, states := s.states[f := s.states[f].(offset := o, requestId := 0)]),
                ListDone(s, req, Slice(o), exceptions, archive), exceptions, archive)
  {
    RunKeeps(run, n);
    var s, f := run[n], run[n].lists[req];
    assert ListOf(s, req, f);
    RepliedKeeps(s, req, Slice(o));
    var s1 := s.(lists := s.lists - {req}, states := s.states[f := s.states[f].(offset := o, requestId := 0)]);
    assert Replied(s.(lists := s.lists - {req}), f, Slice(o)) == s1;
    hide Inv, IsRun, Replied, IfNeeded, GoesOn;
    IfNeededExactly(s1, exceptions, archive);
  }

  // The last part, or a part in which nothing has a date: the folder is finished if the pinned chats are there, and
  // waits for them otherwise.
  ghost predicate ListIsThere(s: State, m: State, f: Folder) {
    && f in s.states
    && (forall g :: g != f ==> (g in m.states <==> g in s.states) && (g in s.states ==> m.states[g] == s.states[g]))
    && (if s.states[f].pinnedReceived then f !in m.states && m.done == s.done + [f]
        else f in m.states && m.states[f] == s.states[f].(listReceived := true) && m.done == s.done)
    && m.lists == s.lists && m.pins == s.pins && m.nextId == s.nextId && m.slice == s.slice && m.till == s.till
    && m.mayBlock == s.mayBlock && m.blocked == s.blocked && m.stale == s.stale && m.pinsEnded == s.pinsEnded
    && m.listsEnded == s.listsEnded[f := Get(s.listsEnded, f) + 1]
  }

  lemma EndedExactly(s: State, f: Folder)
    requires f in s.states
    ensures ListIsThere(s, ListEnded(s, f), f)
  {
  }

  // When the main list waits for its pinned chats, the boundary is not looked at again.
  lemma LastPartExactly(run: seq<State>, n: nat, req: ReqId, reply: Reply, exceptions: bool, archive: bool)
    requires IsRun(run) && n < |run| && req in run[n].lists
    requires reply.Full? || (reply.Slice? && reply.offset.date == 0)
    ensures var s, f := run[n], run[n].lists[req];
      f in s.states
      && exists m ::
           && ListIsThere(s.(lists := s.lists - {req}), m, f)
           && GoesOn(if f == 0 && s.states[0].pinnedReceived then m.(mayBlock := false, blocked := false) else m,
                     ListDone(s, req, reply, exceptions, archive), exceptions, archive)
  {
    RunKeeps(run, n);
    var s, f := run[n], run[n].lists[req];
    assert ListOf(s, req, f);
    RepliedKeeps(s, req, reply);
    EndedExactly(s.(lists := s.lists - {req}), f);
    var m := Replied(s.(lists := s.lists - {req}), f, reply);
    assert ListIsThere(s.(lists := s.lists - {req}), m, f) by { hide ListIsThere; }
    hide Inv, IsRun, Replied, IfNeeded, GoesOn, ListEnded;
    var m' := if f == 0 && s.states[0].pinnedReceived then m.(mayBlock := false, blocked := false) else m;
    if f == 0 && 0 !in m.states {
      Unblocked(m);
      RefreshedKeeps(m);
      assert Refreshed(m) == m';
    }
    IfNeededExactly(m', exceptions, archive);
  }

  // Nothing is in flight for that list any more; for the main list, the boundary is looked at again.
  lemma NotModifiedExactly(run: seq<State>, n: nat, req: ReqId, exceptions: bool, archive: bool)
    requires IsRun(run) && n < |run| && req in run[n].lists
    ensures var s, f := run[n], run[n].lists[req];
      var m := s.(lists := s.lists - {req}, stale := s.stale + {f});
      GoesOn(if f == 0 then m.(mayBlock := s.till > 0, blocked := false) else m,
             ListDone(s, req, NotModified, exceptions, archive), exceptions, archive)
  {
    RunKeeps(run, n);
    var s, f := run[n], run[n].lists[req];
    assert ListOf(s, req, f);
    RepliedKeeps(s, req, NotModified);
    var m := s.(lists := s.lists - {req}, stale := s.stale + {f});
    assert m == Replied(s.(lists := s.lists - {req}), f, NotModified);
    assert s.states[f].requestId != 0;
    hide Inv, IsRun, Replied, IfNeeded, GoesOn;
    if f == 0 {
      Unblocked(m);
      RefreshedKeeps(m);
      assert Refreshed(m) == m.(mayBlock := s.till > 0, blocked := false);
      IfNeededExactly(Refreshed(m), exceptions, archive);
    } else {
      IfNeededExactly(m, exceptions, archive);
    }
  }

  // A failed request may be sent again; nothing else changes.
  lemma FailedExactly(run: seq<State>, n: nat, req: ReqId)
    requires IsRun(run) && n < |run| && req in run[n].lists
    ensures var s, f := run[n], run[n].lists[req];
      f in s.states
      && var l := s.states[f];
      ListFailed(s, req) == s.(lists := s.lists - {req},
        states := s.states[f := Load(l.offset, 0, l.listReceived, l.pinnedRequestId, l.pinnedReceived)])
  {
    FailFindsItsState(run, n, req);
  }

  // The pinned chats: the folder is finished if its list is there, and waits for it otherwise.
  lemma PinnedExactly(run: seq<State>, n: nat, req: ReqId)
    requires IsRun(run) && n < |run| && req in run[n].pins
    ensures var s, s', f := run[n], PinnedAnswered(run[n], req), run[n].pins[req];
      && f in s.states
      && (forall g :: g != f ==> (g in s'.states <==> g in s.states) && (g in s.states ==> s'.states[g] == s.states[g]))
      && (if s.states[f].listReceived then f !in s'.states && s'.done == s.done + [f]
          else f in s'.states && s'.states[f] == s.states[f].(pinnedRequestId := 0, pinnedReceived := true)
               && s'.done == s.done)
      && s'.pins == s.pins - {req} && s'.lists == s.lists && s'.nextId == s.nextId && s'.till == s.till
      && s'.mayBlock == s.mayBlock && s'.blocked == s.blocked && s'.slice == s.slice && s'.stale == s.stale
  {
    RunKeeps(run, n);
    assert PinsOf(run[n], req, run[n].pins[req]);
    hide Inv, IsRun;
  }

  // The setting: the list may wait at the boundary exactly while it is incomplete and the slice ends after time zero,
  // and it waits at once if it has come that far with nothing in flight.
  lemma SliceExactly(s: State, seconds: nat, now: int)
    ensures var s' := SliceChanged(s, seconds, now);
      var till := if seconds == 0 || now <= seconds then 0 else now - seconds;
      var may := 0 in s.states && !s.states[0].listReceived && till > 0;
      s' == s.(slice := seconds, till := till, mayBlock := may,
               blocked := may && s.states[0].requestId == 0 && 0 < s.states[0].offset.date <= till)
  {
  }

  // Asking for more at the boundary moves it one slice before the offset.
  lemma BlockedExactly(run: seq<State>, n: nat, now: int)
    requires IsRun(run) && n < |run| && run[n].blocked
    ensures var s, s' := run[n], RequestBlocked(run[n], now);
      && 0 in s.states && s.states[0].offset.date > 0
      && var till := s.states[0].offset.date - s.slice;
      SentOne(s.(till := till, mayBlock := till > 0, blocked := false), s', 0)
  {
    RunKeeps(run, n);
    var s := run[n];
    var till := s.states[0].offset.date - s.slice;
    assert AtBoundary(s);
    var s1 := s.(till := till, mayBlock := till > 0, blocked := false);
    assert Refreshed(s.(till := TillBefore(s, now))) == s1;
    Beyond(s, now);
    MoreExactly(s1, 0);
    hide Inv, IsRun, SentOne, RequestMore;
  }
}
