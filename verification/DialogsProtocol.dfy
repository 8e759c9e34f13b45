/** Loading the chats lists: one list and one pinned request per folder, until both halves are there. */
module DialogsProtocol {
  type Folder = nat  // 0 is the main list, 1 the archive
  type ReqId = nat

  datatype Offset = Offset(date: int, msg: int, peer: int)

  datatype Load =
    Load(offset: Offset, requestId: ReqId, listReceived: bool, pinnedRequestId: ReqId, pinnedReceived: bool)

  const FRESH := Load(Offset(0, 0, 0), 0, false, 0, false)

  // states, till, mayBlock, blocked: the object's state. slice: the time slice that it last heard of, 0 for none.
  // lists and pins: the requests in flight. done: the postponed chatsListDone calls. listsEnded, pinsEnded: how often
  // the last part of a folder's list, and its pinned part, arrived. stale: folders that got a not-modified reply.
  datatype State = State(
    states: map<Folder, Load>, slice: nat, till: int, mayBlock: bool, blocked: bool,
    lists: map<ReqId, Folder>, pins: map<ReqId, Folder>, nextId: ReqId, done: seq<Folder>,
    listsEnded: map<Folder, nat>, pinsEnded: map<Folder, nat>, stale: set<Folder>)

  ghost predicate Init(s: State) {
    s == State(map[0 := FRESH], 0, 0, false, false, map[], map[], 1, [], map[], map[], {})
  }

  function Get(m: map<Folder, nat>, f: Folder): nat { if f in m then m[f] else 0 }

  // Steps

  predicate Loading(s: State) { 0 in s.states && !s.states[0].listReceived }

  // What dialogsLoadBlockedByDate is refreshed to.
  predicate AtBoundary(s: State) {
    Loading(s) && s.states[0].requestId == 0 && s.till > 0 && 0 < s.states[0].offset.date <= s.till
  }

  function Refreshed(s: State): State { s.(mayBlock := Loading(s) && s.till > 0, blocked := AtBoundary(s)) }

  function RequestPinned(s: State, f: Folder): State {
    if f !in s.states || s.states[f].pinnedReceived || s.states[f].pinnedRequestId != 0 then s
    else s.(states := s.states[f := s.states[f].(pinnedRequestId := s.nextId)], pins := s.pins[s.nextId := f],
            nextId := s.nextId + 1)
  }

  function SendList(s: State, f: Folder): State
    requires f in s.states
  {
    s.(states := s.states[f := s.states[f].(requestId := s.nextId)], lists := s.lists[s.nextId := f],
       nextId := s.nextId + 1)
  }

  function RequestMore(s: State, f: Folder): State {
    if f !in s.states || s.states[f].requestId != 0 || s.blocked then s
    else
      var sent := RequestPinned(SendList(s, f), f);
      if f == 0 then Refreshed(sent) else sent
  }

  function RequestDialogs(s: State, f: Folder): State {
    RequestMore(if f != 0 && f !in s.states then s.(states := s.states[f := FRESH]) else s, f)
  }

  // dialogsLoadFinish
  function LoadFinish(s: State, f: Folder): State {
    if f !in s.states || !s.states[f].listReceived || !s.states[f].pinnedReceived then s
    else s.(states := s.states - {f}, done := s.done + [f])
  }

  function ListArrived(s: State, f: Folder): State
    requires f in s.states
  {
    s.(states := s.states[f := s.states[f].(listReceived := true)],
       listsEnded := s.listsEnded[f := Get(s.listsEnded, f) + 1])
  }

  function ListEnded(s: State, f: Folder): State {
    if f !in s.states then s else LoadFinish(ListArrived(s, f), f)
  }

  datatype Reply = NotModified | Full | Slice(offset: Offset)

  // The reply to a list request, before more is requested.
  function Replied(s: State, f: Folder, reply: Reply): State {
    match reply
    case NotModified => s.(stale := s.stale + {f})
    case Full => ListEnded(s, f)
    case Slice(offset) =>
      if offset.date != 0 then
        if f in s.states then s.(states := s.states[f := s.states[f].(offset := offset, requestId := 0)]) else s
      else ListEnded(s, f)
  }

  // exceptions: chats of filters are being loaded first. archive: the archive is known, and a filter needs it.
  function IfNeeded(s: State, exceptions: bool, archive: bool): State {
    if exceptions then s
    else if Loading(s) then if s.states[0].requestId != 0 then s else RequestDialogs(s, 0)
    else if archive then RequestMore(s, 1)
    else s
  }

  function ListDone(s: State, req: ReqId, reply: Reply, exceptions: bool, archive: bool): State
    requires req in s.lists
  {
    var f := s.lists[req];
    var s1 := Replied(s.(lists := s.lists - {req}), f, reply);
    IfNeeded(if f == 0 && (0 !in s1.states || !s1.states[0].listReceived) then Refreshed(s1) else s1,
             exceptions, archive)
  }

  // The handler looks the state up without a check.
  function ListFailed(s: State, req: ReqId): State
    requires req in s.lists && s.lists[req] in s.states
  {
    var f := s.lists[req];
    s.(lists := s.lists - {req}, states := s.states[f := s.states[f].(requestId := 0)])
  }

  function PinnedArrived(s: State, req: ReqId): State
    requires req in s.pins && s.pins[req] in s.states
  {
    var f := s.pins[req];
    s.(pins := s.pins - {req}, states := s.states[f := s.states[f].(pinnedRequestId := 0, pinnedReceived := true)],
       pinsEnded := s.pinsEnded[f := Get(s.pinsEnded, f) + 1])
  }

  // done and fail alike.
  function PinnedAnswered(s: State, req: ReqId): State
    requires req in s.pins
  {
    var f := s.pins[req];
    if f !in s.states then s.(pins := s.pins - {req}) else LoadFinish(PinnedArrived(s, req), f)
  }

  function TillFor(seconds: nat, now: int): int {
    if seconds == 0 then 0 else if now - seconds > 0 then now - seconds else 0
  }

  // The chats time slice setting changes: 0 is no limit.
  function SliceChanged(s: State, seconds: nat, now: int): State {
    Refreshed(s.(slice := seconds, till := TillFor(seconds, now)))
  }

  function TillBefore(s: State, now: int): int
    requires 0 in s.states
  {
    if s.states[0].offset.date != 0 then s.states[0].offset.date - s.slice else now - s.slice
  }

  function RequestBlocked(s: State, now: int): State {
    if 0 !in s.states then s else RequestDialogs(Refreshed(s.(till := TillBefore(s, now))), 0)
  }

  ghost predicate Answers(s: State, s': State, req: ReqId) {
    || (req in s.lists && exists reply, e, a :: s' == ListDone(s, req, reply, e, a))
    || (req in s.lists && s.lists[req] in s.states && s' == ListFailed(s, req))
    || (req in s.pins && s' == PinnedAnswered(s, req))
  }

  // More chats are asked for at the date boundary only: the button is disabled otherwise.
  ghost predicate Calls(s: State, s': State, f: Folder) {
    || s' == RequestDialogs(s, f)
    || s' == RequestMore(s, f)
    || s' == RequestPinned(s, f)
    || (exists e, a :: s' == IfNeeded(s, e, a))
    || (exists seconds, now :: s' == SliceChanged(s, seconds, now))
    || (s.blocked && exists now :: s' == RequestBlocked(s, now))
  }

  ghost predicate Next(s: State, s': State) {
    (exists req :: Answers(s, s', req)) || (exists f :: Calls(s, s', f))
  }

  ghost predicate IsRun(run: seq<State>) {
    run != [] && Init(run[0]) && forall i :: 0 <= i < |run| - 1 ==> Next(run[i], run[i + 1])
  }

  // The invariant

  // A folder's list request in flight is the one its state remembers, and the list is not complete; the same for the
  // pinned half. A request id that is not in flight stays after the last part of the list, or after not-modified.
  ghost predicate Half(s: State, f: Folder) {
    f in s.states ==> HalfOf(s, f, s.states[f])
  }

  ghost predicate HalfOf(s: State, f: Folder, l: Load) {
    && l.requestId < s.nextId && l.pinnedRequestId < s.nextId
    && (l.listReceived ==> l.requestId != 0 && l.requestId !in s.lists)
    && (l.requestId != 0 && !l.listReceived ==>
          InFlight(s.lists, l.requestId, f) || (l.requestId !in s.lists && f in s.stale))
    && (l.pinnedReceived ==> l.pinnedRequestId == 0)
    && (l.pinnedRequestId != 0 ==> InFlight(s.pins, l.pinnedRequestId, f))
  }

  predicate InFlight(requests: map<ReqId, Folder>, r: ReqId, f: Folder) { r in requests && requests[r] == f }

  ghost predicate Incomplete(s: State, f: Folder) {
    f in s.states ==> !(s.states[f].listReceived && s.states[f].pinnedReceived)
  }

  ghost predicate Requests(s: State) {
    && (forall r :: r in s.lists ==> 0 < r < s.nextId && ListOf(s, r, s.lists[r]))
    && (forall r :: r in s.pins ==> 0 < r < s.nextId && PinsOf(s, r, s.pins[r]))
  }

  ghost predicate ListOf(s: State, r: ReqId, f: Folder) {
    f in s.states && s.states[f].requestId == r && !s.states[f].listReceived
  }

  ghost predicate PinsOf(s: State, r: ReqId, f: Folder) {
    f in s.states && s.states[f].pinnedRequestId == r && !s.states[f].pinnedReceived
  }

  ghost function Count(q: seq<Folder>, f: Folder): nat { multiset(q)[f] }

  // Each half arrived once for each time the folder was finished, and once more when only it is there.
  ghost predicate Counted(s: State, f: Folder) {
    && Get(s.listsEnded, f) == Count(s.done, f) + (if f in s.states && s.states[f].listReceived then 1 else 0)
    && Get(s.pinsEnded, f) == Count(s.done, f) + (if f in s.states && s.states[f].pinnedReceived then 1 else 0)
  }

  ghost predicate Core(s: State) {
    && s.nextId > 0 && Requests(s) && (s.blocked ==> AtBoundary(s)) && (s.till > 0 ==> s.slice > 0)
    && (forall f :: Half(s, f))
    && (forall f :: Counted(s, f))
    && Count(s.done, 0) + (if 0 in s.states then 1 else 0) == 1
  }

  ghost predicate Inv(s: State) { Core(s) && forall f :: Incomplete(s, f) }

  lemma RefreshedKeeps(s: State)
    requires Inv(s.(blocked := false))
    ensures Inv(Refreshed(s))
  {
    var s' := Refreshed(s);
    forall f ensures Half(s', f) && Counted(s', f) && Incomplete(s', f) {
      var s1 := s.(blocked := false);
      assert Half(s1, f) && Counted(s1, f) && Incomplete(s1, f);
    }
  }

  lemma RequestPinnedKeeps(s: State, f: Folder)
    requires Inv(s)
    ensures Inv(RequestPinned(s, f))
  {
    var s' := RequestPinned(s, f);
    forall g ensures Half(s', g) && Counted(s', g) && Incomplete(s', g) {
      assert Half(s, g) && Counted(s, g) && Incomplete(s, g);
    }
  }

  lemma SendListKeeps(s: State, f: Folder)
    requires Inv(s) && f in s.states && s.states[f].requestId == 0 && !s.blocked
    ensures Inv(SendList(s, f)) && !SendList(s, f).blocked && f in SendList(s, f).states
  {
    var s' := SendList(s, f);
    assert Half(s, f);
    forall g ensures Half(s', g) && Counted(s', g) && Incomplete(s', g) {
      assert Half(s, g) && Counted(s, g) && Incomplete(s, g);
    }
  }

  lemma RequestMoreKeeps(s: State, f: Folder)
    requires Inv(s)
    ensures Inv(RequestMore(s, f))
  {
    hide Inv, Refreshed, SendList, RequestPinned;
    if f in s.states && s.states[f].requestId == 0 && !s.blocked {
      SendListKeeps(s, f);
      RequestPinnedKeeps(SendList(s, f), f);
      RequestPinnedFrame(SendList(s, f), f);
      RefreshedKeeps(RequestPinned(SendList(s, f), f));
    }
  }

  lemma RequestPinnedFrame(s: State, f: Folder)
    ensures RequestPinned(s, f).blocked == s.blocked
    ensures !s.blocked ==> RequestPinned(s, f).(blocked := false) == RequestPinned(s, f)
  {
  }

  lemma FreshKeeps(s: State, f: Folder)
    requires Inv(s) && f != 0 && f !in s.states
    ensures Inv(s.(states := s.states[f := FRESH]))
  {
    var s' := s.(states := s.states[f := FRESH]);
    forall g ensures Half(s', g) && Counted(s', g) && Incomplete(s', g) {
      assert Half(s, g) && Counted(s, g) && Incomplete(s, g);
    }
  }

  lemma RequestDialogsKeeps(s: State, f: Folder)
    requires Inv(s)
    ensures Inv(RequestDialogs(s, f))
  {
    hide RequestMore, Inv;
    if f != 0 && f !in s.states {
      FreshKeeps(s, f);
      RequestMoreKeeps(s.(states := s.states[f := FRESH]), f);
    } else {
      RequestMoreKeeps(s, f);
    }
  }

  lemma IfNeededKeeps(s: State, e: bool, a: bool)
    requires Inv(s)
    ensures Inv(IfNeeded(s, e, a))
  {
    hide Inv, RequestMore, RequestDialogs;
    RequestMoreKeeps(s, 1);
    RequestDialogsKeeps(s, 0);
  }

  lemma CountAppended(q: seq<Folder>, f: Folder, g: Folder)
    ensures Count(q + [f], g) == Count(q, g) + if g == f then 1 else 0
  {
  }

  lemma LoadFinishKeeps(s: State, f: Folder)
    requires Core(s) && (forall g :: g != f ==> Incomplete(s, g)) && (s.blocked ==> f != 0)
    ensures Inv(LoadFinish(s, f))
  {
    if !Incomplete(s, f) {
      DroppedKeeps(s, f);
    } else {
      forall g ensures Incomplete(s, g) {
        assert g != f ==> Incomplete(s, g);
      }
    }
  }

  lemma DroppedKeeps(s: State, f: Folder)
    requires Core(s) && (forall g :: g != f ==> Incomplete(s, g)) && (s.blocked ==> f != 0) && !Incomplete(s, f)
    ensures Inv(s.(states := s.states - {f}, done := s.done + [f]))
  {
    var s' := s.(states := s.states - {f}, done := s.done + [f]);
    assert Half(s, f);
    forall g ensures Half(s', g) && Incomplete(s', g) {
      assert Half(s, g);
      assert g != f ==> Incomplete(s, g);
    }
    CountAppended(s.done, f, 0);
    forall g ensures Counted(s', g) {
      assert Counted(s, g);
      CountAppended(s.done, f, g);
      hide Count;
    }
  }

  lemma ListArrivedKeeps(s: State, req: ReqId, f: Folder)
    requires Inv(s) && req in s.lists && s.lists[req] == f
    ensures s.blocked ==> f != 0
    ensures f in s.states && Core(ListArrived(s.(lists := s.lists - {req}), f))
    ensures forall g :: g != f ==> Incomplete(ListArrived(s.(lists := s.lists - {req}), f), g)
  {
    assert f in s.states;
    var s1 := ListArrived(s.(lists := s.lists - {req}), f);
    hide Count;
    forall g ensures Half(s1, g) && (g != f ==> Incomplete(s1, g)) {
      assert Half(s, g) && Incomplete(s, g);
    }
    forall g ensures Counted(s1, g) {
      assert Counted(s, g);
    }
  }

  lemma ListEndedKeeps(s: State, req: ReqId, f: Folder)
    requires Inv(s) && req in s.lists && s.lists[req] == f
    ensures Inv(ListEnded(s.(lists := s.lists - {req}), f))
  {
    ListArrivedKeeps(s, req, f);
    hide Inv, Core, Incomplete, LoadFinish;
    LoadFinishKeeps(ListArrived(s.(lists := s.lists - {req}), f), f);
  }

  lemma RepliedKeeps(s: State, req: ReqId, reply: Reply)
    requires Inv(s) && req in s.lists
    ensures Inv(Replied(s.(lists := s.lists - {req}), s.lists[req], reply))
  {
    var f := s.lists[req];
    match reply {
      case NotModified => StaleKeeps(s, req);
      case Full => ListEndedKeeps(s, req, f);
      case Slice(offset) =>
        if offset.date == 0 {
          ListEndedKeeps(s, req, f);
        } else {
          MovedKeeps(s, req, offset);
        }
    }
    hide Inv, ListEnded;
  }

  lemma StaleKeeps(s: State, req: ReqId)
    requires Inv(s) && req in s.lists
    ensures Inv(s.(lists := s.lists - {req}, stale := s.stale + {s.lists[req]}))
  {
    var s' := s.(lists := s.lists - {req}, stale := s.stale + {s.lists[req]});
    forall g ensures Half(s', g) && Counted(s', g) && Incomplete(s', g) {
      assert Half(s, g) && Counted(s, g) && Incomplete(s, g);
    }
  }

  lemma MovedKeeps(s: State, req: ReqId, offset: Offset)
    requires Inv(s) && req in s.lists
    ensures var f := s.lists[req];
      f in s.states && Inv(s.(lists := s.lists - {req},
                              states := s.states[f := s.states[f].(offset := offset, requestId := 0)]))
  {
    var f := s.lists[req];
    assert Half(s, f);
    var s' := s.(lists := s.lists - {req}, states := s.states[f := s.states[f].(offset := offset, requestId := 0)]);
    forall g ensures Half(s', g) && Counted(s', g) && Incomplete(s', g) {
      assert Half(s, g) && Counted(s, g) && Incomplete(s, g);
    }
  }

  lemma ListDoneKeeps(s: State, req: ReqId, reply: Reply, e: bool, a: bool)
    requires Inv(s) && req in s.lists
    ensures Inv(ListDone(s, req, reply, e, a))
  {
    var f := s.lists[req];
    var s1 := Replied(s.(lists := s.lists - {req}), f, reply);
    RepliedKeeps(s, req, reply);
    hide Replied, IfNeeded;
    Unblocked(s1);
    hide Inv, Refreshed;
    RefreshedKeeps(s1);
    IfNeededKeeps(s1, e, a);
    IfNeededKeeps(Refreshed(s1), e, a);
  }

  lemma Unblocked(s: State)
    requires Inv(s)
    ensures Inv(s.(blocked := false))
  {
    var s' := s.(blocked := false);
    forall g ensures Half(s', g) && Counted(s', g) && Incomplete(s', g) {
      assert Half(s, g) && Counted(s, g) && Incomplete(s, g);
    }
  }

  lemma ListFailedKeeps(s: State, req: ReqId)
    requires Inv(s) && req in s.lists
    ensures s.lists[req] in s.states && Inv(ListFailed(s, req))
  {
    var s' := ListFailed(s, req);
    forall g ensures Half(s', g) && Counted(s', g) && Incomplete(s', g) {
      assert Half(s, g) && Counted(s, g) && Incomplete(s, g);
    }
  }

  lemma PinnedArrivedKeeps(s: State, req: ReqId)
    requires Inv(s) && req in s.pins
    ensures s.pins[req] in s.states && Core(PinnedArrived(s, req))
    ensures forall g :: g != s.pins[req] ==> Incomplete(PinnedArrived(s, req), g)
  {
    var f := s.pins[req];
    var s1 := PinnedArrived(s, req);
    hide Count;
    forall g ensures Half(s1, g) && (g != f ==> Incomplete(s1, g)) {
      assert Half(s, g) && Incomplete(s, g);
    }
    forall g ensures Counted(s1, g) {
      assert Counted(s, g);
    }
  }

  lemma PinnedAnsweredKeeps(s: State, req: ReqId)
    requires Inv(s) && req in s.pins
    ensures Inv(PinnedAnswered(s, req))
  {
    PinnedArrivedKeeps(s, req);
    hide Core, LoadFinish;
    var s1 := PinnedArrived(s, req);
    if s.blocked && s.pins[req] == 0 {
      BlockedUnlisted(s1);
    } else {
      hide Incomplete;
      LoadFinishKeeps(s1, s.pins[req]);
    }
  }

  lemma BlockedUnlisted(s: State)
    requires Core(s) && s.blocked
    ensures Incomplete(s, 0) && LoadFinish(s, 0) == s
  {
  }

  lemma TillKeeps(s: State, slice: nat, till: int)
    requires Inv(s) && (till > 0 ==> slice > 0)
    ensures Inv(Refreshed(s.(slice := slice, till := till)))
  {
    var s1 := s.(slice := slice, till := till, blocked := false);
    forall f ensures Half(s1, f) && Counted(s1, f) && Incomplete(s1, f) {
      assert Half(s, f) && Counted(s, f) && Incomplete(s, f);
    }
    RefreshedKeeps(s.(slice := slice, till := till));
  }

  // At the boundary the slice is positive, so going back by it leaves the boundary behind.
  lemma Beyond(s: State, now: int)
    requires Inv(s) && s.blocked
    ensures 0 in s.states && s.slice > 0 && !Refreshed(s.(till := TillBefore(s, now))).blocked
    ensures Inv(Refreshed(s.(till := TillBefore(s, now))))
  {
    TillKeeps(s, s.slice, TillBefore(s, now));
    assert s.(slice := s.slice, till := TillBefore(s, now)) == s.(till := TillBefore(s, now));
  }

  lemma CallsKeep(s: State, s': State, f: Folder)
    requires Inv(s) && Calls(s, s', f)
    ensures Inv(s')
  {
    hide Inv, Refreshed, RequestMore, RequestDialogs, RequestPinned, IfNeeded;
    RequestMoreKeeps(s, f);
    RequestPinnedKeeps(s, f);
    RequestDialogsKeeps(s, f);
    if e, a :| s' == IfNeeded(s, e, a) {
      IfNeededKeeps(s, e, a);
    } else if seconds, now :| s' == SliceChanged(s, seconds, now) {
      TillKeeps(s, seconds, TillFor(seconds, now));
    } else if now :| s.blocked && s' == RequestBlocked(s, now) {
      Beyond(s, now);
      RequestDialogsKeeps(Refreshed(s.(till := TillBefore(s, now))), 0);
    }
  }

  lemma AnswersKeep(s: State, s': State, req: ReqId)
    requires Inv(s) && Answers(s, s', req)
    ensures Inv(s')
  {
    hide Inv, ListDone, ListFailed, PinnedAnswered;
    if req in s.pins && s' == PinnedAnswered(s, req) {
      PinnedAnsweredKeeps(s, req);
    } else {
      ListFailedKeeps(s, req);
      if reply, e, a :| s' == ListDone(s, req, reply, e, a) {
        ListDoneKeeps(s, req, reply, e, a);
      }
    }
  }

  lemma NextKeeps(s: State, s': State)
    requires Inv(s) && Next(s, s')
    ensures Inv(s')
  {
    hide Inv, Answers, Calls;
    if req :| Answers(s, s', req) {
      AnswersKeep(s, s', req);
    } else {
      var f :| Calls(s, s', f);
      CallsKeep(s, s', f);
    }
  }

  lemma {:induction false} RunKeeps(run: seq<State>, n: nat)
    requires IsRun(run) && n < |run|
    ensures Inv(run[n])
  {
    if n == 0 {
      assert forall f :: Half(run[0], f) && Counted(run[0], f) && Incomplete(run[0], f);
    } else {
      RunKeeps(run, n - 1);
      hide Inv, Next;
      NextKeeps(run[n - 1], run[n]);
    }
  }

  // Theorems

  // The state that the fail handler looks up exists, and remembers this very request.
  lemma FailFindsItsState(run: seq<State>, n: nat, req: ReqId)
    requires IsRun(run) && n < |run| && req in run[n].lists
    ensures run[n].lists[req] in run[n].states && run[n].states[run[n].lists[req]].requestId == req
  {
    RunKeeps(run, n);
  }

  lemma OneRequestPerHalf(run: seq<State>, n: nat)
    requires IsRun(run) && n < |run|
    ensures forall q, r :: q in run[n].lists && r in run[n].lists && run[n].lists[q] == run[n].lists[r] ==> q == r
    ensures forall q, r :: q in run[n].pins && r in run[n].pins && run[n].pins[q] == run[n].pins[r] ==> q == r
  {
    RunKeeps(run, n);
  }

  // A folder has been finished as often as both its halves arrived, however often it was loaded again; and nothing of
  // a finished folder is in flight. The main list is finished at most once.
  lemma FinishedWhenBothArrived(run: seq<State>, n: nat, f: Folder)
    requires IsRun(run) && n < |run|
    ensures var s := run[n];
      var lists, pins := Get(s.listsEnded, f), Get(s.pinsEnded, f);
      Count(s.done, f) == if lists <= pins then lists else pins
    ensures f !in run[n].states ==>
              (f !in run[n].lists.Values && f !in run[n].pins.Values
               && Get(run[n].listsEnded, f) == Get(run[n].pinsEnded, f) == Count(run[n].done, f))
    ensures Count(run[n].done, 0) <= 1
  {
    RunKeeps(run, n);
    var s := run[n];
    assert Counted(s, f) && Incomplete(s, f);
  }

  // While the main list waits at the date boundary no request of it is in flight.
  lemma BlockedIsIdle(run: seq<State>, n: nat)
    requires IsRun(run) && n < |run| && run[n].blocked
    ensures 0 !in run[n].lists.Values && 0 in run[n].states && !run[n].states[0].listReceived
  {
    RunKeeps(run, n);
  }

  lemma AskedForMore(s: State, now: int)
    requires Inv(s) && s.blocked
    ensures var s' := RequestBlocked(s, now);
      s.nextId !in s.lists && s'.lists == s.lists[s.nextId := 0]
      && !s'.blocked && 0 in s'.states && s'.states[0].requestId == s.nextId
  {
    Beyond(s, now);
    assert s.nextId !in s.lists && s.states[0].requestId == 0;
  }

  // The list waits at the boundary only while the slice is positive, so asking for more always sends a request of the
  // main list: the next one.
  lemma MoreIsRequested(run: seq<State>, n: nat, now: int)
    requires IsRun(run) && n < |run| && run[n].blocked
    ensures var s := run[n];
      var s' := RequestBlocked(s, now);
      s.slice > 0 && s.nextId !in s.lists && s'.lists == s.lists[s.nextId := 0]
      && !s'.blocked && 0 in s'.states && s'.states[0].requestId == s.nextId
  {
    RunKeeps(run, n);
    hide RequestBlocked;
    AskedForMore(run[n], now);
  }

  ghost predicate Stuck(s: State, f: Folder) {
    f in s.states && !s.states[f].listReceived && s.states[f].requestId != 0 && s.states[f].requestId !in s.lists
  }

  // Only a not-modified reply leaves a list incomplete with nothing in flight and no way to ask again.
  lemma StuckByNotModified(s: State, f: Folder)
    requires Inv(s) && Stuck(s, f)
    ensures f in s.stale
  {
    assert Half(s, f);
  }

  // The list half of folder f as it was, and no old request sent again.
  ghost predicate Idle(s: State, s': State, f: Folder) {
    && f in s.states && f in s'.states && s'.states[f].requestId == s.states[f].requestId
    && s'.states[f].listReceived == s.states[f].listReceived
    && s.nextId <= s'.nextId && (forall r :: r in s'.lists ==> r in s.lists || r >= s.nextId)
  }

  lemma IdleTwice(s: State, m: State, s': State, f: Folder)
    requires Idle(s, m, f) && Idle(m, s', f)
    ensures Idle(s, s', f)
  {
  }

  lemma MoreIsIdle(s: State, g: Folder, f: Folder)
    requires Stuck(s, f)
    ensures Idle(s, RequestMore(s, g), f)
  {
  }

  lemma CallsAreIdle(s: State, g: Folder, f: Folder)
    requires Stuck(s, f)
    ensures Idle(s, RequestMore(s, g), f) && Idle(s, RequestPinned(s, g), f) && Idle(s, RequestDialogs(s, g), f)
    ensures Idle(s, Refreshed(s), f)
  {
    var s1 := if g != 0 && g !in s.states then s.(states := s.states[g := FRESH]) else s;
    MoreIsIdle(s, g, f);
    MoreIsIdle(s1, g, f);
    hide RequestMore;
  }

  lemma IfNeededIsIdle(s: State, e: bool, a: bool, f: Folder)
    requires Stuck(s, f)
    ensures Idle(s, IfNeeded(s, e, a), f)
  {
    CallsAreIdle(s, 0, f);
    CallsAreIdle(s, 1, f);
    hide RequestMore, RequestDialogs;
  }

  lemma RepliedIsIdle(s: State, req: ReqId, reply: Reply, f: Folder)
    requires Inv(s) && Stuck(s, f) && req in s.lists
    ensures Idle(s, Replied(s.(lists := s.lists - {req}), s.lists[req], reply), f)
    ensures Stuck(Replied(s.(lists := s.lists - {req}), s.lists[req], reply), f)
  {
    assert s.lists[req] != f;
    hide LoadFinish, Inv;
    EndIsIdle(s.(lists := s.lists - {req}), s.lists[req], f);
  }

  lemma EndIsIdle(s: State, g: Folder, f: Folder)
    requires Stuck(s, f) && f != g
    ensures Idle(s, ListEnded(s, g), f) && Stuck(ListEnded(s, g), f)
  {
  }

  lemma ListDoneIsIdle(s: State, req: ReqId, reply: Reply, e: bool, a: bool, f: Folder)
    requires Inv(s) && Stuck(s, f) && req in s.lists
    ensures Idle(s, ListDone(s, req, reply, e, a), f)
  {
    var s1 := Replied(s.(lists := s.lists - {req}), s.lists[req], reply);
    RepliedIsIdle(s, req, reply, f);
    hide Replied, IfNeeded, Inv;
    assert Stuck(Refreshed(s1), f) && Idle(s1, Refreshed(s1), f);
    hide Stuck, Refreshed, Idle;
    IfNeededIsIdle(s1, e, a, f);
    IfNeededIsIdle(Refreshed(s1), e, a, f);
    IdleTwice(s, s1, IfNeeded(s1, e, a), f);
    IdleTwice(s, s1, Refreshed(s1), f);
    IdleTwice(s, Refreshed(s1), IfNeeded(Refreshed(s1), e, a), f);
  }

  lemma AnswersAreIdle(s: State, s': State, req: ReqId, f: Folder)
    requires Inv(s) && Stuck(s, f) && Answers(s, s', req)
    ensures Idle(s, s', f)
  {
    hide ListDone, ListFailed, PinnedAnswered, Inv, Idle;
    if reply, e, a :| req in s.lists && s' == ListDone(s, req, reply, e, a) {
      ListDoneIsIdle(s, req, reply, e, a, f);
    } else if req in s.pins && s' == PinnedAnswered(s, req) {
      PinnedIsIdle(s, req, f);
    } else {
      FailedIsIdle(s, req, f);
    }
  }

  lemma PinnedIsIdle(s: State, req: ReqId, f: Folder)
    requires Inv(s) && Stuck(s, f) && req in s.pins
    ensures Idle(s, PinnedAnswered(s, req), f)
  {
  }

  lemma FailedIsIdle(s: State, req: ReqId, f: Folder)
    requires Inv(s) && Stuck(s, f) && req in s.lists && s.lists[req] in s.states
    ensures Idle(s, ListFailed(s, req), f)
  {
  }

  lemma TillIsIdle(s: State, slice: nat, till: int, f: Folder)
    requires Stuck(s, f)
    ensures var s1 := Refreshed(s.(slice := slice, till := till));
      Idle(s, s1, f) && Idle(s, RequestDialogs(s1, 0), f)
  {
    CallsAreIdle(Refreshed(s.(slice := slice, till := till)), 0, f);
    hide RequestDialogs;
  }

  lemma CallIsIdle(s: State, s': State, g: Folder, f: Folder)
    requires Stuck(s, f) && Calls(s, s', g)
    ensures Idle(s, s', f)
  {
    hide RequestMore, RequestDialogs, RequestPinned, IfNeeded, Refreshed, Idle, Stuck;
    CallsAreIdle(s, g, f);
    if e, a :| s' == IfNeeded(s, e, a) {
      IfNeededIsIdle(s, e, a, f);
    } else if seconds, now :| s' == SliceChanged(s, seconds, now) {
      TillIsIdle(s, seconds, TillFor(seconds, now), f);
    } else if now :| s' == RequestBlocked(s, now) {
      RefusedIsIdle(s, f);
      if 0 in s.states {
        TillIsIdle(s, s.slice, TillBefore(s, now), f);
      }
    }
  }

  lemma RefusedIsIdle(s: State, f: Folder)
    requires Stuck(s, f)
    ensures Idle(s, s, f)
  {
  }

  lemma IdleStaysStuck(s: State, s': State, f: Folder)
    requires Inv(s) && Stuck(s, f) && Idle(s, s', f)
    ensures Stuck(s', f)
  {
    assert Half(s, f);
  }

  lemma StuckStays(s: State, s': State, f: Folder)
    requires Inv(s) && Stuck(s, f) && Next(s, s')
    ensures Stuck(s', f)
  {
    hide Inv, Answers, Calls, Idle, Stuck;
    if req :| Answers(s, s', req) {
      AnswersAreIdle(s, s', req, f);
    } else {
      var g :| Calls(s, s', g);
      CallIsIdle(s, s', g, f);
    }
    IdleStaysStuck(s, s', f);
  }

  // Being stuck lasts for the rest of the run: the list stays incomplete, and the folder is never finished.
  lemma {:induction false} StuckForever(run: seq<State>, m: nat, n: nat, f: Folder)
    requires IsRun(run) && m <= n < |run| && Stuck(run[m], f)
    ensures Stuck(run[n], f) && f in run[n].states
    decreases n - m
  {
    if m == n {
    } else {
      StuckForever(run, m, n - 1, f);
      RunKeeps(run, n - 1);
      hide Inv, Next;
      StuckStays(run[n - 1], run[n], f);
    }
  }

  lemma NotModifiedSticks(s: State, req: ReqId, e: bool, a: bool)
    requires Inv(s) && req in s.lists
    ensures Stuck(ListDone(s, req, NotModified, e, a), s.lists[req])
  {
    var f := s.lists[req];
    var s1 := Replied(s.(lists := s.lists - {req}), f, NotModified);
    RepliedKeeps(s, req, NotModified);
    assert Stuck(s1, f) && Stuck(Refreshed(s1), f);
    Unblocked(s1);
    RefreshedKeeps(s1);
    hide Inv, IfNeeded, Refreshed, Stuck, Idle;
    IfNeededIsIdle(s1, e, a, f);
    IfNeededIsIdle(Refreshed(s1), e, a, f);
    IdleStaysStuck(s1, IfNeeded(s1, e, a), f);
    IdleStaysStuck(Refreshed(s1), IfNeeded(Refreshed(s1), e, a), f);
  }

  lemma CallsKeepStale(s: State, s': State, g: Folder)
    requires Calls(s, s', g)
    ensures s'.stale == s.stale
  {
    hide RequestMore, RequestPinned, Refreshed;
    forall m, f ensures RequestMore(m, f).stale == m.stale && RequestPinned(m, f).stale == m.stale {
      SendsKeepStale(m, f);
    }
    forall m ensures Refreshed(m).stale == m.stale {
      RefreshKeepsStale(m);
    }
  }

  lemma SendsKeepStale(s: State, f: Folder)
    ensures RequestMore(s, f).stale == s.stale && RequestPinned(s, f).stale == s.stale
  {
  }

  lemma RefreshKeepsStale(s: State)
    ensures Refreshed(s).stale == s.stale
  {
  }

  lemma IfNeededKeepsStale(s: State, e: bool, a: bool)
    ensures IfNeeded(s, e, a).stale == s.stale
  {
    assert Calls(s, IfNeeded(s, e, a), 0);
    CallsKeepStale(s, IfNeeded(s, e, a), 0);
  }

  lemma EndKeepsStale(s: State, f: Folder)
    ensures LoadFinish(s, f).stale == s.stale && ListEnded(s, f).stale == s.stale
  {
  }

  lemma ListDoneSticks(s: State, req: ReqId, reply: Reply, e: bool, a: bool, f: Folder)
    requires Inv(s) && req in s.lists && f in ListDone(s, req, reply, e, a).stale && f !in s.stale
    ensures Stuck(ListDone(s, req, reply, e, a), f)
  {
    hide Inv, IfNeeded, ListEnded, Refreshed, Stuck;
    if reply == NotModified {
      NotModifiedSticks(s, req, e, a);
    }
    var m := s.(lists := s.lists - {req});
    EndKeepsStale(m, s.lists[req]);
    var s1 := Replied(m, s.lists[req], reply);
    RefreshKeepsStale(s1);
    IfNeededKeepsStale(s1, e, a);
    IfNeededKeepsStale(Refreshed(s1), e, a);
  }

  lemma PinnedKeepsStale(s: State, req: ReqId)
    requires req in s.pins
    ensures PinnedAnswered(s, req).stale == s.stale
  {
  }

  lemma FailedKeepsStale(s: State, req: ReqId)
    requires req in s.lists && s.lists[req] in s.states
    ensures ListFailed(s, req).stale == s.stale
  {
  }

  // What makes a folder stale makes its list stuck.
  lemma AnswersStick(s: State, s': State, req: ReqId, f: Folder)
    requires Inv(s) && Answers(s, s', req) && f in s'.stale && f !in s.stale
    ensures Stuck(s', f)
  {
    hide Inv, ListDone, PinnedAnswered, ListFailed, Stuck;
    if reply, e, a :| req in s.lists && s' == ListDone(s, req, reply, e, a) {
      ListDoneSticks(s, req, reply, e, a, f);
    } else if req in s.pins && s' == PinnedAnswered(s, req) {
      PinnedKeepsStale(s, req);
    } else {
      FailedKeepsStale(s, req);
    }
  }

  // In every run the stuck lists are exactly those that got a not-modified reply, however long ago.
  lemma {:induction false} StuckExactly(run: seq<State>, n: nat, f: Folder)
    requires IsRun(run) && n < |run|
    ensures Stuck(run[n], f) <==> f in run[n].stale
  {
    hide Inv, Next, Stuck;
    RunKeeps(run, n);
    if Stuck(run[n], f) {
      StuckByNotModified(run[n], f);
    }
    if n == 0 {
      assert run[0].stale == {};
    } else {
      StuckExactly(run, n - 1, f);
      RunKeeps(run, n - 1);
      hide Init;
      if f in run[n].stale {
        StepSticks(run[n - 1], run[n], f);
      }
    }
  }

  lemma StepSticks(s: State, s': State, f: Folder)
    requires Inv(s) && Next(s, s') && f in s'.stale && (f in s.stale ==> Stuck(s, f))
    ensures Stuck(s', f)
  {
    hide Inv, Answers, Calls, Stuck;
    if f in s.stale {
      StuckStays(s, s', f);
    } else if req :| Answers(s, s', req) {
      AnswersStick(s, s', req, f);
    } else {
      var g :| Calls(s, s', g);
      CallsKeepStale(s, s', g);
    }
  }
}
