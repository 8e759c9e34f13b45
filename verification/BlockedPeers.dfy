/** Blocking and unblocking peers: an opposite request replaces a pending entry without cancelling its request. */
module BlockedPeers {
  import opened Wrappers

  type Peer = nat
  type ReqId = nat
  type Token = nat  // a callback of an unblock call

  datatype Entry = Entry(requestId: ReqId, blocking: bool, callbacks: seq<Token>)

  datatype Contact = Contact(peer: Peer, date: int)

  datatype Slice = Slice(list: seq<Contact>, total: int)

  datatype Call = Call(token: Token, success: bool)

  datatype Request = Change(peer: Peer, blocking: bool) | Load

  // requests, blocked, slice, loading: the object's state, and what it knows of the peers. own: for every callback
  // that was ever put into an entry, the request it was put there for. called: every call of a callback.
  datatype State = State(
    requests: map<Peer, Entry>, blocked: set<Peer>, slice: Option<Slice>, loading: ReqId,
    inFlight: map<ReqId, Request>, nextId: ReqId, own: map<Token, ReqId>, called: seq<Call>)

  const START := State(map[], {}, None, 0, map[], 1, map[], [])

  function Calls(tokens: seq<Token>, success: bool): seq<Call> {
    seq(|tokens|, i requires 0 <= i < |tokens| => Call(tokens[i], success))
  }

  function Tokens(done: Option<Token>): seq<Token> { if done.None? then [] else [done.value] }

  // TLToSlice
  function ToSlice(count: int, list: seq<Contact>): Slice { Slice(list, if count >= |list| then count else |list|) }

  // Steps

  // blockAlreadySent drops an entry of the opposite kind; its callbacks are told false.
  function Replaced(s: State, p: Peer): State {
    if p !in s.requests then s
    else s.(requests := s.requests - {p}, called := s.called + Calls(s.requests[p].callbacks, false))
  }

  predicate AlreadySent(s: State, p: Peer, blocking: bool) { p in s.requests && s.requests[p].blocking == blocking }

  // The request that an unblock call is about: the pending one that it joins, or the next one.
  function Joined(s: State, p: Peer): ReqId { if AlreadySent(s, p, false) then s.requests[p].requestId else s.nextId }

  function Owned(own: map<Token, ReqId>, done: Option<Token>, r: ReqId): map<Token, ReqId> {
    if done.None? then own else own[done.value := r]
  }

  function Sends(s: State, p: Peer, blocking: bool, callbacks: seq<Token>): State {
    s.(requests := s.requests[p := Entry(s.nextId, blocking, callbacks)],
       inFlight := s.inFlight[s.nextId := Change(p, blocking)], nextId := s.nextId + 1)
  }

  function BlockStep(s: State, p: Peer): State {
    if p in s.blocked || AlreadySent(s, p, true) then s else Sends(Replaced(s, p), p, true, [])
  }

  // An unforced call for a peer that is not blocked forgets its callback.
  function UnblockStep(s: State, p: Peer, done: Option<Token>, force: bool): State {
    if !force && p !in s.blocked then s
    else
      var s1 := s.(own := Owned(s.own, done, Joined(s, p)));
      if AlreadySent(s, p, false) then
        s1.(requests := s.requests[p := s.requests[p].(callbacks := s.requests[p].callbacks + Tokens(done))])
      else Sends(Replaced(s1, p), p, false, Tokens(done))
  }

  function Inserted(slice: Option<Slice>, p: Peer, now: int): Option<Slice> {
    if slice.None? then slice else Some(Slice([Contact(p, now)] + slice.value.list, slice.value.total + 1))
  }

  function WithoutFirst(list: seq<Contact>, p: Peer): seq<Contact> {
    if list == [] then [] else if list[0].peer == p then list[1..] else [list[0]] + WithoutFirst(list[1..], p)
  }

  function Removed(slice: Option<Slice>, p: Peer): Option<Slice> {
    if slice.None? then slice
    else
      var list := WithoutFirst(slice.value.list, p);
      Some(Slice(list, if slice.value.total > |list| then slice.value.total - 1 else slice.value.total))
  }

  // Takes the entry of the peer, whichever request it belongs to.
  function Taken(s: State, r: ReqId, p: Peer, success: bool): State {
    var callbacks := if p in s.requests then s.requests[p].callbacks else [];
    s.(inFlight := s.inFlight - {r}, requests := s.requests - {p}, called := s.called + Calls(callbacks, success))
  }

  function Answered(s: State, r: ReqId, ok: bool, now: int): State
    requires r in s.inFlight && s.inFlight[r].Change?
  {
    var p := s.inFlight[r].peer;
    if !ok then Taken(s, r, p, false)
    else if s.inFlight[r].blocking then
      Taken(s, r, p, false).(blocked := s.blocked + {p}, slice := Inserted(s.slice, p, now))
    else Taken(s, r, p, true).(blocked := s.blocked - {p}, slice := Removed(s.slice, p))
  }

  function ReloadStep(s: State): State {
    if s.loading != 0 then s
    else s.(loading := s.nextId, inFlight := s.inFlight[s.nextId := Load], nextId := s.nextId + 1)
  }

  // response: the count and the list that the server sent, or failure.
  function Loaded(s: State, r: ReqId, response: Option<(int, seq<Contact>)>): State {
    var s1 := s.(loading := 0, inFlight := s.inFlight - {r});
    if response.None? then s1 else s1.(slice := Some(ToSlice(response.value.0, response.value.1)))
  }

  ghost predicate Responds(s: State, s': State, r: ReqId) {
    && r in s.inFlight
    && if s.inFlight[r].Load? then exists response :: s' == Loaded(s, r, response)
       else exists ok, now :: s' == Answered(s, r, ok, now)
  }

  ghost predicate Next(s: State, s': State) {
    || (exists p :: s' == BlockStep(s, p))
    || (exists p, done: Option<Token>, force ::
          (done.Some? ==> done.value !in s.own) && s' == UnblockStep(s, p, done, force))
    || (exists r :: Responds(s, s', r))
    || s' == ReloadStep(s)
    || (exists blocked :: s' == s.(blocked := blocked))
  }

  ghost predicate IsRun(run: seq<State>) {
    run != [] && run[0] == START && forall i :: 0 <= i < |run| - 1 ==> Next(run[i], run[i + 1])
  }

  // The invariant

  ghost predicate Pending(s: State, p: Peer) {
    p in s.requests ==>
      var e := s.requests[p];
      e.requestId in s.inFlight && s.inFlight[e.requestId] == Change(p, e.blocking)
      && (e.blocking ==> e.callbacks == [])
  }

  ghost predicate Requests(s: State) {
    && s.nextId > 0 && (forall r :: r in s.inFlight ==> 0 < r < s.nextId)
    && (forall p :: Pending(s, p))
    && (s.loading != 0 ==> s.loading in s.inFlight && s.inFlight[s.loading].Load?)
    && (forall r :: r in s.inFlight && s.inFlight[r].Load? ==> r == s.loading)
    && (s.slice.Some? ==> s.slice.value.total >= |s.slice.value.list|)
  }

  ghost function Times(called: seq<Call>, t: Token): nat {
    if called == [] then 0 else Times(called[..|called| - 1], t) + if called[|called| - 1].token == t then 1 else 0
  }

  ghost function In(q: seq<Token>, t: Token): nat { multiset(q)[t] }

  // A callback waits in at most one entry, once, and only until it is called.
  ghost predicate Waits(s: State, t: Token) {
    exists p :: p in s.requests && In(s.requests[p].callbacks, t) == 1
  }

  ghost predicate TokenOk(s: State, t: Token) {
    && (forall p, q | p in s.requests && q in s.requests ::
          In(s.requests[p].callbacks, t) > 0 && In(s.requests[q].callbacks, t) > 0 ==> p == q)
    && (forall p :: p in s.requests ==> In(s.requests[p].callbacks, t) <= 1)
    && Times(s.called, t) == (if t in s.own && !Waits(s, t) then 1 else 0)
    && (Waits(s, t) ==> t in s.own)
  }

  // What waits in an entry waits for the entry's own request.
  ghost predicate Owns(s: State) {
    forall p, t :: p in s.requests && t in s.requests[p].callbacks ==>
      t in s.own && s.own[t] == s.requests[p].requestId
  }

  ghost predicate Inv(s: State) { Requests(s) && Owns(s) && forall t :: TokenOk(s, t) }

  lemma {:induction false} TimesOf(called: seq<Call>, tokens: seq<Token>, success: bool, t: Token)
    ensures Times(called + Calls(tokens, success), t) == Times(called, t) + In(tokens, t)
    decreases |tokens|
  {
    var all := called + Calls(tokens, success);
    if tokens == [] {
      assert all == called;
    } else {
      var rest, last := tokens[..|tokens| - 1], tokens[|tokens| - 1];
      TimesOf(called, rest, success, t);
      assert tokens == rest + [last];
      assert all[..|all| - 1] == called + Calls(rest, success);
    }
  }

  // The entry of p leaves, and its callbacks are called.
  lemma TakenTokens(s: State, s': State, p: Peer, success: bool)
    requires forall t :: TokenOk(s, t)
    requires s'.requests == s.requests - {p} && s'.own == s.own
    requires s'.called == s.called + Calls(if p in s.requests then s.requests[p].callbacks else [], success)
    ensures forall t :: TokenOk(s', t)
  {
    forall t: Token ensures TokenOk(s', t) {
      TakenToken(s, s', p, success, t);
    }
  }

  lemma TakenToken(s: State, s': State, p: Peer, success: bool, t: Token)
    requires TokenOk(s, t) && s'.requests == s.requests - {p} && s'.own == s.own
    requires s'.called == s.called + Calls(if p in s.requests then s.requests[p].callbacks else [], success)
    ensures TokenOk(s', t)
  {
    TimesOf(s.called, if p in s.requests then s.requests[p].callbacks else [], success, t);
    hide Times, Calls, In;
    if Waits(s, t) {
      var q :| q in s.requests && In(s.requests[q].callbacks, t) == 1;
      if q != p {
        assert q in s'.requests;
      }
    }
    NoneIn(t);
  }

  lemma NoneIn(t: Token)
    ensures In([], t) == 0
  {
  }

  // New callbacks are put into the entry of p.
  lemma StoredTokens(s: State, s': State, p: Peer, before: seq<Token>, done: Option<Token>, r: ReqId)
    requires forall t :: TokenOk(s, t)
    requires done.Some? ==> done.value !in s.own
    requires before == (if p in s.requests then s.requests[p].callbacks else [])
    requires p in s'.requests && s'.requests == s.requests[p := s'.requests[p]]
    requires s'.requests[p].callbacks == before + Tokens(done)
    requires s'.own == Owned(s.own, done, r) && s'.called == s.called
    ensures forall t :: TokenOk(s', t)
  {
    forall t: Token ensures TokenOk(s', t) {
      assert TokenOk(s, t);
      assert In(before + Tokens(done), t) == In(before, t) + if done == Some(t) then 1 else 0;
      assert t in s'.own <==> t in s.own || done == Some(t);
      assert t !in s.own ==> !Waits(s, t);
      NoneIn(t);
      StoredToken(s, s', p, t, done == Some(t));
    }
  }

  lemma StoredToken(s: State, s': State, p: Peer, t: Token, new_: bool)
    requires TokenOk(s, t) && (new_ ==> !Waits(s, t) && t !in s.own) && s'.called == s.called
    requires p in s'.requests && s'.requests == s.requests[p := s'.requests[p]] && (t in s'.own <==> t in s.own || new_)
    requires In(s'.requests[p].callbacks, t)
      == (if p in s.requests then In(s.requests[p].callbacks, t) else 0) + if new_ then 1 else 0
    ensures TokenOk(s', t)
  {
    hide Times, In;
    if new_ {
      assert forall q :: q in s.requests ==> In(s.requests[q].callbacks, t) == 0;
      assert p in s'.requests && In(s'.requests[p].callbacks, t) == 1;
    } else {
      if q :| q in s.requests && In(s.requests[q].callbacks, t) == 1 {
        assert q in s'.requests && In(s'.requests[q].callbacks, t) == 1;
      }
    }
  }

  lemma ReplacedKeeps(s: State, p: Peer)
    requires Inv(s)
    ensures Inv(Replaced(s, p))
  {
    var s' := Replaced(s, p);
    if p in s.requests {
      TakenTokens(s, s', p, false);
    }
    hide TokenOk, Calls;
    forall q ensures Pending(s', q) {
      assert Pending(s, q);
    }
  }

  lemma SendsKeeps(s: State, p: Peer, blocking: bool, done: Option<Token>)
    requires Inv(s) && p !in s.requests && (done.Some? ==> done.value !in s.own) && (blocking ==> done.None?)
    ensures Inv(Sends(s.(own := Owned(s.own, done, s.nextId)), p, blocking, Tokens(done)))
  {
    var s' := Sends(s.(own := Owned(s.own, done, s.nextId)), p, blocking, Tokens(done));
    assert s'.requests[p].callbacks == [] + Tokens(done);
    StoredTokens(s, s', p, [], done, s.nextId);
    hide TokenOk;
    forall q ensures Pending(s', q) {
      assert Pending(s, q);
    }
  }

  lemma BlockKeeps(s: State, p: Peer)
    requires Inv(s)
    ensures Inv(BlockStep(s, p))
  {
    hide Inv, Calls;
    if p !in s.blocked && !AlreadySent(s, p, true) {
      var s1 := Replaced(s, p);
      ReplacedKeeps(s, p);
      SendsKeeps(s1, p, true, None);
    }
  }

  lemma UnblockKeeps(s: State, p: Peer, done: Option<Token>, force: bool)
    requires Inv(s) && (done.Some? ==> done.value !in s.own)
    ensures Inv(UnblockStep(s, p, done, force))
  {
    var s' := UnblockStep(s, p, done, force);
    if force || p in s.blocked {
      if AlreadySent(s, p, false) {
        StoredTokens(s, s', p, s.requests[p].callbacks, done, s.requests[p].requestId);
        hide TokenOk;
        forall q ensures Pending(s', q) {
          assert Pending(s, q);
        }
      } else {
        hide Inv, Calls, Tokens;
        ReplacedKeeps(s, p);
        SendsKeeps(Replaced(s, p), p, false, done);
      }
    }
  }

  lemma {:induction false} WithoutFirstLength(list: seq<Contact>, p: Peer)
    ensures |WithoutFirst(list, p)| == if exists c :: c in list && c.peer == p then |list| - 1 else |list|
    decreases |list|
  {
    if list == [] {
    } else if list[0].peer == p {
      assert list[0] in list;
    } else {
      WithoutFirstLength(list[1..], p);
      if c :| c in list && c.peer == p {
        assert c in list[1..];
      }
      assert forall c :: c in list[1..] ==> c in list;
    }
  }

  lemma AnsweredKeeps(s: State, r: ReqId, ok: bool, now: int)
    requires Inv(s) && r in s.inFlight && s.inFlight[r].Change?
    ensures Inv(Answered(s, r, ok, now))
  {
    var p := s.inFlight[r].peer;
    var s' := Answered(s, r, ok, now);
    TakenTokens(s, s', p, ok && !s.inFlight[r].blocking);
    hide TokenOk, Calls;
    if s.slice.Some? {
      WithoutFirstLength(s.slice.value.list, p);
    }
    hide WithoutFirst;
    forall q ensures Pending(s', q) {
      assert Pending(s, q);
    }
  }

  // A step that touches neither the entries nor the callbacks.
  lemma SameTokens(s: State, s': State)
    requires Inv(s) && s'.requests == s.requests && s'.own == s.own && s'.called == s.called
    ensures Owns(s') && forall t :: TokenOk(s', t)
  {
    forall t: Token ensures TokenOk(s', t) {
      assert TokenOk(s, t);
      assert Waits(s', t) == Waits(s, t);
    }
  }

  lemma LoadKeeps(s: State, r: ReqId, response: Option<(int, seq<Contact>)>)
    requires Inv(s)
    ensures Inv(ReloadStep(s)) && (r in s.inFlight && s.inFlight[r].Load? ==> Inv(Loaded(s, r, response)))
  {
    SameTokens(s, ReloadStep(s));
    SameTokens(s, Loaded(s, r, response));
    hide TokenOk, Owns;
    forall q
      ensures Pending(ReloadStep(s), q)
      ensures r in s.inFlight && s.inFlight[r].Load? ==> Pending(Loaded(s, r, response), q)
    {
      assert Pending(s, q);
    }
  }

  lemma SameKeeps(s: State, blocked: set<Peer>)
    requires Inv(s)
    ensures Inv(s.(blocked := blocked))
  {
    var s' := s.(blocked := blocked);
    SameTokens(s, s');
    hide TokenOk, Owns;
    forall q ensures Pending(s', q) {
      assert Pending(s, q);
    }
  }

  lemma NextKeeps(s: State, s': State)
    requires Inv(s) && Next(s, s')
    ensures Inv(s')
  {
    hide Inv, BlockStep, UnblockStep, Answered, Loaded, ReloadStep;
    LoadKeeps(s, 0, None);
    if p :| s' == BlockStep(s, p) {
      BlockKeeps(s, p);
    } else if p, done: Option<Token>, force :|
        (done.Some? ==> done.value !in s.own) && s' == UnblockStep(s, p, done, force) {
      UnblockKeeps(s, p, done, force);
    } else if r :| Responds(s, s', r) {
      if s.inFlight[r].Load? {
        var response :| s' == Loaded(s, r, response);
        LoadKeeps(s, r, response);
      } else {
        var ok, now :| s' == Answered(s, r, ok, now);
        AnsweredKeeps(s, r, ok, now);
      }
    } else if blocked :| s' == s.(blocked := blocked) {
      SameKeeps(s, blocked);
    }
  }

  lemma {:induction false} RunKeeps(run: seq<State>, n: nat)
    requires IsRun(run) && n < |run|
    ensures Inv(run[n])
  {
    if n == 0 {
    } else {
      RunKeeps(run, n - 1);
      hide Inv, Next;
      NextKeeps(run[n - 1], run[n]);
    }
  }

  // Theorems

  lemma TotalCoversList(run: seq<State>, n: nat)
    requires IsRun(run) && n < |run| && run[n].slice.Some?
    ensures run[n].slice.value.total >= |run[n].slice.value.list|
  {
    RunKeeps(run, n);
  }

  // An entry's own request is always still in flight, although other requests of the peer may be too; and it is the
  // own request of every callback that waits in the entry.
  lemma EntryIsPending(run: seq<State>, n: nat, p: Peer)
    requires IsRun(run) && n < |run| && p in run[n].requests
    ensures var s := run[n];
      var e := s.requests[p];
      e.requestId in s.inFlight && s.inFlight[e.requestId] == Change(p, e.blocking)
      && forall t :: t in e.callbacks ==> t in s.own && s.own[t] == e.requestId
  {
    RunKeeps(run, n);
    assert Pending(run[n], p);
  }

  // A stored callback is called at most once, and exactly once by the time all change requests are answered.
  lemma EveryCallbackOnce(run: seq<State>, n: nat, t: Token)
    requires IsRun(run) && n < |run|
    ensures Times(run[n].called, t) <= 1 && (Times(run[n].called, t) == 1 ==> t in run[n].own)
    ensures t in run[n].own && (forall r :: r in run[n].inFlight ==> run[n].inFlight[r].Load?)
      ==> Times(run[n].called, t) == 1
  {
    RunKeeps(run, n);
    var s := run[n];
    assert TokenOk(s, t);
    if t in s.own && forall r :: r in s.inFlight ==> s.inFlight[r].Load? {
      forall p ensures p !in s.requests {
        assert Pending(s, p);
      }
    }
  }

  ghost predicate Told(s: State, s': State, t: Token) { Times(s'.called, t) > Times(s.called, t) }

  // A block call for a peer that is not blocked.
  ghost predicate Overrides(s: State, s': State, p: Peer) { p !in s.blocked && s' == BlockStep(s, p) }

  // The answer to a change request of p.
  ghost predicate Answers(s: State, s': State, p: Peer, r: ReqId) {
    r in s.inFlight && s.inFlight[r].Change? && s.inFlight[r].peer == p
    && exists ok, now :: s' == Answered(s, r, ok, now)
  }

  lemma CallsTell(s: State, s': State, tokens: seq<Token>, success: bool, t: Token)
    requires s'.called == s.called + Calls(tokens, success)
    ensures Told(s, s', t) <==> t in tokens
  {
    TimesOf(s.called, tokens, success, t);
  }

  // A callback that waits in one entry does not wait in another.
  lemma WaitsOnce(s: State, p: Peer, q: Peer, t: Token)
    requires Inv(s) && p in s.requests && q in s.requests
    requires t in s.requests[p].callbacks && t in s.requests[q].callbacks
    ensures p == q
  {
    assert TokenOk(s, t);
  }

  lemma BlockTells(s: State, p: Peer, q: Peer, t: Token)
    requires Inv(s) && p in s.requests && t in s.requests[p].callbacks
    ensures Told(s, BlockStep(s, q), t) <==> q == p && p !in s.blocked
    ensures t in s.own && s.own[t] in BlockStep(s, q).inFlight
  {
    assert Pending(s, p);
    var s' := BlockStep(s, q);
    var tokens :=
      if q in s.blocked || AlreadySent(s, q, true) || q !in s.requests then [] else s.requests[q].callbacks;
    assert s'.called == s.called + Calls(tokens, false);
    CallsTell(s, s', tokens, false, t);
    if t in tokens {
      WaitsOnce(s, p, q, t);
    }
  }

  lemma UnblockTells(s: State, q: Peer, done: Option<Token>, force: bool)
    requires Inv(s)
    ensures UnblockStep(s, q, done, force).called == s.called
  {
    assert Pending(s, q);
    assert s.called + Calls([], false) == s.called;
  }

  lemma AnswerTells(s: State, p: Peer, r: ReqId, ok: bool, now: int, t: Token)
    requires Inv(s) && p in s.requests && t in s.requests[p].callbacks && r in s.inFlight && s.inFlight[r].Change?
    ensures Told(s, Answered(s, r, ok, now), t) <==> s.inFlight[r].peer == p
    ensures s.own[t] in Answered(s, r, ok, now).inFlight <==> r != s.own[t]
  {
    assert Pending(s, p);
    var q := s.inFlight[r].peer;
    var tokens := if q in s.requests then s.requests[q].callbacks else [];
    CallsTell(s, Answered(s, r, ok, now), tokens, ok && !s.inFlight[r].blocking, t);
    if t in tokens {
      WaitsOnce(s, p, q, t);
    }
  }

  lemma AnswersTell(s: State, s': State, p: Peer, r: ReqId, t: Token)
    requires Inv(s) && p in s.requests && t in s.requests[p].callbacks && Answers(s, s', p, r)
    ensures Told(s, s', t) && t in s.own && (s.own[t] in s'.inFlight <==> r != s.own[t])
  {
    var ok, now :| s' == Answered(s, r, ok, now);
    AnswerTells(s, p, r, ok, now, t);
  }

  lemma ToldBy(s: State, s': State, p: Peer, t: Token)
    requires Inv(s) && Next(s, s') && p in s.requests && t in s.requests[p].callbacks && Told(s, s', t)
    ensures Overrides(s, s', p) || exists r :: Answers(s, s', p, r)
  {
    hide Inv, BlockStep, UnblockStep, Answered, Times;
    if q :| s' == BlockStep(s, q) {
      BlockTells(s, p, q, t);
    } else if q, done: Option<Token>, force :| s' == UnblockStep(s, q, done, force) {
      UnblockTells(s, q, done, force);
    } else if r :| Responds(s, s', r) {
      if s.inFlight[r].Change? {
        var ok, now :| s' == Answered(s, r, ok, now);
        AnswerTells(s, p, r, ok, now, t);
        assert Answers(s, s', p, r);
      }
    }
  }

  // A waiting callback is told in three ways: its own request is answered, another request of its peer is answered,
  // or its peer is to be blocked. In the last two, and only then, its own request is still in flight.
  lemma WhoTells(run: seq<State>, n: nat, p: Peer, t: Token)
    requires IsRun(run) && n + 1 < |run| && p in run[n].requests && t in run[n].requests[p].callbacks
    ensures var s, s' := run[n], run[n + 1];
      t in s.own
      && (Told(s, s', t) <==> Overrides(s, s', p) || exists r :: Answers(s, s', p, r))
      && (Told(s, s', t) && s.own[t] in s'.inFlight
          <==> Overrides(s, s', p) || exists r :: r != s.own[t] && Answers(s, s', p, r))
  {
    RunKeeps(run, n);
    hide Inv, Next, BlockStep, Answers, Told;
    var s, s' := run[n], run[n + 1];
    BlockTells(s, p, p, t);
    forall r | Answers(s, s', p, r) ensures Told(s, s', t) && (s.own[t] in s'.inFlight <==> r != s.own[t]) {
      AnswersTell(s, s', p, r, t);
    }
    if Told(s, s', t) {
      ToldBy(s, s', p, t);
    }
  }

  lemma {:induction false} CalledMeansTimes(called: seq<Call>, t: Token, success: bool)
    requires Call(t, success) in called
    ensures Times(called, t) > 0
    decreases |called|
  {
    var last := called[|called| - 1];
    if last.token != t {
      assert called == called[..|called| - 1] + [last];
      CalledMeansTimes(called[..|called| - 1], t, success);
    }
  }

  // An answer that unblocked p.
  ghost predicate Unblocks(s: State, s': State, p: Peer, r: ReqId) {
    r in s.inFlight && s.inFlight[r] == Change(p, false) && exists now :: s' == Answered(s, r, true, now)
  }

  lemma CalledBefore(s: State, p: Peer, t: Token)
    requires Inv(s) && p in s.requests && t in s.requests[p].callbacks
    ensures Call(t, true) !in s.called
  {
    assert TokenOk(s, t);
    if Call(t, true) in s.called {
      CalledMeansTimes(s.called, t, true);
    }
  }

  lemma CallsTrue(s: State, s': State, tokens: seq<Token>, success: bool, t: Token)
    requires s'.called == s.called + Calls(tokens, success) && Call(t, true) !in s.called
    ensures Call(t, true) in s'.called <==> success && t in tokens
  {
    if success && t in tokens {
      var i :| 0 <= i < |tokens| && tokens[i] == t;
      assert Calls(tokens, success)[i] == Call(t, true);
    }
  }

  lemma AnswerTellsTrue(s: State, p: Peer, r: ReqId, ok: bool, now: int, t: Token)
    requires Inv(s) && p in s.requests && t in s.requests[p].callbacks && r in s.inFlight && s.inFlight[r].Change?
    ensures Call(t, true) in Answered(s, r, ok, now).called <==> ok && s.inFlight[r] == Change(p, false)
  {
    CalledBefore(s, p, t);
    var q := s.inFlight[r].peer;
    var tokens := if q in s.requests then s.requests[q].callbacks else [];
    CallsTrue(s, Answered(s, r, ok, now), tokens, ok && !s.inFlight[r].blocking, t);
    if t in tokens {
      WaitsOnce(s, p, q, t);
    }
  }

  lemma BlockTellsFalse(s: State, p: Peer, q: Peer, t: Token)
    requires Inv(s) && p in s.requests && t in s.requests[p].callbacks
    ensures Call(t, true) !in BlockStep(s, q).called
  {
    CalledBefore(s, p, t);
  }

  // It is told true exactly when the step unblocks its peer.
  lemma ToldTrue(run: seq<State>, n: nat, p: Peer, t: Token)
    requires IsRun(run) && n + 1 < |run| && p in run[n].requests && t in run[n].requests[p].callbacks
    ensures var s, s' := run[n], run[n + 1];
      Call(t, true) in s'.called <==> exists r :: Unblocks(s, s', p, r)
  {
    RunKeeps(run, n);
    var s, s' := run[n], run[n + 1];
    CalledBefore(s, p, t);
    hide Inv, BlockStep, UnblockStep, Answered;
    if r :| Unblocks(s, s', p, r) {
      var now :| s' == Answered(s, r, true, now);
      AnswerTellsTrue(s, p, r, true, now, t);
    }
    if q :| s' == BlockStep(s, q) {
      BlockTellsFalse(s, p, q, t);
    } else if q, done: Option<Token>, force :| s' == UnblockStep(s, q, done, force) {
      UnblockTells(s, q, done, force);
    } else if r :| Responds(s, s', r) {
      if s.inFlight[r].Change? {
        var ok, now :| s' == Answered(s, r, ok, now);
        AnswerTellsTrue(s, p, r, ok, now, t);
        assert ok && s.inFlight[r] == Change(p, false) ==> Unblocks(s, s', p, r);
      }
    }
  }

  ghost predicate Reachable(s: State) { exists run :: IsRun(run) && run[|run| - 1] == s }

  lemma Extended(s: State, s': State)
    requires Reachable(s) && Next(s, s')
    ensures Reachable(s')
  {
    hide Next;
    var run :| IsRun(run) && run[|run| - 1] == s;
    assert IsRun(run + [s']) && (run + [s'])[|run|] == s';
  }

  lemma StartIsReachable()
    ensures Reachable(START)
  {
    assert IsRun([START]) && [START][0] == START;
  }

  // The only call so far told t false, and t's own request, still in flight, succeeds without telling it again.
  ghost predicate FalselyTold(s: State, p: Peer, t: Token, now: int) {
    s.called == [Call(t, false)] && t in s.own && s.own[t] in s.inFlight && s.inFlight[s.own[t]] == Change(p, false)
    && p !in Answered(s, s.own[t], true, now).blocked && Answered(s, s.own[t], true, now).called == s.called
  }

  // Both happen: unblock, then block; and unblock while a block request is in flight, whose answer comes first.
  lemma FalseAlarm(p: Peer, t: Token, now: int)
    ensures var s := BlockStep(UnblockStep(START, p, Some(t), true), p);
      Reachable(s) && FalselyTold(s, p, t, now)
    ensures var s := UnblockStep(BlockStep(START, p), p, Some(t), true);
      1 in s.inFlight && s.inFlight[1] == Change(p, true)
      && Reachable(Answered(s, 1, true, now)) && FalselyTold(Answered(s, 1, true, now), p, t, now)
  {
    StartIsReachable();
    var s1 := UnblockStep(START, p, Some(t), true);
    Extended(START, s1);
    Extended(s1, BlockStep(s1, p));
    assert BlockStep(s1, p).called == [Call(t, false)];
    var s2 := BlockStep(START, p);
    Extended(START, s2);
    var s3 := UnblockStep(s2, p, Some(t), true);
    Extended(s2, s3);
    assert Responds(s3, Answered(s3, 1, true, now), 1);
    Extended(s3, Answered(s3, 1, true, now));
    assert Answered(s3, 1, true, now).called == [Call(t, false)];
  }

  // How often p is in the list.
  ghost function Copies(list: seq<Contact>, p: Peer): nat {
    if list == [] then 0 else (if list[0].peer == p then 1 else 0) + Copies(list[1..], p)
  }

  ghost function Listed(s: State, p: Peer): nat { if s.slice.None? then 0 else Copies(s.slice.value.list, p) }

  lemma {:induction false} OneCopyLess(list: seq<Contact>, p: Peer, q: Peer)
    ensures Copies(WithoutFirst(list, p), q) == Copies(list, q) - if p == q && Copies(list, p) > 0 then 1 else 0
    decreases |list|
  {
    if list == [] {
    } else if list[0].peer == p {
    } else {
      OneCopyLess(list[1..], p, q);
      assert ([list[0]] + WithoutFirst(list[1..], p))[1..] == WithoutFirst(list[1..], p);
    }
  }

  // A successful block request of p, whose answer finds a list.
  ghost predicate Blocks(s: State, s': State, p: Peer, r: ReqId) {
    s.slice.Some? && r in s.inFlight && s.inFlight[r] == Change(p, true)
    && exists now :: s' == Answered(s, r, true, now)
  }

  ghost predicate Loads(s: State, s': State) {
    exists r, response :: r in s.inFlight && s.inFlight[r].Load? && s' == Loaded(s, r, response)
  }

  lemma AnswerLists(s: State, r: ReqId, ok: bool, now: int, q: Peer)
    requires r in s.inFlight && s.inFlight[r].Change?
    ensures var s' := Answered(s, r, ok, now);
      Listed(s', q) == Listed(s, q)
        + (if ok && s.slice.Some? && s.inFlight[r] == Change(q, true) then 1 else 0)
        - (if ok && s.inFlight[r] == Change(q, false) && Listed(s, q) > 0 then 1 else 0)
  {
    var p := s.inFlight[r].peer;
    if s.slice.Some? {
      var list := s.slice.value.list;
      OneCopyLess(list, p, q);
      assert ([Contact(p, now)] + list)[1..] == list;
    }
  }

  // A peer is still listed after its own unblock request succeeded if and only if it was listed twice or more.
  lemma StaysListed(s: State, s': State, p: Peer, r: ReqId)
    requires Unblocks(s, s', p, r)
    ensures p !in s'.blocked && (Listed(s', p) > 0 <==> Listed(s, p) >= 2)
  {
    var now :| s' == Answered(s, r, true, now);
    AnswerLists(s, r, true, now, p);
  }

  // Between two loads of the list, a peer is listed again exactly by a successful block request, so a second copy
  // comes exactly when such an answer finds the peer listed.
  lemma ListedAgain(run: seq<State>, n: nat, p: Peer)
    requires IsRun(run) && n + 1 < |run| && !Loads(run[n], run[n + 1])
    ensures var s, s' := run[n], run[n + 1];
      (Listed(s', p) > Listed(s, p) <==> exists r :: Blocks(s, s', p, r))
      && (Listed(s', p) >= 2 && Listed(s, p) < 2 <==> Listed(s, p) == 1 && exists r :: Blocks(s, s', p, r))
  {
    var s, s' := run[n], run[n + 1];
    if r :| Blocks(s, s', p, r) {
      var now :| s' == Answered(s, r, true, now);
      AnswerLists(s, r, true, now, p);
    } else if r :| Responds(s, s', r) {
      if s.inFlight[r].Change? {
        var ok, now :| s' == Answered(s, r, ok, now);
        assert ok && s.slice.Some? && s.inFlight[r] == Change(p, true) ==> Blocks(s, s', p, r);
        AnswerLists(s, r, ok, now, p);
      }
    }
  }

  // An unblock between two block calls, all three in flight at once.
  ghost function Alternating(p: Peer): State {
    BlockStep(UnblockStep(BlockStep(Loaded(ReloadStep(START), 1, Some((0, []))), p), p, None, true), p)
  }

  lemma AlternatingReached(p: Peer)
    ensures var s := Alternating(p);
      Reachable(s) && s.slice == Some(Slice([], 0))
      && s.inFlight == map[2 := Change(p, true), 3 := Change(p, false), 4 := Change(p, true)]
  {
    StartIsReachable();
    var s0 := ReloadStep(START);
    Extended(START, s0);
    var s1 := Loaded(s0, 1, Some((0, [])));
    assert Responds(s0, s1, 1);
    Extended(s0, s1);
    var s2 := BlockStep(s1, p);
    Extended(s1, s2);
    var s3 := UnblockStep(s2, p, None, true);
    Extended(s2, s3);
    Extended(s3, BlockStep(s3, p));
  }

  // When both block requests are answered first, the unblocked peer stays in the list, and nothing is in flight.
  lemma ListMayRepeat(p: Peer, now: int)
    ensures var s := Alternating(p);
      s.inFlight == map[2 := Change(p, true), 3 := Change(p, false), 4 := Change(p, true)]
      && var s1 := Answered(Answered(s, 2, true, now), 4, true, now);
      Reachable(s1) && s1.inFlight == map[3 := Change(p, false)] && Listed(s1, p) == 2
      && var s2 := Answered(s1, 3, true, now);
      Reachable(s2) && s2.inFlight == map[] && p !in s2.blocked && Listed(s2, p) == 1
  {
    var s := Alternating(p);
    AlternatingReached(p);
    hide Alternating;
    var s4 := Answered(s, 2, true, now);
    var s5 := Answered(s4, 4, true, now);
    AnswerLists(s, 2, true, now, p);
    AnswerLists(s4, 4, true, now, p);
    AnswerLists(s5, 3, true, now, p);
    assert Responds(s, s4, 2) && Responds(s4, s5, 4) && Responds(s5, Answered(s5, 3, true, now), 3);
    Extended(s, s4);
    Extended(s4, s5);
    Extended(s5, Answered(s5, 3, true, now));
  }

  // The object

  function Stored(requests: map<Peer, Entry>, p: Peer, done: Option<Token>): map<Peer, Entry>
    requires p in requests
  {
    requests[p := requests[p].(callbacks := requests[p].callbacks + Tokens(done))]
  }

  // The loop that erases the peer's first item.
  method EraseFirst(list: seq<Contact>, p: Peer) returns (r: seq<Contact>)
    ensures r == WithoutFirst(list, p)
  {
    var i := 0;
    while i < |list|
      invariant 0 <= i <= |list|
      invariant WithoutFirst(list, p) == list[..i] + WithoutFirst(list[i..], p)
    {
      if list[i].peer == p {
        return list[..i] + list[i + 1..];
      }
      assert list[..i + 1] + WithoutFirst(list[i + 1..], p)
          == list[..i] + ([list[i]] + WithoutFirst(list[i..][1..], p));
      i := i + 1;
    }
    assert list[..i] + WithoutFirst(list[i..], p) == list;
    r := list;
  }

  class Blocker {
    var blockRequests: map<Peer, Entry>
    var blocked: set<Peer>
    var slice: Option<Slice>
    var requestId: ReqId
    var nextRequestId: ReqId
    var called: seq<Call>
    ghost var inFlight: map<ReqId, Request>
    ghost var own: map<Token, ReqId>

    ghost function View(): State
      reads this
    {
      State(blockRequests, blocked, slice, requestId, inFlight, nextRequestId, own, called)
    }

    constructor ()
      ensures View() == START && Inv(View())
    {
      blockRequests, blocked, slice, requestId := map[], {}, None, 0;
      nextRequestId, called, inFlight, own := 1, [], map[], map[];
    }

    method CallAll(callbacks: seq<Token>, success: bool)
      modifies this`called
      ensures called == old(called) + Calls(callbacks, success)
    {
      var n := 0;
      while n < |callbacks|
        invariant 0 <= n <= |callbacks| && called == old(called) + Calls(callbacks[..n], success)
      {
        called := called + [Call(callbacks[n], success)];
        n := n + 1;
      }
      assert callbacks[..n] == callbacks;
    }

    // done is stored here when an entry of the same kind is there.
    method BlockAlreadySent(peer: Peer, blocking: bool, done: Option<Token>) returns (sent: bool)
      modifies this`blockRequests, this`called
      ensures sent == AlreadySent(old(View()), peer, blocking)
      ensures !sent ==> View() == Replaced(old(View()), peer)
      ensures sent ==> called == old(called) && blockRequests == Stored(old(blockRequests), peer, done)
    {
      if peer !in blockRequests {
        return false;
      } else if blockRequests[peer].blocking == blocking {
        if done.Some? {
          var entry := blockRequests[peer];
          blockRequests := blockRequests[peer := entry.(callbacks := entry.callbacks + [done.value])];
        } else {
          assert blockRequests[peer].callbacks + [] == blockRequests[peer].callbacks;
        }
        return true;
      }
      var callbacks := blockRequests[peer].callbacks;
      blockRequests := blockRequests - {peer};
      CallAll(callbacks, false);
      sent := false;
    }

    method Send(peer: Peer, blocking: bool, callbacks: seq<Token>)
      modifies this`blockRequests, this`nextRequestId, this`inFlight
      ensures View() == Sends(old(View()), peer, blocking, callbacks)
    {
      inFlight := inFlight[nextRequestId := Change(peer, blocking)];
      blockRequests := blockRequests[peer := Entry(nextRequestId, blocking, callbacks)];
      nextRequestId := nextRequestId + 1;
    }

    method Block(peer: Peer)
      requires Inv(View())
      modifies this
      ensures View() == BlockStep(old(View()), peer) && Inv(View())
    {
      BlockKeeps(View(), peer);
      hide Inv, Calls;
      if peer in blocked {
        return;
      }
      var sent := BlockAlreadySent(peer, true, None);
      if sent {
        assert blockRequests == old(blockRequests) by { SameCallbacks(old(blockRequests), peer); }
        return;
      }
      Send(peer, true, []);
    }

    method Unblock(peer: Peer, done: Option<Token>, force: bool)
      requires Inv(View()) && (done.Some? ==> done.value !in own)
      modifies this
      ensures View() == UnblockStep(old(View()), peer, done, force) && Inv(View())
    {
      UnblockKeeps(View(), peer, done, force);
      hide Inv, Calls;
      if !force && peer !in blocked {
        return;
      }
      own := Owned(own, done, Joined(View(), peer));
      var sent := BlockAlreadySent(peer, false, done);
      if sent {
        return;
      }
      Send(peer, false, if done.Some? then [done.value] else []);
    }

    // _blockRequests.take(peer)
    method Take(peer: Peer) returns (callbacks: seq<Token>)
      modifies this`blockRequests
      ensures blockRequests == old(blockRequests) - {peer}
      ensures callbacks == if peer in old(blockRequests) then old(blockRequests)[peer].callbacks else []
    {
      callbacks := if peer in blockRequests then blockRequests[peer].callbacks else [];
      blockRequests := blockRequests - {peer};
    }

    method BlockDone(r: ReqId, peer: Peer, now: int)
      requires Inv(View()) && r in inFlight && inFlight[r] == Change(peer, true)
      modifies this
      ensures View() == Answered(old(View()), r, true, now) && Inv(View())
    {
      AnsweredKeeps(View(), r, true, now);
      hide Inv, Calls;
      inFlight := inFlight - {r};
      var callbacks := Take(peer);
      blocked := blocked + {peer};
      if slice.Some? {
        slice := Some(Slice([Contact(peer, now)] + slice.value.list, slice.value.total + 1));
      }
      CallAll(callbacks, false);
    }

    method UnblockDone(r: ReqId, peer: Peer)
      requires Inv(View()) && r in inFlight && inFlight[r] == Change(peer, false)
      modifies this
      ensures (forall now :: View() == Answered(old(View()), r, true, now)) && Inv(View())
    {
      AnsweredKeeps(View(), r, true, 0);
      hide Inv, Calls;
      inFlight := inFlight - {r};
      var callbacks := Take(peer);
      blocked := blocked - {peer};
      if slice.Some? {
        var list := EraseFirst(slice.value.list, peer);
        slice := Some(Slice(list, if slice.value.total > |list| then slice.value.total - 1 else slice.value.total));
      }
      CallAll(callbacks, true);
    }

    method ChangeFailed(r: ReqId, peer: Peer)
      requires Inv(View()) && r in inFlight && inFlight[r].Change? && inFlight[r].peer == peer
      modifies this
      ensures (forall now :: View() == Answered(old(View()), r, false, now)) && Inv(View())
    {
      AnsweredKeeps(View(), r, false, 0);
      hide Inv, Calls;
      inFlight := inFlight - {r};
      var callbacks := Take(peer);
      CallAll(callbacks, false);
    }

    method Reload()
      requires Inv(View())
      modifies this`requestId, this`inFlight, this`nextRequestId
      ensures View() == ReloadStep(old(View())) && Inv(View())
    {
      LoadKeeps(View(), 0, None);
      hide Inv;
      if requestId != 0 {
        return;
      }
      requestId := nextRequestId;
      inFlight := inFlight[requestId := Load];
      nextRequestId := nextRequestId + 1;
    }

    method ListLoaded(r: ReqId, count: int, list: seq<Contact>)
      requires Inv(View()) && r in inFlight && inFlight[r].Load?
      modifies this`requestId, this`inFlight, this`slice
      ensures View() == Loaded(old(View()), r, Some((count, list))) && Inv(View())
    {
      LoadKeeps(View(), r, Some((count, list)));
      hide Inv;
      requestId, inFlight := 0, inFlight - {r};
      var total := if count >= |list| then count else |list|;
      if slice != Some(Slice(list, total)) {
        slice := Some(Slice(list, total));
      }
    }
  }

  lemma SameCallbacks(requests: map<Peer, Entry>, p: Peer)
    requires p in requests
    ensures Stored(requests, p, None) == requests
  {
    assert requests[p].callbacks + [] == requests[p].callbacks;
  }
}
