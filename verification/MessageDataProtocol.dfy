/** Batched lookups of messages: who waits for which message, and which request carries it. */
module MessageDataProtocol {
  import opened Wrappers

  type Scope = Option<nat>  // a channel, or None for users and groups
  type Token = nat          // a registered callback
  type ReqId = nat

  type MsgId = x: int | -0x8000_0000_0000_0000 <= x < 0x8000_0000_0000_0000

  datatype Key = Key(scope: Scope, msg: MsgId)

  datatype Entry = Entry(requestId: ReqId, callbacks: seq<Token>)

  datatype Request = Request(scope: Scope, ids: set<MsgId>)

  // entries, queued: the object's state. The rest is what the network and the callers know.
  datatype State = State(
    entries: map<Key, Entry>, queued: bool,
    inFlight: map<ReqId, Request>, nextId: ReqId, registered: set<Token>, called: seq<Token>)

  ghost predicate Init(s: State) {
    s.entries == map[] && !s.queued && s.inFlight == map[] && s.nextId == 1 && s.registered == {} && s.called == []
  }

  // Steps

  function EntryAt(entries: map<Key, Entry>, k: Key): Entry { if k in entries then entries[k] else Entry(0, []) }

  function Tokens(done: Option<Token>): seq<Token> { if done.None? then [] else [done.value] }

  // requestMessageData; a callback is registered once.
  ghost predicate Requested(s: State, s': State, k: Key, done: Option<Token>) {
    var e := EntryAt(s.entries, k);
    && (done.Some? ==> done.value !in s.registered)
    && s' == s.(entries := s.entries[k := e.(callbacks := e.callbacks + Tokens(done))],
                queued := s.queued || e.requestId == 0,
                registered := s.registered + (set t | t in Tokens(done)))
  }

  ghost function Unsent(entries: map<Key, Entry>): set<Key> { set k | k in entries && entries[k].requestId == 0 }

  ghost function UnsentIds(entries: map<Key, Entry>, scope: Scope): set<MsgId> {
    set k | k in Unsent(entries) && k.scope == scope :: k.msg
  }

  // The queued resolveMessageDatas: one request per scope with unsent entries, in any order of scopes.
  ghost predicate Resolved(s: State, s': State, ids: map<Scope, ReqId>) {
    && s.queued
    && (forall c :: c in ids <==> UnsentIds(s.entries, c) != {})
    && (forall c :: c in ids ==> s.nextId <= ids[c] < s'.nextId)
    && (forall c, d :: c in ids && d in ids && ids[c] == ids[d] ==> c == d)
    && s.nextId <= s'.nextId
    && s' == s.(queued := false, nextId := s'.nextId,
                entries := map k | k in s.entries ::
                  if s.entries[k].requestId == 0 && k.scope in ids then s.entries[k].(requestId := ids[k.scope])
                  else s.entries[k],
                inFlight := s'.inFlight)
    && (forall id :: id in s'.inFlight <==> id in s.inFlight || id in ids.Values)
    && (forall id :: id in s.inFlight ==> s'.inFlight[id] == s.inFlight[id])
    && (forall c :: c in ids ==> s'.inFlight[ids[c]] == Request(c, UnsentIds(s.entries, c)))
  }

  ghost predicate Answers(e: Entry, k: Key, scope: Scope, id: ReqId) { k.scope == scope && e.requestId == id }

  // The response of request id, done or fail: its entries leave, their callbacks run.
  ghost predicate Finalized(s: State, s': State, id: ReqId, callbacks: seq<Token>) {
    && id in s.inFlight
    && var scope := s.inFlight[id].scope;
    && NoDuplicates(callbacks)
    && (forall t :: t in callbacks <==>
          exists k :: k in s.entries && Answers(s.entries[k], k, scope, id) && t in s.entries[k].callbacks)
    && s' == s.(entries := map k | k in s.entries && !Answers(s.entries[k], k, scope, id) :: s.entries[k],
                inFlight := s.inFlight - {id},
                called := s.called + callbacks)
  }

  ghost predicate Next(s: State, s': State) {
    || (exists k, done :: Requested(s, s', k, done))
    || (exists ids :: Resolved(s, s', ids))
    || (exists id, callbacks :: Finalized(s, s', id, callbacks))
  }

  ghost predicate IsRun(run: seq<State>) {
    run != [] && Init(run[0]) && forall i :: 0 <= i < |run| - 1 ==> Next(run[i], run[i + 1])
  }

  // The invariant

  ghost predicate NoDuplicates(q: seq<Token>) { forall i, j :: 0 <= i < j < |q| ==> q[i] != q[j] }

  ghost predicate Requests(s: State) {
    && s.nextId > 0
    && (forall id :: id in s.inFlight ==> 0 < id < s.nextId)
    && (forall k :: k in s.entries ==>
          var id := s.entries[k].requestId;
          if id == 0 then s.queued
          else id in s.inFlight && s.inFlight[id].scope == k.scope && k.msg in s.inFlight[id].ids)
    && (forall id, m :: id in s.inFlight && m in s.inFlight[id].ids ==>
          var k := Key(s.inFlight[id].scope, m);
          k in s.entries && s.entries[k].requestId == id)
  }

  ghost predicate Callbacks(s: State) {
    && (forall k :: k in s.entries ==> NoDuplicates(s.entries[k].callbacks))
    && (forall k, l, t :: k in s.entries && l in s.entries && t in s.entries[k].callbacks && t in s.entries[l].callbacks
          ==> k == l)
    && NoDuplicates(s.called)
    && (forall k, t :: k in s.entries && t in s.entries[k].callbacks ==> t !in s.called && t in s.registered)
    && (forall t :: t in s.called ==> t in s.registered)
    && (forall t :: t in s.registered ==> t in s.called || Waits(s.entries, t))
  }

  ghost predicate Waits(entries: map<Key, Entry>, t: Token) { exists k :: k in entries && t in entries[k].callbacks }

  ghost predicate Inv(s: State) { Requests(s) && Callbacks(s) }

  lemma RequestedKeeps(s: State, s': State, k: Key, done: Option<Token>)
    requires Inv(s) && Requested(s, s', k, done)
    ensures Inv(s')
  {
    RequestedCallbacks(s, s', k, done);
    hide Callbacks;
  }

  lemma RequestedWaits(s: State, s': State, k: Key, done: Option<Token>, t: Token)
    requires Callbacks(s) && Requested(s, s', k, done) && t in s'.registered
    ensures t in s'.called || Waits(s'.entries, t)
  {
    hide NoDuplicates;
    if t in s.registered && t !in s.called {
      var l :| l in s.entries && t in s.entries[l].callbacks;
      assert l in s'.entries && t in s'.entries[l].callbacks;
    } else if t !in s.registered {
      assert t in s'.entries[k].callbacks;
    }
  }

  lemma RequestedCallbacks(s: State, s': State, k: Key, done: Option<Token>)
    requires Callbacks(s) && Requested(s, s', k, done)
    ensures Callbacks(s')
  {
    assert NoDuplicates(EntryAt(s.entries, k).callbacks + Tokens(done));
    hide NoDuplicates, Waits;
    forall t | t in s'.registered ensures t in s'.called || Waits(s'.entries, t) {
      RequestedWaits(s, s', k, done, t);
    }
  }

  lemma ResolvedKeeps(s: State, s': State, ids: map<Scope, ReqId>)
    requires Inv(s) && Resolved(s, s', ids)
    ensures Inv(s')
  {
    ResolvedRequests(s, s', ids);
    ResolvedCallbacks(s, s', ids);
  }

  lemma ResolvedCallbacks(s: State, s': State, ids: map<Scope, ReqId>)
    requires Callbacks(s) && Resolved(s, s', ids)
    ensures Callbacks(s')
  {
    hide Unsent, UnsentIds;
    assert forall k :: k in s'.entries ==> s'.entries[k].callbacks == s.entries[k].callbacks;
    forall t | t in s'.registered ensures t in s'.called || Waits(s'.entries, t) {
      if t !in s.called {
        var l :| l in s.entries && t in s.entries[l].callbacks;
        assert l in s'.entries && t in s'.entries[l].callbacks;
      }
    }
  }

  lemma ResolvedRequests(s: State, s': State, ids: map<Scope, ReqId>)
    requires Requests(s) && Resolved(s, s', ids)
    ensures Requests(s')
  {
    forall k | k in s.entries && s.entries[k].requestId == 0
      ensures k.scope in ids && s'.entries[k].requestId == ids[k.scope]
      ensures ids[k.scope] in s'.inFlight && s'.inFlight[ids[k.scope]].scope == k.scope
      ensures k.msg in s'.inFlight[ids[k.scope]].ids
    {
      assert k.msg in UnsentIds(s.entries, k.scope);
      assert ids[k.scope] in ids.Values;
    }
    forall id | id in s'.inFlight ensures 0 < id < s'.nextId {
      if id !in s.inFlight {
        var c :| c in ids && ids[c] == id;
      }
    }
    forall id, m | id in s'.inFlight && m in s'.inFlight[id].ids
      ensures var k := Key(s'.inFlight[id].scope, m); k in s'.entries && s'.entries[k].requestId == id
    {
      if id !in s.inFlight {
        var c :| c in ids && ids[c] == id;
        assert m in UnsentIds(s.entries, c);
        assert Key(c, m) in Unsent(s.entries);
      }
    }
  }

  lemma FinalizedKeeps(s: State, s': State, id: ReqId, callbacks: seq<Token>)
    requires Inv(s) && Finalized(s, s', id, callbacks)
    ensures Inv(s')
  {
    FinalizedCallbacks(s, s', id, callbacks);
    hide Callbacks;
  }

  lemma JoinDistinct(a: seq<Token>, b: seq<Token>)
    requires NoDuplicates(a) && NoDuplicates(b) && forall t :: t in b ==> t !in a
    ensures NoDuplicates(a + b)
  {
    forall i, j | 0 <= i < j < |a + b| ensures (a + b)[i] != (a + b)[j] {
      if i < |a| <= j {
        assert b[j - |a|] in b;
      }
    }
  }

  lemma FinalizedCallbacks(s: State, s': State, id: ReqId, callbacks: seq<Token>)
    requires Callbacks(s) && Finalized(s, s', id, callbacks)
    ensures Callbacks(s')
  {
    var scope := s.inFlight[id].scope;
    forall t | t in callbacks ensures t !in s.called && t in s.registered {
      var k :| k in s.entries && Answers(s.entries[k], k, scope, id) && t in s.entries[k].callbacks;
    }
    JoinDistinct(s.called, callbacks);
    forall t | t in s'.registered ensures t in s'.called || Waits(s'.entries, t) {
      if t !in s.called {
        var l :| l in s.entries && t in s.entries[l].callbacks;
        if !Answers(s.entries[l], l, scope, id) {
          assert l in s'.entries && t in s'.entries[l].callbacks;
        }
      }
    }
  }

  lemma NextKeeps(s: State, s': State)
    requires Inv(s) && Next(s, s')
    ensures Inv(s')
  {
    hide Inv, Requested, Resolved, Finalized;
    if k, done :| Requested(s, s', k, done) {
      RequestedKeeps(s, s', k, done);
    } else if ids :| Resolved(s, s', ids) {
      ResolvedKeeps(s, s', ids);
    } else {
      var id, callbacks :| Finalized(s, s', id, callbacks);
      FinalizedKeeps(s, s', id, callbacks);
    }
  }

  lemma {:induction false} RunKeeps(run: seq<State>, n: nat)
    requires IsRun(run) && n < |run|
    ensures Inv(run[n])
  {
    if n == 0 {
    } else {
      RunKeeps(run, n - 1);
      hide Inv, Next;
      NextKeeps(run[n - 1], run[n]);
    }
  }

  // In every run: a message is never in two outstanding requests, and what is not yet requested has the
  // resolve step queued.
  lemma OneRequestPerMessage(run: seq<State>, n: nat, a: ReqId, b: ReqId, m: MsgId)
    requires IsRun(run) && n < |run|
    requires var s := run[n];
      a in s.inFlight && b in s.inFlight && s.inFlight[a].scope == s.inFlight[b].scope
      && m in s.inFlight[a].ids && m in s.inFlight[b].ids
    ensures a == b
  {
    hide IsRun;
    RunKeeps(run, n);
  }

  lemma UnsentIsQueued(run: seq<State>, n: nat, k: Key)
    requires IsRun(run) && n < |run| && k in run[n].entries
    ensures run[n].entries[k].requestId == 0 ==> run[n].queued
    ensures run[n].entries[k].requestId != 0 ==> run[n].entries[k].requestId in run[n].inFlight
  {
    hide IsRun;
    RunKeeps(run, n);
  }

  // In every run: no callback is called twice, and once nothing is outstanding or queued every registered
  // callback has been called, those registered while a request was in flight included.
  lemma EveryCallbackOnce(run: seq<State>, n: nat)
    requires IsRun(run) && n < |run|
    ensures var s := run[n];
      && (forall i, j :: 0 <= i < j < |s.called| ==> s.called[i] != s.called[j])
      && (s.inFlight == map[] && !s.queued ==> s.entries == map[] && forall t :: t in s.registered <==> t in s.called)
  {
    hide IsRun;
    RunKeeps(run, n);
    assert run[n].entries != map[] ==> exists k :: k in run[n].entries;
  }

  // A callback joins those that wait for its message, behind them, and changes no others; a request is queued for
  // unless one is in flight for the message already.
  lemma RequestedExactly(run: seq<State>, n: nat, s': State, k: Key, done: Option<Token>)
    requires IsRun(run) && n < |run| && Requested(run[n], s', k, done)
    ensures var s := run[n];
      var before := if k in s.entries then s.entries[k].callbacks else [];
      && k in s'.entries && s'.entries[k].callbacks == (if done.Some? then before + [done.value] else before)
      && (forall l :: l != k ==>
            (l in s'.entries <==> l in s.entries) && (l in s.entries ==> s'.entries[l] == s.entries[l]))
      && s'.inFlight == s.inFlight && s'.called == s.called
      && (s'.queued <==> s.queued || forall id :: id in s.inFlight ==>
            s.inFlight[id].scope != k.scope || k.msg !in s.inFlight[id].ids)
  {
    RunKeeps(run, n);
    hide IsRun, Callbacks;
    var s := run[n];
    if k in s.entries && s.entries[k].requestId != 0 {
      assert s.entries[k].requestId in s.inFlight;
    } else {
      forall id | id in s.inFlight ensures s.inFlight[id].scope != k.scope || k.msg !in s.inFlight[id].ids {
        assert Key(k.scope, k.msg) == k;
        assert id != 0;
      }
    }
  }

  // In every run a waiting callback is called by the answer of the request that asks for its message, and by no
  // other; until then it waits for the same message.
  lemma CalledWithItsMessage(run: seq<State>, n: nat, s': State, id: ReqId, callbacks: seq<Token>, k: Key, t: Token)
    requires IsRun(run) && n < |run| && Finalized(run[n], s', id, callbacks)
    requires k in run[n].entries && t in run[n].entries[k].callbacks
    ensures var s := run[n];
      id in s.inFlight
      && if s.inFlight[id].scope == k.scope && k.msg in s.inFlight[id].ids then
           t in callbacks && t in s'.called && k !in s'.entries
         else t !in s'.called && k in s'.entries && t in s'.entries[k].callbacks
  {
    RunKeeps(run, n);
    hide IsRun;
    var s := run[n];
    var asked := s.inFlight[id].scope == k.scope && k.msg in s.inFlight[id].ids;
    assert asked <==> Answers(s.entries[k], k, s.inFlight[id].scope, id) by {
      assert Key(k.scope, k.msg) == k;
      hide Callbacks;
    }
    hide Requests;
    if t in callbacks {
      var l :| l in s.entries && Answers(s.entries[l], l, s.inFlight[id].scope, id) && t in s.entries[l].callbacks;
      assert l == k;
    }
  }

  // Nobody has asked the server for the message yet.
  ghost predicate Missing(s: State, scope: Scope, m: MsgId) {
    && Key(scope, m) in s.entries
    && forall id :: id in s.inFlight ==> s.inFlight[id].scope != scope || m !in s.inFlight[id].ids
  }

  lemma MissingIsUnsent(s: State, scope: Scope, m: MsgId)
    requires Requests(s)
    ensures Missing(s, scope, m) <==> m in UnsentIds(s.entries, scope)
  {
    var k := Key(scope, m);
    assert k in s.entries && s.entries[k].requestId == 0 <==> k in Unsent(s.entries);
    if m in UnsentIds(s.entries, scope) {
      var l :| l in Unsent(s.entries) && l.scope == scope && l.msg == m;
      assert l == k;
      forall id | id in s.inFlight ensures s.inFlight[id].scope != scope || m !in s.inFlight[id].ids {
        assert id != 0;
      }
    }
    if Missing(s, scope, m) && s.entries[k].requestId != 0 {
      assert false;
    }
  }

  // Resolving asks for every missing message once: each new request asks for exactly the missing messages of its
  // scope, and no other new one is for that scope. The requests in flight stay, all callbacks wait as before, and the
  // step is not queued any more.
  lemma ResolvedExactly(run: seq<State>, n: nat, s': State, ids: map<Scope, ReqId>, scope: Scope, m: MsgId)
    requires IsRun(run) && n < |run| && Resolved(run[n], s', ids)
    ensures var s := run[n];
      && (Missing(s, scope, m) <==>
            exists id :: id in s'.inFlight && id !in s.inFlight && s'.inFlight[id].scope == scope
                         && m in s'.inFlight[id].ids)
      && (forall id, other ::
            (id in s'.inFlight && id !in s.inFlight && other in s'.inFlight && other !in s.inFlight
             && s'.inFlight[id].scope == s'.inFlight[other].scope) ==> id == other)
      && (forall id :: id in s.inFlight ==> id in s'.inFlight && s'.inFlight[id] == s.inFlight[id])
      && s'.entries.Keys == s.entries.Keys
      && (forall k :: k in s.entries ==> s'.entries[k].callbacks == s.entries[k].callbacks)
      && !s'.queued && s'.called == s.called && s'.registered == s.registered
  {
    RunKeeps(run, n);
    var s := run[n];
    assert Requests(s);
    hide IsRun, Inv;
    MissingIsUnsent(s, scope, m);
    ResolvedAsks(s, s', ids, scope, m);
    hide Missing, UnsentIds, Unsent, Requests;
    forall id | id in s'.inFlight && id !in s.inFlight
      ensures s'.inFlight[id].scope in ids && ids[s'.inFlight[id].scope] == id
    {
      var c :| c in ids && ids[c] == id;
    }
  }

  lemma ResolvedAsks(s: State, s': State, ids: map<Scope, ReqId>, scope: Scope, m: MsgId)
    requires Requests(s) && Resolved(s, s', ids)
    ensures m in UnsentIds(s.entries, scope) <==>
      exists id :: id in s'.inFlight && id !in s.inFlight && s'.inFlight[id].scope == scope && m in s'.inFlight[id].ids
  {
    hide UnsentIds;
    if m in UnsentIds(s.entries, scope) {
      assert scope in ids && ids[scope] in ids.Values;
      assert s'.inFlight[ids[scope]] == Request(scope, UnsentIds(s.entries, scope));
    }
    if id :| id in s'.inFlight && id !in s.inFlight && s'.inFlight[id].scope == scope && m in s'.inFlight[id].ids {
      var c :| c in ids && ids[c] == id;
    }
  }
}
