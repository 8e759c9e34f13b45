/** The message lookups of ApiWrap: one map for users and groups, one map per channel. */
module MessageDataApi {
  import opened MessageDataProtocol
  import opened Wrappers

  type MessageDataRequests = map<MsgId, Entry>

  ghost predicate Distinct(r: MessageDataRequests) {
    && (forall m :: m in r ==> NoDuplicates(r[m].callbacks))
    && (forall m, n, t :: m in r && n in r && t in r[m].callbacks && t in r[n].callbacks ==> m == n)
  }

  // collectMessageIds
  method CollectMessageIds(requests: MessageDataRequests) returns (ids: set<MsgId>)
    ensures ids == set m | m in requests && requests[m].requestId == 0
  {
    ids := {};
    var left := requests.Keys;
    while left != {}
      invariant left <= requests.Keys
      invariant ids == set m | m in requests && m !in left && requests[m].requestId == 0
    {
      var m :| m in left;
      if requests[m].requestId == 0 {
        ids := ids + {m};
      }
      left := left - {m};
    }
  }

  // The loops that give a new request id to every entry without one.
  method AssignRequestId(requests: MessageDataRequests, id: ReqId) returns (r: MessageDataRequests)
    ensures r == map m | m in requests ::
      if requests[m].requestId == 0 then requests[m].(requestId := id) else requests[m]
  {
    r := requests;
    var left := requests.Keys;
    while left != {}
      invariant left <= requests.Keys && r.Keys == requests.Keys
      invariant forall m :: m in requests ==>
        r[m] == if m !in left && requests[m].requestId == 0 then requests[m].(requestId := id) else requests[m]
    {
      var m :| m in left;
      if requests[m].requestId == 0 {
        r := r[m := r[m].(requestId := id)];
      }
      left := left - {m};
    }
  }

  // The erasing loop of finalizeMessageDataRequest.
  method TakeAnswered(requests: MessageDataRequests, id: ReqId)
      returns (rest: MessageDataRequests, callbacks: seq<Token>)
    requires Distinct(requests)
    ensures rest == map m | m in requests && requests[m].requestId != id :: requests[m]
    ensures NoDuplicates(callbacks)
    ensures forall t :: t in callbacks <==>
              exists m :: m in requests && requests[m].requestId == id && t in requests[m].callbacks
  {
    rest, callbacks := requests, [];
    var left := requests.Keys;
    while left != {}
      invariant left <= requests.Keys
      invariant rest == map m | m in requests && (m in left || requests[m].requestId != id) :: requests[m]
      invariant NoDuplicates(callbacks)
      invariant forall t :: t in callbacks <==>
        exists m :: m in requests && m !in left && requests[m].requestId == id && t in requests[m].callbacks
    {
      var m :| m in left;
      if requests[m].requestId == id {
        forall t | t in requests[m].callbacks ensures t !in callbacks {
        }
        JoinDistinct(callbacks, requests[m].callbacks);
        TakenMore(requests, left, m, id, callbacks);
        callbacks := callbacks + requests[m].callbacks;
        rest := rest - {m};
      }
      left := left - {m};
    }
  }

  lemma TakenMore(requests: MessageDataRequests, left: set<MsgId>, m: MsgId, id: ReqId, callbacks: seq<Token>)
    requires m in left && m in requests && requests[m].requestId == id
    requires forall t :: t in callbacks <==>
      exists n :: n in requests && n !in left && requests[n].requestId == id && t in requests[n].callbacks
    ensures forall t :: t in callbacks + requests[m].callbacks <==>
      exists n :: n in requests && n !in left - {m} && requests[n].requestId == id && t in requests[n].callbacks
  {
  }

  // The entries of one scope; a channel without a map has none.
  function Part(plain: MessageDataRequests, channels: map<nat, MessageDataRequests>,
                scope: Scope): MessageDataRequests
  {
    if scope.None? then plain else if scope.value in channels then channels[scope.value] else map[]
  }

  ghost predicate Represents(plain: MessageDataRequests, channels: map<nat, MessageDataRequests>,
                             entries: map<Key, Entry>)
  {
    && (forall k :: k in entries <==> k.msg in Part(plain, channels, k.scope))
    && (forall k :: k in entries ==> entries[k] == Part(plain, channels, k.scope)[k.msg])
  }

  lemma DistinctPart(s: State, plain: MessageDataRequests, channels: map<nat, MessageDataRequests>, scope: Scope)
    requires Callbacks(s) && Represents(plain, channels, s.entries)
    ensures Distinct(Part(plain, channels, scope))
  {
    var r := Part(plain, channels, scope);
    forall m | m in r ensures Key(scope, m) in s.entries && s.entries[Key(scope, m)] == r[m] {
    }
    forall m, n, t | m in r && n in r && t in r[m].callbacks && t in r[n].callbacks ensures m == n {
      assert Key(scope, m) == Key(scope, n);
    }
  }

  // What removing the answered entries of a scope does to the entries as a whole.
  lemma AnsweredLeave(s: State, plain: MessageDataRequests, channels: map<nat, MessageDataRequests>, id: ReqId,
                      callbacks: seq<Token>,
                      plain': MessageDataRequests, channels': map<nat, MessageDataRequests>, s': State)
    requires id in s.inFlight && Represents(plain, channels, s.entries)
    requires var scope := s.inFlight[id].scope;
      var r := Part(plain, channels, scope);
      && Part(plain', channels', scope) == (map m | m in r && r[m].requestId != id :: r[m])
      && (forall c: Scope :: c != scope ==> Part(plain', channels', c) == Part(plain, channels, c))
      && NoDuplicates(callbacks)
      && forall t :: t in callbacks <==> exists m :: m in r && r[m].requestId == id && t in r[m].callbacks
    requires var scope := s.inFlight[id].scope;
      s' == s.(entries := map k | k in s.entries && !Answers(s.entries[k], k, scope, id) :: s.entries[k],
               inFlight := s.inFlight - {id}, called := s.called + callbacks)
    ensures Finalized(s, s', id, callbacks) && Represents(plain', channels', s'.entries)
  {
    var scope := s.inFlight[id].scope;
    var r := Part(plain, channels, scope);
    forall t ensures t in callbacks <==>
      exists k :: k in s.entries && Answers(s.entries[k], k, scope, id) && t in s.entries[k].callbacks
    {
      if t in callbacks {
        var m :| m in r && r[m].requestId == id && t in r[m].callbacks;
        assert Key(scope, m) in s.entries;
        assert Answers(s.entries[Key(scope, m)], Key(scope, m), scope, id);
      }
    }
    forall k ensures k in s'.entries <==> k.msg in Part(plain', channels', k.scope) {
    }
  }

  // The functional form of the assignment of new ids, scope by scope.
  function Assigned(r: MessageDataRequests, id: ReqId): MessageDataRequests {
    map m | m in r :: if r[m].requestId == 0 then r[m].(requestId := id) else r[m]
  }

  predicate HasUnsent(r: MessageDataRequests) { exists m :: m in r && r[m].requestId == 0 }

  ghost predicate AssignedIn(plain: MessageDataRequests, channels: map<nat, MessageDataRequests>, scope: Scope,
                             ids: map<Scope, ReqId>,
                             plain': MessageDataRequests, channels': map<nat, MessageDataRequests>) {
    var r := Part(plain, channels, scope);
    && (scope in ids <==> HasUnsent(r))
    && Part(plain', channels', scope) == if scope in ids then Assigned(r, ids[scope]) else r
  }

  lemma UnsentOfPart(s: State, plain: MessageDataRequests, channels: map<nat, MessageDataRequests>, scope: Scope)
    requires Represents(plain, channels, s.entries)
    ensures UnsentIds(s.entries, scope)
      == set m | m in Part(plain, channels, scope) && Part(plain, channels, scope)[m].requestId == 0
    ensures UnsentIds(s.entries, scope) != {} <==> HasUnsent(Part(plain, channels, scope))
  {
    var r := Part(plain, channels, scope);
    forall m ensures m in UnsentIds(s.entries, scope) <==> m in r && r[m].requestId == 0 {
      if m in r && r[m].requestId == 0 {
        assert Key(scope, m) in Unsent(s.entries);
      }
    }
    if HasUnsent(r) {
      var m :| m in r && r[m].requestId == 0;
      assert m in UnsentIds(s.entries, scope);
    }
  }

  lemma AddedRepresents(plain: MessageDataRequests, channels: map<nat, MessageDataRequests>, entries: map<Key, Entry>,
                        k: Key, e: Entry, plain': MessageDataRequests, channels': map<nat, MessageDataRequests>)
    requires Represents(plain, channels, entries)
    requires Part(plain', channels', k.scope) == Part(plain, channels, k.scope)[k.msg := e]
    requires forall c: Scope :: c != k.scope ==> Part(plain', channels', c) == Part(plain, channels, c)
    ensures Represents(plain', channels', entries[k := e])
  {
  }

  lemma AddedStep(s: State, plain: MessageDataRequests, channels: map<nat, MessageDataRequests>, k: Key,
                  done: Option<Token>, plain': MessageDataRequests, channels': map<nat, MessageDataRequests>, s': State)
    requires Represents(plain, channels, s.entries) && (done.Some? ==> done.value !in s.registered)
    requires var r := Part(plain, channels, k.scope);
      var e := if k.msg in r then r[k.msg] else Entry(0, []);
      && Part(plain', channels', k.scope) == r[k.msg := e.(callbacks := e.callbacks + Tokens(done))]
      && s' == s.(entries := s.entries[k := e.(callbacks := e.callbacks + Tokens(done))],
                  queued := s.queued || e.requestId == 0, registered := s.registered + (set t | t in Tokens(done)))
    requires forall c: Scope :: c != k.scope ==> Part(plain', channels', c) == Part(plain, channels, c)
    ensures Requested(s, s', k, done) && Represents(plain', channels', s'.entries)
  {
    var r := Part(plain, channels, k.scope);
    var e := if k.msg in r then r[k.msg] else Entry(0, []);
    assert e == EntryAt(s.entries, k);
    AddedRepresents(plain, channels, s.entries, k, e.(callbacks := e.callbacks + Tokens(done)), plain', channels');
  }

  // The scopes in left are untouched, the others are resolved.
  ghost predicate Progress(plain: MessageDataRequests, channels: map<nat, MessageDataRequests>, ids: map<Scope, ReqId>,
                           left: set<nat>, plain': MessageDataRequests, channels': map<nat, MessageDataRequests>) {
    && left <= channels'.Keys
    && forall c: Scope ::
         if c.Some? && c.value in left then c !in ids && Part(plain', channels', c) == Part(plain, channels, c)
         else AssignedIn(plain, channels, c, ids, plain', channels')
  }

  ghost predicate AllAssigned(plain: MessageDataRequests, channels: map<nat, MessageDataRequests>,
                              ids: map<Scope, ReqId>,
                              plain': MessageDataRequests, channels': map<nat, MessageDataRequests>) {
    forall c: Scope :: AssignedIn(plain, channels, c, ids, plain', channels')
  }

  lemma ProgressDone(plain: MessageDataRequests, channels: map<nat, MessageDataRequests>, ids: map<Scope, ReqId>,
                     plain': MessageDataRequests, channels': map<nat, MessageDataRequests>)
    requires Progress(plain, channels, ids, {}, plain', channels')
    ensures AllAssigned(plain, channels, ids, plain', channels')
  {
  }

  lemma ProgressStart(plain: MessageDataRequests, channels: map<nat, MessageDataRequests>, ids: map<Scope, ReqId>,
                      plain': MessageDataRequests, id: ReqId)
    requires if HasUnsent(plain) then ids == map[None := id] && plain' == Assigned(plain, id)
             else ids == map[] && plain' == plain
    ensures Progress(plain, channels, ids, channels.Keys, plain', channels)
  {
  }

  lemma ProgressStep(plain: MessageDataRequests, channels: map<nat, MessageDataRequests>, ids: map<Scope, ReqId>,
                     left: set<nat>,
                     plain': MessageDataRequests, channels': map<nat, MessageDataRequests>, channel: nat,
                     id: ReqId, ids': map<Scope, ReqId>, channels'': map<nat, MessageDataRequests>)
    requires Progress(plain, channels, ids, left, plain', channels') && channel in left
    requires left - {channel} <= channels''.Keys
    requires forall c: Scope :: c != Some(channel) ==> Part(plain', channels'', c) == Part(plain', channels', c)
    requires var r := channels'[channel];
      if HasUnsent(r) then
        ids' == ids[Some(channel) := id] && channel in channels'' && channels''[channel] == Assigned(r, id)
      else ids' == ids && Part(plain', channels'', Some(channel)) == r
    ensures Progress(plain, channels, ids', left - {channel}, plain', channels'')
  {
  }

  // The ids handed out so far while resolving, and the requests they stand for.
  ghost predicate Sending(s: State, ids: map<Scope, ReqId>, next: ReqId, inFlight: map<ReqId, Request>) {
    && s.nextId <= next
    && (forall c :: c in ids ==> s.nextId <= ids[c] < next)
    && (forall c, d :: c in ids && d in ids && ids[c] == ids[d] ==> c == d)
    && (forall id :: id in s.inFlight ==> id < s.nextId)
    && (forall id :: id in inFlight <==> id in s.inFlight || id in ids.Values)
    && (forall id :: id in s.inFlight ==> inFlight[id] == s.inFlight[id])
    && (forall c :: c in ids ==> inFlight[ids[c]] == Request(c, UnsentIds(s.entries, c)))
  }

  lemma SendingResolves(s: State, plain: MessageDataRequests, channels: map<nat, MessageDataRequests>,
                        ids: map<Scope, ReqId>,
                        plain': MessageDataRequests, channels': map<nat, MessageDataRequests>, s': State)
    requires s.queued && Represents(plain, channels, s.entries)
    requires AllAssigned(plain, channels, ids, plain', channels')
    requires Sending(s, ids, s'.nextId, s'.inFlight)
    requires s' == s.(queued := false, nextId := s'.nextId, entries := s'.entries, inFlight := s'.inFlight)
    requires s'.entries == map k | k in s.entries ::
      if s.entries[k].requestId == 0 && k.scope in ids then s.entries[k].(requestId := ids[k.scope]) else s.entries[k]
    ensures Resolved(s, s', ids) && Represents(plain', channels', s'.entries)
  {
    forall c: Scope ensures c in ids <==> UnsentIds(s.entries, c) != {} {
      assert AssignedIn(plain, channels, c, ids, plain', channels');
      UnsentOfPart(s, plain, channels, c);
    }
    forall k: Key ensures k in s'.entries <==> k.msg in Part(plain', channels', k.scope)
      ensures k in s'.entries ==> s'.entries[k] == Part(plain', channels', k.scope)[k.msg] {
      assert AssignedIn(plain, channels, k.scope, ids, plain', channels');
    }
  }

  lemma SendingStart(s: State)
    requires Requests(s)
    ensures Sending(s, map[], s.nextId, s.inFlight)
  {
  }

  lemma SendOne(s: State, ids: map<Scope, ReqId>, next: ReqId, inFlight: map<ReqId, Request>, c: Scope)
    requires Sending(s, ids, next, inFlight) && c !in ids
    ensures Sending(s, ids[c := next], next + 1, inFlight[next := Request(c, UnsentIds(s.entries, c))])
  {
    hide UnsentIds;
    NewValue(ids, c, next);
  }

  predicate NoneEmpty(channels: map<nat, MessageDataRequests>, except: set<nat>) {
    forall c :: c in channels && c !in except ==> channels[c] != map[]
  }

  class ApiWrap {
    var messageDataRequests: MessageDataRequests
    var channelMessageDataRequests: map<nat, MessageDataRequests>
    var messageDataResolveQueued: bool
    var nextRequestId: ReqId  // the network's counter
    ghost var s: State        // entries as one map, and what is outside the object

    ghost predicate Valid() reads this {
      s.queued == messageDataResolveQueued && s.nextId == nextRequestId && Inv(s)
      && Represents(messageDataRequests, channelMessageDataRequests, s.entries)
    }

    constructor ()
      ensures Valid() && Init(s)
    {
      messageDataRequests, channelMessageDataRequests, messageDataResolveQueued := map[], map[], false;
      nextRequestId := 1;
      s := State(map[], false, map[], 1, {}, []);
    }

    // What the reference into one of the two maps stores.
    method StorePart(channel: Scope, requests: MessageDataRequests)
      modifies this`messageDataRequests, this`channelMessageDataRequests
      ensures Part(messageDataRequests, channelMessageDataRequests, channel) == requests
      ensures forall c: Scope :: c != channel ==>
                Part(messageDataRequests, channelMessageDataRequests, c)
                == Part(old(messageDataRequests), old(channelMessageDataRequests), c)
    {
      if channel.None? {
        messageDataRequests := requests;
      } else {
        channelMessageDataRequests := channelMessageDataRequests[channel.value := requests];
      }
    }

    method RequestMessageData(channel: Scope, msgId: MsgId, done: Option<Token>)
      requires Valid() && (done.Some? ==> done.value !in s.registered)
      modifies this
      ensures Valid() && Requested(old(s), s, Key(channel, msgId), done)
    {
      hide Requests, Callbacks, Represents, Requested;
      ghost var before, plain, channels := s, messageDataRequests, channelMessageDataRequests;
      ghost var k := Key(channel, msgId);
      var requests := Part(messageDataRequests, channelMessageDataRequests, channel);
      var entry := if msgId in requests then requests[msgId] else Entry(0, []);
      entry := entry.(callbacks := entry.callbacks + Tokens(done));
      StorePart(channel, requests[msgId := entry]);
      hide Part;
      if entry.requestId == 0 {
        messageDataResolveQueued := true;
      }
      s := s.(entries := s.entries[k := entry], queued := messageDataResolveQueued,
              registered := s.registered + (set t | t in Tokens(done)));
      AddedStep(before, plain, channels, k, done, messageDataRequests, channelMessageDataRequests, s);
      RequestedKeeps(before, s, k, done);
    }

    // Sends for one scope and marks its entries.
    method ResolvePart(requests: MessageDataRequests, ghost c: Scope, ghost s0: State, ghost ids: map<Scope, ReqId>,
                       ghost inFlight: map<ReqId, Request>)
        returns (r: MessageDataRequests, ghost ids': map<Scope, ReqId>, ghost inFlight': map<ReqId, Request>)
      requires c !in ids && Sending(s0, ids, nextRequestId, inFlight)
      requires UnsentIds(s0.entries, c) == set m | m in requests && requests[m].requestId == 0
      modifies this`nextRequestId
      ensures Sending(s0, ids', nextRequestId, inFlight')
      ensures if HasUnsent(requests)
              then ids' == ids[c := old(nextRequestId)] && r == Assigned(requests, old(nextRequestId))
              else ids' == ids && r == requests
      ensures r.Keys == requests.Keys
    {
      hide Sending, UnsentIds;
      r, ids', inFlight' := requests, ids, inFlight;
      var collected := CollectMessageIds(requests);
      if collected != {} {
        assert HasUnsent(requests);
        var requestId := nextRequestId;
        nextRequestId := nextRequestId + 1;
        SendOne(s0, ids, requestId, inFlight, c);
        ids', inFlight' := ids[c := requestId], inFlight[requestId := Request(c, UnsentIds(s0.entries, c))];
        r := AssignRequestId(requests, requestId);
      } else {
        assert forall m :: m in requests ==> requests[m].requestId != 0 by {
          assert forall m :: m in requests && requests[m].requestId == 0 ==> m in collected;
        }
      }
    }

    // The loop over the channels.
    method ResolveChannels(ghost plain: MessageDataRequests, ghost plain': MessageDataRequests,
                           channels: map<nat, MessageDataRequests>, ghost s0: State, ghost ids: map<Scope, ReqId>,
                           ghost inFlight: map<ReqId, Request>)
        returns (r: map<nat, MessageDataRequests>, ghost ids': map<Scope, ReqId>, ghost inFlight': map<ReqId, Request>)
      requires Represents(plain, channels, s0.entries) && Sending(s0, ids, nextRequestId, inFlight)
      requires Progress(plain, channels, ids, channels.Keys, plain', channels)
      modifies this`nextRequestId
      ensures Sending(s0, ids', nextRequestId, inFlight') && AllAssigned(plain, channels, ids', plain', r)
      ensures NoneEmpty(r, {})
    {
      hide Represents, UnsentIds, Assigned, AssignedIn, Sending;
      r, ids', inFlight' := channels, ids, inFlight;
      var left := channels.Keys;
      while left != {}
        invariant left <= channels.Keys && Sending(s0, ids', nextRequestId, inFlight')
        invariant Progress(plain, channels, ids', left, plain', r) && NoneEmpty(r, left)
      {
        var channel :| channel in left;
        assert Some(channel) !in ids' && r[channel] == channels[channel] by {
          assert Part(plain', r, Some(channel)) == Part(plain, channels, Some(channel));
        }
        ghost var now, idsNow, id := r, ids', nextRequestId;
        if r[channel] == map[] {
          r := r - {channel};
        } else {
          UnsentOfPart(s0, plain, channels, Some(channel));
          var requests;
          requests, ids', inFlight' := ResolvePart(r[channel], Some(channel), s0, ids', inFlight');
          r := r[channel := requests];
          assert requests != map[] by { assert requests.Keys == now[channel].Keys; }
        }
        ProgressStep(plain, channels, idsNow, left, plain', now, channel, id, ids', r);
        left := left - {channel};
      }
      ProgressDone(plain, channels, ids', plain', r);
    }

    // The queued call.
    method ResolveMessageDatas() returns (ghost ids: map<Scope, ReqId>)
      requires Valid() && messageDataResolveQueued
      modifies this
      ensures Valid() && Resolved(old(s), s, ids) && NoneEmpty(channelMessageDataRequests, {})
    {
      hide Represents, Resolved, UnsentIds, Callbacks, Assigned, AssignedIn;
      messageDataResolveQueued := false;
      ghost var before, plain, channels := s, messageDataRequests, channelMessageDataRequests;
      ghost var inFlight := s.inFlight;
      ids := map[];
      SendingStart(before);
      hide Sending, Requests;
      UnsentOfPart(before, plain, channels, None);
      messageDataRequests, ids, inFlight := ResolvePart(messageDataRequests, None, before, ids, inFlight);
      ProgressStart(plain, channels, ids, messageDataRequests, before.nextId);
      hide Progress, AllAssigned;
      channelMessageDataRequests, ids, inFlight :=
        ResolveChannels(plain, messageDataRequests, channelMessageDataRequests, before, ids, inFlight);
      s := s.(queued := false, nextId := nextRequestId, inFlight := inFlight,
              entries := map k | k in s.entries ::
                if s.entries[k].requestId == 0 && k.scope in ids then s.entries[k].(requestId := ids[k.scope])
                else s.entries[k]);
      SendingResolves(before, plain, channels, ids, messageDataRequests, channelMessageDataRequests, s);
      ResolvedKeeps(before, s, ids);
    }

    // An emptied channel leaves the map.
    method StoreRest(channel: nat, rest: MessageDataRequests)
      modifies this`channelMessageDataRequests
      ensures Part(messageDataRequests, channelMessageDataRequests, Some(channel)) == rest
      ensures forall c: Scope :: c != Some(channel) ==>
                Part(messageDataRequests, channelMessageDataRequests, c)
                == Part(messageDataRequests, old(channelMessageDataRequests), c)
      ensures NoneEmpty(old(channelMessageDataRequests), {}) ==> NoneEmpty(channelMessageDataRequests, {})
    {
      if rest == map[] {
        channelMessageDataRequests := channelMessageDataRequests - {channel};
      } else {
        channelMessageDataRequests := channelMessageDataRequests[channel := rest];
      }
    }

    // The response handlers of request requestId for this channel.
    method FinalizeMessageDataRequest(channel: Scope, requestId: ReqId) returns (ghost called: seq<Token>)
      requires Valid() && requestId in s.inFlight && s.inFlight[requestId].scope == channel
      modifies this
      ensures Valid() && Finalized(old(s), s, requestId, called)
      ensures NoneEmpty(old(channelMessageDataRequests), {}) ==> NoneEmpty(channelMessageDataRequests, {})
    {
      hide Represents, Finalized, Requests, Callbacks, NoneEmpty;
      ghost var before, plain, channels := s, messageDataRequests, channelMessageDataRequests;
      DistinctPart(s, plain, channels, channel);
      called := [];
      if channel.None? {
        messageDataRequests, called := TakeAnswered(messageDataRequests, requestId);
      } else if channel.value in channelMessageDataRequests {
        var rest;
        rest, called := TakeAnswered(channelMessageDataRequests[channel.value], requestId);
        StoreRest(channel.value, rest);
      }
      s := s.(entries := map k | k in s.entries && !Answers(s.entries[k], k, channel, requestId) :: s.entries[k],
              inFlight := s.inFlight - {requestId}, called := s.called + called);
      AnsweredLeave(before, plain, channels, requestId, called, messageDataRequests, channelMessageDataRequests, s);
      FinalizedKeeps(before, s, requestId, called);
    }
  }
}
