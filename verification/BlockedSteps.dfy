/** What a call and an answer do to the blocked peers, on the fields alone. */
module BlockedSteps {
  import opened BlockedPeers
  import opened Wrappers

  // How many blocked peers the server counts beyond those in the list.
  function Beyond(s: State): int { if s.slice.None? then 0 else s.slice.value.total - |s.slice.value.list| }

  predicate InList(list: seq<Contact>, p: Peer) { exists i :: 0 <= i < |list| && list[i].peer == p }

  // The list without the first entry of p.
  ghost predicate FirstLeft(list: seq<Contact>, list': seq<Contact>, p: Peer) {
    exists i ::
      0 <= i < |list| && list[i].peer == p && (forall j :: 0 <= j < i ==> list[j].peer != p)
      && list' == list[..i] + list[i + 1..]
  }

  lemma {:induction false} FirstLeaves(list: seq<Contact>, p: Peer)
    ensures if InList(list, p) then FirstLeft(list, WithoutFirst(list, p), p) else WithoutFirst(list, p) == list
  {
    if list == [] {
    } else if list[0].peer == p {
      assert list[1..] == list[..0] + list[1..];
      assert FirstLeft(list, list[1..], p);
    } else {
      FirstLeaves(list[1..], p);
      InListLater(list, p);
      if InList(list, p) {
        FirstBehind(list, WithoutFirst(list[1..], p), p);
      }
    }
  }

  lemma InListLater(list: seq<Contact>, p: Peer)
    requires list != [] && list[0].peer != p
    ensures InList(list, p) <==> InList(list[1..], p)
  {
    if i :| 0 <= i < |list| && list[i].peer == p {
      assert list[1..][i - 1].peer == p;
    }
  }

  lemma FirstBehind(list: seq<Contact>, rest: seq<Contact>, p: Peer)
    requires list != [] && list[0].peer != p && FirstLeft(list[1..], rest, p)
    ensures FirstLeft(list, [list[0]] + rest, p)
  {
    var later := list[1..];
    var i :|
      0 <= i < |later| && later[i].peer == p && (forall j :: 0 <= j < i ==> later[j].peer != p)
      && rest == later[..i] + later[i + 1..];
    OneInFront(list, i);
    hide FirstLeft;
    assert list[i + 1].peer == p && forall j :: 0 <= j < i + 1 ==> list[j].peer != p by {
      forall j | 0 <= j < i + 1 ensures list[j].peer != p {
        assert j > 0 ==> list[j] == later[j - 1];
      }
    }
    FirstAt(list, i + 1, [list[0]] + rest, p);
  }

  lemma OneInFront(list: seq<Contact>, i: nat)
    requires i + 1 < |list|
    ensures [list[0]] + (list[1..][..i] + list[1..][i + 1..]) == list[..i + 1] + list[i + 2..]
  {
  }

  lemma FirstAt(list: seq<Contact>, i: nat, list': seq<Contact>, p: Peer)
    requires i < |list| && list[i].peer == p && (forall j :: 0 <= j < i ==> list[j].peer != p)
    requires list' == list[..i] + list[i + 1..]
    ensures FirstLeft(list, list', p)
  {
  }

  // An answer changes the peers and the list only if it is a success: a blocked peer goes to the front of the list,
  // and an unblocked one leaves it, once. Either is counted, so that as many peers are beyond the list as before,
  // except that an unblocked one which was not in it was one of them, if there were any.
  lemma AnswerExactly(run: seq<State>, n: nat, r: ReqId, ok: bool, now: int)
    requires IsRun(run) && n < |run| && r in run[n].inFlight && run[n].inFlight[r].Change?
    ensures var s, s', p := run[n], Answered(run[n], r, ok, now), run[n].inFlight[r].peer;
      var blocking := s.inFlight[r].blocking;
      && s'.blocked == (if !ok then s.blocked else if blocking then s.blocked + {p} else s.blocked - {p})
      && s'.slice.Some? == s.slice.Some?
      && (!ok ==> s'.slice == s.slice)
      && (ok && s.slice.Some? ==>
            var list, list' := s.slice.value.list, s'.slice.value.list;
            if blocking then list' == [Contact(p, now)] + list && Beyond(s') == Beyond(s)
            else if InList(list, p) then FirstLeft(list, list', p) && Beyond(s') == Beyond(s)
            else list' == list && Beyond(s') == if Beyond(s) > 0 then Beyond(s) - 1 else 0)
  {
    RunKeeps(run, n);
    var s, p := run[n], run[n].inFlight[r].peer;
    assert s.slice.Some? ==> s.slice.value.total >= |s.slice.value.list| by { hide IsRun, Requests; }
    hide Inv, IsRun;
    if s.slice.Some? {
      FirstLeaves(s.slice.value.list, p);
      assert InList(s.slice.value.list, p) ==>
        |WithoutFirst(s.slice.value.list, p)| == |s.slice.value.list| - 1 by { hide InList; }
    }
    hide WithoutFirst, FirstLeft, InList;
  }

  // A load puts the server's list in place, counting as many peers as the server does, or as the list has.
  lemma LoadExactly(s: State, r: ReqId, count: int, list: seq<Contact>)
    ensures var s' := Loaded(s, r, Some((count, list)));
      && s'.slice.Some? && s'.slice.value.list == list
      && s'.slice.value.total >= count && s'.slice.value.total >= |list|
      && (s'.slice.value.total == count || s'.slice.value.total == |list|)
      && s'.loading == 0 && s'.inFlight == s.inFlight - {r} && s'.blocked == s.blocked && s'.requests == s.requests
      && s'.called == s.called
  {
  }

  // The peer has an entry of this kind.
  predicate Waits(s: State, p: Peer, blocking: bool) { p in s.requests && s.requests[p].blocking == blocking }

  // One request for the peer, which takes the place of the peer's entry, and tells the callbacks of that one false.
  ghost predicate Asked(s: State, s': State, p: Peer, blocking: bool, callbacks: seq<Token>) {
    && s'.requests == s.requests[p := Entry(s.nextId, blocking, callbacks)]
    && s'.inFlight == s.inFlight[s.nextId := Change(p, blocking)] && s'.nextId == s.nextId + 1
    && s'.blocked == s.blocked && s'.slice == s.slice && s'.loading == s.loading
    && var told := if p in s.requests then s.requests[p].callbacks else [];
       |s'.called| == |s.called| + |told| && s'.called[..|s.called|] == s.called
       && forall i :: 0 <= i < |told| ==> s'.called[|s.called| + i] == Call(told[i], false)
  }

  // A block call asks the server unless the peer is blocked or a block request of it waits.
  lemma BlockExactly(s: State, p: Peer)
    ensures var s' := BlockStep(s, p);
      if p in s.blocked || Waits(s, p, true) then s' == s else Asked(s, s', p, true, []) && s'.own == s.own
  {
  }

  // An unblock call for a peer that is not blocked does nothing unless it is forced; if an unblock request of the peer
  // waits, the callback waits with it; else the server is asked.
  lemma UnblockExactly(s: State, p: Peer, done: Option<Token>, force: bool)
    ensures var s' := UnblockStep(s, p, done, force);
      var tokens := if done.Some? then [done.value] else [];
      if !force && p !in s.blocked then s' == s
      else
        && s'.own.Keys == s.own.Keys + (set t | t in tokens)
        && (forall t :: t in s.own && t !in tokens ==> s'.own[t] == s.own[t])
        && if Waits(s, p, false) then
             s'.requests == s.requests[p := Entry(s.requests[p].requestId, false, s.requests[p].callbacks + tokens)]
             && s'.inFlight == s.inFlight && s'.nextId == s.nextId && s'.called == s.called
             && s'.blocked == s.blocked && s'.slice == s.slice && s'.loading == s.loading
             && forall t :: t in tokens ==> s'.own[t] == s.requests[p].requestId
           else Asked(s, s', p, false, tokens) && forall t :: t in tokens ==> s'.own[t] == s.nextId
  {
  }
}
