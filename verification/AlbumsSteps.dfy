/** What sending an album and its response change, on the fields alone. */
module AlbumsSteps {
  import opened AlbumsProtocol

  // All media are there.
  predicate Full(items: seq<Item>) { forall i :: 0 <= i < |items| ==> items[i].media }

  // One of the local messages still exists.
  predicate SomeLeft(s: State, items: seq<Item>) { exists i :: 0 <= i < |items| && items[i].msg in s.messages }

  lemma FullIsComplete(s: State, items: seq<Item>)
    ensures Complete(items) <==> Full(items)
    ensures AnyMessage(s, items) <==> SomeLeft(s, items)
  {
    if Full(items) {
      forall x | x in items ensures x.media {
        var i :| 0 <= i < |items| && items[i] == x;
      }
    }
    if x :| x in items && x.msg in s.messages {
      var i :| 0 <= i < |items| && items[i] == x;
    }
    if i :| 0 <= i < |items| && items[i].msg in s.messages {
      assert items[i] in items;
    }
  }

  // Nothing but the albums, the awaited responses and the log.
  ghost predicate OnlySends(s: State, s': State) {
    && s'.messages == s.messages && s'.nextMsg == s.nextMsg && s'.used == s.used
    && s'.preparing == s.preparing && s'.uploads == s.uploads && s'.broken == s.broken
  }

  ghost predicate Gone(s: State, s': State, g: Group) { s'.albums == s.albums - {g} && s'.waiting == s.waiting }

  ghost predicate Awaits(s: State, s': State, g: Group, way: Way) {
    g in s.albums && s'.albums == s.albums[g := Album(s.albums[g].items, true)] && s'.waiting == s.waiting[g := way]
  }

  // An album that is not sent yet is dropped when nothing is left of it, sent when all its media are there, and left
  // alone otherwise. To an ephemeral target go the messages that still exist, and for a paid album one request; else
  // one message goes by itself and more of them together. The album is kept exactly for the response that will need it.
  lemma SendExactly(s: State, g: Group, ephemeral: bool, paid: bool)
    requires g in s.albums
    ensures var s', a := SendIfReady(s, g, ephemeral, paid), s.albums[g];
      OnlySends(s, s')
      && if a.sent || (a.items != [] && !Full(a.items)) then s' == s
         else if !SomeLeft(s, a.items) then Gone(s, s', g) && s'.log == s.log
         else
           |s'.log| == |s.log| + 1 && s'.log[..|s.log|] == s.log
           && var sent := s'.log[|s.log|];
           sent.group == g
           && if ephemeral then Gone(s, s', g) && sent.way == Ephemeral && sent.msgs == Existing(s.messages, a.items)
              else
                sent.msgs == Msgs(a.items)
                && if paid then Awaits(s, s', g, Paid) && sent.way == Paid
                   else if |a.items| == 1 then Gone(s, s', g) && sent.way == Single
                   else Awaits(s, s', g, Multi) && sent.way == Multi
  {
    FullIsComplete(s, s.albums[g].items);
    hide Complete, AnyMessage, Full, Existing, Msgs;
    assert s.albums[g].items == [] ==> !SomeLeft(s, s.albums[g].items);
    hide SomeLeft;
  }

  // However an upload ends, it is over, and no other is.
  lemma UploadEnds(run: seq<State>, n: nat, s': State, m: MsgId)
    requires IsRun(run) && n < |run| && Uploads(run[n], s', m)
    ensures m in run[n].uploads && s'.uploads == run[n].uploads - {m}
  {
    var s := run[n];
    RunKeeps(run, n);
    hide Inv, IsRun, SendIfReady, OnlySends;
    if s' != UploadFailed(s, m) && m in s.messages {
      var e, p :| s' == Uploaded(s, m, e, p);
      UploadFindsItsItem(s, m);
      var filled := Filled(s.(uploads := s.uploads - {m}), m);
      assert s' == SendIfReady(filled, s.messages[m].group, e, p);
      SendKeepsUploads(filled, s.messages[m].group, e, p);
    }
  }

  lemma SendKeepsUploads(s: State, g: Group, e: bool, p: bool)
    requires g in s.albums
    ensures SendIfReady(s, g, e, p).uploads == s.uploads
  {
    SendExactly(s, g, e, p);
  }

  lemma {:induction false} ExistingInTwo(messages: map<MsgId, Message>, a: seq<Item>, b: seq<Item>)
    ensures Existing(messages, a + b) == Existing(messages, a) + Existing(messages, b)
    decreases |b|
  {
    if b == [] {
      assert a + b == a;
    } else {
      var n := |b| - 1;
      ExistingInTwo(messages, a, b[..n]);
      assert (a + b)[..|a| + n] == a + b[..n];
    }
  }

  // The messages that still exist, in the order of the album.
  lemma ExistingExactly(messages: map<MsgId, Message>, items: seq<Item>, i: nat)
    requires i < |items|
    ensures Existing(messages, items)
      == Existing(messages, items[..i]) + (if items[i].msg in messages then [items[i].msg] else [])
         + Existing(messages, items[i + 1..])
    ensures Existing(messages, []) == []
  {
    ExistingInTwo(messages, items[..i], [items[i]]);
    ExistingInTwo(messages, items[..i + 1], items[i + 1..]);
    assert items[..i + 1] + items[i + 1..] == items && items[..i] + [items[i]] == items[..i + 1];
    assert Existing(messages, [items[i]]) == if items[i].msg in messages then [items[i].msg] else [];
    hide Existing;
  }

  // The message is one of the album's.
  predicate Belongs(items: seq<Item>, m: MsgId) { exists i :: 0 <= i < |items| && items[i].msg == m }

  // The response to several messages forgets the album; if it failed, none of its messages is being sent any more.
  // The response to a paid album forgets it and destroys its messages; if it failed, the album stays, and only one of
  // its messages is not being sent any more.
  lemma ResponseExactly(run: seq<State>, n: nat, s': State, g: Group, ok: bool)
    requires IsRun(run) && n < |run| && Responded(run[n], s', g, ok)
    ensures var s := run[n];
      && g in s.albums && s.albums[g].sent && g in s.waiting && s'.waiting == s.waiting - {g} && s'.log == s.log
      && s'.uploads == s.uploads && s'.preparing == s.preparing && s'.nextMsg == s.nextMsg
      && var items := s.albums[g].items;
      if s.waiting[g].Paid? && !ok then
        s'.albums == s.albums
        && exists only :: Marked(s.messages, s'.messages, {only})
                          && (only in s.messages ==> Belongs(items, only) && s.messages[only].group == g)
      else
        s'.albums == s.albums - {g}
        && if ok && s.waiting[g].Paid? then
             (forall m :: m in s'.messages <==> m in s.messages && !Belongs(items, m))
             && forall m :: m in s'.messages ==> s'.messages[m] == s.messages[m]
           else if ok then s'.messages == s.messages
           else Marked(s.messages, s'.messages, set m | m in s.messages && Belongs(items, m))
  {
    var s := run[n];
    RunKeeps(run, n);
    assert Log(s) && AlbumOk(s, g, s.albums[g], false);
    var items := s.albums[g].items;
    assert forall m :: HasMsg(items, m) <==> Belongs(items, m);
    if s.waiting[g].Paid? && !ok {
      var first :|
        s' == s.(waiting := s.waiting - {g}, messages := Ended(s.messages, [first]))
        && (first in items || first.msg !in s.messages);
      OneMarked(s.messages, first);
      if first.msg in s.messages {
        BelongsHere(s, g, first);
      }
    } else {
      hide Inv, IsRun, AlbumOk;
    }
  }

  lemma BelongsHere(s: State, g: Group, x: Item)
    requires g in s.albums && AlbumOk(s, g, s.albums[g], false) && x in s.albums[g].items && x.msg in s.messages
    ensures Belongs(s.albums[g].items, x.msg) && s.messages[x.msg].group == g
  {
    assert ItemOk(s, g, s.albums[g].sent, x);
    var i :| 0 <= i < |s.albums[g].items| && s.albums[g].items[i] == x;
  }

  // Exactly these messages are not being sent any more; otherwise all messages are as before.
  ghost predicate Marked(messages: map<MsgId, Message>, messages': map<MsgId, Message>, marked: set<MsgId>) {
    && messages'.Keys == messages.Keys
    && forall m :: m in messages ==>
         messages'[m].group == messages[m].group
         && (messages'[m].sending <==> messages[m].sending && m !in marked)
  }

  lemma OneMarked(messages: map<MsgId, Message>, x: Item)
    ensures Marked(messages, Ended(messages, [x]), {x.msg})
  {
    assert forall m :: HasMsg([x], m) <==> m == x.msg by {
      assert [x][0] == x;
    }
  }
}
