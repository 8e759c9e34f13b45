/** ApiWrap's album sending as it runs. */
module AlbumsApi {
  import opened AlbumsProtocol

  // The loop of sendAlbumIfReady over the items: the first message that still exists, and all medias.
  method CollectMedias(messages: map<MsgId, Message>, items: seq<Item>)
      returns (ready: bool, found: bool, sample: MsgId, medias: seq<MsgId>)
    ensures ready <==> Complete(items)
    ensures ready ==> (medias == Msgs(items) && (found <==> exists x :: x in items && x.msg in messages)
              && (found ==> exists i :: (0 <= i < |items| && items[i].msg == sample && sample in messages
                    && forall j :: 0 <= j < i ==> items[j].msg !in messages)))
  {
    ready, found, sample, medias := true, false, 0, [];
    var n := 0;
    while n < |items|
      invariant 0 <= n <= |items| && ready
      invariant forall i :: 0 <= i < n ==> items[i].media
      invariant |medias| == n && forall i :: 0 <= i < n ==> medias[i] == items[i].msg
      invariant !found ==> forall i :: 0 <= i < n ==> items[i].msg !in messages
      invariant found ==> exists i :: (0 <= i < n && items[i].msg == sample && sample in messages
                  && forall j :: 0 <= j < i ==> items[j].msg !in messages)
    {
      if !items[n].media {
        assert items[n] in items;
        return false, found, sample, medias;
      } else if !found && items[n].msg in messages {
        found, sample := true, items[n].msg;
      }
      medias := medias + [items[n].msg];
      n := n + 1;
    }
    assert medias == Msgs(items);
    if found {
      var i :| 0 <= i < n && items[i].msg == sample && sample in messages
        && forall j :: 0 <= j < i ==> items[j].msg !in messages;
      assert items[i] in items;
    }
  }

  // The parts of an album whose target is ephemeral.
  method CollectParts(messages: map<MsgId, Message>, items: seq<Item>) returns (parts: seq<MsgId>)
    ensures parts == Existing(messages, items)
  {
    parts := [];
    var n := 0;
    while n < |items|
      invariant 0 <= n <= |items| && parts == Existing(messages, items[..n])
    {
      assert items[..n + 1][..n] == items[..n];
      if items[n].msg in messages {
        parts := parts + [items[n].msg];
      }
      n := n + 1;
    }
    assert items[..n] == items;
  }

  method NewItems(tasks: seq<Task>) returns (items: seq<Item>)
    ensures items == Unprepared(tasks)
  {
    items := [];
    var n := 0;
    while n < |tasks|
      invariant 0 <= n <= |tasks| && |items| == n && forall i :: 0 <= i < n ==> items[i] == Item(tasks[i], 0, false)
    {
      items := items + [Item(tasks[n], 0, false)];
      n := n + 1;
    }
  }

  class ApiWrap {
    var sendingAlbums: map<Group, Album>
    var messages: map<MsgId, Message>
    var nextLocalMessageId: MsgId
    var log: seq<Sent>
    ghost var used: set<Group>
    ghost var preparing: set<(Group, Task)>
    ghost var uploads: set<MsgId>
    ghost var waiting: map<Group, Way>
    ghost var broken: set<Group>

    ghost function View(): State
      reads this
    {
      State(sendingAlbums, messages, nextLocalMessageId, used, preparing, uploads, waiting, broken, log)
    }

    constructor ()
      ensures Init(View()) && Inv(View())
    {
      sendingAlbums, messages, nextLocalMessageId, log := map[], map[], 1, [];
      used, preparing, uploads, waiting, broken := {}, {}, {}, map[], {};
    }

    method AddAlbum(groupId: Group, tasks: seq<Task>)
      requires Inv(View()) && groupId !in used && tasks != []
      requires forall i, j :: 0 <= i < j < |tasks| ==> tasks[i] != tasks[j]
      modifies this
      ensures Inv(View()) && Added(old(View()), View(), groupId, tasks)
    {
      hide Inv;
      var items := NewItems(tasks);
      sendingAlbums := sendingAlbums[groupId := Album(items, false)];
      used := used + {groupId};
      preparing := preparing + (set t | t in tasks :: (groupId, t));
      AddedKeeps(old(View()), View(), groupId, tasks);
    }

    // SendConfirmedFile: the item of the task gets its message.
    method FilePrepared(groupId: Group, task: Task)
      requires Inv(View()) && (groupId, task) in preparing
      modifies this
      ensures Inv(View()) && TaskFound(old(View()), groupId, task) && View() == Prepared(old(View()), groupId, task)
    {
      PreparedKeeps(View(), groupId, task);
      hide Inv;
      var newId := nextLocalMessageId;
      nextLocalMessageId := nextLocalMessageId + 1;
      var album := sendingAlbums[groupId];
      var i := FindTask(album.items, task);
      assert i < |album.items|;
      sendingAlbums := sendingAlbums[groupId := album.(items := album.items[i := album.items[i].(msg := newId)])];
      messages := messages[newId := Message(groupId, true)];
      preparing, uploads := preparing - {(groupId, task)}, uploads + {newId};
    }

    method RemoveTask(groupId: Group, task: Task)
      requires Inv(View()) && (groupId, task) in preparing
      modifies this`sendingAlbums, this`preparing, this`broken
      ensures Inv(View()) && TaskFound(old(View()), groupId, task) && View() == TaskFailed(old(View()), groupId, task)
    {
      TaskFailedKeeps(View(), groupId, task);
      hide Inv, AlbumsProtocol.FindTask;
      var album := sendingAlbums[groupId];
      var i := FindTask(album.items, task);
      assert i < |album.items|;
      var left := album.items[..i] + album.items[i + 1..];
      assert left == Without(album.items, i);
      hide Without;
      sendingAlbums := sendingAlbums[groupId := album.(items := left)];
      preparing, broken := preparing - {(groupId, task)}, broken + {groupId};
    }

    method SendAlbumIfReady(groupId: Group, ephemeral: bool, paid: bool)
      requires groupId in sendingAlbums
      modifies this`sendingAlbums, this`waiting, this`log
      ensures View() == SendIfReady(old(View()), groupId, ephemeral, paid)
    {
      var album := sendingAlbums[groupId];
      if album.sent {
        return;
      }
      if album.items == [] {
        sendingAlbums := sendingAlbums - {groupId};
        return;
      }
      var ready, found, sample, medias := CollectMedias(messages, album.items);
      hide Complete, Msgs, Existing;
      if !ready {
        return;
      }
      if !found {
        sendingAlbums := sendingAlbums - {groupId};
        return;
      }
      if ephemeral {
        var parts := CollectParts(messages, album.items);
        sendingAlbums := sendingAlbums - {groupId};
        log := log + [Sent(groupId, Ephemeral, parts)];
      } else if paid {
        sendingAlbums := sendingAlbums[groupId := Album(album.items, true)];
        waiting := waiting[groupId := Paid];
        log := log + [Sent(groupId, Paid, medias)];
      } else if |medias| < 2 {
        sendingAlbums := sendingAlbums - {groupId};
        log := log + [Sent(groupId, Single, medias)];
      } else {
        sendingAlbums := sendingAlbums[groupId := Album(album.items, true)];
        waiting := waiting[groupId := Multi];
        log := log + [Sent(groupId, Multi, medias)];
      }
    }

    // The media of message localId arrived. The lookups are not guarded.
    method SendAlbumWithUploaded(localId: MsgId, groupId: Group, ephemeral: bool, paid: bool)
      requires MayFill(View(), localId) && messages[localId].group == groupId
      modifies this`sendingAlbums, this`waiting, this`log
      ensures View() == SendIfReady(Filled(old(View()), localId), groupId, ephemeral, paid)
    {
      var album := sendingAlbums[groupId];
      var i := FindMsg(album.items, localId);
      assert i < |album.items| && !album.items[i].media;
      sendingAlbums := sendingAlbums[groupId := album.(items := album.items[i := album.items[i].(media := true)])];
      hide SendIfReady;
      SendAlbumIfReady(groupId, ephemeral, paid);
    }

    method UploadDone(localId: MsgId, ephemeral: bool, paid: bool)
      requires Inv(View()) && localId in uploads
      modifies this
      ensures Inv(View()) && (localId in old(messages) ==> MayFill(old(View()), localId))
      ensures View() == Uploaded(old(View()), localId, ephemeral, paid)
    {
      UploadedKeeps(View(), localId, ephemeral, paid);
      hide Inv, SendIfReady, Filled;
      uploads := uploads - {localId};
      if localId !in messages {
        return;
      }
      SendAlbumWithUploaded(localId, messages[localId].group, ephemeral, paid);
    }

    method SendAlbumWithCancelled(localId: MsgId, groupId: Group, ephemeral: bool, paid: bool)
      requires localId in messages && messages[localId].group == groupId
      requires groupId in sendingAlbums ==> MayRemove(View(), localId)
      modifies this`sendingAlbums, this`waiting, this`log
      ensures View() == if groupId !in old(sendingAlbums) then old(View())
                        else SendIfReady(ItemRemoved(old(View()), localId), groupId, ephemeral, paid)
    {
      if groupId !in sendingAlbums {
        return;
      }
      var album := sendingAlbums[groupId];
      var i := FindMsg(album.items, localId);
      assert i < |album.items|;
      sendingAlbums := sendingAlbums[groupId := album.(items := album.items[..i] + album.items[i + 1..])];
      hide SendIfReady;
      SendAlbumIfReady(groupId, ephemeral, paid);
    }

    method DestroyMessage(localId: MsgId, ephemeral: bool, paid: bool)
      requires Inv(View()) && localId in messages
      modifies this
      ensures Inv(View()) && (Cancels(old(View()), localId) ==> MayRemove(old(View()), localId))
      ensures View() == Destroyed(old(View()), localId, ephemeral, paid)
    {
      DestroyedKeeps(View(), localId, ephemeral, paid);
      hide Inv, SendIfReady, ItemRemoved;
      if messages[localId].sending {
        SendAlbumWithCancelled(localId, messages[localId].group, ephemeral, paid);
      }
      messages := messages - {localId};
    }

    // The done handler of the multi-media request.
    method MultiMediaDone(groupId: Group)
      requires Inv(View()) && groupId in waiting && waiting[groupId] != Paid
      modifies this`sendingAlbums, this`waiting
      ensures Inv(View()) && Responded(old(View()), View(), groupId, true)
    {
      ghost var s := View();
      AlbumIsKnown(s, groupId);
      hide Inv;
      sendingAlbums := sendingAlbums - {groupId};
      waiting := waiting - {groupId};
      RespondedKeeps(s, View(), groupId, true);
    }

    // Its fail handler: sendMessageFail for each item.
    method MultiMediaFail(groupId: Group)
      requires Inv(View()) && groupId in waiting && waiting[groupId] != Paid
      modifies this`sendingAlbums, this`waiting, this`messages
      ensures Inv(View()) && Responded(old(View()), View(), groupId, false)
    {
      ghost var s := View();
      AlbumIsKnown(s, groupId);
      hide Inv;
      var items := sendingAlbums[groupId].items;
      sendingAlbums := sendingAlbums - {groupId};
      waiting := waiting - {groupId};
      var n := 0;
      while n < |items|
        invariant 0 <= n <= |items| && messages.Keys == s.messages.Keys
        invariant sendingAlbums == s.albums - {groupId} && waiting == s.waiting - {groupId}
        invariant messages == Ended(s.messages, items[..n])
      {
        EndedMore(s.messages, items[..n], items[n]);
        assert items[..n + 1] == items[..n] + [items[n]];
        if items[n].msg in messages {
          messages := messages[items[n].msg := messages[items[n].msg].(sending := false)];
        }
        n := n + 1;
      }
      assert items[..n] == items;
      RespondedKeeps(s, View(), groupId, false);
    }

    // The done handler of a paid album destroys the messages that still exist.
    method PaidMediaDone(groupId: Group)
      requires Inv(View()) && groupId in waiting && waiting[groupId] == Paid
      modifies this`sendingAlbums, this`waiting, this`messages
      ensures Inv(View()) && Responded(old(View()), View(), groupId, true)
    {
      ghost var s := View();
      AlbumIsKnown(s, groupId);
      hide Inv;
      var copy := sendingAlbums[groupId].items;
      sendingAlbums := sendingAlbums - {groupId};
      waiting := waiting - {groupId};
      var n := 0;
      NoneRemoved(s.messages);
      hide RemovedOnly;
      while n < |copy|
        invariant 0 <= n <= |copy|
        invariant sendingAlbums == s.albums - {groupId} && waiting == s.waiting - {groupId}
        invariant RemovedOnly(s.messages, messages, copy[..n])
      {
        RemovedMore(s.messages, messages, copy[..n], copy[n]);
        assert copy[..n + 1] == copy[..n] + [copy[n]];
        messages := messages - {copy[n].msg};
        n := n + 1;
      }
      assert copy[..n] == copy;
      PaidDone(s, View(), groupId);
    }

    // Its fail handler marks the message that the request was sent for, and leaves the album.
    method PaidMediaFail(groupId: Group, sample: Item)
      requires Inv(View()) && groupId in waiting && waiting[groupId] == Paid
      requires groupId in sendingAlbums ==> sample in sendingAlbums[groupId].items || sample.msg !in messages
      modifies this`waiting, this`messages
      ensures Inv(View()) && Responded(old(View()), View(), groupId, false) && sendingAlbums == old(sendingAlbums)
    {
      ghost var s := View();
      AlbumIsKnown(s, groupId);
      hide Inv;
      waiting := waiting - {groupId};
      NoneEnded(s.messages);
      EndedMore(s.messages, [], sample);
      assert [] + [sample] == [sample];
      if sample.msg in messages {
        messages := messages[sample.msg := messages[sample.msg].(sending := false)];
      }
      RespondedKeeps(s, View(), groupId, false);
    }
  }

  // The take of the fail handler never misses the album.
  lemma AlbumIsKnown(s: State, g: Group)
    requires Inv(s) && g in s.waiting
    ensures g in s.albums && s.albums[g].sent
  {
  }

  lemma NoneEnded(messages: map<MsgId, Message>)
    ensures Ended(messages, []) == messages
  {
  }

  lemma EndedMore(messages: map<MsgId, Message>, items: seq<Item>, x: Item)
    ensures var m := Ended(messages, items);
      Ended(messages, items + [x]) == if x.msg in m then m[x.msg := m[x.msg].(sending := false)] else m
  {
    forall m ensures HasMsg(items + [x], m) <==> HasMsg(items, m) || m == x.msg {
      HasMsgIn(items, m);
      HasMsgIn(items + [x], m);
    }
    hide HasMsg;
  }

  lemma NoneRemoved(messages: map<MsgId, Message>)
    ensures RemovedOnly(messages, messages, [])
  {
  }

  lemma PaidDone(s: State, s': State, g: Group)
    requires Inv(s) && g in s.waiting && g in s.albums && s.waiting[g] == Paid
    requires s' == s.(albums := s.albums - {g}, waiting := s.waiting - {g}, messages := s'.messages)
    requires RemovedOnly(s.messages, s'.messages, s.albums[g].items)
    ensures Inv(s') && Responded(s, s', g, true)
  {
    hide RemovedOnly, Inv;
    RespondedKeeps(s, s', g, true);
  }

  lemma RemovedMore(messages: map<MsgId, Message>, left: map<MsgId, Message>, items: seq<Item>, x: Item)
    requires RemovedOnly(messages, left, items)
    ensures RemovedOnly(messages, left - {x.msg}, items + [x])
  {
    forall m ensures HasMsg(items + [x], m) <==> HasMsg(items, m) || m == x.msg {
      HasMsgIn(items, m);
      HasMsgIn(items + [x], m);
    }
    hide HasMsg;
  }
}
