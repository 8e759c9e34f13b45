/** ApiWrap's chats list loader as it runs. */
module DialogsApi {
  import opened DialogsProtocol

  // A dialog as far as the next offset needs it; other rows of the list have peer 0.
  datatype Dialog = Dialog(peer: int, topMessage: int)

  datatype Message = Message(id: int, peer: int, date: int)

  predicate Counts(d: Dialog) { d.peer != 0 && d.topMessage != 0 }

  // The date of the last message that is d's top message, 0 if there is none.
  function DateFor(d: Dialog, messages: seq<Message>): int {
    if messages == [] then 0
    else
      var m := messages[|messages| - 1];
      if m.id == d.topMessage && m.peer == d.peer then m.date else DateFor(d, messages[..|messages| - 1])
  }

  predicate Dated(d: Dialog, messages: seq<Message>) { Counts(d) && DateFor(d, messages) != 0 }

  // The next offset is dated by the last dialog whose top message has a date, but takes its peer and message
  // from the last dialog that has any.
  ghost predicate IsOffset(dialogs: seq<Dialog>, messages: seq<Message>, o: Offset) {
    && (o.date == 0 <==> forall i :: 0 <= i < |dialogs| ==> !Dated(dialogs[i], messages))
    && (o.date != 0 ==> exists i :: (0 <= i < |dialogs| && Dated(dialogs[i], messages)
          && o.date == DateFor(dialogs[i], messages)
          && forall j :: i < j < |dialogs| ==> !Dated(dialogs[j], messages)))
    && (o.date != 0 ==> exists i :: (0 <= i < |dialogs| && Counts(dialogs[i])
          && o.peer == dialogs[i].peer && o.msg == dialogs[i].topMessage
          && forall j :: i < j < |dialogs| ==> !Counts(dialogs[j])))
  }

  method FindDate(d: Dialog, messages: seq<Message>) returns (date: int)
    ensures date == DateFor(d, messages)
  {
    date := 0;
    var k := |messages|;
    assert messages[..k] == messages;
    while k > 0
      invariant 0 <= k <= |messages|
      invariant DateFor(d, messages) == DateFor(d, messages[..k])
    {
      k := k - 1;
      assert messages[..k + 1][..k] == messages[..k];
      if messages[k].id == d.topMessage && messages[k].peer == d.peer {
        return messages[k].date;
      }
    }
    assert messages[..k] == [];
  }

  // The loop of updateDialogsOffset.
  method NextOffset(dialogs: seq<Dialog>, messages: seq<Message>) returns (o: Offset)
    ensures IsOffset(dialogs, messages, o)
  {
    var lastDate, lastPeer, lastMsgId := 0, 0, 0;
    var i := |dialogs|;
    ghost var last := -1;
    while i > 0
      invariant 0 <= i <= |dialogs| && lastDate == 0
      invariant forall j :: i <= j < |dialogs| ==> !Dated(dialogs[j], messages)
      invariant lastPeer == 0 <==> lastMsgId == 0
      invariant lastPeer == 0 ==> forall j :: i <= j < |dialogs| ==> !Counts(dialogs[j])
      invariant lastPeer != 0 ==> (i <= last < |dialogs| && Counts(dialogs[last])
                  && lastPeer == dialogs[last].peer && lastMsgId == dialogs[last].topMessage
                  && forall j :: last < j < |dialogs| ==> !Counts(dialogs[j]))
    {
      i := i - 1;
      var d := dialogs[i];
      if d.peer != 0 && d.topMessage != 0 {
        if lastPeer == 0 {
          lastPeer := d.peer;
          last := i;
        }
        if lastMsgId == 0 {
          lastMsgId := d.topMessage;
        }
        lastDate := FindDate(d, messages);
      }
      if lastDate != 0 {
        break;
      }
    }
    o := Offset(lastDate, lastMsgId, lastPeer);
  }

  datatype Response = NotModified | All | Part(dialogs: seq<Dialog>, messages: seq<Message>)

  // What the protocol sees of a response.
  ghost predicate ReplyOf(r: Response, reply: Reply) {
    match r
    case NotModified => reply.NotModified?
    case All => reply.Full?
    case Part(dialogs, messages) => reply.Slice? && IsOffset(dialogs, messages, reply.offset)
  }

  class ApiWrap {
    // The main list is kept under 0 here, beside the folders.
    var foldersLoadState: map<Folder, Load>
    var supportChatsTimeSlice: nat  // the setting, once the session hears of it
    var dialogsLoadTill: int
    var dialogsLoadMayBlockByDate: bool
    var dialogsLoadBlockedByDate: bool
    var nextRequestId: ReqId
    var postponedDone: seq<Folder>
    ghost var lists: map<ReqId, Folder>
    ghost var pins: map<ReqId, Folder>
    ghost var listsEnded: map<Folder, nat>
    ghost var pinsEnded: map<Folder, nat>
    ghost var stale: set<Folder>

    ghost function View(): State
      reads this
    {
      State(foldersLoadState, supportChatsTimeSlice, dialogsLoadTill, dialogsLoadMayBlockByDate,
            dialogsLoadBlockedByDate, lists, pins, nextRequestId, postponedDone, listsEnded, pinsEnded, stale)
    }

    constructor ()
      ensures Init(View())
    {
      foldersLoadState, supportChatsTimeSlice, dialogsLoadTill := map[0 := FRESH], 0, 0;
      dialogsLoadMayBlockByDate := false;
      dialogsLoadBlockedByDate, nextRequestId, postponedDone := false, 1, [];
      lists, pins, listsEnded, pinsEnded, stale := map[], map[], map[], map[], {};
    }

    method RequestDialogs(folder: Folder)
      requires Inv(View())
      modifies this
      ensures View() == DialogsProtocol.RequestDialogs(old(View()), folder) && Inv(View())
    {
      hide RequestMore, Inv;
      if folder != 0 && folder !in foldersLoadState {
        FreshKeeps(View(), folder);
        foldersLoadState := foldersLoadState[folder := FRESH];
      }
      RequestMoreDialogs(folder);
    }

    method RequestMoreDialogs(folder: Folder)
      requires Inv(View())
      modifies this
      ensures View() == RequestMore(old(View()), folder) && Inv(View())
    {
      RequestMoreKeeps(View(), folder);
      hide Inv;
      if folder !in foldersLoadState {
        return;
      } else if foldersLoadState[folder].requestId != 0 {
        return;
      } else if dialogsLoadBlockedByDate {
        return;
      }
      foldersLoadState := foldersLoadState[folder := foldersLoadState[folder].(requestId := nextRequestId)];
      lists := lists[nextRequestId := folder];
      nextRequestId := nextRequestId + 1;
      assert View() == SendList(old(View()), folder);
      hide RequestPinned, Refreshed;
      if !foldersLoadState[folder].pinnedReceived {
        RequestPinnedDialogs(folder);
      } else {
        NothingPinned(View(), folder);
      }
      if folder == 0 {
        RefreshDialogsLoadBlocked();
      }
    }

    method RefreshDialogsLoadBlocked()
      modifies this`dialogsLoadMayBlockByDate, this`dialogsLoadBlockedByDate
      ensures View() == Refreshed(old(View()))
    {
      dialogsLoadMayBlockByDate := 0 in foldersLoadState && !foldersLoadState[0].listReceived && dialogsLoadTill > 0;
      dialogsLoadBlockedByDate := 0 in foldersLoadState && !foldersLoadState[0].listReceived
        && foldersLoadState[0].requestId == 0 && dialogsLoadTill > 0
        && foldersLoadState[0].offset.date > 0 && foldersLoadState[0].offset.date <= dialogsLoadTill;
    }

    method RequestMoreDialogsIfNeeded(exceptions: bool, archive: bool)
      requires Inv(View())
      modifies this
      ensures View() == IfNeeded(old(View()), exceptions, archive) && Inv(View())
    {
      hide DialogsProtocol.RequestDialogs, RequestMore, Inv;
      if exceptions {
        return;
      } else if 0 in foldersLoadState && !foldersLoadState[0].listReceived {
        if foldersLoadState[0].requestId != 0 {
          return;
        }
        RequestDialogs(0);
      } else if archive {
        RequestMoreDialogs(1);
      }
    }

    method RequestPinnedDialogs(folder: Folder)
      modifies this`foldersLoadState, this`pins, this`nextRequestId
      ensures View() == RequestPinned(old(View()), folder)
    {
      if folder !in foldersLoadState || foldersLoadState[folder].pinnedReceived
          || foldersLoadState[folder].pinnedRequestId != 0 {
        return;
      }
      foldersLoadState := foldersLoadState[folder := foldersLoadState[folder].(pinnedRequestId := nextRequestId)];
      pins := pins[nextRequestId := folder];
      nextRequestId := nextRequestId + 1;
    }

    method DialogsLoadFinish(folder: Folder)
      modifies this`foldersLoadState, this`postponedDone
      ensures View() == LoadFinish(old(View()), folder)
    {
      if folder !in foldersLoadState || !foldersLoadState[folder].listReceived
          || !foldersLoadState[folder].pinnedReceived {
        return;
      }
      foldersLoadState := foldersLoadState - {folder};
      postponedDone := postponedDone + [folder];
    }

    method ListReceived(folder: Folder)
      modifies this`foldersLoadState, this`postponedDone, this`listsEnded
      ensures View() == ListEnded(old(View()), folder)
    {
      if folder in foldersLoadState {
        foldersLoadState := foldersLoadState[folder := foldersLoadState[folder].(listReceived := true)];
        listsEnded := listsEnded[folder := Get(listsEnded, folder) + 1];
        DialogsLoadFinish(folder);
      }
    }

    method UpdateDialogsOffset(folder: Folder, dialogs: seq<Dialog>, messages: seq<Message>)
        returns (ghost offset: Offset)
      modifies this`foldersLoadState, this`postponedDone, this`listsEnded
      ensures IsOffset(dialogs, messages, offset) && View() == Replied(old(View()), folder, Slice(offset))
    {
      var o := NextOffset(dialogs, messages);
      offset := o;
      hide ListEnded;
      if folder in foldersLoadState {
        if o.date != 0 {
          foldersLoadState := foldersLoadState[folder := foldersLoadState[folder].(offset := o, requestId := 0)];
        } else {
          ListReceived(folder);
        }
      } else {
        NothingEnds(View(), folder);
      }
    }

    // The first match of the done handler.
    method ApplyResponse(req: ReqId, folder: Folder, response: Response) returns (ghost reply: Reply)
      requires Inv(View()) && req in lists && lists[req] == folder
      modifies this
      ensures ReplyOf(response, reply)
      ensures View() == Replied(old(View()).(lists := old(lists) - {req}), folder, reply) && Inv(View())
    {
      ghost var s := View();
      hide Inv, ListEnded, IsOffset;
      lists := lists - {req};
      match response {
        case NotModified =>
          stale := stale + {folder};
          reply := Reply.NotModified;
        case All =>
          ListReceived(folder);
          reply := Full;
        case Part(dialogs, messages) =>
          ghost var offset := UpdateDialogsOffset(folder, dialogs, messages);
          reply := Slice(offset);
      }
      RepliedKeeps(s, req, reply);
    }

    method ListRequestDone(req: ReqId, folder: Folder, response: Response, exceptions: bool, archive: bool)
        returns (ghost reply: Reply)
      requires Inv(View()) && req in lists && lists[req] == folder
      modifies this
      ensures Inv(View()) && ReplyOf(response, reply)
      ensures View() == ListDone(old(View()), req, reply, exceptions, archive)
    {
      hide Inv, Replied, IfNeeded, Refreshed, ReplyOf;
      reply := ApplyResponse(req, folder, response);
      if folder == 0 && (0 !in foldersLoadState || !foldersLoadState[0].listReceived) {
        Unblocked(View());
        RefreshedKeeps(View());
        RefreshDialogsLoadBlocked();
      }
      RequestMoreDialogsIfNeeded(exceptions, archive);
    }

    // The lookup of the folder's state is not guarded.
    method ListRequestFailed(req: ReqId, folder: Folder)
      requires Inv(View()) && req in lists && lists[req] == folder
      modifies this`foldersLoadState, this`lists
      ensures Inv(View()) && folder in old(foldersLoadState) && View() == ListFailed(old(View()), req)
    {
      ListFailedKeeps(View(), req);
      hide Inv;
      foldersLoadState := foldersLoadState[folder := foldersLoadState[folder].(requestId := 0)];
      lists := lists - {req};
    }

    method PinnedRequestAnswered(req: ReqId, folder: Folder)
      requires Inv(View()) && req in pins && pins[req] == folder
      modifies this
      ensures Inv(View()) && View() == PinnedAnswered(old(View()), req)
    {
      PinnedAnsweredKeeps(View(), req);
      hide Inv, LoadFinish;
      pins := pins - {req};
      if folder in foldersLoadState {
        foldersLoadState :=
          foldersLoadState[folder := foldersLoadState[folder].(pinnedRequestId := 0, pinnedReceived := true)];
        pinsEnded := pinsEnded[folder := Get(pinsEnded, folder) + 1];
        DialogsLoadFinish(folder);
      }
    }

    // What setupSupportMode runs for every value of the setting.
    method SupportChatsTimeSliceChanged(seconds: nat, now: int)
      requires Inv(View())
      modifies this`supportChatsTimeSlice, this`dialogsLoadTill, this`dialogsLoadMayBlockByDate,
               this`dialogsLoadBlockedByDate
      ensures View() == SliceChanged(old(View()), seconds, now) && Inv(View())
    {
      TillKeeps(View(), seconds, TillFor(seconds, now));
      hide Inv, Refreshed;
      supportChatsTimeSlice := seconds;
      dialogsLoadTill := if seconds == 0 then 0 else if now - seconds > 0 then now - seconds else 0;
      assert dialogsLoadTill == TillFor(seconds, now);
      hide TillFor;
      assert View() == old(View()).(slice := seconds, till := TillFor(seconds, now));
      RefreshDialogsLoadBlocked();
    }

    method RequestMoreBlockedByDateDialogs(now: int)
      requires Inv(View()) && dialogsLoadBlockedByDate
      modifies this
      ensures View() == RequestBlocked(old(View()), now) && Inv(View())
      ensures lists == old(lists)[old(nextRequestId) := 0]
    {
      ghost var s := View();
      Beyond(s, now);
      AskedForMore(s, now);
      hide DialogsProtocol.RequestDialogs, Refreshed, Inv;
      if 0 !in foldersLoadState {
        return;
      }
      var max := supportChatsTimeSlice;
      var offsetDate := foldersLoadState[0].offset.date;
      dialogsLoadTill := if offsetDate != 0 then offsetDate - max else now - max;
      RefreshDialogsLoadBlocked();
      RequestDialogs(0);
    }
  }

  lemma NothingPinned(s: State, f: Folder)
    requires f in s.states && s.states[f].pinnedReceived
    ensures RequestPinned(s, f) == s
  {
  }

  lemma NothingEnds(s: State, f: Folder)
    requires f !in s.states
    ensures ListEnded(s, f) == s
  {
  }
}
