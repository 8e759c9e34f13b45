/** ApiWrap's draft saver as it runs. */
module DraftsApi {
  import opened DraftsProtocol
  import opened DraftsCloud

  class ApiWrap {
    var draftsSaveRequestIds: map<Thread, ReqId>
    var draftsSaveTimerActive: bool
    var cloudDrafts: map<nat, ReqId>
    var savingCloudDraftRequests: map<nat, nat>
    var nextRequestId: ReqId
    var threads: set<Thread>
    ghost var born: set<Thread>
    ghost var saves: map<ReqId, Save>
    ghost var cancelled: map<nat, nat>
    ghost var others: map<nat, nat>
    var quitSignals: nat

    ghost function View(): State
      reads this
    {
      State(draftsSaveRequestIds, draftsSaveTimerActive, cloudDrafts, savingCloudDraftRequests, nextRequestId,
            threads, born, saves, cancelled, others, quitSignals)
    }

    constructor ()
      ensures Init(View())
    {
      draftsSaveRequestIds, draftsSaveTimerActive, cloudDrafts, savingCloudDraftRequests := map[], false, map[], map[];
      nextRequestId, threads, born, saves, cancelled, others, quitSignals := 1, {}, {}, map[], map[], map[], 0;
    }

    method SaveDraftToCloudDelayed(thread: Thread, skip: bool)
      requires Inv(View()) && thread in threads
      modifies this`draftsSaveRequestIds, this`draftsSaveTimerActive
      ensures View() == Delayed(old(View()), thread, skip) && Inv(View())
    {
      DelayedKeeps(View(), thread, skip);
      hide Inv;
      if skip {
        return;
      }
      if thread !in draftsSaveRequestIds {
        draftsSaveRequestIds := draftsSaveRequestIds[thread := 0];
      }
      if !draftsSaveTimerActive {
        draftsSaveTimerActive := true;
      }
    }

    method SaveDraftToCloud(thread: Thread, serializes: bool, rich: bool) returns (requestId: ReqId)
      requires Inv(View()) && thread in threads
      modifies this
      ensures View() == Direct(old(View()), thread, serializes, rich) && Inv(View())
      ensures requestId == if serializes then old(nextRequestId) else 0
    {
      DirectKeeps(View(), thread, serializes, rich);
      assert Core(View()) && nextRequestId > 0;
      hide Inv, Core, Prepared;
      requestId := SavePreparedDraftToCloud(thread, serializes, rich, false);
      if requestId == 0 {
        return;
      }
      draftsSaveRequestIds := draftsSaveRequestIds[thread := requestId];
    }

    method SavePreparedDraftToCloud(thread: Thread, serializes: bool, rich: bool, clearOnFail: bool)
        returns (requestId: ReqId)
      requires Core(View()) && thread in threads
      modifies this`cloudDrafts, this`savingCloudDraftRequests, this`nextRequestId, this`saves, this`cancelled
      ensures View() == if serializes then Prepared(old(View()), thread, rich, clearOnFail) else old(View())
      ensures requestId == if serializes then old(nextRequestId) else 0
      ensures serializes ==> Core(View().(entries := draftsSaveRequestIds[thread := requestId]))
      ensures serializes ==> Named(old(cloudDrafts), cloudDrafts, thread.slot, requestId)
                             && SentFor(old(View()), View(), Save(thread, rich, clearOnFail, InFlight(false)))
    {
      PreparedKeeps(View(), thread, rich, clearOnFail);
      PreparedNames(View(), thread, rich, clearOnFail);
      hide Core, Cancels, Added, Get, WithId, Named, SentFor;
      if !serializes {
        return 0;
      }
      CancelPrevious(thread.slot);
      StartSavingCloudDraft(thread.slot);
      requestId := PerformRequest(thread, rich, clearOnFail);
    }

    // The first performRequest, and the cloud draft that remembers it.
    method PerformRequest(thread: Thread, rich: bool, clearOnFail: bool) returns (requestId: ReqId)
      modifies this`cloudDrafts, this`nextRequestId, this`saves
      ensures requestId == old(nextRequestId) && nextRequestId == requestId + 1
      ensures saves == old(saves)[requestId := Save(thread, rich, clearOnFail, InFlight(false))]
      ensures cloudDrafts == WithId(old(cloudDrafts), thread.slot, requestId)
    {
      requestId := nextRequestId;
      nextRequestId := nextRequestId + 1;
      saves := saves[requestId := Save(thread, rich, clearOnFail, InFlight(false))];
      if thread.slot in cloudDrafts {
        cloudDrafts := cloudDrafts[thread.slot := requestId];
      }
    }

    // request(base::take(currentCloudDraft->saveRequestId)).cancel()
    method CancelPrevious(slot: nat)
      modifies this`cloudDrafts, this`saves, this`cancelled
      ensures saves == if Cancels(old(View()), slot) then old(saves) - {Get(old(cloudDrafts), slot)} else old(saves)
      ensures cancelled == if Cancels(old(View()), slot) then Added(old(cancelled), slot) else old(cancelled)
      ensures forall id :: WithId(cloudDrafts, slot, id) == WithId(old(cloudDrafts), slot, id)
    {
      if slot in cloudDrafts {
        if cloudDrafts[slot] != 0 {
          Cancel(cloudDrafts[slot], slot);
          cloudDrafts := cloudDrafts[slot := 0];
        }
      }
    }

    // request(id).cancel(), which does nothing once the response is there.
    ghost method Cancel(id: ReqId, slot: nat)
      modifies this`saves, this`cancelled
      ensures if Sent(old(View()), id) then saves == old(saves) - {id} && cancelled == Added(old(cancelled), slot)
              else saves == old(saves) && cancelled == old(cancelled)
    {
      if id in saves && saves[id].stage.InFlight? {
        saves, cancelled := saves - {id}, Added(cancelled, slot);
      }
    }

    method StartSavingCloudDraft(slot: nat)
      modifies this`savingCloudDraftRequests
      ensures savingCloudDraftRequests == Added(old(savingCloudDraftRequests), slot)
    {
      if slot !in savingCloudDraftRequests {
        savingCloudDraftRequests := savingCloudDraftRequests[slot := 0];
      }
      savingCloudDraftRequests := savingCloudDraftRequests[slot := savingCloudDraftRequests[slot] + 1];
    }

    method FinishSavingCloudDraft(slot: nat)
      modifies this`savingCloudDraftRequests
      ensures savingCloudDraftRequests == Dropped(old(savingCloudDraftRequests), slot)
    {
      if slot in savingCloudDraftRequests {
        var left := savingCloudDraftRequests[slot] as int - 1;
        if left <= 0 {
          savingCloudDraftRequests := savingCloudDraftRequests - {slot};
        } else {
          savingCloudDraftRequests := savingCloudDraftRequests[slot := left];
        }
      }
    }

    // Sending a message, poll, to-do list or inline result clears the cloud draft and counts as a running save.
    method SendClearingDraft(slot: nat)
      requires Inv(View())
      modifies this`cloudDrafts, this`savingCloudDraftRequests, this`others
      ensures View() == OtherSent(old(View()), slot) && Inv(View())
    {
      ElsewhereKeeps(View(), OtherSent(View(), slot), slot);
      hide Inv, Added;
      cloudDrafts := cloudDrafts - {slot};
      StartSavingCloudDraft(slot);
      others := Added(others, slot);
    }

    // Its response, done or fail.
    method SendAnswered(slot: nat)
      requires Inv(View()) && Get(others, slot) > 0
      modifies this`savingCloudDraftRequests, this`others
      ensures View() == OtherDone(old(View()), slot) && Inv(View())
    {
      ElsewhereKeeps(View(), OtherDone(View(), slot), slot);
      hide Inv, Dropped;
      FinishSavingCloudDraft(slot);
      others := Dropped(others, slot);
    }

    // One entry of the pass, whose thread is still there and whose save waits.
    method SaveWaiting(thread: Thread, a: Answers)
      requires Core(View()) && thread in threads
      requires thread in draftsSaveRequestIds && draftsSaveRequestIds[thread] == 0
      modifies this
      ensures View() == SaveOne(old(View()), thread, a)
    {
      if thread in a.skip {
        draftsSaveRequestIds := draftsSaveRequestIds - {thread};
        return;
      }
      if thread.slot !in cloudDrafts || thread in a.reset {
        cloudDrafts := cloudDrafts[thread.slot := 0];
      }
      assert View() == Created(old(View()), thread, a);
      assert Core(View()) && nextRequestId > 0 by { CreatedKeeps(old(View()), thread, a); }
      hide Prepared, Created, Core;
      var id := SavePreparedDraftToCloud(thread, thread !in a.fails, thread in a.rich, true);
      draftsSaveRequestIds := draftsSaveRequestIds[thread := id];
      if draftsSaveRequestIds[thread] == 0 {
        draftsSaveRequestIds := draftsSaveRequestIds - {thread};
      }
      CreatedFrame(old(View()), thread, a);
    }

    method SaveDraftsToCloud(a: Answers) returns (ghost order: seq<Thread>)
      requires Inv(View())
      modifies this
      ensures Enumerates(order, old(View())) && View() == SaveAll(old(View()), order, a)
    {
      ghost var s := View();
      order := [];
      var left := draftsSaveRequestIds.Keys;
      hide SaveOne, Inv, Core;
      while left != {}
        invariant forall t :: t in s.entries ==> t in order || t in left
        invariant View() == SaveAll(s, order, a)
      {
        var thread :| thread in left;
        PassKeepsCore(s, order, a);
        ghost var before := View();
        if thread !in threads {
          draftsSaveRequestIds := draftsSaveRequestIds - {thread};
          SkippedTurn(before, thread, a);
        } else if thread !in draftsSaveRequestIds || draftsSaveRequestIds[thread] != 0 {
          SkippedTurn(before, thread, a);
        } else {
          SaveWaiting(thread, a);
        }
        assert (order + [thread])[..|order|] == order;
        order := order + [thread];
        left := left - {thread};
      }
    }

    method TimerFired(a: Answers) returns (ghost order: seq<Thread>)
      requires Inv(View()) && draftsSaveTimerActive
      modifies this
      ensures SavedAll(old(View()), View(), order, a, true) && Inv(View())
    {
      hide Inv;
      ghost var s := View();
      order := SaveDraftsToCloud(a);
      draftsSaveTimerActive := false;
      SavedAllKeeps(s, View(), order, a, true);
    }

    // Answers true when some entry holds back quitting.
    method IsQuitPrevent(a: Answers) returns (prevents: bool, ghost order: seq<Thread>)
      requires Inv(View())
      modifies this
      ensures SavedAll(old(View()), View(), order, a, false) && Inv(View())
      ensures prevents <==> exists t :: t in draftsSaveRequestIds && t in threads
                                     && draftsSaveRequestIds[t] in saves && saves[draftsSaveRequestIds[t]].thread == t
    {
      hide Inv;
      ghost var s := View();
      order := [];
      if draftsSaveRequestIds == map[] {
        assert SavedAll(s, View(), [], a, false);
        return false, order;
      }
      order := SaveDraftsToCloud(a);
      SaveAllTimer(s, order, a);
      SavedAllKeeps(s, View(), order, a, false);
      prevents := draftsSaveRequestIds != map[];
      if prevents {
        assert exists t :: t in draftsSaveRequestIds;
      }
    }

    method CheckQuitPreventFinished()
      modifies this`quitSignals
      ensures quitSignals == old(quitSignals) + if draftsSaveRequestIds == map[] then 1 else 0
    {
      if draftsSaveRequestIds == map[] {
        quitSignals := quitSignals + 1;
      }
    }

    method ReleaseCloudDraft(slot: nat, requestId: ReqId, clears: bool)
      modifies this`cloudDrafts
      ensures cloudDrafts == if slot !in old(cloudDrafts) || old(cloudDrafts)[slot] != requestId then old(cloudDrafts)
                             else if clears then old(cloudDrafts) - {slot} else old(cloudDrafts)[slot := 0]
    {
      if slot in cloudDrafts {
        if cloudDrafts[slot] == requestId {
          cloudDrafts := cloudDrafts[slot := 0];
          if clears {
            cloudDrafts := cloudDrafts - {slot};
          }
        }
      }
    }

    // The part that the done handler and failCleanup share.
    method Finish(requestId: ReqId, thread: Thread, clears: bool)
      requires requestId in saves && saves[requestId].thread == thread
      modifies this
      ensures View() == Finished(old(View()), requestId, clears)
    {
      FinishSavingCloudDraft(thread.slot);
      ReleaseCloudDraft(thread.slot, requestId, clears);
      ForgetRequest(requestId, thread);
      saves := saves - {requestId};
      hide Dropped;
    }

    method ForgetRequest(requestId: ReqId, thread: Thread)
      modifies this`draftsSaveRequestIds, this`quitSignals
      ensures var entries := old(draftsSaveRequestIds);
        var own := thread in entries && entries[thread] == requestId;
        draftsSaveRequestIds == (if own then entries - {thread} else entries)
        && quitSignals == old(quitSignals) + if own && draftsSaveRequestIds == map[] then 1 else 0
    {
      if thread in draftsSaveRequestIds && draftsSaveRequestIds[thread] == requestId {
        draftsSaveRequestIds := draftsSaveRequestIds - {thread};
        CheckQuitPreventFinished();
      }
    }

    method Done(requestId: ReqId, thread: Thread)
      requires Inv(View()) && Sent(View(), requestId) && saves[requestId].thread == thread
      modifies this
      ensures View() == Finished(old(View()), requestId, false) && Inv(View())
      ensures Settled(old(cloudDrafts), cloudDrafts, requestId, true)
      ensures Forgotten(old(View()), View(), requestId)
    {
      FinishedKeeps(View(), requestId, false);
      FinishedSettles(View(), requestId, false);
      hide Inv, Finished, Settled, Forgotten;
      Finish(requestId, thread, false);
    }

    method Fail(requestId: ReqId, save: Save, fileReference: bool)
      requires Inv(View()) && Sent(View(), requestId) && saves[requestId] == save
      modifies this
      ensures View() == Failed(old(View()), requestId, fileReference) && Inv(View())
      ensures if Waits(save, fileReference) then cloudDrafts == old(cloudDrafts)
              else Settled(old(cloudDrafts), cloudDrafts, requestId, !save.clearOnFail)
                   && Forgotten(old(View()), View(), requestId)
    {
      FailedKeeps(View(), requestId, fileReference);
      FailedSettles(View(), requestId, fileReference);
      hide Inv, Finished, Settled, Forgotten;
      if save.stage == InFlight(false) && fileReference && save.rich {
        saves := saves[requestId := save.(stage := Refreshing)];
        return;
      }
      Finish(requestId, save.thread, save.clearOnFail);
    }

    // The file reference arrived.
    method FileReferenceRefreshed(requestId: ReqId, save: Save, serializes: bool)
      requires Inv(View()) && requestId in saves && saves[requestId] == save && save.stage.Refreshing?
      modifies this
      ensures View() == Repeated(old(View()), requestId, serializes) && Inv(View())
      ensures if serializes then Named(old(cloudDrafts), cloudDrafts, save.thread.slot, old(nextRequestId))
              else Settled(old(cloudDrafts), cloudDrafts, requestId, !save.clearOnFail)
                   && Forgotten(old(View()), View(), requestId)
    {
      RepeatedKeeps(View(), requestId, serializes);
      RepeatedNames(View(), requestId);
      FinishedSettles(View(), requestId, save.clearOnFail);
      hide Inv, Finished, Settled, Forgotten, Named;
      if serializes {
        var newId := nextRequestId;
        nextRequestId := nextRequestId + 1;
        saves := (saves - {requestId})[newId := save.(stage := InFlight(true))];
        TrackRequestId(save.thread, newId);
      } else {
        Finish(requestId, save.thread, save.clearOnFail);
      }
    }

    method TrackRequestId(thread: Thread, id: ReqId)
      modifies this`cloudDrafts, this`draftsSaveRequestIds
      ensures cloudDrafts == WithId(old(cloudDrafts), thread.slot, id)
      ensures draftsSaveRequestIds
        == if thread in old(draftsSaveRequestIds) then old(draftsSaveRequestIds)[thread := id]
           else old(draftsSaveRequestIds)
    {
      if thread.slot in cloudDrafts {
        cloudDrafts := cloudDrafts[thread.slot := id];
      }
      if thread in draftsSaveRequestIds {
        draftsSaveRequestIds := draftsSaveRequestIds[thread := id];
      }
    }
  }

  lemma PassKeepsCore(s: State, order: seq<Thread>, a: Answers)
    requires Inv(s)
    ensures Core(SaveAll(s, order, a))
  {
    SaveAllKeeps(s, order, a);
  }

  lemma SkippedTurn(s: State, t: Thread, a: Answers)
    ensures t !in s.live ==> SaveOne(s, t, a) == s.(entries := s.entries - {t})
    ensures t !in s.entries || (t in s.live && s.entries[t] != 0) ==> SaveOne(s, t, a) == s
  {
    if t !in s.entries {
      assert s.entries - {t} == s.entries;
    }
  }

  lemma {:induction false} SaveAllTimer(s: State, order: seq<Thread>, a: Answers)
    ensures SaveAll(s, order, a).timer == s.timer
    decreases |order|
  {
    if order == [] {
    } else {
      SaveAllTimer(s, order[..|order| - 1], a);
      SaveOneFrame(SaveAll(s, order[..|order| - 1], a), order[|order| - 1], a);
      hide SaveOne;
    }
  }
}
