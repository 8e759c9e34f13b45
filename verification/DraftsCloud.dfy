/** What the draft saver does to the cloud draft of a slot: who is named in it, and what an answer leaves of it. */
module DraftsCloud {
  import opened DraftsProtocol

  ghost predicate SameDraft(cloud: map<nat, ReqId>, cloud': map<nat, ReqId>, c: nat) {
    (c in cloud' <==> c in cloud) && (c in cloud ==> cloud'[c] == cloud[c])
  }

  // Request id is over. The draft that names it is released, or removed when it is not kept; no other one changes.
  ghost predicate Settled(cloud: map<nat, ReqId>, cloud': map<nat, ReqId>, id: ReqId, kept: bool) {
    forall c ::
      if c in cloud && cloud[c] == id then (c in cloud' <==> kept) && (c in cloud' ==> cloud'[c] == 0)
      else SameDraft(cloud, cloud', c)
  }

  // A draft that is there names request id from now on; no other one changes, and none is created.
  ghost predicate Named(cloud: map<nat, ReqId>, cloud': map<nat, ReqId>, slot: nat, id: ReqId) {
    forall c ::
      if c == slot && c in cloud then c in cloud' && cloud'[c] == id
      else SameDraft(cloud, cloud', c)
  }

  // The entry of the answered save leaves, every other one stays, and quitting may go on when none is left.
  ghost predicate Forgotten(s: State, s': State, id: ReqId) {
    && (forall t :: t in s'.entries ==> t in s.entries && s'.entries[t] == s.entries[t])
    && (forall t :: t in s.entries && t !in s'.entries ==> s.entries[t] == id)
    && (id in s.saves && s.saves[id].thread in s.entries && s.entries[s.saves[id].thread] == id ==>
          s.saves[id].thread !in s'.entries)
    && s'.signals == s.signals + if s.entries != map[] && s'.entries == map[] then 1 else 0
  }

  lemma FinishedSettles(s: State, id: ReqId, clears: bool)
    requires Ids(s) && id in s.saves
    ensures Settled(s.cloud, Finished(s, id, clears).cloud, id, !clears)
    ensures Forgotten(s, Finished(s, id, clears), id)
  {
    var s' := Finished(s, id, clears);
    forall c | c in s.cloud && s.cloud[c] == id ensures c == s.saves[id].thread.slot {
    }
    if s.entries != map[] && s'.entries == map[] {
      var t :| t in s.entries;
      assert t !in s'.entries;
    }
  }

  lemma RepeatedNames(s: State, id: ReqId)
    requires id in s.saves && s.saves[id].stage.Refreshing?
    ensures var s', v := Repeated(s, id, true), s.saves[id];
      && Named(s.cloud, s'.cloud, v.thread.slot, s.nextId)
      && s'.saves == (s.saves - {id})[s.nextId := Save(v.thread, v.rich, v.clearOnFail, InFlight(true))]
      && s'.entries.Keys == s.entries.Keys && s'.signals == s.signals
      && forall t :: t in s.entries ==> s'.entries[t] == if t == v.thread then s.nextId else s.entries[t]
  {
  }

  // Whether a failed save waits for its file reference: the first time it fails for that reason with rich content.
  predicate Waits(v: Save, fileReference: bool) { v.stage == InFlight(false) && fileReference && v.rich }

  // In every run, the answer to a save decides what becomes of the draft that names it: success keeps it, a failure
  // removes it exactly for a save of the timer's, and a draft that names another request, or none, is left alone.
  lemma AnswerDecides(run: seq<State>, n: nat, id: ReqId, fileReference: bool)
    requires IsRun(run) && n < |run| && Sent(run[n], id)
    ensures var s := run[n];
      && Settled(s.cloud, Finished(s, id, false).cloud, id, true)
      && (!Waits(s.saves[id], fileReference) ==>
            Settled(s.cloud, Failed(s, id, fileReference).cloud, id, !s.saves[id].clearOnFail))
      && (Waits(s.saves[id], fileReference) ==> Failed(s, id, fileReference).cloud == s.cloud)
  {
    var s := run[n];
    RunKeeps(run, n);
    assert Ids(s) && (!Waits(s.saves[id], fileReference) ==>
      Failed(s, id, fileReference) == Finished(s, id, s.saves[id].clearOnFail));
    FinishedSettles(s, id, false);
    FinishedSettles(s, id, s.saves[id].clearOnFail);
    hide Finished, Inv, IsRun;
  }

  lemma FailedSettles(s: State, id: ReqId, fileReference: bool)
    requires Ids(s) && Sent(s, id)
    ensures var s' := Failed(s, id, fileReference);
      if Waits(s.saves[id], fileReference) then
        s'.cloud == s.cloud && s'.entries == s.entries && s'.signals == s.signals
      else Settled(s.cloud, s'.cloud, id, !s.saves[id].clearOnFail) && Forgotten(s, s', id)
  {
    FinishedSettles(s, id, s.saves[id].clearOnFail);
    hide Settled, Forgotten, Ids;
  }

  // When the reference is there, a draft of the slot names the repeated request; a save that no longer serializes is
  // a failed one.
  lemma RefreshDecides(run: seq<State>, n: nat, id: ReqId, serializes: bool)
    requires IsRun(run) && n < |run| && id in run[n].saves && run[n].saves[id].stage.Refreshing?
    ensures var s := run[n];
      var cloud', v := Repeated(s, id, serializes).cloud, s.saves[id];
      if serializes then Named(s.cloud, cloud', v.thread.slot, s.nextId)
      else Settled(s.cloud, cloud', id, !v.clearOnFail)
  {
    RunKeeps(run, n);
    RepeatedNames(run[n], id);
    NotRepeated(run[n], id);
    FinishedSettles(run[n], id, run[n].saves[id].clearOnFail);
    hide Finished, Repeated, Inv, IsRun;
  }

  // A save that is sent

  // The new save is in flight; of the others only the one that the draft of its slot named is gone, if it still was.
  ghost predicate SentFor(s: State, s': State, v: Save) {
    && s.nextId in s'.saves && s'.saves[s.nextId] == v && s'.nextId == s.nextId + 1
    && (forall id :: id in s'.saves && id != s.nextId ==> id in s.saves && s'.saves[id] == s.saves[id])
    && (forall id :: id in s.saves && id !in s'.saves ==>
          Sent(s, id) && v.thread.slot in s.cloud && s.cloud[v.thread.slot] == id)
    && (v.thread.slot in s.cloud && Sent(s, s.cloud[v.thread.slot]) ==> s.cloud[v.thread.slot] !in s'.saves)
  }

  lemma PreparedNames(s: State, t: Thread, rich: bool, clears: bool)
    requires Ids(s)
    ensures var s' := Prepared(s, t, rich, clears);
      Named(s.cloud, s'.cloud, t.slot, s.nextId) && SentFor(s, s', Save(t, rich, clears, InFlight(false)))
  {
  }

  // A direct save is one that a failure does not clear, and it is the thread's own from now on.
  lemma DirectNames(run: seq<State>, n: nat, t: Thread, rich: bool)
    requires IsRun(run) && n < |run|
    ensures var s, s' := run[n], Direct(run[n], t, true, rich);
      && Named(s.cloud, s'.cloud, t.slot, s.nextId) && SentFor(s, s', Save(t, rich, false, InFlight(false)))
      && t in s'.entries && s'.entries[t] == s.nextId
      && forall u :: u != t ==>
           (u in s'.entries <==> u in s.entries) && (u in s.entries ==> s'.entries[u] == s.entries[u])
  {
    RunKeeps(run, n);
    PreparedNames(run[n], t, rich, false);
    PreparedFrame(run[n], t, rich, false);
    hide Prepared, Inv, IsRun, SentFor, Named;
    var s := run[n];
    SentForEntries(s, Prepared(s, t, rich, false), Save(t, rich, false, InFlight(false)), s.entries[t := s.nextId]);
  }

  lemma SentForEntries(s: State, m: State, v: Save, entries: map<Thread, ReqId>)
    requires SentFor(s, m, v)
    ensures SentFor(s, m.(entries := entries), v)
  {
  }

  // The pass over the entries

  // What other threads' turns leave to t: its entry, its save and its draft.
  ghost predicate Spares(s: State, s': State, t: Thread) {
    LeavesAlone(s, s', t) && SameDraft(s.cloud, s'.cloud, t.slot)
  }

  lemma PreparedElsewhere(s: State, u: Thread, rich: bool, clears: bool, c: nat)
    requires u.slot != c
    ensures SameDraft(s.cloud, Prepared(s, u, rich, clears).cloud, c)
  {
    hide Cancels, Added;
  }

  lemma CreatedElsewhere(s: State, u: Thread, a: Answers, c: nat)
    requires u.slot != c
    ensures SameDraft(s.cloud, Created(s, u, a).cloud, c)
  {
  }

  lemma SaveOneElsewhere(s: State, u: Thread, a: Answers, c: nat)
    requires u.slot != c || u !in s.live
    ensures SameDraft(s.cloud, SaveOne(s, u, a).cloud, c)
  {
    hide Prepared, Created, SameDraft;
    assert SameDraft(s.cloud, s.cloud, c) by { SameAsBefore(s.cloud, c); }
    if u in s.live {
      CreatedElsewhere(s, u, a, c);
      PreparedElsewhere(Created(s, u, a), u, u in a.rich, true, c);
      SameTwice(s.cloud, Created(s, u, a).cloud, Prepared(Created(s, u, a), u, u in a.rich, true).cloud, c);
    }
  }

  lemma SameAsBefore(cloud: map<nat, ReqId>, c: nat)
    ensures SameDraft(cloud, cloud, c)
  {
  }

  lemma SameTwice(cloud: map<nat, ReqId>, m: map<nat, ReqId>, cloud': map<nat, ReqId>, c: nat)
    requires SameDraft(cloud, m, c) && SameDraft(m, cloud', c)
    ensures SameDraft(cloud, cloud', c)
  {
  }

  lemma OthersSpare(s: State, u: Thread, a: Answers, t: Thread)
    requires Core(s) && t in s.live && u != t
    ensures Spares(s, SaveOne(s, u, a), t)
  {
    assert u in s.live ==> u.slot != t.slot;
    hide LeavesAlone, SaveOne, SameDraft;
    OthersTurn(s, u, a, t);
    SaveOneElsewhere(s, u, a, t.slot);
  }

  // The draft is there and names the save that the entry names, which a failure will clear.
  ghost predicate NamedByPass(s: State, t: Thread) {
    && Awaited(s, t) && s.saves[s.entries[t]].clearOnFail
    && t.slot in s.cloud && s.cloud[t.slot] == s.entries[t]
  }

  lemma OwnTurnNames(s: State, a: Answers, t: Thread)
    requires Core(s) && t in s.live && Noted(s, t)
    ensures var s' := SaveOne(s, t, a);
      if t in a.skip then SameDraft(s.cloud, s'.cloud, t.slot)
      else if t in a.fails then
        t.slot in s'.cloud && s'.cloud[t.slot] == if t.slot in s.cloud && t !in a.reset then s.cloud[t.slot] else 0
      else NamedByPass(s', t)
  {
    hide Core;
  }

  ghost predicate PassDraft(s: State, m: State, a: Answers, t: Thread) {
    if t in a.skip then SameDraft(s.cloud, m.cloud, t.slot)
    else if t in a.fails then
      t.slot in m.cloud && m.cloud[t.slot] == if t.slot in s.cloud && t !in a.reset then s.cloud[t.slot] else 0
    else NamedByPass(m, t)
  }

  lemma SparedDraft(s: State, m: State, m': State, a: Answers, t: Thread)
    requires PassDraft(s, m, a, t) && Spares(m, m', t)
    ensures PassDraft(s, m', a, t)
  {
  }

  lemma OwnDraft(s: State, m: State, a: Answers, t: Thread)
    requires Core(m) && t in m.live && Noted(m, t) && SameDraft(s.cloud, m.cloud, t.slot)
    ensures PassDraft(s, SaveOne(m, t, a), a, t)
  {
    hide Core, SaveOne;
    OwnTurnNames(m, a, t);
  }

  ghost predicate DraftSoFar(s: State, m: State, order: seq<Thread>, a: Answers, t: Thread) {
    if t in order then PassDraft(s, m, a, t) else SameDraft(s.cloud, m.cloud, t.slot)
  }

  lemma {:induction false} PassDrafts(s: State, order: seq<Thread>, a: Answers, t: Thread)
    requires Core(s) && t in s.live && Noted(s, t)
    ensures DraftSoFar(s, SaveAll(s, order, a), order, a, t)
    decreases |order|
  {
    if order == [] {
    } else {
      var rest, u := order[..|order| - 1], order[|order| - 1];
      var m := SaveAll(s, rest, a);
      PassDrafts(s, rest, a, t);
      SaveAllKeeps(s, rest, a);
      PassHandles(s, rest, a, t);
      assert t in order <==> t in rest || t == u;
      hide Core, SaveOne, PassDraft, SameDraft;
      if u != t {
        DraftTurnOfOther(s, m, rest, u, a, t);
      } else if t !in rest {
        OwnDraft(s, m, a, t);
      } else {
        assert Core(m) && t in m.entries ==> m.entries[t] != 0 by { PositiveIds(m); }
        OwnTurnOnce(m, a, t);
      }
    }
  }

  lemma DraftTurnOfOther(s: State, m: State, rest: seq<Thread>, u: Thread, a: Answers, t: Thread)
    requires Core(m) && t in m.live && u != t && DraftSoFar(s, m, rest, a, t)
    ensures DraftSoFar(s, SaveOne(m, u, a), rest, a, t)
  {
    OthersSpare(m, u, a, t);
    hide Core, SaveOne, LeavesAlone, PassDraft;
    if t in rest {
      SparedDraft(s, m, SaveOne(m, u, a), a, t);
    }
  }

  // In every run, a pass over the entries leaves a waiting thread's draft named by the save it sends, which removes
  // the draft if it fails. It creates the draft if there was none, also when nothing can be sent, and leaves the draft
  // of a skipped thread alone. The timer stops only when it was the one to run the pass.
  lemma PassNames(run: seq<State>, n: nat, s': State, order: seq<Thread>, a: Answers, byTimer: bool, t: Thread)
    requires IsRun(run) && n < |run| && SavedAll(run[n], s', order, a, byTimer)
    requires t in run[n].live && Noted(run[n], t)
    ensures PassDraft(run[n], s', a, t) && (s'.timer <==> run[n].timer && !byTimer)
  {
    RunKeeps(run, n);
    var s := run[n];
    assert Core(s) by { InvIsCore(s); }
    PassDrafts(s, order, a, t);
    hide IsRun, Inv, Core, SaveAll;
    assert t in order;
  }

  // Quitting is let go on only by a step that empties the entries.
  lemma SignalsWhenEmptied(run: seq<State>, n: nat)
    requires IsRun(run) && n + 1 < |run|
    ensures run[n + 1].signals != run[n].signals ==>
              run[n].entries != map[] && run[n + 1].entries == map[] && run[n + 1].signals == run[n].signals + 1
  {
    RunKeeps(run, n);
    var s, s' := run[n], run[n + 1];
    hide IsRun, Inv, Prepared, SavedAll, Responds, Next, Forgotten;
    assert Next(s, s');
    SignalsStep(s, s');
  }

  lemma SignalsStep(s: State, s': State)
    requires Inv(s) && Next(s, s')
    ensures s'.signals != s.signals ==> s.entries != map[] && s'.entries == map[] && s'.signals == s.signals + 1
  {
    hide Prepared, Inv, SavedAll, Responds, Born, Died, Elsewhere;
    if order, a, byTimer :| SavedAll(s, s', order, a, byTimer) {
      SavedAllKeeps(s, s', order, a, byTimer);
    } else if id :| Responds(s, s', id) {
      RespondSignals(s, s', id);
    } else if t, ok, rich :| s' == Direct(s, t, ok, rich) {
      PreparedFrame(s, t, rich, false);
    } else if t, skip :| s' == Delayed(s, t, skip) {
    } else {
      OthersSignalNone(s, s');
    }
  }

  ghost predicate SignalledOnce(s: State, s': State) {
    s'.signals != s.signals ==> s.entries != map[] && s'.entries == map[] && s'.signals == s.signals + 1
  }

  lemma FinishSignals(s: State, id: ReqId, clears: bool)
    requires Ids(s) && id in s.saves
    ensures SignalledOnce(s, Finished(s, id, clears))
  {
    hide Finished, Ids, Settled;
    FinishedSettles(s, id, clears);
  }

  lemma RespondSignals(s: State, s': State, id: ReqId)
    requires Inv(s) && Responds(s, s', id)
    ensures SignalledOnce(s, s')
  {
    assert Ids(s);
    FinishSignals(s, id, false);
    FinishSignals(s, id, s.saves[id].clearOnFail);
    hide Finished, Repeated, Inv, Named;
    if s.saves[id].stage.Refreshing? {
      NotRepeated(s, id);
      RepeatedNames(s, id);
    }
  }

  lemma OtherSignalsNone(s: State, s': State, c: nat)
    requires Elsewhere(s, s', c)
    ensures s'.signals == s.signals
  {
    hide Added, Dropped;
  }

  lemma ThreadSignalsNone(s: State, s': State, t: Thread)
    requires Born(s, s', t) || Died(s, s', t)
    ensures s'.signals == s.signals
  {
  }

  lemma OthersSignalNone(s: State, s': State)
    requires (exists t :: Born(s, s', t) || Died(s, s', t)) || exists c :: Elsewhere(s, s', c)
    ensures s'.signals == s.signals
  {
    hide Elsewhere, Born, Died;
    if c :| Elsewhere(s, s', c) {
      OtherSignalsNone(s, s', c);
    } else {
      var t :| Born(s, s', t) || Died(s, s', t);
      ThreadSignalsNone(s, s', t);
    }
  }
}
