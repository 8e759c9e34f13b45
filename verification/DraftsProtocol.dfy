/** Cloud draft saves: which thread waits for which save, and what holds back quitting. */
module DraftsProtocol {
  type ReqId = nat

  // A thread object; slot names the cloud draft it edits, which outlives the object.
  datatype Thread = Thread(instance: nat, slot: nat)

  datatype Stage = InFlight(refreshed: bool) | Refreshing

  datatype Save = Save(thread: Thread, rich: bool, clearOnFail: bool, stage: Stage)

  // entries: _draftsSaveRequestIds, 0 while the save waits for the timer. cloud: the saveRequestId of each cloud
  // draft that exists. saving: History's _savingCloudDraftRequests. The fields after live are known outside only:
  // the saves awaiting a response or a file reference, how many requests were cancelled for each slot, and how many
  // other requests that clear its cloud draft are in flight.
  datatype State = State(
    entries: map<Thread, ReqId>, timer: bool, cloud: map<nat, ReqId>, saving: map<nat, nat>, nextId: ReqId,
    live: set<Thread>, born: set<Thread>, saves: map<ReqId, Save>, cancelled: map<nat, nat>, others: map<nat, nat>,
    signals: nat)

  // What the session answers while one pass over the entries runs.
  datatype Answers = Answers(skip: set<Thread>, fails: set<Thread>, rich: set<Thread>, reset: set<Thread>)

  function Get(m: map<nat, nat>, c: nat): nat { if c in m then m[c] else 0 }

  function Added(m: map<nat, nat>, c: nat): map<nat, nat> { m[c := Get(m, c) + 1] }

  // finishSavingCloudDraft
  function Dropped(m: map<nat, nat>, c: nat): map<nat, nat> {
    if c !in m then m else if m[c] <= 1 then m - {c} else m[c := m[c] - 1]
  }

  ghost predicate Init(s: State) {
    && s.entries == map[] && !s.timer && s.cloud == map[] && s.saving == map[] && s.nextId == 1
    && s.live == {} && s.born == {} && s.saves == map[] && s.cancelled == map[] && s.others == map[]
    && s.signals == 0
  }

  // Steps

  function Delayed(s: State, t: Thread, skip: bool): State {
    if skip then s else s.(entries := if t in s.entries then s.entries else s.entries[t := 0], timer := true)
  }

  function WithId(m: map<nat, ReqId>, c: nat, id: ReqId): map<nat, ReqId> { if c in m then m[c := id] else m }

  predicate Cancels(s: State, c: nat) {
    Get(s.cloud, c) != 0 && Get(s.cloud, c) in s.saves && s.saves[Get(s.cloud, c)].stage.InFlight?
  }

  // savePreparedDraftToCloud, once the draft serialized: the previous save of the slot is cancelled.
  function Prepared(s: State, t: Thread, rich: bool, clearOnFail: bool): State {
    var left := if Cancels(s, t.slot) then s.saves - {Get(s.cloud, t.slot)} else s.saves;
    s.(saves := left[s.nextId := Save(t, rich, clearOnFail, InFlight(false))],
       cancelled := if Cancels(s, t.slot) then Added(s.cancelled, t.slot) else s.cancelled,
       cloud := WithId(s.cloud, t.slot, s.nextId), saving := Added(s.saving, t.slot), nextId := s.nextId + 1)
  }

  // saveDraftToCloud
  function Direct(s: State, t: Thread, serializes: bool, rich: bool): State {
    if !serializes then s else Prepared(s, t, rich, false).(entries := s.entries[t := s.nextId])
  }

  function Created(s: State, t: Thread, a: Answers): State {
    if t.slot in s.cloud && t !in a.reset then s else s.(cloud := s.cloud[t.slot := 0])
  }

  // One turn of the loop of saveDraftsToCloud.
  function SaveOne(s: State, t: Thread, a: Answers): State {
    if t !in s.entries then s
    else if t !in s.live then s.(entries := s.entries - {t})
    else if s.entries[t] != 0 then s
    else if t in a.skip then s.(entries := s.entries - {t})
    else if t in a.fails then Created(s, t, a).(entries := s.entries - {t})
    else Prepared(Created(s, t, a), t, t in a.rich, true).(entries := s.entries[t := s.nextId])
  }

  ghost function SaveAll(s: State, order: seq<Thread>, a: Answers): State {
    if order == [] then s else SaveOne(SaveAll(s, order[..|order| - 1], a), order[|order| - 1], a)
  }

  ghost predicate Enumerates(order: seq<Thread>, s: State) { forall t :: t in s.entries ==> t in order }

  // The timer runs it, and so does isQuitPrevent, which leaves the timer alone.
  ghost predicate SavedAll(s: State, s': State, order: seq<Thread>, a: Answers, byTimer: bool) {
    && Enumerates(order, s) && (byTimer ==> s.timer)
    && s' == SaveAll(s, order, a).(timer := s.timer && !byTimer)
  }

  // The done and fail handlers' common part: save id is over.
  function Finished(s: State, id: ReqId, clears: bool): State
    requires id in s.saves
  {
    var t := s.saves[id].thread;
    var own := t in s.entries && s.entries[t] == id;
    var entries := if own then s.entries - {t} else s.entries;
    s.(saves := s.saves - {id}, saving := Dropped(s.saving, t.slot),
       cloud := if t.slot !in s.cloud || s.cloud[t.slot] != id then s.cloud
                else if clears then s.cloud - {t.slot} else s.cloud[t.slot := 0],
       entries := entries, signals := if own && entries == map[] then s.signals + 1 else s.signals)
  }

  predicate Sent(s: State, id: ReqId) { id in s.saves && s.saves[id].stage.InFlight? }

  predicate Refreshes(v: Save, fileReference: bool) { v.stage == InFlight(false) && fileReference && v.rich }

  function Failed(s: State, id: ReqId, fileReference: bool): State
    requires Sent(s, id)
  {
    var v := s.saves[id];
    if Refreshes(v, fileReference) then s.(saves := s.saves[id := v.(stage := Refreshing)])
    else Finished(s, id, v.clearOnFail)
  }

  // The file reference of a failed save is refreshed: the save is sent once more, under a new id.
  function Repeated(s: State, id: ReqId, serializes: bool): State
    requires id in s.saves && s.saves[id].stage.Refreshing?
  {
    var v := s.saves[id];
    var t := v.thread;
    if !serializes then Finished(s, id, v.clearOnFail)
    else s.(saves := (s.saves - {id})[s.nextId := v.(stage := InFlight(true))], nextId := s.nextId + 1,
            cloud := WithId(s.cloud, t.slot, s.nextId),
            entries := if t in s.entries then s.entries[t := s.nextId] else s.entries)
  }

  ghost predicate Born(s: State, s': State, t: Thread) {
    && t !in s.born && (forall u :: u in s.live ==> u.slot != t.slot)
    && s' == s.(live := s.live + {t}, born := s.born + {t})
  }

  ghost predicate Died(s: State, s': State, t: Thread) { s' == s.(live := s.live - {t}) }

  // Cloud drafts are also created, replaced and removed elsewhere.
  ghost predicate CloudChanged(s: State, s': State, c: nat) {
    s' == s.(cloud := s.cloud[c := 0]) || s' == s.(cloud := s.cloud - {c})
  }

  // A message, poll, to-do list or inline result is sent, which clears the cloud draft; later its response comes.
  function OtherSent(s: State, c: nat): State {
    s.(cloud := s.cloud - {c}, saving := Added(s.saving, c), others := Added(s.others, c))
  }

  function OtherDone(s: State, c: nat): State {
    s.(saving := Dropped(s.saving, c), others := Dropped(s.others, c))
  }

  ghost predicate Elsewhere(s: State, s': State, c: nat) {
    CloudChanged(s, s', c) || s' == OtherSent(s, c) || (Get(s.others, c) > 0 && s' == OtherDone(s, c))
  }

  ghost predicate Responds(s: State, s': State, id: ReqId) {
    || (Sent(s, id) && (s' == Finished(s, id, false) || exists f :: s' == Failed(s, id, f)))
    || (id in s.saves && s.saves[id].stage.Refreshing? && exists ok :: s' == Repeated(s, id, ok))
  }

  ghost predicate Next(s: State, s': State) {
    || (exists t, skip :: t in s.live && s' == Delayed(s, t, skip))
    || (exists t, ok, rich :: t in s.live && s' == Direct(s, t, ok, rich))
    || (exists order, a, byTimer :: SavedAll(s, s', order, a, byTimer))
    || (exists id :: Responds(s, s', id))
    || (exists t :: Born(s, s', t) || Died(s, s', t))
    || (exists c :: Elsewhere(s, s', c))
  }

  ghost predicate IsRun(run: seq<State>) {
    run != [] && Init(run[0]) && forall i :: 0 <= i < |run| - 1 ==> Next(run[i], run[i + 1])
  }

  // The invariant

  ghost predicate Threads(s: State) {
    && s.live <= s.born && s.entries.Keys <= s.born
    && (forall t, u :: t in s.live && u in s.live && t.slot == u.slot ==> t == u)
  }

  ghost predicate Ids(s: State) {
    && s.nextId > 0
    && (forall id :: id in s.saves ==> 0 < id < s.nextId)
    && (forall t :: t in s.entries ==> s.entries[t] < s.nextId)
    && (forall c :: c in s.cloud ==> s.cloud[c] < s.nextId)
    && (forall c :: c in s.cloud && s.cloud[c] in s.saves ==> s.saves[s.cloud[c]].thread.slot == c)
  }

  // The entry names a save of its thread that awaits its response or its file reference.
  ghost predicate Awaited(s: State, t: Thread) {
    t in s.entries && s.entries[t] in s.saves && s.saves[s.entries[t]].thread == t
  }

  ghost predicate Tracked(s: State, t: Thread) {
    t in s.entries && t in s.live && s.entries[t] != 0 ==> Awaited(s, t)
  }

  // A live thread's entry is that of its own pending save.
  ghost predicate Entries(s: State) { forall t :: Tracked(s, t) }

  ghost predicate Timed(s: State) { forall t :: t in s.entries && s.entries[t] == 0 ==> s.timer }

  ghost function Of(saves: map<ReqId, Save>, c: nat): set<ReqId> { set id | id in saves && saves[id].thread.slot == c }

  // A slot's count of running saves is that of the pending saves and of the other requests, plus all the cancelled
  // saves.
  ghost predicate Sums(saving: map<nat, nat>, saves: map<ReqId, Save>, cancelled: map<nat, nat>, others: map<nat, nat>,
                       c: nat)
  {
    && Get(saving, c) == |Of(saves, c)| + Get(cancelled, c) + Get(others, c)
    && (c in saving ==> saving[c] > 0)
  }

  ghost predicate Counted(s: State) { forall c :: Sums(s.saving, s.saves, s.cancelled, s.others, c) }

  ghost predicate Inv(s: State) { Threads(s) && Ids(s) && Entries(s) && Timed(s) && Counted(s) }

  // Timed aside, what every turn of the loop keeps.
  ghost predicate Core(s: State) { Threads(s) && Ids(s) && Entries(s) && Counted(s) }

  lemma OfWithout(saves: map<ReqId, Save>, id: ReqId, c: nat)
    requires id in saves
    ensures |Of(saves - {id}, c)| == |Of(saves, c)| - (if saves[id].thread.slot == c then 1 else 0)
  {
    if saves[id].thread.slot == c {
      assert Of(saves - {id}, c) == Of(saves, c) - {id};
    } else {
      assert Of(saves - {id}, c) == Of(saves, c);
    }
  }

  lemma OfWith(saves: map<ReqId, Save>, id: ReqId, v: Save, c: nat)
    requires id !in saves
    ensures |Of(saves[id := v], c)| == |Of(saves, c)| + (if v.thread.slot == c then 1 else 0)
  {
    if v.thread.slot == c {
      assert Of(saves[id := v], c) == Of(saves, c) + {id};
    } else {
      assert Of(saves[id := v], c) == Of(saves, c);
    }
  }

  lemma PreparedCounts(s: State, t: Thread, rich: bool, clears: bool)
    requires Ids(s) && Counted(s)
    ensures Counted(Prepared(s, t, rich, clears))
  {
    var s' := Prepared(s, t, rich, clears);
    var prev := Get(s.cloud, t.slot);
    var left := if Cancels(s, t.slot) then s.saves - {prev} else s.saves;
    forall c ensures Sums(s'.saving, s'.saves, s'.cancelled, s'.others, c) {
      assert Sums(s.saving, s.saves, s.cancelled, s.others, c);
      OfWith(left, s.nextId, Save(t, rich, clears, InFlight(false)), c);
      if Cancels(s, t.slot) {
        OfWithout(s.saves, prev, c);
      }
    }
  }

  // Cancelling leaves the other live threads' saves alone, because they edit other slots.
  lemma PreparedKeeps(s: State, t: Thread, rich: bool, clears: bool)
    requires Core(s) && t in s.live
    ensures Core(Prepared(s, t, rich, clears).(entries := s.entries[t := s.nextId]))
  {
    PreparedCounts(s, t, rich, clears);
    var s' := Prepared(s, t, rich, clears).(entries := s.entries[t := s.nextId]);
    assert Counted(s');
    hide Counted;
    forall u ensures Tracked(s', u) {
      PreparedTracks(s, t, rich, clears, u);
    }
    hide Tracked;
  }

  lemma PreparedTracks(s: State, t: Thread, rich: bool, clears: bool, u: Thread)
    requires Threads(s) && Ids(s) && Tracked(s, u) && t in s.live
    ensures Tracked(Prepared(s, t, rich, clears).(entries := s.entries[t := s.nextId]), u)
  {
  }

  lemma CreatedKeeps(s: State, t: Thread, a: Answers)
    requires Core(s)
    ensures Core(Created(s, t, a))
  {
    assert Counted(Created(s, t, a));
    hide Counted;
    forall u ensures Tracked(Created(s, t, a), u) {
      assert Tracked(s, u);
    }
  }

  lemma ErasedKeeps(s: State, t: Thread)
    requires Core(s)
    ensures Core(s.(entries := s.entries - {t}))
  {
    var s' := s.(entries := s.entries - {t});
    assert Counted(s');
    hide Counted;
    forall u ensures Tracked(s', u) {
      assert Tracked(s, u);
    }
  }

  lemma SaveOneKeeps(s: State, t: Thread, a: Answers)
    requires Core(s)
    ensures Core(SaveOne(s, t, a))
  {
    hide Core, Created, Prepared;
    CreatedKeeps(s, t, a);
    CreatedFrame(s, t, a);
    ErasedKeeps(s, t);
    ErasedKeeps(Created(s, t, a), t);
    if t in s.live {
      PreparedKeeps(Created(s, t, a), t, t in a.rich, true);
    }
  }

  lemma CreatedFrame(s: State, t: Thread, a: Answers)
    ensures var s' := Created(s, t, a);
      s'.entries == s.entries && s'.nextId == s.nextId && s'.live == s.live && s'.signals == s.signals
      && s'.timer == s.timer
  {
  }

  lemma PreparedFrame(s: State, t: Thread, rich: bool, clears: bool)
    ensures var s' := Prepared(s, t, rich, clears);
      s'.entries == s.entries && s'.live == s.live && s'.signals == s.signals && s'.timer == s.timer
  {
  }

  ghost predicate Gone(s: State, t: Thread) { t in s.entries ==> t in s.live && s.entries[t] != 0 }

  lemma {:induction false} SaveAllKeeps(s: State, order: seq<Thread>, a: Answers)
    requires Core(s)
    ensures var s' := SaveAll(s, order, a);
      Core(s') && s'.entries.Keys <= s.entries.Keys && s'.live == s.live && s'.signals == s.signals
    ensures forall t :: t in order ==> Gone(SaveAll(s, order, a), t)
    decreases |order|
  {
    if order == [] {
    } else {
      var rest, t := order[..|order| - 1], order[|order| - 1];
      SaveAllKeeps(s, rest, a);
      var m := SaveAll(s, rest, a);
      SaveOneKeeps(m, t, a);
      assert m.nextId > 0;
      SaveOneFrame(m, t, a);
      SaveOneGone(m, t, a);
      forall u | u in order ensures Gone(SaveAll(s, order, a), u) {
        assert u in rest || u == t;
        assert u in rest ==> Gone(m, u);
      }
    }
  }

  ghost predicate OneEntry(e: map<Thread, ReqId>, e': map<Thread, ReqId>, t: Thread) {
    && e'.Keys <= e.Keys && (forall u :: u in e' && u != t ==> e'[u] == e[u])
  }

  lemma OneErased(e: map<Thread, ReqId>, t: Thread, id: ReqId)
    ensures OneEntry(e, e, t) && OneEntry(e, e - {t}, t) && (t in e ==> OneEntry(e, e[t := id], t))
  {
  }

  ghost predicate TurnOf(s: State, s': State, t: Thread) {
    s'.live == s.live && s'.signals == s.signals && s'.timer == s.timer && OneEntry(s.entries, s'.entries, t)
  }

  lemma TurnErases(s: State, m: State, t: Thread)
    requires m.live == s.live && m.signals == s.signals && m.timer == s.timer && m.entries == s.entries
    ensures TurnOf(s, m, t) && TurnOf(s, m.(entries := s.entries - {t}), t)
    ensures t in s.entries ==> TurnOf(s, m.(entries := s.entries[t := s.nextId]), t)
  {
    hide OneEntry;
    OneErased(s.entries, t, s.nextId);
  }

  lemma SaveOneFrame(s: State, t: Thread, a: Answers)
    ensures TurnOf(s, SaveOne(s, t, a), t)
  {
    var m := Created(s, t, a);
    CreatedFrame(s, t, a);
    PreparedFrame(m, t, t in a.rich, true);
    hide Created, Prepared, TurnOf;
    TurnErases(s, s, t);
    TurnErases(s, m, t);
    TurnErases(s, Prepared(m, t, t in a.rich, true), t);
  }

  lemma SaveOneGone(s: State, t: Thread, a: Answers)
    requires s.nextId > 0
    ensures Gone(SaveOne(s, t, a), t)
  {
    var m := Created(s, t, a);
    CreatedFrame(s, t, a);
    PreparedFrame(m, t, t in a.rich, true);
    ErasedGone(s, t);
    ErasedGone(m, t);
    if t in s.live {
      SentGone(Prepared(m, t, t in a.rich, true), t, m.nextId);
      if t !in s.entries || s.entries[t] != 0 {
        KeptGone(s, t);
      }
    } else if t !in s.entries {
      KeptGone(s, t);
    }
    hide Created, Prepared, Gone;
  }

  lemma ErasedGone(s: State, t: Thread)
    ensures Gone(s.(entries := s.entries - {t}), t)
  {
  }

  lemma KeptGone(s: State, t: Thread)
    requires t !in s.entries || (t in s.live && s.entries[t] != 0)
    ensures Gone(s, t)
  {
  }

  lemma SentGone(s: State, t: Thread, id: ReqId)
    requires t in s.live && id > 0
    ensures Gone(s.(entries := s.entries[t := id]), t)
  {
  }

  lemma FinishedKeeps(s: State, id: ReqId, clears: bool)
    requires Inv(s) && id in s.saves
    ensures Inv(Finished(s, id, clears))
  {
    FinishedCounts(s, id, clears);
    hide Counted;
    forall u ensures Tracked(Finished(s, id, clears), u) {
      assert Tracked(s, u);
    }
  }

  lemma FinishedCounts(s: State, id: ReqId, clears: bool)
    requires Counted(s) && id in s.saves
    ensures Counted(Finished(s, id, clears))
  {
    var s' := Finished(s, id, clears);
    forall c ensures Sums(s'.saving, s'.saves, s'.cancelled, s'.others, c) {
      assert Sums(s.saving, s.saves, s.cancelled, s.others, c);
      OfWithout(s.saves, id, c);
    }
  }

  lemma RestagedCounts(s: State, id: ReqId, stage: Stage)
    requires Counted(s) && id in s.saves
    ensures Counted(s.(saves := s.saves[id := s.saves[id].(stage := stage)]))
  {
    var saves := s.saves[id := s.saves[id].(stage := stage)];
    forall c ensures Sums(s.saving, saves, s.cancelled, s.others, c) {
      assert Sums(s.saving, s.saves, s.cancelled, s.others, c);
      assert Of(saves, c) == Of(s.saves, c);
    }
  }

  lemma FailedKeeps(s: State, id: ReqId, f: bool)
    requires Inv(s) && Sent(s, id)
    ensures Inv(Failed(s, id, f))
  {
    if Refreshes(s.saves[id], f) {
      RestagedCounts(s, id, Refreshing);
      hide Counted;
      forall u ensures Tracked(Failed(s, id, f), u) {
        assert Tracked(s, u);
      }
    } else {
      FinishedKeeps(s, id, s.saves[id].clearOnFail);
    }
  }

  lemma RepeatedKeeps(s: State, id: ReqId, ok: bool)
    requires Inv(s) && id in s.saves && s.saves[id].stage.Refreshing?
    ensures Inv(Repeated(s, id, ok))
  {
    if ok {
      var s' := Repeated(s, id, ok);
      forall c ensures Sums(s'.saving, s'.saves, s'.cancelled, s'.others, c) {
        assert Sums(s.saving, s.saves, s.cancelled, s.others, c);
        OfWithout(s.saves, id, c);
        OfWith(s.saves - {id}, s.nextId, s.saves[id].(stage := InFlight(true)), c);
      }
      assert Counted(s');
      hide Counted;
      forall u ensures Tracked(s', u) {
        assert Tracked(s, u);
      }
    } else {
      FinishedKeeps(s, id, s.saves[id].clearOnFail);
    }
  }

  lemma DelayedKeeps(s: State, t: Thread, skip: bool)
    requires Inv(s) && t in s.live
    ensures Inv(Delayed(s, t, skip))
  {
    var s' := Delayed(s, t, skip);
    assert Counted(s');
    hide Counted;
    forall u ensures Tracked(s', u) {
      assert Tracked(s, u);
    }
  }

  lemma DirectKeeps(s: State, t: Thread, ok: bool, rich: bool)
    requires Inv(s) && t in s.live
    ensures Inv(Direct(s, t, ok, rich))
  {
    PreparedKeeps(s, t, rich, false);
  }

  lemma SavedAllKeeps(s: State, s': State, order: seq<Thread>, a: Answers, byTimer: bool)
    requires Inv(s) && SavedAll(s, s', order, a, byTimer)
    ensures Inv(s')
    ensures forall t :: t in s'.entries ==> t in s'.live && Awaited(s', t)
    ensures s'.entries.Keys <= s.entries.Keys && s'.signals == s.signals
  {
    SaveAllKeeps(s, order, a);
    var m := SaveAll(s, order, a);
    assert m == s'.(timer := m.timer);
    assert Counted(s');
    hide Counted;
    forall t | t in s'.entries ensures t in s'.live && Awaited(s', t) {
      assert t in order;
      assert Gone(m, t);
      assert Tracked(m, t);
    }
  }

  lemma ThreadsChange(s: State, s': State, t: Thread)
    requires Inv(s) && (Born(s, s', t) || Died(s, s', t))
    ensures Inv(s')
  {
    assert Counted(s');
    hide Counted;
    forall u ensures Tracked(s', u) {
      assert Tracked(s, u);
    }
  }

  lemma OneMore(saving: map<nat, nat>, saves: map<ReqId, Save>, cancelled: map<nat, nat>, others: map<nat, nat>,
                c: nat, d: nat)
    requires Sums(saving, saves, cancelled, others, d)
    ensures Sums(Added(saving, c), saves, cancelled, Added(others, c), d)
    ensures Get(others, c) > 0 ==> Sums(Dropped(saving, c), saves, cancelled, Dropped(others, c), d)
  {
  }

  lemma ElsewhereCounts(s: State, s': State, c: nat)
    requires Counted(s) && Elsewhere(s, s', c)
    ensures Counted(s')
  {
    hide Added, Dropped, Sums;
    forall d ensures Sums(s'.saving, s'.saves, s'.cancelled, s'.others, d) {
      OneMore(s.saving, s.saves, s.cancelled, s.others, c, d);
    }
  }

  ghost predicate SameButCloud(s: State, s': State) {
    && s'.entries == s.entries && s'.saves == s.saves && s'.cancelled == s.cancelled && s'.nextId == s.nextId
    && s'.live == s.live && s'.born == s.born && s'.timer == s.timer
  }

  lemma OtherFrame(s: State, c: nat)
    ensures SameButCloud(s, OtherSent(s, c)) && OtherSent(s, c).cloud == s.cloud - {c}
    ensures SameButCloud(s, OtherDone(s, c)) && OtherDone(s, c).cloud == s.cloud
  {
    hide Added, Dropped;
  }

  lemma ElsewhereFrame(s: State, s': State, c: nat)
    requires Elsewhere(s, s', c)
    ensures SameButCloud(s, s')
    ensures s'.cloud == s.cloud || s'.cloud == s.cloud[c := 0] || s'.cloud == s.cloud - {c}
  {
    OtherFrame(s, c);
    hide OtherSent, OtherDone;
  }

  lemma ElsewhereKeeps(s: State, s': State, c: nat)
    requires Inv(s) && Elsewhere(s, s', c)
    ensures Inv(s')
  {
    ElsewhereCounts(s, s', c);
    ElsewhereFrame(s, s', c);
    hide Counted, Elsewhere;
    forall u ensures Tracked(s', u) {
      assert Tracked(s, u);
    }
  }

  lemma RespondsKeeps(s: State, s': State, id: ReqId)
    requires Inv(s) && Responds(s, s', id)
    ensures Inv(s')
  {
    hide Inv, Finished, Failed, Repeated;
    if Sent(s, id) {
      if s' == Finished(s, id, false) {
        FinishedKeeps(s, id, false);
      } else {
        var f :| s' == Failed(s, id, f);
        FailedKeeps(s, id, f);
      }
    } else {
      var ok :| s' == Repeated(s, id, ok);
      RepeatedKeeps(s, id, ok);
    }
  }

  lemma NextKeeps(s: State, s': State)
    requires Inv(s) && Next(s, s')
    ensures Inv(s')
  {
    hide Inv, Delayed, Direct, SavedAll, Responds, Born, Died, Elsewhere;
    if t, skip :| t in s.live && s' == Delayed(s, t, skip) {
      DelayedKeeps(s, t, skip);
    } else if t, ok, rich :| t in s.live && s' == Direct(s, t, ok, rich) {
      DirectKeeps(s, t, ok, rich);
    } else if order, a, byTimer :| SavedAll(s, s', order, a, byTimer) {
      SavedAllKeeps(s, s', order, a, byTimer);
    } else if id :| Responds(s, s', id) {
      RespondsKeeps(s, s', id);
    } else if t :| Born(s, s', t) || Died(s, s', t) {
      ThreadsChange(s, s', t);
    } else {
      var c :| Elsewhere(s, s', c);
      ElsewhereKeeps(s, s', c);
    }
  }

  lemma {:induction false} RunKeeps(run: seq<State>, n: nat)
    requires IsRun(run) && n < |run|
    ensures Inv(run[n])
  {
    if n == 0 {
      assert forall c :: Of(run[0].saves, c) == {};
    } else {
      RunKeeps(run, n - 1);
      hide Inv, Next;
      NextKeeps(run[n - 1], run[n]);
    }
  }

  // Theorems

  // A live thread's entry always names a save of that thread still awaiting its response or its file reference,
  // or waits for a timer that is running.
  lemma EntriesAreAwaited(run: seq<State>, n: nat, t: Thread)
    requires IsRun(run) && n < |run| && t in run[n].entries && t in run[n].live
    ensures if run[n].entries[t] == 0 then run[n].timer else Awaited(run[n], t)
  {
    RunKeeps(run, n);
    assert Tracked(run[n], t);
  }

  ghost predicate Reachable(s: State) { exists run :: IsRun(run) && run[|run| - 1] == s }

  lemma Extended(s: State, s': State)
    requires Reachable(s) && Next(s, s')
    ensures Reachable(s')
  {
    hide Next;
    var run :| IsRun(run) && run[|run| - 1] == s;
    assert IsRun(run + [s']) && (run + [s'])[|run|] == s';
  }

  // This holds for live threads only: here thread t is gone, and a new thread of the same slot cancelled its
  // save, so no response will ever clear the entry that t left. The lemmas after it say exactly when that happens.
  lemma DeadEntryDangles(t: Thread, u: Thread)
    requires t != u && t.slot == u.slot
    ensures exists s :: Reachable(s) && t in s.entries && s.entries[t] != 0 && s.entries[t] !in s.saves
  {
    var s0 := State(map[], false, map[], map[], 1, {}, {}, map[], map[], map[], 0);
    var s1 := s0.(live := {t}, born := {t});
    var s2 := s1.(cloud := map[t.slot := 0]);
    var s3 := Direct(s2, t, true, false);
    var s4 := s3.(live := {});
    var s5 := s4.(live := {u}, born := {t, u});
    var s6 := Direct(s5, u, true, false);
    assert Reachable(s0) by { assert IsRun([s0]) && [s0][0] == s0; }
    Extended(s0, s1) by { assert Born(s0, s1, t); }
    Extended(s1, s2) by { assert Elsewhere(s1, s2, t.slot); }
    Extended(s2, s3) by { assert t in s2.live; }
    Extended(s3, s4) by { assert Died(s3, s4, t); }
    Extended(s4, s5) by { assert Born(s4, s5, u); }
    Extended(s5, s6) by { assert u in s5.live; }
    assert s6.entries[t] == 1 && 1 !in s6.saves;
  }

  // A non-zero entry that no response will clear.
  ghost predicate Dangling(s: State, t: Thread) { t in s.entries && s.entries[t] != 0 && !Awaited(s, t) }

  ghost predicate AllAwaited(s: State) { forall t :: !Dangling(s, t) }

  // What a direct save of u can see before it is sent: it will cancel the save that t's entry names.
  ghost predicate WouldCut(s: State, u: Thread, t: Thread) {
    u != t && t in s.entries && Cancels(s, u.slot) && s.entries[t] == Get(s.cloud, u.slot)
  }

  ghost predicate Cut(s: State, s': State, t: Thread) {
    exists u, rich :: u in s.live && WouldCut(s, u, t) && s' == Direct(s, u, true, rich)
  }

  // An older save of t is repeated.
  ghost predicate Overtaken(s: State, s': State, t: Thread) {
    exists id :: id in s.saves && s.saves[id].stage.Refreshing? && s.saves[id].thread == t
      && s' == Repeated(s, id, true)
  }

  // A pass over the entries, or a save of t that is repeated.
  ghost predicate Repairs(s: State, s': State, t: Thread) {
    || (exists order, a, byTimer :: SavedAll(s, s', order, a, byTimer))
    || Overtaken(s, s', t)
  }

  lemma DirectDangles(s: State, u: Thread, rich: bool, t: Thread)
    requires Inv(s) && u in s.live
    ensures Dangling(Direct(s, u, true, rich), t) <==> Dangling(s, t) || WouldCut(s, u, t)
  {
    hide Counted;
    assert Tracked(s, u);
  }

  lemma FinishedDangles(s: State, id: ReqId, clears: bool, t: Thread)
    requires id in s.saves
    ensures Dangling(Finished(s, id, clears), t) <==> Dangling(s, t)
  {
  }

  lemma RepeatedDangles(s: State, id: ReqId, t: Thread)
    requires Inv(s) && id in s.saves && s.saves[id].stage.Refreshing?
    ensures Dangling(Repeated(s, id, true), t) <==> Dangling(s, t) && s.saves[id].thread != t
  {
    hide Counted;
  }

  lemma RespondsDangles(s: State, s': State, id: ReqId, t: Thread)
    requires Inv(s) && Responds(s, s', id)
    ensures Dangling(s', t) ==> Dangling(s, t)
    ensures Dangling(s, t) ==> Dangling(s', t) || Repairs(s, s', t)
  {
    hide Inv, Finished, Repeated, Dangling, SavedAll;
    if Sent(s, id) {
      FinishedDangles(s, id, false, t);
      FinishedDangles(s, id, s.saves[id].clearOnFail, t);
      RestagedDangles(s, id, t);
    } else {
      FinishedDangles(s, id, s.saves[id].clearOnFail, t);
      RepeatedDangles(s, id, t);
      var ok :| s' == Repeated(s, id, ok);
      NotRepeated(s, id);
    }
  }

  lemma NotRepeated(s: State, id: ReqId)
    requires id in s.saves && s.saves[id].stage.Refreshing?
    ensures Repeated(s, id, false) == Finished(s, id, s.saves[id].clearOnFail)
  {
  }

  lemma RestagedDangles(s: State, id: ReqId, t: Thread)
    requires id in s.saves
    ensures Dangling(s.(saves := s.saves[id := s.saves[id].(stage := Refreshing)]), t) <==> Dangling(s, t)
  {
  }

  lemma CutDangles(s: State, s': State, t: Thread)
    requires Inv(s) && Cut(s, s', t)
    ensures Dangling(s', t)
  {
    hide Inv, WouldCut, Direct;
    var u, rich :| u in s.live && WouldCut(s, u, t) && s' == Direct(s, u, true, rich);
    DirectDangles(s, u, rich, t);
  }

  lemma RepairsIt(s: State, s': State, t: Thread)
    requires Inv(s) && Repairs(s, s', t)
    ensures !Dangling(s', t)
  {
    hide Inv, SavedAll, Repeated;
    if order, a, byTimer :| SavedAll(s, s', order, a, byTimer) {
      SavedAllKeeps(s, s', order, a, byTimer);
    } else {
      var id :| id in s.saves && s.saves[id].stage.Refreshing? && s.saves[id].thread == t
        && s' == Repeated(s, id, true);
      RepeatedDangles(s, id, t);
    }
  }

  // One step makes an entry dangle exactly by cutting off its save, and one repairs it exactly by a pass or a repeat.
  lemma StepDangles(s: State, s': State, t: Thread)
    requires Inv(s) && Next(s, s')
    ensures Dangling(s', t) <==> Cut(s, s', t) || (Dangling(s, t) && !Repairs(s, s', t))
  {
    hide Inv, Delayed, Direct, SavedAll, Responds, Dangling, WouldCut, Repairs, Cut;
    if Cut(s, s', t) {
      CutDangles(s, s', t);
    }
    if Repairs(s, s', t) {
      RepairsIt(s, s', t);
    }
    if u, ok, rich :| u in s.live && s' == Direct(s, u, ok, rich) {
      DirectStepDangles(s, s', u, ok, rich, t);
    } else if order, a, byTimer :| SavedAll(s, s', order, a, byTimer) {
      PassRepairs(s, s', order, a, byTimer, t);
    } else if id :| Responds(s, s', id) {
      RespondsDangles(s, s', id, t);
    } else {
      OthersDangle(s, s', t);
    }
  }

  lemma PassRepairs(s: State, s': State, order: seq<Thread>, a: Answers, byTimer: bool, t: Thread)
    requires SavedAll(s, s', order, a, byTimer)
    ensures Repairs(s, s', t)
  {
  }

  lemma DirectStepDangles(s: State, s': State, u: Thread, ok: bool, rich: bool, t: Thread)
    requires Inv(s) && u in s.live && s' == Direct(s, u, ok, rich)
    ensures Dangling(s, t) ==> Dangling(s', t)
    ensures Dangling(s', t) ==> Dangling(s, t) || Cut(s, s', t)
  {
    hide Inv, Dangling, WouldCut;
    if ok {
      DirectDangles(s, u, rich, t);
    }
  }

  lemma OthersDangle(s: State, s': State, t: Thread)
    requires (exists u, skip :: s' == Delayed(s, u, skip)) || (exists u :: Born(s, s', u) || Died(s, s', u))
      || (exists c :: Elsewhere(s, s', c))
    ensures Dangling(s', t) <==> Dangling(s, t)
  {
    if u, skip :| s' == Delayed(s, u, skip) {
    } else {
      OthersEraseNone(s, s');
    }
  }

  ghost predicate CutAt(run: seq<State>, m: nat, t: Thread)
    requires m + 1 < |run|
  {
    Cut(run[m], run[m + 1], t)
  }

  ghost predicate RepairedAt(run: seq<State>, m: nat, t: Thread)
    requires m + 1 < |run|
  {
    Repairs(run[m], run[m + 1], t)
  }

  ghost predicate CutSince(run: seq<State>, n: nat, t: Thread)
    requires n < |run|
  {
    exists m | 0 <= m < n :: CutAt(run, m, t) && forall k | m < k < n :: !RepairedAt(run, k, t)
  }

  lemma CutLater(run: seq<State>, n: nat, t: Thread)
    requires 0 < n < |run|
    ensures CutSince(run, n, t) <==> CutAt(run, n - 1, t) || (CutSince(run, n - 1, t) && !RepairedAt(run, n - 1, t))
  {
    hide CutAt, RepairedAt;
    if CutSince(run, n, t) {
      var m :| 0 <= m < n && CutAt(run, m, t) && forall k | m < k < n :: !RepairedAt(run, k, t);
    }
    if CutSince(run, n - 1, t) && !RepairedAt(run, n - 1, t) {
      var m :| 0 <= m < n - 1 && CutAt(run, m, t) && forall k | m < k < n - 1 :: !RepairedAt(run, k, t);
      assert forall k | m < k < n :: !RepairedAt(run, k, t);
    }
  }

  // So in every run an entry dangles exactly when its save was cut off and neither a pass nor a repeat came since.
  lemma {:induction false} DanglesSince(run: seq<State>, n: nat, t: Thread)
    requires IsRun(run) && n < |run|
    ensures Dangling(run[n], t) <==> CutSince(run, n, t)
  {
    if n == 0 {
    } else {
      DanglesSince(run, n - 1, t);
      RunKeeps(run, n - 1);
      CutLater(run, n, t);
      hide Inv, Next, Cut, Repairs, Dangling, CutSince;
      StepDangles(run[n - 1], run[n], t);
    }
  }

  // A caller can tell beforehand whether a direct save keeps every entry awaited. The entry that it would cut off is
  // that of a destroyed thread of the same slot. A pass always leaves every entry awaited.
  lemma DirectKeepsAwaited(run: seq<State>, n: nat, u: Thread, rich: bool)
    requires IsRun(run) && n < |run| && AllAwaited(run[n]) && u in run[n].live
    ensures AllAwaited(Direct(run[n], u, true, rich)) <==> !exists t :: WouldCut(run[n], u, t)
    ensures forall t :: WouldCut(run[n], u, t) ==> t !in run[n].live && t.slot == u.slot
  {
    var s := run[n];
    RunKeeps(run, n);
    hide IsRun, Direct;
    forall t
      ensures Dangling(Direct(s, u, true, rich), t) <==> WouldCut(s, u, t)
      ensures WouldCut(s, u, t) ==> t !in s.live && t.slot == u.slot
    {
      DirectDangles(s, u, rich, t);
      assert !Dangling(s, t);
      hide Counted;
    }
  }

  // isQuitPrevent holds quitting back only for live threads whose own save is pending after it.
  lemma QuitWaitsForSaves(run: seq<State>, n: nat, s': State, order: seq<Thread>, a: Answers)
    requires IsRun(run) && n < |run| && SavedAll(run[n], s', order, a, false)
    ensures forall t :: t in s'.entries ==> t in s'.live && Awaited(s', t)
  {
    RunKeeps(run, n);
    hide IsRun, Inv;
    SavedAllKeeps(run[n], s', order, a, false);
  }

  // Once the timer has fired and all responses and references have arrived, nothing holds back quitting.
  lemma QuitIsReleased(run: seq<State>, n: nat, s': State, order: seq<Thread>, a: Answers)
    requires IsRun(run) && n < |run| && !run[n].timer && run[n].saves == map[]
    requires SavedAll(run[n], s', order, a, false)
    ensures forall t :: t in run[n].entries ==> t !in run[n].live
    ensures s'.entries == map[]
  {
    RunKeeps(run, n);
    var s := run[n];
    forall t | t in s.entries ensures t !in s.live {
      assert Tracked(s, t);
    }
    NothingLeft(s, order, a);
    forall t ensures t !in s'.entries {
      assert t in s.entries ==> t in order;
    }
  }

  lemma {:induction false} NothingLeft(s: State, order: seq<Thread>, a: Answers)
    requires forall t :: t in s.entries ==> t !in s.live
    ensures var s' := SaveAll(s, order, a); s'.live == s.live && s'.entries.Keys <= s.entries.Keys
    ensures forall t :: t in order ==> t !in SaveAll(s, order, a).entries
    decreases |order|
  {
    if order == [] {
    } else {
      var rest, t := order[..|order| - 1], order[|order| - 1];
      NothingLeft(s, rest, a);
      assert forall u :: u in order ==> u in rest || u == t;
    }
  }

  // The count of running saves keeps out the server's drafts of a slot exactly while a save of the slot or another
  // request that clears its draft is pending, or, for good, once a save was cancelled: a cancelled request never
  // reports that it finished.
  lemma CounterReturnsToZero(run: seq<State>, n: nat, c: nat)
    requires IsRun(run) && n < |run|
    ensures var s := run[n];
      (c in s.saving <==> Of(s.saves, c) != {} || Get(s.others, c) > 0 || Get(s.cancelled, c) > 0)
      && Get(s.saving, c) == |Of(s.saves, c)| + Get(s.others, c) + Get(s.cancelled, c)
  {
    RunKeeps(run, n);
    var s := run[n];
    assert Sums(s.saving, s.saves, s.cancelled, s.others, c);
    assert Of(run[n].saves, c) != {} <==> |Of(run[n].saves, c)| > 0;
  }

  ghost predicate Grows(s: State, s': State, c: nat) { Get(s.cancelled, c) <= Get(s'.cancelled, c) }

  lemma SaveOneGrows(s: State, t: Thread, a: Answers, c: nat)
    ensures Grows(s, SaveOne(s, t, a), c)
  {
  }

  lemma {:induction false} SaveAllGrows(s: State, order: seq<Thread>, a: Answers, c: nat)
    ensures Grows(s, SaveAll(s, order, a), c)
    decreases |order|
  {
    if order == [] {
    } else {
      SaveAllGrows(s, order[..|order| - 1], a, c);
      SaveOneGrows(SaveAll(s, order[..|order| - 1], a), order[|order| - 1], a, c);
    }
  }

  lemma NextGrows(s: State, s': State, c: nat)
    requires Next(s, s')
    ensures Grows(s, s', c)
  {
    hide SavedAll, Direct, Responds, Delayed, Born, Died, Elsewhere;
    if order, a, byTimer :| SavedAll(s, s', order, a, byTimer) {
      SavedAllGrows(s, s', order, a, byTimer, c);
    } else if t, ok, rich :| s' == Direct(s, t, ok, rich) {
      DirectGrows(s, t, ok, rich, c);
    } else if id :| Responds(s, s', id) {
      RespondsCancelsNone(s, s', id);
    } else if t, skip :| s' == Delayed(s, t, skip) {
      DelayedCancelsNone(s, t, skip);
    } else {
      OthersEraseNone(s, s');
    }
  }

  lemma DelayedCancelsNone(s: State, t: Thread, skip: bool)
    ensures Delayed(s, t, skip).cancelled == s.cancelled
  {
  }

  lemma SavedAllGrows(s: State, s': State, order: seq<Thread>, a: Answers, byTimer: bool, c: nat)
    requires SavedAll(s, s', order, a, byTimer)
    ensures Grows(s, s', c)
  {
    SaveAllGrows(s, order, a, c);
  }

  lemma DirectGrows(s: State, t: Thread, ok: bool, rich: bool, c: nat)
    ensures Grows(s, Direct(s, t, ok, rich), c)
  {
    hide Prepared;
    PreparedGrows(s, t, rich, c);
  }

  // A response ends the save, or the entries stay those of the same threads.
  lemma RespondsFrame(s: State, s': State, id: ReqId)
    requires Responds(s, s', id)
    ensures (exists clears :: id in s.saves && s' == Finished(s, id, clears))
      || (s'.entries.Keys == s.entries.Keys && s'.cancelled == s.cancelled)
  {
    hide Finished, Repeated;
    if s.saves[id].stage.Refreshing? {
      NotRepeated(s, id);
      RepeatedFrame(s, id);
    } else if s' != Finished(s, id, false) {
      var f :| s' == Failed(s, id, f);
    }
  }

  lemma RespondsCancelsNone(s: State, s': State, id: ReqId)
    requires Responds(s, s', id)
    ensures s'.cancelled == s.cancelled
  {
    RespondsFrame(s, s', id);
    hide Finished, Responds;
    if clears :| id in s.saves && s' == Finished(s, id, clears) {
      FinishedFrame(s, id, clears);
    }
  }

  lemma FinishedFrame(s: State, id: ReqId, clears: bool)
    requires id in s.saves
    ensures var s' := Finished(s, id, clears);
      s'.cancelled == s.cancelled && (s'.entries == s.entries || s'.entries == s.entries - {s.saves[id].thread})
      && (s.entries != map[] && s'.entries == map[] ==> s'.signals == s.signals + 1)
      && forall t :: t in s.entries && s.entries[t] != id ==> t in s'.entries && s'.entries[t] == s.entries[t]
  {
    hide Dropped;
  }

  lemma RepeatedFrame(s: State, id: ReqId)
    requires id in s.saves && s.saves[id].stage.Refreshing?
    ensures var s' := Repeated(s, id, true);
      s'.cancelled == s.cancelled && s'.entries.Keys == s.entries.Keys
      && forall t :: t in s.entries && t != s.saves[id].thread ==> s'.entries[t] == s.entries[t]
  {
    hide Finished;
  }

  lemma PreparedGrows(s: State, t: Thread, rich: bool, c: nat)
    ensures Grows(s, Prepared(s, t, rich, false), c)
  {
  }

  // So one cancelled save keeps the server's drafts of its slot out for the rest of the run.
  lemma {:induction false} CancelIsForever(run: seq<State>, m: nat, n: nat, c: nat)
    requires IsRun(run) && m <= n < |run| && Get(run[m].cancelled, c) > 0
    ensures Get(run[n].cancelled, c) > 0 && c in run[n].saving
    decreases n - m
  {
    if m == n {
    } else {
      CancelIsForever(run, m, n - 1, c);
      hide Next, Inv;
      NextGrows(run[n - 1], run[n], c);
    }
    hide Next;
    RunKeeps(run, n);
    var s := run[n];
    assert Sums(s.saving, s.saves, s.cancelled, s.others, c);
  }

  // In every run, a delayed save is noted exactly when no save of the thread awaits its response or file reference; a
  // skipped one changes nothing.
  lemma DelayedIsNoted(run: seq<State>, n: nat, t: Thread)
    requires IsRun(run) && n < |run| && t in run[n].live
    ensures var s' := Delayed(run[n], t, false);
      (t in s'.entries && s'.entries[t] == 0 && s'.timer) <==> !Awaited(run[n], t)
    ensures Delayed(run[n], t, true) == run[n]
  {
    RunKeeps(run, n);
    assert Tracked(run[n], t);
    hide Counted;
  }

  // Otherwise it is dropped: the response to the pending save, which carries the older text, clears the entry, and
  // nothing has been sent for the newer one.
  lemma DelayedIsLost(run: seq<State>, n: nat, t: Thread)
    requires IsRun(run) && n < |run| && t in run[n].live
    requires t in run[n].entries && Sent(run[n], run[n].entries[t])
    ensures var s := run[n];
      var s' := Finished(Delayed(s, t, false), s.entries[t], false);
      t !in s'.entries && s'.nextId == s.nextId && s'.saves.Keys == s.saves.Keys - {s.entries[t]}
  {
    RunKeeps(run, n);
    assert Tracked(run[n], t);
  }

  ghost predicate Noted(s: State, t: Thread) { t in s.entries && s.entries[t] == 0 }

  // The entry names a first request that was sent after s, with the draft as it then was.
  ghost predicate SentSince(s: State, s': State, t: Thread) {
    Awaited(s', t) && s'.entries[t] >= s.nextId && s'.saves[s'.entries[t]].stage == InFlight(false)
  }

  // A pass that skips the thread, or whose draft does not serialize, or after the thread was destroyed.
  ghost predicate PassedBy(s: State, s': State, t: Thread) {
    exists order, a, byTimer :: SavedAll(s, s', order, a, byTimer) && (t in a.skip || t in a.fails || t !in s.live)
  }

  ghost predicate LeavesAlone(s: State, s': State, t: Thread) {
    && s'.nextId >= s.nextId && s'.live == s.live
    && (if t in s.entries then t in s'.entries && s'.entries[t] == s.entries[t] else t !in s'.entries)
    && (Awaited(s, t) ==> Awaited(s', t) && s'.saves[s.entries[t]] == s.saves[s.entries[t]])
  }

  lemma PreparedLeaves(s: State, u: Thread, rich: bool, t: Thread)
    requires Core(s) && t in s.live && u in s.live && u != t
    ensures LeavesAlone(s, Prepared(s, u, rich, true).(entries := s.entries[u := s.nextId]), t)
  {
    hide Counted, Entries;
    assert t.slot != u.slot;
  }

  lemma CreatedLeaves(s: State, u: Thread, a: Answers, t: Thread)
    ensures LeavesAlone(s, Created(s, u, a), t)
  {
  }

  lemma ErasedLeaves(s: State, u: Thread, t: Thread)
    requires u != t
    ensures LeavesAlone(s, s, t) && LeavesAlone(s, s.(entries := s.entries - {u}), t)
  {
  }

  lemma LeftTwice(s: State, m: State, s': State, t: Thread)
    requires LeavesAlone(s, m, t) && LeavesAlone(m, s', t)
    ensures LeavesAlone(s, s', t)
  {
  }

  // What a turn of another thread leaves to t.
  lemma OthersTurn(s: State, u: Thread, a: Answers, t: Thread)
    requires Core(s) && t in s.live && u != t
    ensures LeavesAlone(s, SaveOne(s, u, a), t)
  {
    var m := Created(s, u, a);
    CreatedFrame(s, u, a);
    CreatedKeeps(s, u, a);
    CreatedLeaves(s, u, a, t);
    hide Core, Created, Prepared, LeavesAlone;
    ErasedLeaves(s, u, t);
    ErasedLeaves(m, u, t);
    LeftTwice(s, m, m.(entries := m.entries - {u}), t);
    if u in s.live {
      PreparedLeaves(m, u, u in a.rich, t);
      LeftTwice(s, m, Prepared(m, u, u in a.rich, true).(entries := m.entries[u := m.nextId]), t);
    }
  }

  lemma PreparedSends(s: State, t: Thread, rich: bool)
    ensures SentSince(s, Prepared(s, t, rich, true).(entries := s.entries[t := s.nextId]), t)
    ensures Prepared(s, t, rich, true).nextId >= s.nextId
  {
  }

  lemma OwnTurn(s: State, a: Answers, t: Thread)
    requires Core(s) && t in s.live && Noted(s, t)
    ensures var s' := SaveOne(s, t, a);
      s'.live == s.live && s'.nextId >= s.nextId
      && if t in a.skip || t in a.fails then t !in s'.entries else SentSince(s, s', t)
  {
    CreatedFrame(s, t, a);
    PreparedFrame(Created(s, t, a), t, t in a.rich, true);
    PreparedSends(Created(s, t, a), t, t in a.rich);
    hide Core, Created, Prepared;
  }

  lemma OwnTurnOnce(s: State, a: Answers, t: Thread)
    requires t !in s.entries || (t in s.live && s.entries[t] != 0)
    ensures SaveOne(s, t, a) == s
  {
  }

  ghost predicate PassOutcome(s: State, m: State, order: seq<Thread>, a: Answers, t: Thread) {
    if t !in order then Noted(m, t) else if t in a.skip || t in a.fails then t !in m.entries else SentSince(s, m, t)
  }

  lemma {:induction false} PassHandles(s: State, order: seq<Thread>, a: Answers, t: Thread)
    requires Core(s) && t in s.live && Noted(s, t)
    ensures var m := SaveAll(s, order, a);
      m.nextId >= s.nextId && m.live == s.live && PassOutcome(s, m, order, a, t)
    decreases |order|
  {
    if order == [] {
    } else {
      var rest, u := order[..|order| - 1], order[|order| - 1];
      var m := SaveAll(s, rest, a);
      PassHandles(s, rest, a, t);
      SaveAllKeeps(s, rest, a);
      assert t in order <==> t in rest || t == u;
      hide Core, SaveOne;
      if u != t {
        OthersTurn(m, u, a, t);
      } else if t !in rest {
        OwnTurn(m, a, t);
      } else {
        assert Core(m) && t in m.entries ==> m.entries[t] != 0 by { PositiveIds(m); }
        OwnTurnOnce(m, a, t);
      }
    }
  }

  lemma PositiveIds(s: State)
    requires Core(s)
    ensures forall id :: id in s.saves ==> id > 0
  {
  }

  lemma PassConsumes(s: State, s': State, order: seq<Thread>, a: Answers, byTimer: bool, t: Thread)
    requires Inv(s) && SavedAll(s, s', order, a, byTimer) && Noted(s, t)
    ensures if t in a.skip || t in a.fails || t !in s.live then t !in s'.entries else SentSince(s, s', t)
  {
    hide Inv;
    assert Core(s) by { InvIsCore(s); }
    if t in s.live {
      PassHandles(s, order, a, t);
    } else {
      SaveAllKeeps(s, order, a);
      assert Gone(SaveAll(s, order, a), t);
    }
  }

  lemma InvIsCore(s: State)
    requires Inv(s)
    ensures Core(s)
  {
  }

  lemma RespondsConsumes(s: State, s': State, id: ReqId, t: Thread)
    requires Inv(s) && Responds(s, s', id) && Noted(s, t)
    ensures Noted(s', t) || Overtaken(s, s', t)
  {
    hide Counted, Entries, Finished, Repeated;
    FinishedFrame(s, id, false);
    FinishedFrame(s, id, s.saves[id].clearOnFail);
    if s.saves[id].stage.Refreshing? {
      NotRepeated(s, id);
      RepeatedFrame(s, id);
      assert t in Repeated(s, id, true).entries;
    }
  }

  lemma OvertakenConsumes(s: State, s': State, t: Thread)
    requires Inv(s) && Noted(s, t) && Overtaken(s, s', t)
    ensures !Noted(s', t) && !SentSince(s, s', t)
  {
    hide Counted;
  }

  lemma DirectConsumes(s: State, u: Thread, ok: bool, rich: bool, t: Thread)
    requires Inv(s) && Noted(s, t)
    ensures var s' := Direct(s, u, ok, rich); Noted(s', t) || SentSince(s, s', t)
  {
  }

  lemma OthersNote(s: State, s': State, t: Thread)
    requires (exists u, skip :: s' == Delayed(s, u, skip)) || (exists u :: Born(s, s', u) || Died(s, s', u))
      || (exists c :: Elsewhere(s, s', c))
    requires Noted(s, t)
    ensures Noted(s', t)
  {
    if u, skip :| s' == Delayed(s, u, skip) {
    } else {
      OthersEraseNone(s, s');
    }
  }

  lemma StepConsumes(s: State, s': State, t: Thread)
    requires Inv(s) && Next(s, s') && Noted(s, t)
    ensures !Noted(s', t) && !SentSince(s, s', t) ==> PassedBy(s, s', t) || Overtaken(s, s', t)
  {
    hide Inv, Delayed, Direct, SavedAll, Responds, Noted, SentSince, Overtaken;
    if u, ok, rich :| u in s.live && s' == Direct(s, u, ok, rich) {
      DirectConsumes(s, u, ok, rich, t);
    } else if order, a, byTimer :| SavedAll(s, s', order, a, byTimer) {
      PassConsumes(s, s', order, a, byTimer, t);
    } else if id :| Responds(s, s', id) {
      RespondsConsumes(s, s', id, t);
    } else {
      OthersNote(s, s', t);
    }
  }

  // A noted save is dropped, that is no longer waits although nothing newer was sent for it, exactly by a pass that
  // skips or fails the thread or finds it destroyed, or by the repeat of an older save of the thread.
  lemma WhatDrops(run: seq<State>, n: nat, t: Thread)
    requires IsRun(run) && n + 1 < |run| && Noted(run[n], t)
    ensures var s, s' := run[n], run[n + 1];
      !Noted(s', t) && !SentSince(s, s', t) <==> PassedBy(s, s', t) || Overtaken(s, s', t)
  {
    var s, s' := run[n], run[n + 1];
    RunKeeps(run, n);
    hide Inv, Next, Noted, SentSince, Overtaken, SavedAll;
    StepConsumes(s, s', t);
    if order, a, byTimer :|
        SavedAll(s, s', order, a, byTimer) && (t in a.skip || t in a.fails || t !in s.live) {
      PassConsumes(s, s', order, a, byTimer, t);
      GoneIsDropped(s, s', t);
    } else if Overtaken(s, s', t) {
      OvertakenConsumes(s, s', t);
    }
  }

  lemma GoneIsDropped(s: State, s': State, t: Thread)
    requires t !in s'.entries
    ensures !Noted(s', t) && !SentSince(s, s', t)
  {
  }

  ghost predicate DroppedByRepeat(s: State, id: ReqId, t: Thread)
    requires id in s.saves && s.saves[id].stage.Refreshing?
  {
    var m := Repeated(s, id, true);
    t in m.entries && m.entries[t] == s.nextId
    && var s' := Finished(m, s.nextId, false);
    t !in s'.entries && s'.saves == s.saves - {id} && s'.nextId == s.nextId + 1
  }

  lemma RepeatDrops(s: State, id: ReqId, t: Thread)
    requires Noted(s, t) && id in s.saves && s.saves[id].stage.Refreshing? && s.saves[id].thread == t
    requires s.nextId !in s.saves
    ensures DroppedByRepeat(s, id, t)
  {
  }

  // Such a repeat is reached: a rich draft is saved, its file reference has expired, the draft is saved again
  // meanwhile, and then once more with a delay. The repeat takes over the entry, and its response clears it: the last
  // draft is never sent.
  lemma RepeatDropsDelayed(t: Thread)
    ensures exists s ::
              Reachable(s) && t in s.live && Noted(s, t) && s.saves == map[1 := Save(t, true, false, Refreshing)]
              && DroppedByRepeat(s, 1, t)
  {
    var s0 := State(map[], false, map[], map[], 1, {}, {}, map[], map[], map[], 0);
    var s1 := s0.(live := {t}, born := {t});
    assert Reachable(s0) by { assert IsRun([s0]) && [s0][0] == s0; }
    Extended(s0, s1) by { assert Born(s0, s1, t); }
    SavesExtend(s1, t);
    var s2 := Direct(s1, t, true, true);
    assert s2.saves == map[1 := Save(t, true, false, InFlight(false))];
    ResponsesExtend(s2, 1);
    var s3 := Failed(s2, 1, true);
    SavesExtend(s3, t);
    var s4 := Direct(s3, t, true, true);
    assert s4.saves.Keys == {1, 2};
    ResponsesExtend(s4, 2);
    var s5 := Finished(s4, 2, false);
    assert s5.saves == map[1 := Save(t, true, false, Refreshing)] && s5.entries == map[];
    SavesExtend(s5, t);
    var s6 := Delayed(s5, t, false);
    RepeatDrops(s6, 1, t);
  }

  lemma SavesExtend(s: State, t: Thread)
    requires Reachable(s) && t in s.live
    ensures Reachable(Direct(s, t, true, true)) && Reachable(Delayed(s, t, false))
  {
    hide Direct, Delayed;
    Extended(s, Direct(s, t, true, true));
    Extended(s, Delayed(s, t, false));
  }

  lemma ResponsesExtend(s: State, id: ReqId)
    requires Reachable(s) && Sent(s, id)
    ensures Reachable(Finished(s, id, false)) && Reachable(Failed(s, id, true))
  {
    hide Finished, Failed;
    Extended(s, Finished(s, id, false)) by { assert Responds(s, Finished(s, id, false), id); }
    Extended(s, Failed(s, id, true)) by { assert Responds(s, Failed(s, id, true), id); }
  }

  lemma WhatErases(s: State, s': State, t: Thread)
    requires Next(s, s') && t in s.entries
    ensures t in s'.entries || (exists order, a, byTimer :: SavedAll(s, s', order, a, byTimer))
      || (exists id :: Responds(s, s', id))
  {
    hide SavedAll, Responds, Direct, Delayed, Born, Died, Elsewhere;
    if u, ok, rich :| s' == Direct(s, u, ok, rich) {
      DirectErasesNone(s, u, ok, rich, t);
    } else if u, skip :| s' == Delayed(s, u, skip) {
      DelayedErasesNone(s, u, skip, t);
    } else if (exists u :: Born(s, s', u) || Died(s, s', u)) || exists c :: Elsewhere(s, s', c) {
      OthersEraseNone(s, s');
    }
  }

  lemma ThreadErasesNone(s: State, s': State, t: Thread)
    requires Born(s, s', t) || Died(s, s', t)
    ensures s'.entries == s.entries && s'.saves == s.saves && s'.cancelled == s.cancelled
  {
  }

  lemma OthersEraseNone(s: State, s': State)
    requires (exists t :: Born(s, s', t) || Died(s, s', t)) || exists c :: Elsewhere(s, s', c)
    ensures s'.entries == s.entries && s'.saves == s.saves && s'.cancelled == s.cancelled
  {
    hide Born, Died, Elsewhere;
    if t :| Born(s, s', t) || Died(s, s', t) {
      ThreadErasesNone(s, s', t);
    } else {
      var c :| Elsewhere(s, s', c);
      ElsewhereFrame(s, s', c);
    }
  }

  lemma DirectErasesNone(s: State, u: Thread, ok: bool, rich: bool, t: Thread)
    requires t in s.entries
    ensures t in Direct(s, u, ok, rich).entries
  {
  }

  lemma DelayedErasesNone(s: State, u: Thread, skip: bool, t: Thread)
    requires t in s.entries
    ensures t in Delayed(s, u, skip).entries
  {
  }

  // A step that empties the map tells the application that quitting may go on, unless the step is a pass over the
  // entries, which never tells.
  lemma EmptiedByResponse(s: State, s': State)
    requires Inv(s) && Next(s, s') && s.entries != map[] && s'.entries == map[]
    ensures s'.signals == s.signals + 1
      || (s'.signals == s.signals && exists order, a, byTimer :: SavedAll(s, s', order, a, byTimer))
  {
    hide Prepared, Inv, SavedAll, Responds, Next;
    if order, a, byTimer :| SavedAll(s, s', order, a, byTimer) {
      SavedAllKeeps(s, s', order, a, byTimer);
    } else if id :| Responds(s, s', id) {
      EmptiedByFinish(s, s', id);
    } else {
      var t :| t in s.entries;
      WhatErases(s, s', t);
    }
  }

  lemma EmptiedByFinish(s: State, s': State, id: ReqId)
    requires Responds(s, s', id) && s.entries != map[] && s'.entries == map[]
    ensures s'.signals == s.signals + 1
  {
    RespondsFrame(s, s', id);
    hide Finished, Responds;
    if clears :| id in s.saves && s' == Finished(s, id, clears) {
      FinishedFrame(s, id, clears);
    } else {
      NotEmptied(s, s');
    }
  }

  lemma NotEmptied(s: State, s': State)
    requires s.entries != map[]
    ensures s'.entries.Keys == s.entries.Keys ==> s'.entries != map[]
  {
    var t :| t in s.entries;
  }
}
