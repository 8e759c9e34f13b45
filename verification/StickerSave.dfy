/** Saving the sticker sets' order: the reorder request waits for all install and uninstall requests. */
module StickerSave {
  import opened StickerSets

  type ReqId = nat

  datatype Request = Disenable(save: nat) | Reorder(save: nat, order: seq<SetId>)

  // One kind of sets. disenable, reorder: the object's state; 0 is no request. inFlight: the requests that are
  // neither answered nor cancelled. saves: the local orders of all saves so far. sent: every reorder ever sent.
  datatype State = State(
    disenable: set<ReqId>, reorder: ReqId, nextId: ReqId, inFlight: map<ReqId, Request>,
    saves: seq<seq<SetId>>, sent: seq<Request>)

  ghost predicate Init(s: State) { s == State({}, 0, 1, map[], [], []) }

  // stickersSaveOrder of save n.
  function SaveOrder(s: State, n: nat): State
    requires n < |s.saves|
  {
    if |s.saves[n]| < 2 then s
    else
      var r := Reorder(n, s.saves[n]);
      s.(reorder := s.nextId, nextId := s.nextId + 1, inFlight := s.inFlight[s.nextId := r], sent := s.sent + [r])
  }

  // saveStickerSets: requests of the saves before are cancelled, and k install and uninstall requests are sent.
  ghost predicate Started(s: State, m: State, order: seq<SetId>, k: nat) {
    && m.nextId == s.nextId + k
    && (forall id :: id in m.disenable <==> s.nextId <= id < m.nextId)
    && (forall id :: id in m.inFlight <==>
          id in m.disenable || (id in s.inFlight && id !in s.disenable && id != s.reorder))
    && (forall id :: id in m.inFlight ==>
          m.inFlight[id] == if id in m.disenable then Disenable(|s.saves|) else s.inFlight[id])
    && m.reorder == 0 && m.saves == s.saves + [order] && m.sent == s.sent
  }

  ghost predicate Saves(s: State, s': State, order: seq<SetId>, k: nat) {
    exists m :: Started(s, m, order, k) && s' == if k == 0 then SaveOrder(m, |s.saves|) else m
  }

  // stickerSetDisenabled, on success and failure alike.
  ghost predicate Disenabled(s: State, s': State, id: ReqId) {
    && id in s.inFlight && s.inFlight[id].Disenable? && s.inFlight[id].save < |s.saves|
    && var m := s.(inFlight := s.inFlight - {id}, disenable := s.disenable - {id});
       s' == if m.disenable == {} then SaveOrder(m, s.inFlight[id].save) else m
  }

  ghost predicate Reordered(s: State, s': State, id: ReqId) {
    id in s.inFlight && s.inFlight[id].Reorder? && s' == s.(inFlight := s.inFlight - {id}, reorder := 0)
  }

  ghost predicate Next(s: State, s': State) {
    || (exists order, k :: Saves(s, s', order, k))
    || (exists id :: Disenabled(s, s', id))
    || (exists id :: Reordered(s, s', id))
  }

  ghost predicate IsRun(run: seq<State>) {
    run != [] && Init(run[0]) && forall i :: 0 <= i < |run| - 1 ==> Next(run[i], run[i + 1])
  }

  ghost function SentBy(sent: seq<Request>, n: nat): nat {
    if sent == [] then 0 else SentBy(sent[..|sent| - 1], n) + if sent[|sent| - 1].save == n then 1 else 0
  }

  ghost predicate Requests(s: State) {
    && s.nextId > 0
    && (forall id :: id in s.inFlight ==> 0 < id < s.nextId)
    && (forall id :: id in s.disenable <==> id in s.inFlight && s.inFlight[id].Disenable?)
    && (forall id :: id in s.disenable ==> s.inFlight[id].save == |s.saves| - 1)
    && (forall id :: id in s.inFlight && s.inFlight[id].Reorder? ==> id == s.reorder)
    && (s.reorder != 0 ==> s.reorder in s.inFlight && s.inFlight[s.reorder].Reorder?)
    && (s.disenable != {} ==> s.reorder == 0)
  }

  // The last save has sent its reorder once nothing else is outstanding, and not before.
  ghost predicate Log(s: State) {
    && (forall i :: 0 <= i < |s.sent| ==> SentRight(s, s.sent[i]))
    && (forall n :: n >= |s.saves| ==> SentBy(s.sent, n) == 0)
    && (forall n :: 0 <= n < |s.saves| ==> SentBy(s.sent, n) <= if |s.saves[n]| < 2 then 0 else 1)
    && (s.saves != [] ==>
          SentBy(s.sent, |s.saves| - 1) == if s.disenable != {} || |s.saves[|s.saves| - 1]| < 2 then 0 else 1)
  }

  ghost predicate SentRight(s: State, r: Request) { r.Reorder? && r.save < |s.saves| && r.order == s.saves[r.save] }

  ghost predicate Inv(s: State) { Requests(s) && Log(s) }

  // Save n is the last one, everything else has been answered, and its reorder has not been sent.
  ghost predicate Ready(s: State) {
    && Requests(s) && s.saves != [] && s.disenable == {} && s.reorder == 0
    && (forall i :: 0 <= i < |s.sent| ==> SentRight(s, s.sent[i]))
    && (forall n :: n >= |s.saves| ==> SentBy(s.sent, n) == 0)
    && (forall n :: 0 <= n < |s.saves| ==> SentBy(s.sent, n) <= if |s.saves[n]| < 2 then 0 else 1)
    && SentBy(s.sent, |s.saves| - 1) == 0
  }

  lemma SentMore(sent: seq<Request>, r: Request, n: nat)
    ensures SentBy(sent + [r], n) == SentBy(sent, n) + if r.save == n then 1 else 0
  {
    assert (sent + [r])[..|sent|] == sent;
  }

  lemma SaveOrderKeeps(s: State)
    requires Ready(s)
    ensures Inv(SaveOrder(s, |s.saves| - 1))
  {
    var n := |s.saves| - 1;
    var s' := SaveOrder(s, n);
    if |s.saves[n]| >= 2 {
      forall k: nat ensures SentBy(s'.sent, k) == SentBy(s.sent, k) + if k == n then 1 else 0 {
        SentMore(s.sent, Reorder(n, s.saves[n]), k);
      }
    }
  }

  lemma SavesKeeps(s: State, s': State, order: seq<SetId>, k: nat)
    requires Inv(s) && Saves(s, s', order, k)
    ensures Inv(s')
  {
    var m :| Started(s, m, order, k) && s' == if k == 0 then SaveOrder(m, |s.saves|) else m;
    StartedKeeps(s, m, order, k);
    if k == 0 {
      hide Ready, SaveOrder;
      SaveOrderKeeps(m);
    }
  }

  lemma StartedKeeps(s: State, m: State, order: seq<SetId>, k: nat)
    requires Inv(s) && Started(s, m, order, k)
    ensures if k == 0 then Ready(m) else Inv(m)
  {
    assert SentBy(m.sent, |s.saves|) == 0;
    if k > 0 {
      assert s.nextId in m.disenable;
    }
  }

  lemma DisenabledKeeps(s: State, s': State, id: ReqId)
    requires Inv(s) && Disenabled(s, s', id)
    ensures Inv(s')
  {
    var m := s.(inFlight := s.inFlight - {id}, disenable := s.disenable - {id});
    assert id in s.disenable;
    if m.disenable == {} {
      assert Ready(m);
      hide Ready, SaveOrder, Log;
      SaveOrderKeeps(m);
    }
  }

  lemma ReorderedKeeps(s: State, s': State, id: ReqId)
    requires Inv(s) && Reordered(s, s', id)
    ensures Inv(s')
  {
  }

  lemma NextKeeps(s: State, s': State)
    requires Inv(s) && Next(s, s')
    ensures Inv(s')
  {
    hide Inv, Saves, Disenabled, Reordered;
    if order, k :| Saves(s, s', order, k) {
      SavesKeeps(s, s', order, k);
    } else if id :| Disenabled(s, s', id) {
      DisenabledKeeps(s, s', id);
    } else {
      var id :| Reordered(s, s', id);
      ReorderedKeeps(s, s', id);
    }
  }

  lemma {:induction false} RunKeeps(run: seq<State>, n: nat)
    requires IsRun(run) && n < |run|
    ensures Inv(run[n])
  {
    if n == 0 {
    } else {
      RunKeeps(run, n - 1);
      hide Inv, Next;
      NextKeeps(run[n - 1], run[n]);
    }
  }

  // A reorder is never outstanding together with an install or uninstall request, and there is at most one.
  lemma ReorderIsAlone(run: seq<State>, n: nat)
    requires IsRun(run) && n < |run|
    ensures var f := run[n].inFlight;
      forall id, other :: id in f && other in f && f[id].Reorder? ==> other == id
  {
    RunKeeps(run, n);
    var s := run[n];
    forall id, other | id in s.inFlight && other in s.inFlight && s.inFlight[id].Reorder? ensures other == id {
      assert s.disenable == {};
      assert other !in s.disenable;
    }
  }

  // Every save sends at most one reorder, with its own order; the save that no later one superseded has sent it
  // exactly when it has two ids at least and its last install or uninstall request was answered.
  lemma OneReorderPerSave(run: seq<State>, n: nat, k: nat)
    requires IsRun(run) && n < |run| && k < |run[n].saves|
    ensures SentBy(run[n].sent, k) <= 1
    ensures forall i :: 0 <= i < |run[n].sent| && run[n].sent[i].save == k ==>
              run[n].sent[i] == Reorder(k, run[n].saves[k])
    ensures k == |run[n].saves| - 1 ==>
              (SentBy(run[n].sent, k) == 1 <==>
                 |run[n].saves[k]| >= 2 && forall id :: id in run[n].inFlight ==> run[n].inFlight[id] != Disenable(k))
  {
    RunKeeps(run, n);
    var s := run[n];
    forall i | 0 <= i < |s.sent| && s.sent[i].save == k ensures s.sent[i] == Reorder(k, s.saves[k]) {
      assert SentRight(s, s.sent[i]);
    }
    if s.disenable != {} {
      var id :| id in s.disenable;
      assert s.inFlight[id] == Disenable(|s.saves| - 1);
    }
  }

  class ApiWrap {
    var sets: Sets
    var setsOrder: seq<SetId>
    var recent: seq<Document>
    var setDisenableRequests: set<ReqId>
    var reorderRequestId: ReqId
    var nextRequestId: ReqId
    ghost var inFlight: map<ReqId, Request>
    ghost var saves: seq<seq<SetId>>
    ghost var sent: seq<Request>

    ghost function View(): State
      reads this
    {
      State(setDisenableRequests, reorderRequestId, nextRequestId, inFlight, saves, sent)
    }

    constructor (sets: Sets, order: seq<SetId>, recent: seq<Document>)
      ensures Init(View()) && this.sets == sets && setsOrder == order && this.recent == recent
    {
      this.sets, setsOrder, this.recent := sets, order, recent;
      setDisenableRequests, reorderRequestId, nextRequestId := {}, 0, 1;
      inFlight, saves, sent := map[], [], [];
    }

    // The loop over base::take(setDisenableRequests), and the reorder request.
    method CancelRequests()
      modifies this`setDisenableRequests, this`reorderRequestId, this`inFlight
      ensures setDisenableRequests == {} && reorderRequestId == 0
      ensures inFlight == old(inFlight) - old(setDisenableRequests) - {old(reorderRequestId)}
    {
      var taken := setDisenableRequests;
      setDisenableRequests := {};
      ghost var all := taken;
      while taken != {}
        invariant taken <= all && all == old(setDisenableRequests) && setDisenableRequests == {}
        invariant reorderRequestId == old(reorderRequestId)
        invariant inFlight == old(inFlight) - (all - taken)
      {
        var id :| id in taken;
        inFlight := inFlight - {id};
        taken := taken - {id};
      }
      inFlight := inFlight - {reorderRequestId};
      reorderRequestId := 0;
    }

    // Sends one install or uninstall request for each of the sets.
    method SendDisenable(ids: seq<SetId>)
      requires forall id :: id in setDisenableRequests ==> id < nextRequestId
      modifies this`setDisenableRequests, this`nextRequestId, this`inFlight
      ensures nextRequestId == old(nextRequestId) + |ids|
      ensures forall id :: id in setDisenableRequests <==>
                id in old(setDisenableRequests) || old(nextRequestId) <= id < nextRequestId
      ensures forall id :: id in inFlight <==> id in old(inFlight) || old(nextRequestId) <= id < nextRequestId
      ensures forall id :: (id in inFlight ==>
                inFlight[id] == if old(nextRequestId) <= id < nextRequestId then Disenable(|saves|)
                                else old(inFlight)[id])
    {
      var n := 0;
      while n < |ids|
        invariant 0 <= n <= |ids| && nextRequestId == old(nextRequestId) + n
        invariant forall id :: id in setDisenableRequests <==>
                    id in old(setDisenableRequests) || old(nextRequestId) <= id < nextRequestId
        invariant forall id :: id in inFlight <==> id in old(inFlight) || old(nextRequestId) <= id < nextRequestId
        invariant forall id :: (id in inFlight ==>
                    inFlight[id] == if old(nextRequestId) <= id < nextRequestId then Disenable(|saves|)
                                    else old(inFlight)[id])
      {
        setDisenableRequests := setDisenableRequests + {nextRequestId};
        inFlight := inFlight[nextRequestId := Disenable(|saves|)];
        nextRequestId := nextRequestId + 1;
        n := n + 1;
      }
    }

    method StickersSaveOrder(localOrder: seq<SetId>, ghost save: nat)
      requires save < |saves| && saves[save] == localOrder
      modifies this`reorderRequestId, this`nextRequestId, this`inFlight, this`sent
      ensures View() == SaveOrder(old(View()), save)
    {
      if |localOrder| < 2 {
        return;
      }
      reorderRequestId := nextRequestId;
      nextRequestId := nextRequestId + 1;
      inFlight := inFlight[reorderRequestId := Reorder(save, localOrder)];
      sent := sent + [Reorder(save, localOrder)];
    }

    method SaveStickerSets(localOrder: seq<SetId>, localRemoved: seq<SetId>, kind: Kind, now: int)
        returns (ghost known: set<SetId>, ghost uninstall: seq<SetId>, ghost install: seq<SetId>)
      requires Inv(View())
      modifies this
      ensures Inv(View()) && Saves(old(View()), View(), localOrder, |uninstall| + |install|)
      ensures known <= old(sets).Keys && forall id :: id in known <==> Survives(old(sets), localRemoved, id)
      ensures setsOrder == Known(localOrder, known)
      ensures forall id :: (id in sets
                <==> id in known && HasReason(Saved(old(sets)[id], id, localOrder, localRemoved, kind, now)))
      ensures forall id :: id in sets ==> sets[id] == Saved(old(sets)[id], id, localOrder, localRemoved, kind, now)
      ensures RecentWithout(old(recent), old(sets), localRemoved, recent)
      ensures uninstall == Uninstalls(old(sets), localRemoved)
      ensures forall id :: id in install <==>
                id in localOrder && id !in localRemoved && id in known && old(sets)[id].archived
    {
      hide Survives, HasReason, Saved, RecentWithout, Uninstalls, Saves, Inv;
      var order, uninstalls, installs;
      sets, order, recent, uninstalls, installs, known := SaveSets(sets, recent, localOrder, localRemoved, kind, now);
      uninstall, install := uninstalls, installs;
      setsOrder := order;
      SendRequests(localOrder, uninstalls, installs);
    }

    method SendRequests(localOrder: seq<SetId>, uninstalls: seq<SetId>, installs: seq<SetId>)
      requires Inv(View())
      modifies this`setDisenableRequests, this`reorderRequestId, this`nextRequestId
      modifies this`inFlight, this`saves, this`sent
      ensures Inv(View()) && Saves(old(View()), View(), localOrder, |uninstalls| + |installs|)
    {
      ghost var s, k := View(), |uninstalls| + |installs|;
      BelowNext(s);
      hide Inv;
      CancelRequests();
      SendDisenable(uninstalls);
      SendDisenable(installs);
      saves := saves + [localOrder];
      ghost var m := View();
      StartedNow(s, m, localOrder, k);
      SentSome(s, m, localOrder, k);
      hide Started;
      if setDisenableRequests == {} {
        StickersSaveOrder(localOrder, |s.saves|);
      }
      assert Saves(s, View(), localOrder, k);
      SavesKeeps(s, View(), localOrder, k);
    }

    // The done and fail handler of an install or uninstall request of save.
    method StickerSetDisenabled(requestId: ReqId, localOrder: seq<SetId>, ghost save: nat)
      requires Inv(View()) && requestId in inFlight && inFlight[requestId] == Disenable(save)
      requires save < |saves| && saves[save] == localOrder
      modifies this
      ensures Inv(View()) && Disenabled(old(View()), View(), requestId)
    {
      hide Inv;
      ghost var s := View();
      inFlight := inFlight - {requestId};
      setDisenableRequests := setDisenableRequests - {requestId};
      if setDisenableRequests == {} {
        StickersSaveOrder(localOrder, save);
      }
      DisenabledKeeps(s, View(), requestId);
    }

    method ReorderAnswered(requestId: ReqId)
      requires Inv(View()) && requestId in inFlight && inFlight[requestId].Reorder?
      modifies this`inFlight, this`reorderRequestId
      ensures Inv(View()) && Reordered(old(View()), View(), requestId)
    {
      hide Inv;
      ghost var s := View();
      inFlight := inFlight - {requestId};
      reorderRequestId := 0;
      ReorderedKeeps(s, View(), requestId);
    }
  }

  lemma BelowNext(s: State)
    requires Inv(s)
    ensures forall id :: id in s.inFlight ==> id < s.nextId
  {
  }

  lemma StartedNow(s: State, m: State, order: seq<SetId>, k: nat)
    requires m.nextId == s.nextId + k && m.reorder == 0 && m.saves == s.saves + [order] && m.sent == s.sent
    requires forall id :: id in m.disenable <==> s.nextId <= id < m.nextId
    requires forall id :: id in s.inFlight ==> id < s.nextId
    requires forall id :: (id in m.inFlight <==>
               id in s.inFlight - s.disenable - {s.reorder} || s.nextId <= id < m.nextId)
    requires forall id :: (id in m.inFlight ==>
               m.inFlight[id] == if s.nextId <= id < m.nextId then Disenable(|s.saves|) else s.inFlight[id])
    ensures Started(s, m, order, k)
  {
  }

  lemma SentSome(s: State, m: State, order: seq<SetId>, k: nat)
    requires Started(s, m, order, k)
    ensures m.disenable == {} <==> k == 0
  {
    if m.disenable != {} {
      var id :| id in m.disenable;
    }
    if k > 0 {
      assert s.nextId in m.disenable;
    }
  }
}
