/** ApiWrap's web page lookups as they run: temporary negative ids, then the real ones. */
module WebPagesApi {
  import opened WebPagesProtocol
  import opened Wrappers

  datatype IndexAndMessageIds = IndexAndMessageIds(index: int, ids: seq<nat>)

  type ByChannel = map<nat, IndexAndMessageIds>

  function SetOf(q: seq<nat>): set<nat> { set x | x in q }

  // The temporary id of a scope.
  function Temporary(byChannel: ByChannel, c: Scope): int
    requires c.None? || c.value in byChannel
  {
    if c.None? then -1 else -byChannel[c.value].index - 2
  }

  // Channel indices are a permutation of 0 .. n - 1.
  ghost predicate Indexed(byChannel: ByChannel) {
    && (forall c :: c in byChannel ==> 0 <= byChannel[c].index < |byChannel|)
    && (forall c, d :: c in byChannel && d in byChannel && byChannel[c].index == byChannel[d].index ==> c == d)
  }

  // emplace, or push_back to the channel's ids.
  function AddTo(byChannel: ByChannel, c: nat, msg: nat): ByChannel {
    byChannel[c := if c in byChannel then byChannel[c].(ids := byChannel[c].ids + [msg])
                   else IndexAndMessageIds(|byChannel|, [msg])]
  }

  function IndexOf(byChannel: ByChannel, c: nat): int { if c in byChannel then byChannel[c].index else -1 }

  lemma AddToKeepsIndices(byChannel: ByChannel, c: nat, msg: nat)
    requires Indexed(byChannel)
    ensures Indexed(AddTo(byChannel, c, msg))
    ensures forall d :: d in byChannel ==> AddTo(byChannel, c, msg)[d].index == byChannel[d].index
  {
    if c in byChannel {
      assert AddTo(byChannel, c, msg).Keys == byChannel.Keys;
      assert |AddTo(byChannel, c, msg)| == |byChannel|;
    }
  }

  // After the first loop has visited the pages in done: the temporary ids and the collected message ids.
  ghost predicate Marked(pending: map<Page, int>, info: map<Page, Info>, items: map<Page, Item>, t: int,
                         done: set<Page>, marked: map<Page, int>, byChannel: ByChannel) {
    && marked.Keys == pending.Keys
    && forall p :: p in pending ==>
         if p in done && Due(pending, info, items, t, p) then
           (items[p].scope.None? || items[p].scope.value in byChannel)
           && marked[p] == Temporary(byChannel, items[p].scope)
         else marked[p] == pending[p]
  }

  function IdsOf(plain: seq<nat>, byChannel: ByChannel, c: Scope): seq<nat> {
    if c.None? then plain else if c.value in byChannel then byChannel[c.value].ids else []
  }

  ghost predicate Gathered(pending: map<Page, int>, info: map<Page, Info>, items: map<Page, Item>, t: int,
                           done: set<Page>, plain: seq<nat>, byChannel: ByChannel) {
    && (forall c: Scope ::
          SetOf(IdsOf(plain, byChannel, c)) == Messages(DueIn(pending, info, items, t, c) * done, items))
    && (forall c :: c in byChannel ==> byChannel[c].ids != [])
  }

  ghost predicate Collected(pending: map<Page, int>, info: map<Page, Info>, items: map<Page, Item>, t: int,
                            done: set<Page>, marked: map<Page, int>, plain: seq<nat>, byChannel: ByChannel) {
    && Indexed(byChannel)
    && Marked(pending, info, items, t, done, marked, byChannel)
    && Gathered(pending, info, items, t, done, plain, byChannel)
  }

  lemma CollectOne(pending: map<Page, int>, info: map<Page, Info>, items: map<Page, Item>, t: int, done: set<Page>,
                   p: Page)
    requires p in pending && Due(pending, info, items, t, p)
    ensures forall c: Scope :: (DueIn(pending, info, items, t, c) * (done + {p})
      == DueIn(pending, info, items, t, c) * done + (if c == items[p].scope then {p} else {}))
    ensures forall c: Scope :: (Messages(DueIn(pending, info, items, t, c) * (done + {p}), items)
      == Messages(DueIn(pending, info, items, t, c) * done, items)
         + (if c == items[p].scope then {items[p].msg} else {}))
  {
    forall c: Scope
      ensures DueIn(pending, info, items, t, c) * (done + {p})
        == DueIn(pending, info, items, t, c) * done + (if c == items[p].scope then {p} else {})
    {
    }
  }

  lemma SkipOne(pending: map<Page, int>, info: map<Page, Info>, items: map<Page, Item>, t: int, done: set<Page>,
                p: Page)
    requires !Due(pending, info, items, t, p)
    ensures forall c: Scope ::
              DueIn(pending, info, items, t, c) * (done + {p}) == DueIn(pending, info, items, t, c) * done
  {
  }

  // The least time until one of the visited, not yet requested pages is due.
  ghost predicate WaitIs(pending: map<Page, int>, info: map<Page, Info>, t: int, done: set<Page>, wait: Option<int>)
    requires pending.Keys <= info.Keys
  {
    match wait
    case None => forall p :: p in pending && p in done && pending[p] <= 0 ==> info[p].pendingTill <= t
    case Some(m) =>
      && m > 0
      && (exists p :: p in pending && p in done && pending[p] <= 0 && m == info[p].pendingTill - t)
      && (forall p :: p in pending && p in done && pending[p] <= 0 && t < info[p].pendingTill ==>
            m <= info[p].pendingTill - t)
  }

  lemma WaitStep(pending: map<Page, int>, info: map<Page, Info>, t: int, done: set<Page>, wait: Option<int>, p: Page)
    requires pending.Keys <= info.Keys && WaitIs(pending, info, t, done, wait) && p in pending
    ensures var m := info[p].pendingTill - t;
      if pending[p] <= 0 && m > 0 then
        WaitIs(pending, info, t, done + {p}, if wait.Some? && wait.value <= m then wait else Some(m))
      else WaitIs(pending, info, t, done + {p}, wait)
  {
    if wait.Some? {
      var q :| q in pending && q in done && pending[q] <= 0 && wait.value == info[q].pendingTill - t;
      assert q in done + {p};
    }
    assert p in done + {p};
  }

  lemma CollectedIndexed(pending: map<Page, int>, info: map<Page, Info>, items: map<Page, Item>, t: int,
                         marked: map<Page, int>, plain: seq<nat>, byChannel: ByChannel)
    requires Collected(pending, info, items, t, pending.Keys, marked, plain, byChannel)
    ensures Indexed(byChannel)
  {
  }

  lemma CollectNone(pending: map<Page, int>, info: map<Page, Info>, items: map<Page, Item>, t: int)
    ensures Collected(pending, info, items, t, {}, pending, [], map[])
  {
    assert forall c: Scope :: DueIn(pending, info, items, t, c) * {} == {};
  }

  lemma CollectedSkip(pending: map<Page, int>, info: map<Page, Info>, items: map<Page, Item>, t: int, done: set<Page>,
                      marked: map<Page, int>, plain: seq<nat>, byChannel: ByChannel, p: Page)
    requires Collected(pending, info, items, t, done, marked, plain, byChannel)
    requires !Due(pending, info, items, t, p)
    ensures Collected(pending, info, items, t, done + {p}, marked, plain, byChannel)
  {
    SkipOne(pending, info, items, t, done, p);
    hide DueIn, Messages;
  }

  lemma MarkedOne(pending: map<Page, int>, info: map<Page, Info>, items: map<Page, Item>, t: int, done: set<Page>,
                  marked: map<Page, int>, byChannel: ByChannel, p: Page, byChannel': ByChannel)
    requires Marked(pending, info, items, t, done, marked, byChannel)
    requires p in pending && Due(pending, info, items, t, p)
    requires items[p].scope.None? || items[p].scope.value in byChannel'
    requires forall c :: c in byChannel ==> c in byChannel' && byChannel'[c].index == byChannel[c].index
    ensures Marked(pending, info, items, t, done + {p}, marked[p := Temporary(byChannel', items[p].scope)], byChannel')
  {
  }

  lemma CollectedPlain(pending: map<Page, int>, info: map<Page, Info>, items: map<Page, Item>, t: int,
                       done: set<Page>, marked: map<Page, int>, plain: seq<nat>, byChannel: ByChannel, p: Page)
    requires Collected(pending, info, items, t, done, marked, plain, byChannel)
    requires p in pending && Due(pending, info, items, t, p) && items[p].scope.None?
    ensures Collected(pending, info, items, t, done + {p}, marked[p := -1], plain + [items[p].msg], byChannel)
  {
    MarkedOne(pending, info, items, t, done, marked, byChannel, p, byChannel);
    GatheredOne(pending, info, items, t, done, plain, byChannel, p, plain + [items[p].msg], byChannel);
    hide Gathered, Marked, Indexed, Due;
  }

  lemma CollectedChannel(pending: map<Page, int>, info: map<Page, Info>, items: map<Page, Item>, t: int,
                         done: set<Page>, marked: map<Page, int>, plain: seq<nat>, byChannel: ByChannel, p: Page)
    requires Collected(pending, info, items, t, done, marked, plain, byChannel)
    requires p in pending && Due(pending, info, items, t, p) && items[p].scope.Some?
    ensures var c := items[p].scope.value;
      var byChannel' := AddTo(byChannel, c, items[p].msg);
      Collected(pending, info, items, t, done + {p}, marked[p := -IndexOf(byChannel', c) - 2], plain, byChannel')
  {
    var c := items[p].scope.value;
    var byChannel' := AddTo(byChannel, c, items[p].msg);
    AddToKeepsIndices(byChannel, c, items[p].msg);
    AddedIds(plain, byChannel, c, items[p].msg);
    hide Gathered, Marked, Indexed, Due;
    MarkedOne(pending, info, items, t, done, marked, byChannel, p, byChannel');
    NoneWithoutIds(pending, info, items, t, done, plain, byChannel, c, items[p].msg);
    hide AddTo, IdsOf;
    GatheredOne(pending, info, items, t, done, plain, byChannel, p, plain, byChannel');
  }

  lemma AddedIds(plain: seq<nat>, byChannel: ByChannel, c: nat, msg: nat)
    ensures forall d: Scope :: (IdsOf(plain, AddTo(byChannel, c, msg), d)
      == IdsOf(plain, byChannel, d) + (if d == Some(c) then [msg] else []))
  {
  }

  lemma NoneWithoutIds(pending: map<Page, int>, info: map<Page, Info>, items: map<Page, Item>, t: int,
                       done: set<Page>, plain: seq<nat>, byChannel: ByChannel, c: nat, msg: nat)
    requires Gathered(pending, info, items, t, done, plain, byChannel)
    ensures forall d :: d in AddTo(byChannel, c, msg) ==> AddTo(byChannel, c, msg)[d].ids != []
  {
    hide IdsOf, SetOf, Messages, DueIn;
  }

  lemma GatheredOne(pending: map<Page, int>, info: map<Page, Info>, items: map<Page, Item>, t: int, done: set<Page>,
                    plain: seq<nat>, byChannel: ByChannel, p: Page, plain': seq<nat>, byChannel': ByChannel)
    requires Gathered(pending, info, items, t, done, plain, byChannel)
    requires p in pending && Due(pending, info, items, t, p)
    requires forall c: Scope :: (IdsOf(plain', byChannel', c)
      == IdsOf(plain, byChannel, c) + (if c == items[p].scope then [items[p].msg] else []))
    requires forall c :: c in byChannel' ==> byChannel'[c].ids != []
    ensures Gathered(pending, info, items, t, done + {p}, plain', byChannel')
  {
    CollectOne(pending, info, items, t, done, p);
    hide DueIn, Messages, Due, IdsOf;
    forall c: Scope
      ensures SetOf(IdsOf(plain', byChannel', c)) == Messages(DueIn(pending, info, items, t, c) * (done + {p}), items)
    {
      var ids, more := IdsOf(plain, byChannel, c), if c == items[p].scope then [items[p].msg] else [];
      assert SetOf(ids + more) == SetOf(ids) + SetOf(more);
      assert SetOf(more) == if c == items[p].scope then {items[p].msg} else {};
    }
  }

  // One turn of the first loop.
  method CollectPage(pending: map<Page, int>, info: map<Page, Info>, items: map<Page, Item>, t: int,
                     ghost done: set<Page>, p: Page, marked0: map<Page, int>, plain0: seq<nat>, byChannel0: ByChannel,
                     wait0: Option<int>)
      returns (marked: map<Page, int>, plain: seq<nat>, byChannel: ByChannel, wait: Option<int>)
    requires pending.Keys <= info.Keys && p in pending && marked0.Keys == pending.Keys && marked0[p] == pending[p]
    requires Collected(pending, info, items, t, done, marked0, plain0, byChannel0)
    requires WaitIs(pending, info, t, done, wait0)
    ensures Collected(pending, info, items, t, done + {p}, marked, plain, byChannel)
    ensures WaitIs(pending, info, t, done + {p}, wait)
    ensures marked.Keys == marked0.Keys && forall q :: q in marked && q != p ==> marked[q] == marked0[q]
  {
    hide Collected, WaitIs, DueIn, Messages, AddTo;
    marked, plain, byChannel, wait := marked0, plain0, byChannel0, wait0;
    WaitStep(pending, info, t, done, wait, p);
    if marked[p] <= 0 && info[p].pendingTill <= t && p in items {
      if items[p].scope.Some? {
        CollectedChannel(pending, info, items, t, done, marked, plain, byChannel, p);
        var channel := items[p].scope.value;
        byChannel := AddTo(byChannel, channel, items[p].msg);
        marked := marked[p := -IndexOf(byChannel, channel) - 2];
      } else {
        CollectedPlain(pending, info, items, t, done, marked, plain, byChannel, p);
        plain := plain + [items[p].msg];
        marked := marked[p := -1];
      }
    } else {
      CollectedSkip(pending, info, items, t, done, marked, plain, byChannel, p);
      if marked[p] <= 0 && t < info[p].pendingTill {
        var m := info[p].pendingTill - t;
        wait := if wait.Some? && wait.value <= m then wait else Some(m);
      }
    }
  }

  // The first loop: due pages get the temporary id of their scope; later ones set the timer.
  method Collect(pending: map<Page, int>, info: map<Page, Info>, items: map<Page, Item>, t: int)
      returns (marked: map<Page, int>, plain: seq<nat>, byChannel: ByChannel, wait: Option<int>)
    requires pending.Keys <= info.Keys
    ensures Collected(pending, info, items, t, pending.Keys, marked, plain, byChannel)
    ensures WaitIs(pending, info, t, pending.Keys, wait)
  {
    marked, plain, byChannel, wait := pending, [], map[], None;
    var left := pending.Keys;
    CollectNone(pending, info, items, t);
    assert pending.Keys - left == {};
    hide Collected, WaitIs;
    while left != {}
      invariant left <= pending.Keys && marked.Keys == pending.Keys
      invariant forall p :: p in left ==> marked[p] == pending[p]
      invariant Collected(pending, info, items, t, pending.Keys - left, marked, plain, byChannel)
      invariant WaitIs(pending, info, t, pending.Keys - left, wait)
    {
      var p :| p in left;
      ghost var done := pending.Keys - left;
      assert pending.Keys - (left - {p}) == done + {p};
      marked, plain, byChannel, wait :=
        CollectPage(pending, info, items, t, done, p, marked, plain, byChannel, wait);
      left := left - {p};
    }
    assert pending.Keys - left == pending.Keys;
  }

  // The requests sent so far: one per scope in ids, remembered by channel index.

  ghost predicate Sending(s: State, items: map<Page, Item>, t: int, ids: map<Scope, ReqId>, next: ReqId,
                          sent: map<ReqId, Request>)
  {
    && s.nextId <= next
    && (forall c :: c in ids ==> s.nextId <= ids[c] < next)
    && (forall c, d :: c in ids && d in ids && ids[c] == ids[d] ==> c == d)
    && (forall id :: id in s.sent ==> id < s.nextId)
    && (forall id :: id in sent <==> id in s.sent || id in ids.Values)
    && (forall id :: id in s.sent ==> sent[id] == s.sent[id])
    && (forall c :: c in ids ==> sent[ids[c]] == RequestFor(s, items, t, c))
  }

  lemma SendOne(s: State, items: map<Page, Item>, t: int, ids: map<Scope, ReqId>, next: ReqId,
                sent: map<ReqId, Request>, c: Scope)
    requires Sending(s, items, t, ids, next, sent) && c !in ids
    ensures Sending(s, items, t, ids[c := next], next + 1, sent[next := RequestFor(s, items, t, c)])
  {
    hide RequestFor;
    NewValue(ids, c, next);
  }

  ghost predicate Indexes(byChannel: ByChannel, reqs: seq<ReqId>, left: set<nat>, ids: map<Scope, ReqId>) {
    && Indexed(byChannel) && |reqs| == |byChannel|
    && (forall c :: c in byChannel ==> (Some(c) in ids <==> c !in left))
    && (forall c :: c in byChannel && c !in left ==> reqs[byChannel[c].index] == ids[Some(c)])
    && (forall c: Scope :: c in ids && c.Some? ==> c.value in byChannel)
  }

  lemma IndexOne(byChannel: ByChannel, reqs: seq<ReqId>, left: set<nat>, ids: map<Scope, ReqId>, c: nat, next: ReqId)
    requires Indexes(byChannel, reqs, left, ids) && c in left && c in byChannel
    ensures Some(c) !in ids && 0 <= byChannel[c].index < |reqs|
    ensures Indexes(byChannel, reqs[byChannel[c].index := next], left - {c}, ids[Some(c) := next])
  {
  }

  lemma SendingStart(s: State, items: map<Page, Item>, t: int)
    requires Inv(s)
    ensures Sending(s, items, t, map[], s.nextId, s.sent)
  {
  }

  lemma IndexesStart(byChannel: ByChannel, reqs: seq<ReqId>, ids: map<Scope, ReqId>)
    requires Indexed(byChannel) && |reqs| == |byChannel| && ids.Keys <= {None}
    ensures Indexes(byChannel, reqs, byChannel.Keys, ids)
  {
  }

  method SendAll(ghost s: State, items: map<Page, Item>, ghost t: int, plain: seq<nat>, byChannel: ByChannel,
                 nextId: ReqId)
      returns (requestId: ReqId, reqs: seq<ReqId>, next: ReqId,
               ghost ids: map<Scope, ReqId>, ghost sent: map<ReqId, Request>)
    requires Inv(s) && nextId == s.nextId && Indexed(byChannel)
    ensures PlainRequest(plain, ids, requestId) && Indexes(byChannel, reqs, {}, ids)
    ensures Sending(s, items, t, ids, next, sent)
  {
    requestId, next, ids, sent := 0, nextId, map[], s.sent;
    SendingStart(s, items, t);
    reqs := seq(|byChannel|, _ => 0);
    var left := byChannel.Keys;
    hide RequestFor, Sending, Inv;
    if plain != [] {
      SendOne(s, items, t, ids, next, sent, None);
      requestId := next;
      ids := ids[None := requestId];
      sent := sent[requestId := RequestFor(s, items, t, None)];
      next := next + 1;
    }
    IndexesStart(byChannel, reqs, ids);
    hide Indexes, Indexed;
    while left != {}
      invariant left <= byChannel.Keys && Sending(s, items, t, ids, next, sent) && Indexes(byChannel, reqs, left, ids)
      invariant PlainRequest(plain, ids, requestId)
    {
      var c :| c in left;
      IndexOne(byChannel, reqs, left, ids, c, next);
      SendOne(s, items, t, ids, next, sent, Some(c));
      reqs := reqs[byChannel[c].index := next];
      ids := ids[Some(c) := next];
      sent := sent[next := RequestFor(s, items, t, Some(c))];
      next := next + 1;
      left := left - {c};
    }
  }

  // The last loop's value for a page.
  function Real(temporary: int, requestId: ReqId, reqs: seq<ReqId>): int
    requires temporary < -1 ==> -temporary - 2 < |reqs|
  {
    if temporary >= 0 then temporary else if temporary == -1 then requestId else reqs[-temporary - 2]
  }

  ghost function Replaced(marked: map<Page, int>, requestId: ReqId, reqs: seq<ReqId>): map<Page, int>
    requires InRange(marked, reqs)
  {
    map p | p in marked :: Real(marked[p], requestId, reqs)
  }

  ghost predicate InRange(marked: map<Page, int>, reqs: seq<ReqId>) {
    forall p :: p in marked && marked[p] < -1 ==> -marked[p] - 2 < |reqs|
  }

  method ReplaceTemporary(marked: map<Page, int>, requestId: ReqId, reqs: seq<ReqId>) returns (r: map<Page, int>)
    requires InRange(marked, reqs)
    ensures r == Replaced(marked, requestId, reqs)
  {
    r := marked;
    var left := marked.Keys;
    while left != {}
      invariant left <= marked.Keys && r.Keys == marked.Keys
      invariant forall p :: p in marked ==> r[p] == if p in left then marked[p] else Real(marked[p], requestId, reqs)
    {
      var p :| p in left;
      if r[p] < 0 {
        if r[p] == -1 {
          r := r[p := requestId];
        } else {
          r := r[p := reqs[-r[p] - 2]];
        }
      }
      left := left - {p};
    }
  }

  lemma DueHasMessages(s: State, items: map<Page, Item>, t: int, plain: seq<nat>, byChannel: ByChannel, c: Scope)
    requires Gathered(s.pending, s.info, items, t, s.pending.Keys, plain, byChannel)
    ensures DueIn(s.pending, s.info, items, t, c) != {} <==> IdsOf(plain, byChannel, c) != []
    ensures c.Some? ==> (DueIn(s.pending, s.info, items, t, c) != {} <==> c.value in byChannel)
  {
    var due := DueIn(s.pending, s.info, items, t, c);
    var ids := IdsOf(plain, byChannel, c);
    assert due * s.pending.Keys == due;
    if due != {} {
      var p :| p in due;
      assert items[p].msg in Messages(due, items);
      assert items[p].msg in SetOf(ids);
    }
    if ids != [] {
      assert ids[0] in SetOf(ids);
    }
  }

  // A temporary id is in range, and replacing it gives the page the request of its scope.
  lemma ReplacedPage(s: State, items: map<Page, Item>, t: int, marked: map<Page, int>, byChannel: ByChannel,
                     ids: map<Scope, ReqId>, requestId: ReqId, reqs: seq<ReqId>, p: Page)
    requires Inv(s) && Marked(s.pending, s.info, items, t, s.pending.Keys, marked, byChannel)
    requires Indexes(byChannel, reqs, {}, ids) && (None in ids ==> requestId == ids[None])
    requires p in s.pending && (Due(s.pending, s.info, items, t, p) ==> items[p].scope in ids)
    ensures marked[p] < -1 ==> -marked[p] - 2 < |reqs|
    ensures Real(marked[p], requestId, reqs) == NewId(s, items, t, ids, p)
    ensures ids == map[] ==> marked[p] == s.pending[p]
  {
  }

  lemma DueScopes(s: State, items: map<Page, Item>, t: int, plain: seq<nat>, byChannel: ByChannel, reqs: seq<ReqId>,
                  ids: map<Scope, ReqId>)
    requires Gathered(s.pending, s.info, items, t, s.pending.Keys, plain, byChannel)
    requires Indexes(byChannel, reqs, {}, ids) && (if plain == [] then None !in ids else None in ids)
    ensures forall c: Scope :: c in ids <==> DueIn(s.pending, s.info, items, t, c) != {}
  {
    forall c: Scope ensures c in ids <==> DueIn(s.pending, s.info, items, t, c) != {} {
      DueHasMessages(s, items, t, plain, byChannel, c);
    }
  }

  // The id that the first loop's -1 stands for.
  ghost predicate PlainRequest(plain: seq<nat>, ids: map<Scope, ReqId>, requestId: ReqId) {
    if plain == [] then None !in ids && requestId == 0 else None in ids && ids[None] == requestId && requestId > 0
  }

  ghost predicate Renumbered(s: State, items: map<Page, Item>, t: int, ids: map<Scope, ReqId>,
                             pending: map<Page, int>)
  {
    && pending == (map p | p in s.pending :: NewId(s, items, t, ids, p))
    && forall c: Scope :: c in ids <==> DueIn(s.pending, s.info, items, t, c) != {}
  }

  lemma ReplacedPages(s: State, items: map<Page, Item>, t: int, marked: map<Page, int>, plain: seq<nat>,
                      byChannel: ByChannel, ids: map<Scope, ReqId>, requestId: ReqId, reqs: seq<ReqId>)
    requires Inv(s) && Collected(s.pending, s.info, items, t, s.pending.Keys, marked, plain, byChannel)
    requires Indexes(byChannel, reqs, {}, ids) && PlainRequest(plain, ids, requestId)
    ensures InRange(marked, reqs) && Renumbered(s, items, t, ids, Replaced(marked, requestId, reqs))
    ensures ids == map[] ==> marked == s.pending
  {
    hide Inv, Indexes, DueIn, Gathered, Indexed, NewId, Real;
    DueScopes(s, items, t, plain, byChannel, reqs, ids);
    forall p | p in s.pending
      ensures marked[p] < -1 ==> -marked[p] - 2 < |reqs|
      ensures Real(marked[p], requestId, reqs) == NewId(s, items, t, ids, p)
      ensures ids == map[] ==> marked[p] == s.pending[p]
    {
      DueInScope(s, items, t, p);
      ReplacedPage(s, items, t, marked, byChannel, ids, requestId, reqs, p);
    }
  }

  lemma SentIsResolved(s: State, items: map<Page, Item>, t: int, ids: map<Scope, ReqId>, next: ReqId,
                       sent: map<ReqId, Request>, pending: map<Page, int>)
    requires Sending(s, items, t, ids, next, sent) && Renumbered(s, items, t, ids, pending)
    ensures Resolved(s, State(pending, s.info, sent, next), items, t, ids)
  {
    hide DueIn, RequestFor, NewId;
  }

  lemma DueInScope(s: State, items: map<Page, Item>, t: int, p: Page)
    requires p in s.pending
    ensures Due(s.pending, s.info, items, t, p) ==> DueIn(s.pending, s.info, items, t, items[p].scope) != {}
  {
    if Due(s.pending, s.info, items, t, p) {
      assert p in DueIn(s.pending, s.info, items, t, items[p].scope);
    }
  }

  lemma NothingSent(byChannel: ByChannel, ids: map<Scope, ReqId>)
    requires Indexes(byChannel, [], {}, ids) && None !in ids
    ensures ids == map[]
  {
    assert byChannel == map[] by {
      assert |byChannel| == 0;
    }
    assert forall c :: c !in ids;
  }

  lemma NothingToReplace(s: State, marked: map<Page, int>, requestId: ReqId, reqs: seq<ReqId>)
    requires Inv(s) && marked == s.pending && InRange(marked, reqs)
    ensures marked == Replaced(marked, requestId, reqs)
  {
  }

  // The last loop of resolveWebPages, run when something was sent.
  method ReplaceSent(ghost s: State, items: map<Page, Item>, ghost t: int, marked: map<Page, int>,
                     ghost plain: seq<nat>,
                     ghost byChannel: ByChannel, ghost ids: map<Scope, ReqId>, requestId: ReqId, reqs: seq<ReqId>)
      returns (pending: map<Page, int>)
    requires Inv(s) && Collected(s.pending, s.info, items, t, s.pending.Keys, marked, plain, byChannel)
    requires Indexes(byChannel, reqs, {}, ids) && PlainRequest(plain, ids, requestId)
    ensures Renumbered(s, items, t, ids, pending)
  {
    hide Inv, Renumbered, Indexes, Collected, InRange;
    ReplacedPages(s, items, t, marked, plain, byChannel, ids, requestId, reqs);
    if requestId != 0 || reqs != [] {
      pending := ReplaceTemporary(marked, requestId, reqs);
    } else {
      pending := marked;
      NothingSent(byChannel, ids);
      NothingToReplace(s, marked, requestId, reqs);
    }
  }

  function Ended(i: Info): Info { if i.pendingTill > 0 then i.(pendingTill := 0, failed := true) else i }

  method RemovePages(pending: map<Page, int>, updated: map<Page, Info>, req: ReqId)
      returns (r: map<Page, int>, info: map<Page, Info>)
    requires pending.Keys <= updated.Keys
    ensures r == map p | p in pending && pending[p] != req :: pending[p]
    ensures info.Keys == updated.Keys
    ensures forall p :: p in updated ==>
              info[p] == if p in pending && pending[p] == req then Ended(updated[p]) else updated[p]
  {
    r, info := pending, updated;
    var left := pending.Keys;
    while left != {}
      invariant left <= pending.Keys && info.Keys == updated.Keys
      invariant r == map p | p in pending && (p in left || pending[p] != req) :: pending[p]
      invariant forall p :: (p in updated ==>
        info[p] == if p in pending && p !in left && pending[p] == req then Ended(updated[p]) else updated[p])
    {
      var p :| p in left;
      if r[p] == req {
        if info[p].pendingTill > 0 {
          info := info[p := info[p].(pendingTill := 0, failed := true)];
        }
        r := r - {p};
      }
      left := left - {p};
    }
  }

  lemma RemovedIsGot(s: State, s': State, req: ReqId, updated: map<Page, Info>)
    requires req in s.sent && s.pending.Keys <= updated.Keys
    requires s' == s.(pending := map p | p in s.pending && s.pending[p] != req :: s.pending[p], info := s'.info)
    requires s'.info.Keys == updated.Keys
    requires forall p :: (p in updated ==>
      s'.info[p] == if p in s.pending && s.pending[p] == req then Ended(updated[p]) else updated[p])
    ensures Got(s, s', req, updated)
  {
  }

  class ApiWrap {
    var webPagesPending: map<Page, int>
    var pages: map<Page, Info>
    var nextRequestId: ReqId
    ghost var sent: map<ReqId, Request>

    ghost function View(): State reads this { State(webPagesPending, pages, sent, nextRequestId) }

    constructor (pages: map<Page, Info>)
      ensures Inv(View()) && Init(View()) && this.pages == pages
    {
      webPagesPending, this.pages, nextRequestId, sent := map[], pages, 1, map[];
    }

    method RequestWebPageDelayed(page: Page)
      requires page in pages
      modifies this`webPagesPending
      ensures Delayed(old(View()), View(), page)
    {
      if pages[page].failed || pages[page].pendingTill == 0 {
        return;
      }
      if page !in webPagesPending {
        webPagesPending := webPagesPending[page := 0];
      }
    }

    method ClearWebPageRequest(page: Page)
      modifies this`webPagesPending
      ensures Cleared(old(View()), View(), {page}) && webPagesPending == old(webPagesPending) - {page}
    {
      webPagesPending := webPagesPending - {page};
    }

    method ClearWebPageRequests()
      modifies this`webPagesPending
      ensures Cleared(old(View()), View(), old(webPagesPending.Keys)) && webPagesPending == map[]
    {
      webPagesPending := map[];
    }

    // wait: how long to set the timer for, if at all.
    method ResolveWebPages(items: map<Page, Item>, t: int) returns (wait: Option<int>, ghost ids: map<Scope, ReqId>)
      requires Inv(View())
      modifies this`webPagesPending, this`nextRequestId, this`sent
      ensures Inv(View()) && Resolved(old(View()), View(), items, t, ids)
      ensures WaitIs(old(webPagesPending), pages, t, old(webPagesPending.Keys), wait)
    {
      ghost var s := View();
      assert webPagesPending.Keys <= pages.Keys;
      hide Inv, Resolved, WaitIs, Sending, Indexes, Collected, PlainRequest, Renumbered;
      assert Inv(s);
      var marked, plain, byChannel;
      marked, plain, byChannel, wait := Collect(webPagesPending, pages, items, t);
      var requestId, reqs, next;
      ghost var sent';
      assert Indexed(byChannel) by { CollectedIndexed(s.pending, s.info, items, t, marked, plain, byChannel); }
      requestId, reqs, next, ids, sent' := SendAll(s, items, t, plain, byChannel, nextRequestId);
      webPagesPending := ReplaceSent(s, items, t, marked, plain, byChannel, ids, requestId, reqs);
      SentIsResolved(s, items, t, ids, next, sent', webPagesPending);
      nextRequestId, sent := next, sent';
      ResolvedKeeps(s, View(), items, t, ids);
    }

    method GotWebPages(req: ReqId, updated: map<Page, Info>)
      requires req in sent && webPagesPending.Keys <= updated.Keys
      modifies this`webPagesPending, this`pages
      ensures Got(old(View()), View(), req, updated)
    {
      hide Got;
      ghost var s := View();
      webPagesPending, pages := RemovePages(webPagesPending, updated, req);
      RemovedIsGot(s, View(), req, updated);
    }
  }
}
