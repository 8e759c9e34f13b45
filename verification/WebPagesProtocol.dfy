/** Pending web pages: which request looks up the message of which page. */
module WebPagesProtocol {
  import opened Wrappers

  type Page = nat
  type ReqId = int
  type Scope = Option<nat>  // a channel, or None

  datatype Item = Item(scope: Scope, msg: nat)

  datatype Info = Info(pendingTill: int, failed: bool)

  // What a sent request asks for, and the pages it was sent for.
  datatype Request = Request(scope: Scope, msgs: set<nat>, pages: set<Page>)

  // pending: a page waits with 0 until a request is sent for it, and then with the id of that request.
  datatype State = State(pending: map<Page, int>, info: map<Page, Info>, sent: map<ReqId, Request>, nextId: ReqId)

  ghost predicate Init(s: State) { s.pending == map[] && s.sent == map[] && s.nextId == 1 }

  // A page that resolveWebPages sends for: not requested, due at time t, with an item to look it up by.
  predicate Due(pending: map<Page, int>, info: map<Page, Info>, items: map<Page, Item>, t: int, p: Page) {
    p in pending && pending[p] <= 0 && p in info && info[p].pendingTill <= t && p in items
  }

  ghost function DueIn(pending: map<Page, int>, info: map<Page, Info>, items: map<Page, Item>, t: int,
                       c: Scope): set<Page>
  {
    set p | p in pending && Due(pending, info, items, t, p) && items[p].scope == c
  }

  ghost function Messages(pages: set<Page>, items: map<Page, Item>): set<nat> {
    set p | p in pages && p in items :: items[p].msg
  }

  // The request for one scope: the messages of its due pages.
  ghost function RequestFor(s: State, items: map<Page, Item>, t: int, c: Scope): Request {
    var pages := DueIn(s.pending, s.info, items, t, c);
    Request(c, Messages(pages, items), pages)
  }

  function NewId(s: State, items: map<Page, Item>, t: int, ids: map<Scope, ReqId>, p: Page): int
    requires p in s.pending
  {
    if Due(s.pending, s.info, items, t, p) && items[p].scope in ids then ids[items[p].scope] else s.pending[p]
  }

  ghost predicate Resolved(s: State, s': State, items: map<Page, Item>, t: int, ids: map<Scope, ReqId>) {
    && (forall c: Scope :: c in ids <==> DueIn(s.pending, s.info, items, t, c) != {})
    && (forall c :: c in ids ==> s.nextId <= ids[c] < s'.nextId)
    && (forall c, d :: c in ids && d in ids && ids[c] == ids[d] ==> c == d)
    && s' == s.(nextId := s'.nextId, sent := s'.sent,
                pending := map p | p in s.pending :: NewId(s, items, t, ids, p))
    && s.nextId <= s'.nextId
    && (forall id :: id in s'.sent <==> id in s.sent || id in ids.Values)
    && (forall id :: id in s.sent ==> s'.sent[id] == s.sent[id])
    && (forall c :: c in ids ==> s'.sent[ids[c]] == RequestFor(s, items, t, c))
  }

  // requestWebPageDelayed
  ghost predicate Delayed(s: State, s': State, p: Page) {
    && p in s.info
    && s' == if s.info[p].failed || s.info[p].pendingTill == 0 || p in s.pending then s
             else s.(pending := s.pending[p := 0])
  }

  // gotWebPages, after the response changed the pages to updated: the pages of the request leave, and those
  // still pending have failed.
  ghost predicate Got(s: State, s': State, req: ReqId, updated: map<Page, Info>) {
    && req in s.sent && s.pending.Keys <= updated.Keys
    && s' == s.(pending := map p | p in s.pending && s.pending[p] != req :: s.pending[p],
                info := map p | p in updated ::
                  if p in s.pending && s.pending[p] == req && updated[p].pendingTill > 0
                  then updated[p].(pendingTill := 0, failed := true) else updated[p])
  }

  ghost predicate Cleared(s: State, s': State, pages: set<Page>) { s' == s.(pending := s.pending - pages) }

  // Pages change outside of this protocol.
  ghost predicate PagesChanged(s: State, s': State) { s' == s.(info := s'.info) && s.pending.Keys <= s'.info.Keys }

  ghost predicate Next(s: State, s': State) {
    || (exists items, t, ids :: Resolved(s, s', items, t, ids))
    || (exists p :: Delayed(s, s', p))
    || (exists req, updated :: Got(s, s', req, updated))
    || (exists pages :: Cleared(s, s', pages))
    || PagesChanged(s, s')
  }

  ghost predicate IsRun(run: seq<State>) {
    run != [] && Init(run[0]) && forall i :: 0 <= i < |run| - 1 ==> Next(run[i], run[i + 1])
  }

  // Between calls no page holds a temporary negative id, and a positive id is that of a request sent for the page.
  ghost predicate Inv(s: State) {
    && s.nextId > 0
    && (forall id :: id in s.sent ==> 0 < id < s.nextId)
    && s.pending.Keys <= s.info.Keys
    && (forall p :: p in s.pending ==> s.pending[p] >= 0)
    && (forall p :: p in s.pending && s.pending[p] > 0 ==> s.pending[p] in s.sent && p in s.sent[s.pending[p]].pages)
  }

  lemma ResolvedKeeps(s: State, s': State, items: map<Page, Item>, t: int, ids: map<Scope, ReqId>)
    requires Inv(s) && Resolved(s, s', items, t, ids)
    ensures Inv(s')
  {
    forall id | id in s'.sent ensures 0 < id < s'.nextId {
      if id !in s.sent {
        var c :| c in ids && ids[c] == id;
      }
    }
    forall p | p in s'.pending && s'.pending[p] > 0
      ensures s'.pending[p] in s'.sent && p in s'.sent[s'.pending[p]].pages
    {
      if Due(s.pending, s.info, items, t, p) && items[p].scope in ids {
        assert ids[items[p].scope] in ids.Values;
        assert p in DueIn(s.pending, s.info, items, t, items[p].scope);
      }
    }
  }

  // After resolving, a due page with an item carries the id of the one request that was sent to the item's
  // own channel and asks for the item's message; every other page keeps its id.
  lemma DuePagesAreRequested(s: State, s': State, items: map<Page, Item>, t: int, ids: map<Scope, ReqId>, p: Page)
    requires Inv(s) && Resolved(s, s', items, t, ids) && p in s.pending
    ensures var id := s'.pending[p];
      if Due(s.pending, s.info, items, t, p) then
        id > 0 && id !in s.sent && id in s'.sent
        && s'.sent[id].scope == items[p].scope && items[p].msg in s'.sent[id].msgs && p in s'.sent[id].pages
      else id == s.pending[p]
  {
    if Due(s.pending, s.info, items, t, p) {
      var c := items[p].scope;
      assert p in DueIn(s.pending, s.info, items, t, c);
      assert c in ids;
      assert ids[c] in ids.Values;
      assert items[p].msg in Messages(DueIn(s.pending, s.info, items, t, c), items);
    }
  }

  lemma NextKeeps(s: State, s': State)
    requires Inv(s) && Next(s, s')
    ensures Inv(s')
  {
    hide Resolved;
    if items, t, ids :| Resolved(s, s', items, t, ids) {
      ResolvedKeeps(s, s', items, t, ids);
    }
  }

  lemma {:induction false} RunKeeps(run: seq<State>, n: nat)
    requires IsRun(run) && n < |run|
    ensures Inv(run[n])
  {
    if n == 0 {
    } else {
      RunKeeps(run, n - 1);
      hide Inv, Next;
      NextKeeps(run[n - 1], run[n]);
    }
  }

  // A response removes exactly the pages of its request.
  lemma ResponseRemovesItsPages(run: seq<State>, n: nat, s': State, req: ReqId, updated: map<Page, Info>, p: Page)
    requires IsRun(run) && n < |run| && Got(run[n], s', req, updated) && p in run[n].pending
    ensures p in s'.pending <==> run[n].pending[p] != req
    ensures run[n].pending[p] == req ==> p in run[n].sent[req].pages && s'.info[p].pendingTill <= 0
    ensures p in s'.pending ==> s'.pending[p] == run[n].pending[p]
  {
    hide IsRun;
    RunKeeps(run, n);
  }

  // There is no failure handler: a page whose request fails keeps waiting for it, through any number of steps,
  // until that very request is answered or the page is cleared.
  lemma NoRetryWithoutResponse(s: State, s': State, p: Page)
    requires Inv(s) && Next(s, s') && p in s.pending && s.pending[p] > 0
    ensures (p in s'.pending && s'.pending[p] == s.pending[p])
      || (exists updated :: Got(s, s', s.pending[p], updated))
      || (exists pages :: p in pages && Cleared(s, s', pages))
  {
    hide Resolved, Inv;
    if items, t, ids :| Resolved(s, s', items, t, ids) {
      KeptByResolve(s, s', items, t, ids, p);
    } else if req, updated :| Got(s, s', req, updated) {
      assert req != s.pending[p] ==> p in s'.pending;
    } else if pages :| Cleared(s, s', pages) {
      assert p !in pages ==> p in s'.pending;
    }
  }

  lemma KeptByResolve(s: State, s': State, items: map<Page, Item>, t: int, ids: map<Scope, ReqId>, p: Page)
    requires Resolved(s, s', items, t, ids) && p in s.pending && s.pending[p] > 0
    ensures p in s'.pending && s'.pending[p] == s.pending[p]
  {
  }

  // What a page waits for, on the fields alone

  // Waiting, not requested, its time is over, and there is an item of the scope to ask for.
  predicate Asks(s: State, items: map<Page, Item>, t: int, p: Page, i: Item) {
    p in s.pending && s.pending[p] == 0 && p in s.info && s.info[p].pendingTill <= t && p in items && items[p] == i
  }

  lemma AsksIsDue(s: State, items: map<Page, Item>, t: int, p: Page)
    requires Inv(s)
    ensures Due(s.pending, s.info, items, t, p) <==> p in items && Asks(s, items, t, p, items[p])
  {
  }

  lemma ResolvedRequests(s: State, s': State, items: map<Page, Item>, t: int, ids: map<Scope, ReqId>, c: Scope, m: nat)
    requires Inv(s) && Resolved(s, s', items, t, ids) && c in ids
    ensures ids[c] in s'.sent && s'.sent[ids[c]].scope == c
    ensures m in s'.sent[ids[c]].msgs <==> exists p :: Asks(s, items, t, p, Item(c, m))
  {
    assert ids[c] in ids.Values;
    var due := DueIn(s.pending, s.info, items, t, c);
    if m in Messages(due, items) {
      var p :| p in due && p in items && items[p].msg == m;
      AsksIsDue(s, items, t, p);
      assert Asks(s, items, t, p, Item(c, m));
    }
    if p :| Asks(s, items, t, p, Item(c, m)) {
      AsksIsDue(s, items, t, p);
      assert p in due;
    }
  }

  lemma SentForScope(s: State, s': State, items: map<Page, Item>, t: int, ids: map<Scope, ReqId>, id: ReqId)
    requires Resolved(s, s', items, t, ids) && id in s'.sent && id !in s.sent
    ensures s'.sent[id].scope in ids && ids[s'.sent[id].scope] == id
  {
    var c :| c in ids && ids[c] == id;
  }

  // In every run, resolving sends one request at most for each scope, and its messages are exactly those of the items
  // that the waiting pages of the scope are looked up by. Such a page then waits for that request, and no other page
  // changes what it waits for.
  lemma ResolveExactly(run: seq<State>, n: nat, s': State, items: map<Page, Item>, t: int, ids: map<Scope, ReqId>,
                       id: ReqId, p: Page)
    requires IsRun(run) && n < |run| && Resolved(run[n], s', items, t, ids)
    ensures id in s'.sent && id !in run[n].sent ==>
              && (forall m :: m in s'.sent[id].msgs <==>
                    exists q :: Asks(run[n], items, t, q, Item(s'.sent[id].scope, m)))
              && forall other :: other in s'.sent && other !in run[n].sent && other != id ==>
                   s'.sent[other].scope != s'.sent[id].scope
    ensures p in s'.pending <==> p in run[n].pending
    ensures p in s'.pending ==>
              if p in items && Asks(run[n], items, t, p, items[p]) then
                s'.pending[p] in s'.sent && s'.pending[p] !in run[n].sent
                && s'.sent[s'.pending[p]].scope == items[p].scope && items[p].msg in s'.sent[s'.pending[p]].msgs
              else s'.pending[p] == run[n].pending[p]
    ensures s'.info == run[n].info
  {
    RunKeeps(run, n);
    var s := run[n];
    assert s'.info == s.info && s'.pending.Keys == s.pending.Keys;
    AsksIsDue(s, items, t, p);
    hide IsRun, Inv, Resolved, Due, Asks;
    if p in s.pending {
      DuePagesAreRequested(s, s', items, t, ids, p);
    }
    if id in s'.sent && id !in s.sent {
      SentForScope(s, s', items, t, ids, id);
      forall m ensures m in s'.sent[id].msgs <==> exists q :: Asks(s, items, t, q, Item(s'.sent[id].scope, m)) {
        ResolvedRequests(s, s', items, t, ids, s'.sent[id].scope, m);
      }
      forall other | other in s'.sent && other !in s.sent && other != id
        ensures s'.sent[other].scope != s'.sent[id].scope
      {
        SentForScope(s, s', items, t, ids, other);
      }
    }
  }

  // Two scopes never share a request.
  lemma ScopesApart(s: State, s': State, items: map<Page, Item>, t: int, ids: map<Scope, ReqId>, c: Scope, d: Scope)
    requires Inv(s) && Resolved(s, s', items, t, ids) && c in ids && d in ids && c != d
    ensures ids[c] != ids[d] && ids[c] !in s.sent && ids[c] < s'.nextId
  {
  }

  // A page starts to wait, for no request yet, unless it has failed or is there; it keeps waiting for what it did.
  lemma DelayedExactly(s: State, s': State, p: Page)
    requires Delayed(s, s', p)
    ensures p in s.info && s'.info == s.info && s'.sent == s.sent && s'.nextId == s.nextId
    ensures p in s'.pending <==> p in s.pending || (!s.info[p].failed && s.info[p].pendingTill != 0)
    ensures p in s'.pending && p !in s.pending ==> s'.pending[p] == 0
    ensures forall q :: q in s.pending ==> q in s'.pending && s'.pending[q] == s.pending[q]
    ensures forall q :: q in s'.pending && q != p ==> q in s.pending
  {
  }

  // Of the pages of an answered request, those that the answer leaves pending have failed; the answer stands for all
  // others.
  lemma GotExactly(s: State, s': State, req: ReqId, updated: map<Page, Info>, p: Page)
    requires Got(s, s', req, updated) && p in updated
    ensures p in s'.info && s'.sent == s.sent && s'.nextId == s.nextId
    ensures if p in s.pending && s.pending[p] == req && updated[p].pendingTill > 0
            then s'.info[p].failed && s'.info[p].pendingTill == 0
            else s'.info[p] == updated[p]
  {
  }
}
