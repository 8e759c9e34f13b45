/** Forwarding: from the chosen messages to the requests that are sent, the stars they pay, and the callback. */
module Forwarding {
  import opened Wrappers

  // position orders messages. lookupId: the server's id of an ephemeral message, 0 while it is unknown.
  datatype Item = Item(peer: int, id: int, position: int, ephemeral: bool, lookupId: int, savedMusic: bool)

  datatype Range = Range(items: seq<Item>, fromEphemeral: bool)

  datatype Batch = Batch(from: int, fromEphemeral: bool, ids: seq<int>, starsPaid: int)

  const MAX_INT := 0x7fff_ffff

  // int(x) for a 64-bit x.
  function ToInt(x: int): int {
    var low := x % 0x1_0000_0000;
    if low <= MAX_INT then low else low - 0x1_0000_0000
  }

  function Flat<T>(parts: seq<seq<T>>): seq<T> {
    if parts == [] then [] else Flat(parts[..|parts| - 1]) + parts[|parts| - 1]
  }

  lemma FlatAppend<T>(parts: seq<seq<T>>, part: seq<T>)
    ensures Flat(parts + [part]) == Flat(parts) + part
  {
    assert (parts + [part])[..|parts|] == parts;
  }

  function ItemsOf(ranges: seq<Range>): seq<seq<Item>> {
    seq(|ranges|, i requires 0 <= i < |ranges| => ranges[i].items)
  }

  // Sorting by position

  predicate Sorted(items: seq<Item>) { forall i, j :: 0 <= i < j < |items| ==> items[i].position <= items[j].position }

  function Insert(x: Item, items: seq<Item>): seq<Item> {
    if items == [] || x.position <= items[0].position then [x] + items else [items[0]] + Insert(x, items[1..])
  }

  function Sort(items: seq<Item>): seq<Item> { if items == [] then [] else Insert(items[0], Sort(items[1..])) }

  lemma {:induction false} InsertContents(x: Item, items: seq<Item>)
    ensures multiset(Insert(x, items)) == multiset(items) + multiset{x}
  {
    if items == [] || x.position <= items[0].position {
    } else {
      InsertContents(x, items[1..]);
      assert items == [items[0]] + items[1..];
    }
  }

  lemma SortedBehind(x: Item, rest: seq<Item>)
    requires Sorted(rest) && (rest != [] ==> x.position <= rest[0].position)
    ensures Sorted([x] + rest)
  {
  }

  lemma {:induction false} InsertSorted(x: Item, items: seq<Item>)
    requires Sorted(items)
    ensures Sorted(Insert(x, items))
    ensures Insert(x, items)[0] == x || (items != [] && Insert(x, items)[0] == items[0])
  {
    if items == [] || x.position <= items[0].position {
      SortedBehind(x, items);
    } else {
      InsertSorted(x, items[1..]);
      SortedBehind(items[0], Insert(x, items[1..]));
    }
  }

  lemma {:induction false} SortSorts(items: seq<Item>)
    ensures Sorted(Sort(items)) && multiset(Sort(items)) == multiset(items)
  {
    if items == [] {
    } else {
      SortSorts(items[1..]);
      InsertSorted(items[0], Sort(items[1..]));
      InsertContents(items[0], Sort(items[1..]));
      assert items == [items[0]] + items[1..];
    }
  }

  // CollectForwardRanges

  predicate Sendable(x: Item) { x.ephemeral ==> x.lookupId != 0 }

  function Sendables(items: seq<Item>): seq<Item> {
    if items == [] then []
    else
      var x := items[|items| - 1];
      Sendables(items[..|items| - 1]) + if Sendable(x) then [x] else []
  }

  // Each range is uniform and as long as it can be.
  ghost predicate AreRanges(ranges: seq<Range>) {
    && (forall i :: 0 <= i < |ranges| ==> UniformRange(ranges[i]))
    && (forall i :: 0 < i < |ranges| ==> ranges[i].fromEphemeral != ranges[i - 1].fromEphemeral)
  }

  ghost predicate UniformRange(r: Range) {
    r.items != [] && forall x :: x in r.items ==> x.ephemeral == r.fromEphemeral
  }

  method CollectForwardRanges(items: seq<Item>) returns (result: seq<Range>)
    ensures AreRanges(result)
    ensures Flat(ItemsOf(result)) == Sendables(Sort(items))
  {
    var ordered := Sort(items);
    result := [];
    var n := 0;
    while n < |ordered|
      invariant 0 <= n <= |ordered|
      invariant AreRanges(result)
      invariant Flat(ItemsOf(result)) == Sendables(ordered[..n])
    {
      hide AreRanges, Flat, ItemsOf, WithItem;
      var item := ordered[n];
      assert ordered[..n + 1][..n] == ordered[..n];
      if !(item.ephemeral && item.lookupId == 0) {
        Grown(result, item);
        result := PushItem(result, item);
      }
      n := n + 1;
    }
    assert ordered[..n] == ordered;
  }

  function WithItem(ranges: seq<Range>, x: Item): seq<Range> {
    var open :=
      if ranges == [] || ranges[|ranges| - 1].fromEphemeral != x.ephemeral then ranges + [Range([], x.ephemeral)]
      else ranges;
    var last := open[|open| - 1];
    open[|open| - 1 := last.(items := last.items + [x])]
  }

  method PushItem(ranges: seq<Range>, item: Item) returns (result: seq<Range>)
    ensures result == WithItem(ranges, item)
  {
    result := ranges;
    if result == [] || result[|result| - 1].fromEphemeral != item.ephemeral {
      result := result + [Range([], item.ephemeral)];
    }
    var last := result[|result| - 1];
    result := result[|result| - 1 := last.(items := last.items + [item])];
  }

  lemma Grown(ranges: seq<Range>, x: Item)
    requires AreRanges(ranges)
    ensures AreRanges(WithItem(ranges, x)) && Flat(ItemsOf(WithItem(ranges, x))) == Flat(ItemsOf(ranges)) + [x]
  {
    if ranges == [] || ranges[|ranges| - 1].fromEphemeral != x.ephemeral {
      NewRange(ranges, x);
    } else {
      hide Flat;
      LastGrows(ranges, x);
    }
  }

  lemma NewRange(ranges: seq<Range>, x: Item)
    requires AreRanges(ranges) && (ranges == [] || ranges[|ranges| - 1].fromEphemeral != x.ephemeral)
    ensures AreRanges(WithItem(ranges, x)) && Flat(ItemsOf(WithItem(ranges, x))) == Flat(ItemsOf(ranges)) + [x]
  {
    hide Flat;
    var r := Range([x], x.ephemeral);
    assert WithItem(ranges, x) == ranges + [r] by { assert [] + [x] == [x]; }
    hide WithItem;
    assert ItemsOf(ranges + [r]) == ItemsOf(ranges) + [[x]];
    FlatAppend(ItemsOf(ranges), [x]);
    hide ItemsOf;
  }

  lemma LastGrows(ranges: seq<Range>, x: Item)
    requires ranges != []
    ensures var last := ranges[|ranges| - 1];
      Flat(ItemsOf(ranges[|ranges| - 1 := last.(items := last.items + [x])])) == Flat(ItemsOf(ranges)) + [x]
  {
    var n := |ranges| - 1;
    var grown := ranges[n := ranges[n].(items := ranges[n].items + [x])];
    assert ItemsOf(grown)[..n] == ItemsOf(ranges)[..n];
  }

  // The batches

  function IdOf(x: Item): int { if x.ephemeral then x.lookupId else x.id }

  function Ids(items: seq<Item>): seq<int> { seq(|items|, i requires 0 <= i < |items| => IdOf(items[i])) }

  function Pays(remaining: int, n: nat, price: int): int {
    if remaining <= ToInt(n * price) then remaining else ToInt(n * price)
  }

  // What is left of the approved stars after these groups of messages were sent.
  function Remaining(groups: seq<seq<Item>>, approved: int, price: int): int {
    if groups == [] then approved
    else
      var before := Remaining(groups[..|groups| - 1], approved, price);
      before - Pays(before, |groups[|groups| - 1]|, price)
  }

  // Batch b sends group g, all of one peer and one kind.
  ghost predicate Sends(b: Batch, g: seq<Item>) {
    g != [] && b.ids == Ids(g) && forall x :: x in g ==> x.peer == b.from && x.ephemeral == b.fromEphemeral
  }

  ghost predicate SendAll(batches: seq<Batch>, groups: seq<seq<Item>>, approved: int, price: int) {
    && |batches| == |groups|
    && (forall i :: 0 <= i < |groups| ==> Sends(batches[i], groups[i]))
    && (forall i :: 0 <= i < |groups| ==>
          batches[i].starsPaid == Pays(Remaining(groups[..i], approved, price), |groups[i]|, price))
  }

  // No two neighbouring batches could have been one.
  ghost predicate Maximal(batches: seq<Batch>) {
    forall i :: 0 < i < |batches| ==>
      batches[i].from != batches[i - 1].from || batches[i].fromEphemeral != batches[i - 1].fromEphemeral
  }

  lemma SendOne(batches: seq<Batch>, groups: seq<seq<Item>>, approved: int, price: int, b: Batch, g: seq<Item>)
    requires SendAll(batches, groups, approved, price) && Sends(b, g)
    requires b.starsPaid == Pays(Remaining(groups, approved, price), |g|, price)
    ensures SendAll(batches + [b], groups + [g], approved, price)
    ensures Remaining(groups + [g], approved, price) == Remaining(groups, approved, price) - b.starsPaid
  {
    assert (groups + [g])[..|groups|] == groups;
    forall i | 0 <= i < |groups| + 1
      ensures (batches + [b])[i].starsPaid
        == Pays(Remaining((groups + [g])[..i], approved, price), |(groups + [g])[i]|, price)
    {
      if i < |groups| {
        assert (groups + [g])[..i] == groups[..i];
      }
    }
  }

  // A batch may be sent after the given ones: it differs from the last.
  ghost predicate Follows(batches: seq<Batch>, from: int, fromEphemeral: bool) {
    batches != [] ==> batches[|batches| - 1].from != from || batches[|batches| - 1].fromEphemeral != fromEphemeral
  }

  ghost predicate Settled(batches: seq<Batch>, groups: seq<seq<Item>>, approved: int, price: int, left: int) {
    SendAll(batches, groups, approved, price) && left == Remaining(groups, approved, price) && Maximal(batches)
  }

  // What is accumulated for the next batch.
  ghost predicate Open(batches: seq<Batch>, open: seq<Item>, from: int, fromEphemeral: bool) {
    && (forall x :: x in open ==> x.peer == from && x.ephemeral == fromEphemeral)
    && (open != [] ==> Follows(batches, from, fromEphemeral))
  }

  lemma SettleOne(batches: seq<Batch>, groups: seq<seq<Item>>, approved: int, price: int, left: int, b: Batch,
                  open: seq<Item>)
    requires Settled(batches, groups, approved, price, left) && Open(batches, open, b.from, b.fromEphemeral)
    requires open != [] && b.ids == Ids(open) && b.starsPaid == Pays(left, |open|, price)
    ensures Settled(batches + [b], groups + [open], approved, price, left - b.starsPaid)
  {
    hide Pays, SendAll, Ids;
    SendsOpen(batches, b, open);
    SendOne(batches, groups, approved, price, b, open);
    FollowsIsMaximal(batches, b);
    hide Sends, Follows, Maximal, Open, Remaining;
  }

  lemma SendsOpen(batches: seq<Batch>, b: Batch, open: seq<Item>)
    requires Open(batches, open, b.from, b.fromEphemeral) && open != [] && b.ids == Ids(open)
    ensures Sends(b, open) && Follows(batches, b.from, b.fromEphemeral)
  {
  }

  lemma FollowsIsMaximal(batches: seq<Batch>, b: Batch)
    requires Maximal(batches) && Follows(batches, b.from, b.fromEphemeral)
    ensures Maximal(batches + [b])
  {
  }

  lemma OpenOne(batches: seq<Batch>, open: seq<Item>, from: int, fromEphemeral: bool, x: Item)
    requires Open(batches, open, from, fromEphemeral) && x.peer == from && x.ephemeral == fromEphemeral
    requires open == [] ==> Follows(batches, from, fromEphemeral)
    ensures Open(batches, open + [x], from, fromEphemeral)
    ensures Ids(open + [x]) == Ids(open) + [IdOf(x)]
  {
  }

  // What is sent and accumulated, beyond the groups before, are the first n items.
  ghost predicate Covers(groups': seq<seq<Item>>, open: seq<Item>, groups: seq<seq<Item>>, items: seq<Item>, n: nat) {
    n <= |items| && Flat(groups') + open == Flat(groups) + items[..n]
  }

  lemma CoversMore(groups': seq<seq<Item>>, open: seq<Item>, groups: seq<seq<Item>>, items: seq<Item>, n: nat)
    requires n < |items| && Covers(groups', open, groups, items, n)
    ensures Covers(groups', open + [items[n]], groups, items, n + 1)
  {
    hide Flat;
    assert items[..n + 1] == items[..n] + [items[n]];
    assert Flat(groups') + (open + [items[n]]) == (Flat(groups') + open) + [items[n]];
    assert Flat(groups) + (items[..n] + [items[n]]) == (Flat(groups) + items[..n]) + [items[n]];
  }

  lemma Flushed(before: seq<seq<Item>>, groups': seq<seq<Item>>, open: seq<Item>, groups: seq<seq<Item>>,
                items: seq<Item>, n: nat)
    requires Covers(before, open, groups, items, n) && Flat(groups') == Flat(before) + open
    ensures Covers(groups', [], groups, items, n)
  {
    hide Flat;
    assert Flat(groups') + [] == Flat(groups');
  }

  // The callback

  // What the requests share: how many are left, and how often the callback ran.
  datatype Shared = Shared(left: int, calls: nat)

  function Answered(s: Shared, ok: bool): Shared {
    if !ok then s else Shared(s.left - 1, if s.left == 1 then s.calls + 1 else s.calls)
  }

  function AllAnswered(s: Shared, answers: seq<bool>): Shared {
    if answers == [] then s else Answered(AllAnswered(s, answers[..|answers| - 1]), answers[|answers| - 1])
  }

  function Successes(answers: seq<bool>): nat {
    if answers == [] then 0 else Successes(answers[..|answers| - 1]) + if answers[|answers| - 1] then 1 else 0
  }

  // However the responses to n requests are ordered, and at every moment before all arrived, the callback has run
  // exactly once if all n succeeded, and not at all otherwise.
  ghost predicate RunsOnce(s: Shared, n: nat) {
    forall answers: seq<bool> :: |answers| <= n ==>
      AllAnswered(s, answers).calls == if |answers| == n && false !in answers then 1 else 0
  }

  lemma {:induction false} AnswersCount(n: nat, answers: seq<bool>)
    requires 0 < n && |answers| <= n
    ensures var s := AllAnswered(Shared(n, 0), answers);
      s.left == n - Successes(answers) && Successes(answers) <= |answers|
      && s.calls == if |answers| == n && false !in answers then 1 else 0
    ensures Successes(answers) == |answers| <==> false !in answers
    decreases |answers|
  {
    if answers == [] {
    } else {
      var rest, last := answers[..|answers| - 1], answers[|answers| - 1];
      AnswersCount(n, rest);
      assert answers == rest + [last];
    }
  }

  lemma CallbackRunsOnce(n: nat)
    requires 0 < n
    ensures RunsOnce(Shared(n, 0), n)
  {
    forall answers: seq<bool> | |answers| <= n
      ensures AllAnswered(Shared(n, 0), answers).calls == if |answers| == n && false !in answers then 1 else 0
    {
      AnswersCount(n, answers);
    }
  }

  class SharedCallback {
    var requestsLeft: int
    var calls: nat

    ghost function View(): Shared reads this { Shared(requestsLeft, calls) }

    constructor ()
      ensures View() == Shared(0, 0)
    {
      requestsLeft, calls := 0, 0;
    }

    // One more request.
    method Sending()
      modifies this`requestsLeft
      ensures requestsLeft == old(requestsLeft) + 1
    {
      requestsLeft := requestsLeft + 1;
    }

    method Succeeded()
      modifies this
      ensures View() == Answered(old(View()), true)
    {
      requestsLeft := requestsLeft - 1;
      if requestsLeft == 0 {
        calls := calls + 1;
      }
    }
  }

  class Forward {
    var sent: seq<Batch>
    var starsApproved: int
    const price: int
    const approved: int
    const shared: SharedCallback?  // null when there is no callback

    // Every batch is a request that the callback waits for.
    ghost predicate Awaits()
      reads this, shared
    {
      shared != null ==> shared.View() == Shared(|sent|, 0)
    }

    constructor (approved: int, price: int, shared: SharedCallback?)
      requires shared != null ==> shared.View() == Shared(0, 0)
      ensures sent == [] && starsApproved == approved && Awaits()
      ensures this.price == price && this.approved == approved && this.shared == shared
    {
      sent, starsApproved := [], approved;
      this.price, this.approved, this.shared := price, approved, shared;
    }

    // Sends what is accumulated, if anything.
    method SendAccumulated(forwardFrom: int, fromEphemeral: bool, ids: seq<int>,
                           ghost groups: seq<seq<Item>>, ghost open: seq<Item>)
        returns (ghost groups': seq<seq<Item>>)
      requires Settled(sent, groups, approved, price, starsApproved) && Open(sent, open, forwardFrom, fromEphemeral)
      requires ids == Ids(open) && Awaits()
      modifies this, shared
      ensures Awaits()
      ensures groups' == if open == [] then groups else groups + [open]
      ensures Flat(groups') == Flat(groups) + open
      ensures Settled(sent, groups', approved, price, starsApproved)
      ensures if open == [] then sent == old(sent)
              else sent != [] && sent[|sent| - 1].from == forwardFrom && sent[|sent| - 1].fromEphemeral == fromEphemeral
    {
      groups' := groups;
      hide ToInt, Settled, Open;
      if ids == [] {
        return;
      }
      if shared != null {
        shared.Sending();
      }
      var starsPaid := if starsApproved <= ToInt(|ids| * price) then starsApproved else ToInt(|ids| * price);
      SettleOne(sent, groups, approved, price, starsApproved, Batch(forwardFrom, fromEphemeral, ids, starsPaid), open);
      if starsPaid != 0 {
        starsApproved := starsApproved - starsPaid;
      }
      sent := sent + [Batch(forwardFrom, fromEphemeral, ids, starsPaid)];
      groups' := groups + [open];
      FlatAppend(groups, open);
    }

    // The items of one range.
    method ForwardRange(range: Range, from: int, ghost groups: seq<seq<Item>>)
        returns (forwardFrom: int, ghost groups': seq<seq<Item>>)
      requires UniformRange(range) && Settled(sent, groups, approved, price, starsApproved) && Awaits()
      requires sent != [] ==> sent[|sent| - 1].fromEphemeral != range.fromEphemeral
      modifies this, shared
      ensures Awaits()
      ensures Flat(groups') == Flat(groups) + range.items
      ensures Settled(sent, groups', approved, price, starsApproved)
      ensures sent != [] && sent[|sent| - 1].fromEphemeral == range.fromEphemeral
    {
      forwardFrom, groups' := from, groups;
      var ids: seq<int> := [];
      ghost var open: seq<Item> := [];
      var n := 0;
      hide Settled, Flat;
      assert range.items[..0] == [];
      while n < |range.items|
        invariant 0 <= n <= |range.items|
        invariant ids == Ids(open) && Awaits()
        invariant Settled(sent, groups', approved, price, starsApproved)
        invariant Open(sent, open, forwardFrom, range.fromEphemeral)
        invariant Covers(groups', open, groups, range.items, n)
        invariant n == 0 ==> open == [] && (sent != [] ==> sent[|sent| - 1].fromEphemeral != range.fromEphemeral)
        invariant n > 0 ==> open != []
      {
        hide Covers, UniformRange;
        var item := range.items[n];
        ItemOfRange(range, item);
        if forwardFrom != item.peer {
          ghost var before := groups';
          groups' := SendAccumulated(forwardFrom, range.fromEphemeral, ids, groups', open);
          Flushed(before, groups', open, groups, range.items, n);
          ids, open := [], [];
          forwardFrom := item.peer;
        }
        OpenOne(sent, open, forwardFrom, range.fromEphemeral, item);
        CoversMore(groups', open, groups, range.items, n);
        ids := ids + [if range.fromEphemeral then item.lookupId else item.id];
        open := open + [item];
        n := n + 1;
      }
      assert range.items[..n] == range.items;
      groups' := SendAccumulated(forwardFrom, range.fromEphemeral, ids, groups', open);
    }

    // The loop over the ranges.
    method ForwardRanges(collected: seq<Range>) returns (ghost groups: seq<seq<Item>>)
      requires collected != [] && AreRanges(collected) && sent == [] && starsApproved == approved && Awaits()
      modifies this, shared
      ensures Settled(sent, groups, approved, price, starsApproved) && sent != [] && Awaits()
      ensures Flat(groups) == Flat(ItemsOf(collected))
    {
      var forwardFrom := collected[0].items[0].peer;
      groups := [];
      var n := 0;
      assert Settled(sent, groups, approved, price, starsApproved);
      hide Settled, UniformRange;
      while n < |collected|
        invariant 0 <= n <= |collected|
        invariant Settled(sent, groups, approved, price, starsApproved) && Awaits()
        invariant n == 0 ==> sent == []
        invariant n > 0 ==> sent != [] && sent[|sent| - 1].fromEphemeral == collected[n - 1].fromEphemeral
        invariant Flat(groups) == Flat(ItemsOf(collected[..n]))
      {
        hide Flat, ItemsOf;
        NextRange(collected, n);
        forwardFrom, groups := ForwardRange(collected[n], forwardFrom, groups);
        n := n + 1;
      }
      assert collected[..n] == collected;
    }
  }

  lemma NextRange(ranges: seq<Range>, n: nat)
    requires n < |ranges|
    ensures Flat(ItemsOf(ranges[..n + 1])) == Flat(ItemsOf(ranges[..n])) + ranges[n].items
  {
    FlatAppend(ItemsOf(ranges[..n]), ranges[n].items);
    assert ItemsOf(ranges[..n + 1]) == ItemsOf(ranges[..n]) + [ranges[n].items];
  }

  lemma ItemOfRange(range: Range, x: Item)
    requires UniformRange(range) && x in range.items
    ensures x.ephemeral == range.fromEphemeral
  {
  }

  // The erase-while-iterating loop: saved music is sent as documents, the rest stays.
  function SavedMusic(items: seq<Item>, which: bool): seq<Item> {
    if items == [] then []
    else
      var x := items[|items| - 1];
      SavedMusic(items[..|items| - 1], which) + if x.savedMusic == which then [x] else []
  }

  lemma SavedMusicMore(draft: seq<Item>, n: nat, which: bool)
    requires n < |draft|
    ensures SavedMusic(draft[..n + 1], which)
      == if draft[n].savedMusic == which then SavedMusic(draft[..n], which) + [draft[n]]
         else SavedMusic(draft[..n], which)
  {
    assert draft[..n + 1][..n] == draft[..n];
  }

  method TakeSavedMusic(draft: seq<Item>) returns (documents: seq<Item>, items: seq<Item>)
    ensures documents == SavedMusic(draft, true) && items == SavedMusic(draft, false)
  {
    documents, items := [], draft;
    var i := 0;
    ghost var n := 0;
    while i < |items|
      invariant 0 <= i <= |items| && 0 <= n <= |draft|
      invariant documents == SavedMusic(draft[..n], true)
      invariant items == SavedMusic(draft[..n], false) + draft[n..] && i == |SavedMusic(draft[..n], false)|
      decreases |items| - i
    {
      hide SavedMusic;
      var item := items[i];
      ErasedOne(items, i, SavedMusic(draft[..n], false), draft[n..]);
      assert draft[n..][1..] == draft[n + 1..];
      SavedMusicMore(draft, n, true);
      SavedMusicMore(draft, n, false);
      if item.savedMusic {
        documents := documents + [item];
        items := items[..i] + items[i + 1..];
      } else {
        i := i + 1;
      }
      n := n + 1;
    }
    assert draft[..n] == draft;
  }

  // forwardMessages. immediately: the callback ran before anything was sent. shared: what the requests share when it
  // did not; the callback then runs once if all of them succeed.
  method ForwardMessages(draft: seq<Item>, approved: int, price: int, hasCallback: bool)
      returns (documents: seq<Item>, batches: seq<Batch>, immediately: bool, shared: SharedCallback?,
               ghost groups: seq<seq<Item>>)
    ensures documents == SavedMusic(draft, true)
    ensures Flat(groups) == Sendables(Sort(SavedMusic(draft, false)))
    ensures SendAll(batches, groups, approved, price) && Maximal(batches)
    ensures immediately <==> hasCallback && batches == []
    ensures shared != null <==> hasCallback && batches != []
    ensures shared != null ==> RunsOnce(shared.View(), |batches|)
  {
    var items;
    documents, items := TakeSavedMusic(draft);
    batches, groups, immediately, shared := [], [], hasCallback, null;
    if items == [] {
      return;
    }
    var collected := CollectForwardRanges(items);
    if collected == [] {
      return;
    }
    if hasCallback {
      shared := new SharedCallback();
    }
    var forward := new Forward(approved, price, shared);
    hide Flat, Sort, Sendables, SendAll, Maximal, AreRanges, Remaining, RunsOnce;
    groups := forward.ForwardRanges(collected);
    batches, immediately := forward.sent, false;
    CallbackRunsOnce(|batches|);
  }

  // Stars

  ghost function TotalPaid(batches: seq<Batch>): int {
    if batches == [] then 0 else TotalPaid(batches[..|batches| - 1]) + batches[|batches| - 1].starsPaid
  }

  lemma SendAllBefore(batches: seq<Batch>, groups: seq<seq<Item>>, approved: int, price: int)
    requires SendAll(batches, groups, approved, price) && batches != []
    ensures var n := |batches| - 1;
      && SendAll(batches[..n], groups[..n], approved, price)
      && batches[n].starsPaid == Pays(Remaining(groups[..n], approved, price), |groups[n]|, price)
  {
    hide Remaining, Pays, Sends;
    var n := |batches| - 1;
    assert forall i :: 0 <= i < n ==> groups[..n][..i] == groups[..i];
  }

  lemma {:induction false} PaidIsMissing(batches: seq<Batch>, groups: seq<seq<Item>>, approved: int, price: int)
    requires SendAll(batches, groups, approved, price)
    ensures TotalPaid(batches) == approved - Remaining(groups, approved, price)
    decreases |batches|
  {
    hide SendAll, Pays;
    SameCount(batches, groups, approved, price);
    if batches == [] {
    } else {
      var n := |batches| - 1;
      SendAllBefore(batches, groups, approved, price);
      PaidIsMissing(batches[..n], groups[..n], approved, price);
    }
  }

  lemma SameCount(batches: seq<Batch>, groups: seq<seq<Item>>, approved: int, price: int)
    requires SendAll(batches, groups, approved, price)
    ensures |batches| == |groups|
  {
  }

  lemma ToIntFits(x: int)
    requires 0 <= x <= MAX_INT
    ensures ToInt(x) == x
  {
  }

  // When the cost of each batch fits an int, all batches together pay the full price, or all that was approved.
  lemma {:induction false} RemainingIsExact(groups: seq<seq<Item>>, approved: int, price: int)
    requires 0 <= approved && 0 <= price
    requires forall g :: g in groups ==> |g| * price <= MAX_INT
    ensures var cost := |Flat(groups)| * price;
      Remaining(groups, approved, price) == if approved <= cost then 0 else approved - cost
    decreases |groups|
  {
    if groups == [] {
    } else {
      var rest, g := groups[..|groups| - 1], groups[|groups| - 1];
      RemainingIsExact(rest, approved, price);
      assert g in groups;
      Products(|g|, |Flat(rest)|, price);
      ToIntFits(|g| * price);
      hide ToInt;
    }
  }

  lemma Products(a: nat, b: nat, price: int)
    requires 0 <= price
    ensures 0 <= a * price && 0 <= b * price && (b + a) * price == b * price + a * price
  {
  }

  // However a cost wraps, no batch pays more than is left.
  lemma {:induction false} RemainingStays(groups: seq<seq<Item>>, approved: int, price: int)
    requires 0 <= approved
    ensures 0 <= Remaining(groups, approved, price)
    decreases |groups|
  {
    hide ToInt;
    if groups == [] {
    } else {
      RemainingStays(groups[..|groups| - 1], approved, price);
    }
  }

  lemma {:induction false} GroupCosts(groups: seq<seq<Item>>, g: seq<Item>, price: int)
    requires g in groups && 0 <= price
    ensures |g| * price <= |Flat(groups)| * price
    decreases |groups|
  {
    var rest, last := groups[..|groups| - 1], groups[|groups| - 1];
    Products(|last|, |Flat(rest)|, price);
    if g != last {
      GroupCosts(rest, g, price);
    }
  }

  // What the last of several batches has to cover.
  predicate LastCovers(groups: seq<seq<Item>>, approved: int, price: int) {
    groups != []
    && var n := |groups| - 1;
    Remaining(groups[..n], approved, price) <= ToInt(|groups[n]| * price)
  }

  // All batches together pay the full price, or all that was approved, exactly when the price of all messages fits an
  // int, or the last batch's cost, wrapped or not, covers what the batches before it left.
  lemma TotalIsExact(batches: seq<Batch>, groups: seq<seq<Item>>, approved: int, price: int)
    requires 0 <= approved <= MAX_INT && 0 <= price && SendAll(batches, groups, approved, price)
    ensures var cost := |Flat(groups)| * price;
      TotalPaid(batches) == (if approved <= cost then approved else cost)
      <==> cost <= MAX_INT || LastCovers(groups, approved, price)
  {
    hide ToInt, SendAll, Flat;
    var cost := |Flat(groups)| * price;
    PaidIsMissing(batches, groups, approved, price);
    if cost <= MAX_INT {
      forall g | g in groups ensures |g| * price <= MAX_INT {
        GroupCosts(groups, g, price);
      }
      RemainingIsExact(groups, approved, price);
    } else {
      NotFree(groups, price);
      RemainingStays(groups[..|groups| - 1], approved, price);
    }
  }

  lemma NotFree(groups: seq<seq<Item>>, price: int)
    requires |Flat(groups)| * price > 0
    ensures groups != []
  {
  }

  // A batch whose cost does not fit pays what it should exactly when the wrapped cost covers what is left.
  lemma OverflowPays(remaining: int, n: nat, price: int)
    requires 0 <= remaining <= MAX_INT && 0 <= price
    ensures Pays(remaining, n, price) == (if remaining <= n * price then remaining else n * price)
      <==> n * price <= MAX_INT || remaining <= ToInt(n * price)
  {
    Products(n, 0, price);
    if n * price <= MAX_INT {
      ToIntFits(n * price);
    }
    hide ToInt;
  }

  function Due(remaining: int, n: nat, price: int): int { if remaining <= n * price then remaining else n * price }

  // So every batch of a forwarding pays what is due exactly when each one's cost fits, or wraps to enough.
  lemma BatchesPay(batches: seq<Batch>, groups: seq<seq<Item>>, approved: int, price: int)
    requires SendAll(batches, groups, approved, price) && 0 <= price
    requires forall i :: 0 <= i < |groups| ==> 0 <= Remaining(groups[..i], approved, price) <= MAX_INT
    ensures (forall i :: 0 <= i < |groups| ==>
               batches[i].starsPaid == Due(Remaining(groups[..i], approved, price), |groups[i]|, price))
      <==> (forall i :: 0 <= i < |groups| ==>
              |groups[i]| * price <= MAX_INT || Remaining(groups[..i], approved, price) <= ToInt(|groups[i]| * price))
  {
    forall i | 0 <= i < |groups|
      ensures batches[i].starsPaid == Due(Remaining(groups[..i], approved, price), |groups[i]|, price)
        <==> |groups[i]| * price <= MAX_INT || Remaining(groups[..i], approved, price) <= ToInt(|groups[i]| * price)
    {
      OverflowPays(Remaining(groups[..i], approved, price), |groups[i]|, price);
    }
    hide Remaining, Pays, ToInt, Due;
  }

  // Two messages at the highest price: the batch pays minus two stars.
  lemma OverflowMayRefund(remaining: nat)
    ensures Pays(remaining, 2, MAX_INT) == -2
  {
    assert 2 * MAX_INT == 0xffff_fffe;
  }
}
