/** Which messages a forwarding sends, in which order, and under which ids. */
module ForwardingIds {
  import opened Forwarding

  lemma CountLast(items: seq<Item>, last: Item, x: Item)
    ensures multiset(items + [last])[x] == multiset(items)[x] + if last == x then 1 else 0
  {
  }

  // What cannot be sent: an ephemeral message that the server has not named yet.
  lemma {:induction false} SendablesCount(items: seq<Item>, x: Item)
    ensures multiset(Sendables(items))[x] == if x.ephemeral && x.lookupId == 0 then 0 else multiset(items)[x]
    decreases |items|
  {
    if items == [] {
    } else {
      var rest, last := items[..|items| - 1], items[|items| - 1];
      SendablesCount(rest, x);
      CountLast(rest, last, x);
      CountLast(Sendables(rest), last, x);
      assert items == rest + [last];
    }
  }

  lemma {:induction false} SendablesSorted(items: seq<Item>)
    requires Sorted(items)
    ensures Sorted(Sendables(items))
    ensures forall x :: x in Sendables(items) ==> x in items
    decreases |items|
  {
    if items == [] {
    } else {
      var rest, last := items[..|items| - 1], items[|items| - 1];
      SendablesSorted(rest);
      forall x | x in rest ensures x.position <= last.position {
      }
    }
  }

  lemma {:induction false} SavedMusicCount(items: seq<Item>, which: bool, x: Item)
    ensures multiset(SavedMusic(items, which))[x] == if x.savedMusic == which then multiset(items)[x] else 0
    decreases |items|
  {
    if items == [] {
    } else {
      var rest, last := items[..|items| - 1], items[|items| - 1];
      SavedMusicCount(rest, which, x);
      CountLast(rest, last, x);
      CountLast(SavedMusic(rest, which), last, x);
      assert items == rest + [last];
    }
  }

  // In the order of the draft.
  lemma {:induction false} SavedMusicInTwo(a: seq<Item>, b: seq<Item>, which: bool)
    ensures SavedMusic(a + b, which) == SavedMusic(a, which) + SavedMusic(b, which)
    decreases |b|
  {
    if b == [] {
      assert a + b == a;
    } else {
      var n := |b| - 1;
      SavedMusicInTwo(a, b[..n], which);
      assert (a + b)[..|a| + n] == a + b[..n];
    }
  }

  function AllIds(batches: seq<Batch>): seq<int> {
    if batches == [] then [] else AllIds(batches[..|batches| - 1]) + batches[|batches| - 1].ids
  }

  // Every message is sent under its own id, an ephemeral one under the server's, and with those of its peer and kind.
  ghost predicate SentUnder(ids: seq<int>, items: seq<Item>) {
    && |ids| == |items|
    && forall k :: 0 <= k < |items| ==> ids[k] == if items[k].ephemeral then items[k].lookupId else items[k].id
  }

  lemma SentUnderMore(ids: seq<int>, items: seq<Item>, more: seq<Item>)
    requires SentUnder(ids, items)
    ensures SentUnder(ids + Ids(more), items + more)
  {
  }

  lemma {:induction false} BatchesSendUnder(batches: seq<Batch>, groups: seq<seq<Item>>, approved: int, price: int)
    requires SendAll(batches, groups, approved, price)
    ensures SentUnder(AllIds(batches), Flat(groups))
    decreases |batches|
  {
    SameCount(batches, groups, approved, price);
    if batches == [] {
    } else {
      var n := |batches| - 1;
      SendAllBefore(batches, groups, approved, price);
      assert Sends(batches[n], groups[n]);
      hide SendAll, SentUnder, Ids;
      BatchesSendUnder(batches[..n], groups[..n], approved, price);
      SentUnderMore(AllIds(batches[..n]), Flat(groups[..n]), groups[n]);
    }
  }

  // All batches together send exactly the messages of the draft that are neither saved music nor unnamed ephemeral
  // ones, each as often as it was chosen, by position, and each under its id. Saved music is sent as documents.
  lemma ForwardedExactly(draft: seq<Item>, documents: seq<Item>, batches: seq<Batch>, groups: seq<seq<Item>>,
                         approved: int, price: int, x: Item)
    requires documents == SavedMusic(draft, true) && Flat(groups) == Sendables(Sort(SavedMusic(draft, false)))
    requires SendAll(batches, groups, approved, price)
    ensures multiset(documents)[x] == if x.savedMusic then multiset(draft)[x] else 0
    ensures var sent := Flat(groups);
      && multiset(sent)[x] == (if x.savedMusic || (x.ephemeral && x.lookupId == 0) then 0 else multiset(draft)[x])
      && (forall i, j :: 0 <= i < j < |sent| ==> sent[i].position <= sent[j].position)
      && |AllIds(batches)| == |sent|
      && forall k :: 0 <= k < |sent| ==>
           AllIds(batches)[k] == if sent[k].ephemeral then sent[k].lookupId else sent[k].id
  {
    hide SavedMusic, Sendables, Sort, Flat, SendAll;
    SavedMusicCount(draft, true, x);
    SavedMusicCount(draft, false, x);
    SortSorts(SavedMusic(draft, false));
    SendablesCount(Sort(SavedMusic(draft, false)), x);
    SendablesSorted(Sort(SavedMusic(draft, false)));
    BatchesSendUnder(batches, groups, approved, price);
  }

  // A request names one peer and one kind, and all its messages are of that peer and kind.
  lemma BatchIsUniform(batches: seq<Batch>, groups: seq<seq<Item>>, approved: int, price: int, n: nat, k: nat)
    requires SendAll(batches, groups, approved, price) && n < |batches|
    ensures n < |groups| && |batches[n].ids| == |groups[n]| > 0
    ensures k < |groups[n]| ==> groups[n][k].peer == batches[n].from
                                && groups[n][k].ephemeral == batches[n].fromEphemeral
  {
    assert Sends(batches[n], groups[n]);
    assert k < |groups[n]| ==> groups[n][k] in groups[n];
  }

  // The conversion to an int: the one number of its range that is the same modulo 2^32.
  lemma ToIntExactly(x: int, y: int)
    requires -MAX_INT - 1 <= y <= MAX_INT
    ensures -0x8000_0000 <= ToInt(x) <= 0x7fff_ffff
    ensures y == ToInt(x) <==> (x - y) % 0x1_0000_0000 == 0
  {
  }
}
