/** The hashes of document vectors, sticker orders and featured orders. */
module ApiHash {
  import opened ListHash

  datatype Document = Document(id: U64)

  type SetId = x: int | 0 <= x < 0x1_0000_0000_0000_0000

  datatype StickersSet = StickersSet(id: SetId, hash: U64, special: bool, archived: bool, unread: bool)

  const DEFAULT_SET_ID: SetId := 0

  function Ids(documents: seq<Document>): (ids: seq<U64>)
    ensures |ids| == |documents|
  {
    if documents == [] then [] else Ids(documents[..|documents| - 1]) + [documents[|documents| - 1].id]
  }

  method CountDocumentVectorHash(vector: seq<Document>) returns (result: U64)
    ensures result == HashOf(Ids(vector))
  {
    hide Update;
    result := 0;
    for i := 0 to |vector|
      invariant result == HashOf(Ids(vector[..i]))
    {
      assert vector[..i + 1][..i] == vector[..i];
      assert Ids(vector[..i + 1])[..i] == Ids(vector[..i]);
      result := HashUpdate(result, vector[i].id);
    }
    assert vector[..|vector|] == vector;
  }

  lemma {:induction false} IdsAppend(a: seq<Document>, b: seq<Document>)
    ensures Ids(a + b) == Ids(a) + Ids(b)
    decreases |b|
  {
    if b == [] {
      assert a + b == a;
    } else {
      var n := |b| - 1;
      assert (a + b)[..|a| + n] == a + b[..n];
      IdsAppend(a, b[..n]);
    }
  }

  // Replacing one document by another changes the hash.
  lemma OneDocumentDecides(before: seq<Document>, d: Document, e: Document, after: seq<Document>)
    ensures HashOf(Ids(before + [d] + after)) == HashOf(Ids(before + [e] + after)) <==> d == e
  {
    hide HashOf;
    IdsAppend(before + [d], after);
    IdsAppend(before + [e], after);
    IdsAppend(before, [d]);
    IdsAppend(before, [e]);
    assert Ids([d]) == [d.id] && Ids([e]) == [e.id] by { OneId(d); OneId(e); }
    OneValueDecides(Ids(before), d.id, e.id, Ids(after));
  }

  lemma OneId(d: Document)
    ensures Ids([d]) == [d.id]
  {
    assert [d][..0] == [];
  }

  // Sticker orders

  type Sets = map<SetId, StickersSet>

  predicate Contributes(sets: Sets, id: SetId) {
    id in sets && sets[id].id != DEFAULT_SET_ID && !sets[id].special && !sets[id].archived
  }

  function Contribution(sets: Sets, id: SetId): seq<U64> {
    if Contributes(sets, id) then [sets[id].hash] else []
  }

  function Contributions(sets: Sets, order: seq<SetId>): seq<U64> {
    if order == [] then [] else Contributions(sets, order[..|order| - 1]) + Contribution(sets, order[|order| - 1])
  }

  predicate Outdated(sets: Sets, order: seq<SetId>) {
    exists i :: 0 <= i < |order| && order[i] in sets && sets[order[i]].id == DEFAULT_SET_ID
  }

  function OrderHash(sets: Sets, order: seq<SetId>, checkOutdatedInfo: bool): U64 {
    if checkOutdatedInfo && Outdated(sets, order) then 0 else HashOf(Contributions(sets, order))
  }

  lemma EmptyHash()
    ensures HashOf([]) == 0
  {
  }

  lemma ContributionsMore(sets: Sets, order: seq<SetId>, i: nat)
    requires i < |order|
    ensures var state := HashOf(Contributions(sets, order[..i]));
      HashOf(Contributions(sets, order[..i + 1]))
      == if Contributes(sets, order[i]) then Update(state, sets[order[i]].hash) else state
  {
    hide Update, HashOf;
    assert order[..i + 1][..i] == order[..i];
    var values := Contributions(sets, order[..i]);
    assert values + [] == values;
    if Contributes(sets, order[i]) {
      HashSnoc(values, sets[order[i]].hash);
    }
  }

  // One turn of the loop.
  method HashSet(sets: Sets, id: SetId, before: U64) returns (result: U64, outdated: bool)
    ensures result == if Contributes(sets, id) then Update(before, sets[id].hash) else before
    ensures outdated == (id in sets && sets[id].id == DEFAULT_SET_ID)
  {
    hide Update, Determines;
    result, outdated := before, false;
    if id in sets {
      var set_ := sets[id];
      if set_.id == DEFAULT_SET_ID {
        outdated := true;
      } else if !set_.special && !set_.archived {
        result := HashUpdate(result, set_.hash);
      }
    }
  }

  method CountStickersOrderHash(sets: Sets, order: seq<SetId>, checkOutdatedInfo: bool) returns (r: U64)
    ensures r == OrderHash(sets, order, checkOutdatedInfo)
  {
    var result, foundOutdated := 0, false;
    EmptyHash();
    assert Contributions(sets, order[..0]) == [] && !Outdated(sets, order[..0]);
    hide Update, HashOf, Contributions, Contributes, Outdated;
    for i := 0 to |order|
      invariant result == HashOf(Contributions(sets, order[..i]))
      invariant foundOutdated <==> Outdated(sets, order[..i])
    {
      ContributionsMore(sets, order, i);
      OutdatedStep(sets, order, i);
      var outdated;
      result, outdated := HashSet(sets, order[i], result);
      foundOutdated := foundOutdated || outdated;
    }
    assert order[..|order|] == order;
    r := if !checkOutdatedInfo || !foundOutdated then result else 0;
  }

  lemma HashOfAppend(a: seq<U64>, b: seq<U64>)
    ensures HashOf(a + b) == HashFrom(HashOf(a), b)
  {
    HashFromAppend(0, a, b);
  }

  lemma HashSnoc(values: seq<U64>, v: U64)
    ensures HashOf(values + [v]) == Update(HashOf(values), v)
  {
    assert (values + [v])[..|values|] == values;
  }

  lemma OutdatedStep(sets: Sets, order: seq<SetId>, i: nat)
    requires i < |order|
    ensures Outdated(sets, order[..i + 1]) <==>
      Outdated(sets, order[..i]) || (order[i] in sets && sets[order[i]].id == DEFAULT_SET_ID)
  {
    if Outdated(sets, order[..i]) {
      var j :| 0 <= j < i && order[..i][j] in sets && sets[order[..i][j]].id == DEFAULT_SET_ID;
      assert order[..i + 1][j] == order[..i][j];
    }
    if order[i] in sets && sets[order[i]].id == DEFAULT_SET_ID {
      assert order[..i + 1][i] == order[i];
    }
  }

  lemma {:induction false} ContributionsAppend(sets: Sets, a: seq<SetId>, b: seq<SetId>)
    ensures Contributions(sets, a + b) == Contributions(sets, a) + Contributions(sets, b)
    decreases |b|
  {
    hide Contribution;
    if b == [] {
      assert a + b == a;
    } else {
      var n := |b| - 1;
      assert (a + b)[..|a| + n] == a + b[..n];
      ContributionsAppend(sets, a, b[..n]);
    }
  }

  lemma {:induction false} ContributionsElsewhere(sets: Sets, order: seq<SetId>, id: SetId, set_: StickersSet)
    requires id !in order
    ensures Contributions(sets[id := set_], order) == Contributions(sets, order)
    decreases |order|
  {
    if order != [] {
      assert order[|order| - 1] in order;
      ContributionsElsewhere(sets, order[..|order| - 1], id, set_);
    }
  }

  // A new hash of one set that stands once in the order changes the order's hash exactly when that set
  // contributes and the answer is not suppressed by an outdated default set.
  lemma OneSetDecides(sets: Sets, before: seq<SetId>, id: SetId, after: seq<SetId>, hash: U64, check: bool)
    requires id in sets && id !in before && id !in after && hash != sets[id].hash
    ensures var order := before + [id] + after;
      OrderHash(sets[id := sets[id].(hash := hash)], order, check) != OrderHash(sets, order, check)
      <==> Contributes(sets, id) && !(check && Outdated(sets, order))
  {
    hide HashOf;
    var order := before + [id] + after;
    var set_ := sets[id].(hash := hash);
    var sets' := sets[id := set_];
    assert sets'.Keys == sets.Keys;
    SameOutdated(sets, sets', order);
    SplitOne(sets, before, id, after);
    SplitOne(sets', before, id, after);
    ContributionsElsewhere(sets, before, id, set_);
    ContributionsElsewhere(sets, after, id, set_);
    if Contributes(sets, id) {
      OneValueDecides(Contributions(sets, before), sets[id].hash, hash, Contributions(sets, after));
    }
  }

  lemma SplitOne(sets: Sets, before: seq<SetId>, id: SetId, after: seq<SetId>)
    ensures Contributions(sets, before + [id] + after)
         == Contributions(sets, before) + Contribution(sets, id) + Contributions(sets, after)
  {
    ContributionsAppend(sets, before + [id], after);
    ContributionsAppend(sets, before, [id]);
    assert [id][..0] == [];
    assert Contributions(sets, [id]) == Contribution(sets, id);
  }

  lemma SameOutdated(sets: Sets, sets': Sets, order: seq<SetId>)
    requires sets'.Keys == sets.Keys
    requires forall k :: k in sets ==> sets'[k].id == sets[k].id
    ensures Outdated(sets, order) <==> Outdated(sets', order)
  {
    if Outdated(sets, order) {
      var i :| 0 <= i < |order| && order[i] in sets && sets[order[i]].id == DEFAULT_SET_ID;
      assert order[i] in sets';
    }
    if Outdated(sets', order) {
      var i :| 0 <= i < |order| && order[i] in sets' && sets'[order[i]].id == DEFAULT_SET_ID;
      assert order[i] in sets;
    }
  }

  // One set more: it counts unless it is unknown, special, archived or the default set. With the check, the default
  // set in the order makes the answer 0.
  lemma OrderHashExactly(sets: Sets, order: seq<SetId>, id: SetId)
    ensures OrderHash(sets, [], false) == 0
    ensures OrderHash(sets, order + [id], false)
      == var h := OrderHash(sets, order, false);
         if id in sets && sets[id].id != 0 && !sets[id].special && !sets[id].archived then Update(h, sets[id].hash)
         else h
    ensures OrderHash(sets, order, true)
      == if exists other :: other in order && other in sets && sets[other].id == 0 then 0
         else OrderHash(sets, order, false)
  {
    EmptyHash();
    ContributionsMore(sets, order + [id], |order|);
    assert (order + [id])[..|order|] == order && (order + [id])[..|order| + 1] == order + [id];
    hide HashOf, Update, Contributions;
    if other :| other in order && other in sets && sets[other].id == 0 {
      var i :| 0 <= i < |order| && order[i] == other;
      assert Outdated(sets, order);
    }
    assert Contributions(sets, []) == [] by { NoContributions(sets); }
  }

  lemma NoContributions(sets: Sets)
    ensures Contributions(sets, []) == []
  {
  }

  function Word(id: SetId): U64 { id as U64 }

  // Featured orders: the id, then 1 for an unread set.

  function FeaturedValue(sets: Sets, id: SetId): seq<U64> {
    if id in sets && sets[id].unread then [Word(id), 1] else [Word(id)]
  }

  function FeaturedValues(sets: Sets, order: seq<SetId>): seq<U64> {
    if order == [] then [] else FeaturedValues(sets, order[..|order| - 1]) + FeaturedValue(sets, order[|order| - 1])
  }

  method CountFeaturedHash(sets: Sets, order: seq<SetId>) returns (result: U64)
    ensures result == HashOf(FeaturedValues(sets, order))
  {
    hide Update, HashOf, Word, Determines;
    EmptyHash();
    result := 0;
    for i := 0 to |order|
      invariant result == HashOf(FeaturedValues(sets, order[..i]))
    {
      assert order[..i + 1][..i] == order[..i];
      ghost var values := FeaturedValues(sets, order[..i]);
      HashSnoc(values, Word(order[i]));
      result := HashUpdate(result, Word(order[i]));
      if order[i] in sets && sets[order[i]].unread {
        HashSnoc(values + [Word(order[i])], 1);
        assert values + [Word(order[i])] + [1] == values + [Word(order[i]), 1];
        result := HashUpdate(result, 1);
      }
    }
    assert order[..|order|] == order;
  }

  lemma {:induction false} FeaturedAppend(sets: Sets, a: seq<SetId>, b: seq<SetId>)
    ensures FeaturedValues(sets, a + b) == FeaturedValues(sets, a) + FeaturedValues(sets, b)
    decreases |b|
  {
    hide FeaturedValue;
    if b == [] {
      assert a + b == a;
    } else {
      var n := |b| - 1;
      assert (a + b)[..|a| + n] == a + b[..n];
      FeaturedAppend(sets, a, b[..n]);
    }
  }

  lemma FeaturedMore(sets: Sets, order: seq<SetId>, id: SetId)
    ensures FeaturedValues(sets, []) == []
    ensures FeaturedValues(sets, order + [id]) == FeaturedValues(sets, order) + FeaturedValue(sets, id)
  {
    hide FeaturedValue;
    assert (order + [id])[..|order|] == order;
  }

  // One set more: its id, and then 1 if it is unread.
  lemma FeaturedExactly(sets: Sets, order: seq<SetId>, id: SetId)
    ensures HashOf(FeaturedValues(sets, [])) == 0
    ensures HashOf(FeaturedValues(sets, order + [id]))
      == var h := Update(HashOf(FeaturedValues(sets, order)), Word(id));
         if id in sets && sets[id].unread then Update(h, 1) else h
  {
    EmptyHash();
    hide HashOf, Update, Word, FeaturedValues;
    FeaturedMore(sets, order, id);
    var values, w := FeaturedValues(sets, order), Word(id);
    HashSnoc(values, w);
    HashSnoc(values + [w], 1);
    assert values + [w] + [1] == values + [w, 1];
  }

  lemma {:induction false} FeaturedElsewhere(sets: Sets, order: seq<SetId>, id: SetId, set_: StickersSet)
    requires id !in order
    ensures FeaturedValues(sets[id := set_], order) == FeaturedValues(sets, order)
    decreases |order|
  {
    if order != [] {
      assert order[|order| - 1] in order;
      FeaturedElsewhere(sets, order[..|order| - 1], id, set_);
    }
  }

  lemma FeaturedSplit(sets: Sets, before: seq<SetId>, id: SetId, after: seq<SetId>)
    ensures FeaturedValues(sets, before + [id] + after)
         == FeaturedValues(sets, before) + FeaturedValue(sets, id) + FeaturedValues(sets, after)
  {
    FeaturedAppend(sets, before + [id], after);
    FeaturedAppend(sets, before, [id]);
    assert [id][..0] == [];
    assert FeaturedValues(sets, [id]) == FeaturedValue(sets, id);
  }

  // Reading an unread featured set changes the hash, except when the state reached after its id is a
  // fixed point of the update by 1.
  lemma ReadingOneSet(sets: Sets, before: seq<SetId>, id: SetId, after: seq<SetId>)
    requires id in sets && sets[id].unread && id !in before && id !in after
    ensures var order := before + [id] + after;
      var state := HashOf(FeaturedValues(sets, before) + [Word(id)]);
      HashOf(FeaturedValues(sets[id := sets[id].(unread := false)], order)) != HashOf(FeaturedValues(sets, order))
      <==> Update(state, 1) != state
  {
    hide Update, HashFrom, HashOf, FeaturedValues, Word;
    var set_ := sets[id].(unread := false);
    FeaturedSplit(sets, before, id, after);
    FeaturedSplit(sets[id := set_], before, id, after);
    FeaturedElsewhere(sets, before, id, set_);
    FeaturedElsewhere(sets, after, id, set_);
    var start, rest := FeaturedValues(sets, before) + [Word(id)], FeaturedValues(sets, after);
    assert FeaturedValues(sets, before) + [Word(id), 1] == start + [1];
    HashOfAppend(start + [1], rest);
    HashOfAppend(start, rest);
    HashSnoc(start, 1);
    HashFromInjective(HashOf(start + [1]), HashOf(start), rest);
  }

  // There is such a fixed point, and it is the state after a set of that very id at the top of the order.
  const FIXED: SetId := 0xb8d2_42cf_b371_a437

  lemma FixedState()
    ensures Word(FIXED) == 0xb8d2_42cf_b371_a437 && Update(0, Word(FIXED)) == Word(FIXED)
    ensures Update(Word(FIXED), 1) == Word(FIXED)
  {
    assert Word(FIXED) == 0xb8d2_42cf_b371_a437;
    hide Word;
  }

  // So reading that set there leaves the hash as it was, whatever follows it.
  lemma ReadingUnnoticed(sets: Sets, after: seq<SetId>)
    requires FIXED in sets && sets[FIXED].unread && FIXED !in after
    ensures HashOf(FeaturedValues(sets[FIXED := sets[FIXED].(unread := false)], [FIXED] + after))
      == HashOf(FeaturedValues(sets, [FIXED] + after))
  {
    var w := Word(FIXED);
    FixedState();
    EmptyHash();
    HashSnoc([], w);
    assert FeaturedValues(sets, []) + [w] == [] + [w];
    hide Update, Word, HashOf;
    assert HashOf([] + [w]) == w;
    assert [] + [FIXED] + after == [FIXED] + after;
    ReadingOneSet(sets, [], FIXED, after);
  }
}
