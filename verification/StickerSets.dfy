/** What saving the installed sticker sets does to the sets, their order and the recent stickers. */
module StickerSets {
  import opened Wrappers

  type SetId = nat
  type Document = nat

  datatype Kind = Stickers | Masks | Emoji

  datatype StickerSet = StickerSet(
    featured: bool, installed: bool, archived: bool, special: bool, emoji: bool, masks: bool,
    locked: int, installDate: int, stickers: seq<Document>)

  type Sets = map<SetId, StickerSet>

  const CUSTOM: SetId := 0xffff_ffff_ffff_ffff
  const CLOUD_RECENT: SetId := 0xffff_ffff_ffff_fffc
  const CLOUD_RECENT_ATTACHED: SetId := 0xffff_ffff_ffff_fff9

  function KindOf(s: StickerSet): Kind { if s.emoji then Emoji else if s.masks then Masks else Stickers }

  predicate Cloud(id: SetId) { id == CLOUD_RECENT || id == CLOUD_RECENT_ATTACHED }

  ghost predicate ClearsCloud(removed: seq<SetId>) { exists id :: id in removed && Cloud(id) }

  // Nothing but being installed keeps the set.
  predicate Disposable(s: StickerSet) { !s.archived && !s.featured && !s.special && !s.emoji && s.locked <= 0 }

  predicate HasReason(s: StickerSet) {
    s.featured || s.installed || s.archived || s.special || s.emoji || s.locked > 0
  }

  // The first loop: the removed sets

  ghost predicate Survives(sets: Sets, removed: seq<SetId>, id: SetId) {
    && id in sets
    && !(id in removed && !Cloud(id) && Disposable(sets[id]))
    && !(ClearsCloud(removed) && (Cloud(id) || id == CUSTOM))
  }

  function Uninstalled(s: StickerSet): StickerSet { s.(installed := false, archived := false, installDate := 0) }

  function AfterRemoval(s: StickerSet, removed: bool): StickerSet {
    if removed && !s.archived then Uninstalled(s) else s
  }

  ghost predicate RemovedFrom(before: Sets, removed: seq<SetId>, sets: Sets) {
    && (forall id :: id in sets <==> Survives(before, removed, id))
    && (forall id :: id in sets ==> sets[id] == AfterRemoval(before[id], id in removed))
  }

  ghost predicate InRemoved(sets: Sets, removed: seq<SetId>, d: Document) {
    exists id :: id in removed && !Cloud(id) && id in sets && d in sets[id].stickers
  }

  // recent after the removals is before without the stickers of the removed sets.
  ghost predicate RecentWithout(before: seq<Document>, sets: Sets, removed: seq<SetId>, recent: seq<Document>) {
    if ClearsCloud(removed) then recent == []
    else recent == Without(before, sets, removed)
  }

  ghost function Without(recent: seq<Document>, sets: Sets, removed: seq<SetId>): seq<Document> {
    if recent == [] then []
    else
      var d := recent[|recent| - 1];
      Without(recent[..|recent| - 1], sets, removed) + if InRemoved(sets, removed, d) then [] else [d]
  }

  // A mention of a set is an uninstall request if the set is still there and is not archived.
  ghost predicate SendsUninstall(before: Sets, earlier: seq<SetId>, id: SetId) {
    !Cloud(id) && Survives(before, earlier, id) && !before[id].archived
  }

  // The uninstall requests, in order.
  ghost function Uninstalls(before: Sets, removed: seq<SetId>): seq<SetId> {
    if removed == [] then []
    else
      var earlier, id := removed[..|removed| - 1], removed[|removed| - 1];
      Uninstalls(before, earlier) + if SendsUninstall(before, earlier, id) then [id] else []
  }

  lemma LastUninstall(before: Sets, earlier: seq<SetId>, id: SetId)
    ensures Uninstalls(before, earlier + [id])
      == Uninstalls(before, earlier) + if SendsUninstall(before, earlier, id) then [id] else []
  {
    assert (earlier + [id])[..|earlier|] == earlier;
  }

  // A set that nothing else keeps is uninstalled once, whatever the number of its mentions; one that is kept is
  // uninstalled once for every mention; archived, unknown and cloud sets are not. (The custom set is gone after a
  // mention of a cloud set.)
  lemma {:induction false} UninstallCount(before: Sets, removed: seq<SetId>, id: SetId)
    requires id != CUSTOM || !ClearsCloud(removed)
    ensures multiset(Uninstalls(before, removed))[id]
      == if Cloud(id) || id !in before || before[id].archived then 0
         else if Disposable(before[id]) then (if id in removed then 1 else 0)
         else multiset(removed)[id]
    decreases |removed|
  {
    if removed == [] {
    } else {
      var earlier, last := removed[..|removed| - 1], removed[|removed| - 1];
      assert removed == earlier + [last];
      ClearsMore(earlier, last);
      UninstallCount(before, earlier, id);
      hide Uninstalls, ClearsCloud;
      LastUninstall(before, earlier, last);
    }
  }

  function Drop(recent: seq<Document>, gone: seq<Document>): seq<Document> {
    if recent == [] then []
    else Drop(recent[..|recent| - 1], gone) + if recent[|recent| - 1] in gone then [] else [recent[|recent| - 1]]
  }

  lemma DropMore(recent: seq<Document>, n: nat, gone: seq<Document>)
    requires n < |recent|
    ensures Drop(recent[..n + 1], gone)
      == if recent[n] in gone then Drop(recent[..n], gone) else Drop(recent[..n], gone) + [recent[n]]
  {
    assert recent[..n + 1][..n] == recent[..n];
  }

  // The erase-while-iterating loop over the recent pack.
  method DropStickers(recent: seq<Document>, gone: seq<Document>) returns (r: seq<Document>)
    ensures r == Drop(recent, gone)
  {
    r := recent;
    var i := 0;
    ghost var n := 0;
    while i < |r|
      invariant 0 <= n <= |recent| && i == |Drop(recent[..n], gone)|
      invariant r == Drop(recent[..n], gone) + recent[n..]
      decreases |r| - i
    {
      hide Drop;
      ErasedOne(r, i, Drop(recent[..n], gone), recent[n..]);
      DropMore(recent, n, gone);
      assert recent[n..][1..] == recent[n + 1..];
      if r[i] in gone {
        r := r[..i] + r[i + 1..];
      } else {
        i := i + 1;
      }
      n := n + 1;
    }
    assert recent[..n] == recent;
  }

  lemma {:induction false} DropTwice(recent: seq<Document>, sets: Sets, removed: seq<SetId>, id: SetId)
    requires id in sets && !Cloud(id)
    ensures Drop(Without(recent, sets, removed), sets[id].stickers) == Without(recent, sets, removed + [id])
    decreases |recent|
  {
    if recent == [] {
    } else {
      var d := recent[|recent| - 1];
      DropTwice(recent[..|recent| - 1], sets, removed, id);
      var rest := Without(recent[..|recent| - 1], sets, removed);
      assert (rest + [d])[..|rest|] == rest && rest + [] == rest;
      assert Drop(rest, sets[id].stickers) + [] == Drop(rest, sets[id].stickers);
      InRemovedMore(sets, removed, id, d);
      hide InRemoved;
    }
  }

  lemma InRemovedMore(sets: Sets, removed: seq<SetId>, id: SetId, d: Document)
    ensures InRemoved(sets, removed + [id], d)
      <==> InRemoved(sets, removed, d) || (!Cloud(id) && id in sets && d in sets[id].stickers)
  {
    if x :| x in removed && !Cloud(x) && x in sets && d in sets[x].stickers {
      assert x in removed + [id];
    }
    assert id in removed + [id];
  }

  lemma {:induction false} WithoutSame(recent: seq<Document>, sets: Sets, removed: seq<SetId>, id: SetId)
    requires id !in sets || Cloud(id)
    ensures Without(recent, sets, removed + [id]) == Without(recent, sets, removed)
    decreases |recent|
  {
    if recent == [] {
    } else {
      WithoutSame(recent[..|recent| - 1], sets, removed, id);
      InRemovedMore(sets, removed, id, recent[|recent| - 1]);
      hide InRemoved;
    }
  }

  lemma {:induction false} WithoutNothing(recent: seq<Document>, sets: Sets)
    ensures Without(recent, sets, []) == recent
    decreases |recent|
  {
    if recent == [] {
    } else {
      WithoutNothing(recent[..|recent| - 1], sets);
    }
  }

  lemma ClearsMore(removed: seq<SetId>, id: SetId)
    ensures ClearsCloud(removed + [id]) <==> ClearsCloud(removed) || Cloud(id)
  {
    if x :| x in removed && Cloud(x) {
      assert x in removed + [id];
    }
    assert id in removed + [id];
  }

  // The effect of one more removed id on the sets.
  function RemoveOne(sets: Sets, id: SetId): Sets {
    if Cloud(id) then sets - {CLOUD_RECENT} - {CLOUD_RECENT_ATTACHED} - {CUSTOM}
    else if id !in sets || sets[id].archived then sets
    else if Disposable(sets[id]) then sets - {id}
    else sets[id := Uninstalled(sets[id])]
  }

  lemma RemoveOneMore(before: Sets, removed: seq<SetId>, sets: Sets, id: SetId)
    requires RemovedFrom(before, removed, sets)
    ensures RemovedFrom(before, removed + [id], RemoveOne(sets, id))
  {
    ClearsMore(removed, id);
    hide ClearsCloud;
    var sets' := RemoveOne(sets, id);
    forall x ensures x in sets' <==> Survives(before, removed + [id], x) {
      assert x in sets <==> Survives(before, removed, x);
    }
  }

  lemma UninstallsMore(before: Sets, removed: seq<SetId>, sets: Sets, id: SetId)
    requires RemovedFrom(before, removed, sets)
    ensures SendsUninstall(before, removed, id) <==> !Cloud(id) && id in sets && !sets[id].archived
  {
    assert id in sets <==> Survives(before, removed, id);
    hide Survives;
  }

  lemma RecentMore(before: seq<Document>, first: Sets, removed: seq<SetId>, sets: Sets, recent: seq<Document>,
                   id: SetId)
    requires RemovedFrom(first, removed, sets) && RecentWithout(before, first, removed, recent)
    ensures RecentWithout(before, first, removed + [id],
                          if Cloud(id) then [] else if id in sets then Drop(recent, sets[id].stickers) else recent)
  {
    ClearsMore(removed, id);
    hide ClearsCloud;
    assert id in sets <==> Survives(first, removed, id);
    if id in sets && !Cloud(id) && !ClearsCloud(removed) {
      DropTwice(before, first, removed, id);
    } else if (id !in first || Cloud(id)) && !ClearsCloud(removed) {
      WithoutSame(before, first, removed, id);
    } else if !ClearsCloud(removed) {
      SameAgain(before, first, removed, id);
    }
  }

  lemma {:induction false} SameAgain(recent: seq<Document>, sets: Sets, removed: seq<SetId>, id: SetId)
    requires id in removed
    ensures Without(recent, sets, removed + [id]) == Without(recent, sets, removed)
    decreases |recent|
  {
    if recent == [] {
    } else {
      SameAgain(recent[..|recent| - 1], sets, removed, id);
      InRemovedMore(sets, removed, id, recent[|recent| - 1]);
    }
  }

  // One turn of the first loop.
  method Remove(before: Sets, recentBefore: seq<Document>, id: SetId)
      returns (sets: Sets, recent: seq<Document>, uninstalls: bool)
    ensures sets == RemoveOne(before, id)
    ensures recent == if Cloud(id) then [] else if id in before then Drop(recentBefore, before[id].stickers)
                      else recentBefore
    ensures uninstalls == (!Cloud(id) && id in before && !before[id].archived)
  {
    hide Drop;
    sets, recent, uninstalls := before, recentBefore, false;
    if id == CLOUD_RECENT || id == CLOUD_RECENT_ATTACHED {
      sets := sets - {CLOUD_RECENT} - {CLOUD_RECENT_ATTACHED} - {CUSTOM};
      if recent != [] {
        recent := [];
      }
    } else if id in sets {
      recent := DropStickers(recent, sets[id].stickers);
      if !sets[id].archived {
        uninstalls := true;
        if !sets[id].featured && !sets[id].special && !sets[id].emoji && sets[id].locked <= 0 {
          sets := sets - {id};
        } else {
          sets := sets[id := Uninstalled(sets[id])];
        }
      }
    }
  }

  lemma NothingRemoved(before: Sets, recent: seq<Document>)
    ensures RemovedFrom(before, [], before) && RecentWithout(recent, before, [], recent) && Uninstalls(before, []) == []
  {
    WithoutNothing(recent, before);
  }

  method RemoveSets(before: Sets, recentBefore: seq<Document>, localRemoved: seq<SetId>)
      returns (sets: Sets, recent: seq<Document>, uninstall: seq<SetId>)
    ensures RemovedFrom(before, localRemoved, sets)
    ensures RecentWithout(recentBefore, before, localRemoved, recent)
    ensures uninstall == Uninstalls(before, localRemoved)
  {
    sets, recent, uninstall := before, recentBefore, [];
    var n := 0;
    NothingRemoved(before, recent);
    hide RemovedFrom, RecentWithout, Uninstalls, SendsUninstall, RemoveOne, Drop;
    while n < |localRemoved|
      invariant 0 <= n <= |localRemoved|
      invariant RemovedFrom(before, localRemoved[..n], sets)
      invariant RecentWithout(recentBefore, before, localRemoved[..n], recent)
      invariant uninstall == Uninstalls(before, localRemoved[..n])
    {
      var id := localRemoved[n];
      RemoveOneMore(before, localRemoved[..n], sets, id);
      UninstallsMore(before, localRemoved[..n], sets, id);
      LastUninstall(before, localRemoved[..n], id);
      RecentMore(recentBefore, before, localRemoved[..n], sets, recent, id);
      assert localRemoved[..n + 1] == localRemoved[..n] + [id];
      var uninstalls;
      sets, recent, uninstalls := Remove(sets, recent, id);
      if uninstalls {
        uninstall := uninstall + [id];
      }
      n := n + 1;
    }
    assert localRemoved[..n] == localRemoved;
  }

  // The second loop: only the sets of the order will be installed.

  function Cleared(s: StickerSet, kind: Kind): StickerSet {
    if !s.archived && KindOf(s) == kind then s.(installed := false) else s
  }

  method ClearInstalled(before: Sets, kind: Kind) returns (sets: Sets)
    ensures sets.Keys == before.Keys && forall id :: id in sets ==> sets[id] == Cleared(before[id], kind)
  {
    sets := before;
    var left := before.Keys;
    while left != {}
      invariant left <= before.Keys && sets.Keys == before.Keys
      invariant forall id :: id in sets ==> sets[id] == if id in left then before[id] else Cleared(before[id], kind)
    {
      var id :| id in left;
      if !sets[id].archived && KindOf(sets[id]) == kind {
        sets := sets[id := sets[id].(installed := false)];
      }
      left := left - {id};
    }
  }

  // The third loop: the new order

  function Known(order: seq<SetId>, ids: set<SetId>): seq<SetId> {
    if order == [] then []
    else Known(order[..|order| - 1], ids) + if order[|order| - 1] in ids then [order[|order| - 1]] else []
  }

  lemma {:induction false} KnownOnes(order: seq<SetId>, ids: set<SetId>, id: SetId)
    ensures id in Known(order, ids) <==> id in order && id in ids
    ensures multiset(Known(order, ids))[id] == if id in ids then multiset(order)[id] else 0
    decreases |order|
  {
    if order == [] {
    } else {
      assert order == order[..|order| - 1] + [order[|order| - 1]];
      KnownOnes(order[..|order| - 1], ids, id);
    }
  }

  function Installed(s: StickerSet, id: SetId, removed: seq<SetId>, now: int): StickerSet {
    s.(installed := true, archived := s.archived && id in removed,
       installDate := if s.installDate == 0 then now else s.installDate)
  }

  ghost predicate OrderInstalled(before: Sets, order: seq<SetId>, removed: seq<SetId>, now: int,
                                 sets: Sets, install: seq<SetId>)
  {
    && sets.Keys == before.Keys
    && (forall id :: id in sets ==>
          sets[id] == if id in order then Installed(before[id], id, removed, now) else before[id])
    && (forall id :: id in install <==> id in order && id !in removed && id in before && before[id].archived)
    && (forall i, j :: 0 <= i < j < |install| ==> install[i] != install[j])
  }

  lemma OrderInstalledMore(before: Sets, order: seq<SetId>, removed: seq<SetId>, now: int,
                           sets: Sets, install: seq<SetId>, id: SetId)
    requires OrderInstalled(before, order, removed, now, sets, install)
    ensures if id !in sets then OrderInstalled(before, order + [id], removed, now, sets, install)
            else OrderInstalled(before, order + [id], removed, now, sets[id := Installed(sets[id], id, removed, now)],
                           if sets[id].archived && id !in removed then install + [id] else install)
  {
  }

  lemma InstalledKeys(before: Sets, order: seq<SetId>, removed: seq<SetId>, now: int, sets: Sets, install: seq<SetId>)
    requires OrderInstalled(before, order, removed, now, sets, install)
    ensures sets.Keys == before.Keys
  {
  }

  lemma KnownMore(order: seq<SetId>, n: nat, ids: set<SetId>)
    requires n < |order|
    ensures order[..n + 1] == order[..n] + [order[n]]
    ensures Known(order[..n + 1], ids)
      == if order[n] in ids then Known(order[..n], ids) + [order[n]] else Known(order[..n], ids)
  {
    assert order[..n + 1][..n] == order[..n];
  }

  method InstallOne(before: StickerSet, id: SetId, localRemoved: seq<SetId>, now: int)
      returns (found: StickerSet, requested: bool)
    ensures found == Installed(before, id, localRemoved, now)
    ensures requested == (before.archived && id !in localRemoved)
  {
    found, requested := before, false;
    if found.archived && id !in localRemoved {
      requested := true;
      found := found.(archived := false);
    }
    found := found.(installed := true);
    if found.installDate == 0 {
      found := found.(installDate := now);
    }
  }

  // A set is installed on the server when it was archived and is not being removed.
  method InstallOrder(before: Sets, localOrder: seq<SetId>, localRemoved: seq<SetId>, now: int)
      returns (sets: Sets, order: seq<SetId>, install: seq<SetId>)
    ensures OrderInstalled(before, localOrder, localRemoved, now, sets, install)
    ensures order == Known(localOrder, before.Keys)
  {
    sets, order, install := before, [], [];
    var n := 0;
    assert OrderInstalled(before, localOrder[..0], localRemoved, now, sets, install);
    assert Known(localOrder[..0], before.Keys) == [];
    hide OrderInstalled, Known, Installed;
    while n < |localOrder|
      invariant 0 <= n <= |localOrder|
      invariant OrderInstalled(before, localOrder[..n], localRemoved, now, sets, install)
      invariant order == Known(localOrder[..n], before.Keys)
    {
      var setId := localOrder[n];
      KnownMore(localOrder, n, before.Keys);
      InstalledKeys(before, localOrder[..n], localRemoved, now, sets, install);
      OrderInstalledMore(before, localOrder[..n], localRemoved, now, sets, install, setId);
      if setId in sets {
        var found, requested := InstallOne(sets[setId], setId, localRemoved, now);
        if requested {
          install := install + [setId];
        }
        order := order + [setId];
        sets := sets[setId := found];
      }
      n := n + 1;
    }
    assert localOrder[..n] == localOrder;
  }

  // The last loop erases the sets that nothing keeps.
  method EraseUnneeded(before: Sets) returns (sets: Sets)
    ensures sets == map id | id in before && HasReason(before[id]) :: before[id]
  {
    sets := before;
    var left := before.Keys;
    while left != {}
      invariant left <= before.Keys
      invariant sets == map id | id in before && (id in left || HasReason(before[id])) :: before[id]
    {
      var id :| id in left;
      if !HasReason(sets[id]) {
        sets := sets - {id};
      }
      left := left - {id};
    }
  }

  // All of it: what a set is after the save, as far as it survives the removals.
  function Saved(s: StickerSet, id: SetId, localOrder: seq<SetId>, localRemoved: seq<SetId>, kind: Kind, now: int)
    : StickerSet
  {
    var s1 := Cleared(AfterRemoval(s, id in localRemoved), kind);
    if id in localOrder then Installed(s1, id, localRemoved, now) else s1
  }

  method SaveSets(before: Sets, recentBefore: seq<Document>, localOrder: seq<SetId>, localRemoved: seq<SetId>,
                  kind: Kind, now: int)
      returns (sets: Sets, order: seq<SetId>, recent: seq<Document>, uninstall: seq<SetId>, install: seq<SetId>,
               ghost known: set<SetId>)
    ensures known <= before.Keys && forall id :: id in known <==> Survives(before, localRemoved, id)
    ensures order == Known(localOrder, known)
    ensures forall id :: (id in sets
              <==> id in known && HasReason(Saved(before[id], id, localOrder, localRemoved, kind, now)))
    ensures forall id :: id in sets ==> sets[id] == Saved(before[id], id, localOrder, localRemoved, kind, now)
    ensures RecentWithout(recentBefore, before, localRemoved, recent) && uninstall == Uninstalls(before, localRemoved)
    ensures forall id :: id in install <==>
              id in localOrder && id !in localRemoved && id in known && before[id].archived
    ensures forall i, j :: 0 <= i < j < |install| ==> install[i] != install[j]
  {
    hide RecentWithout, Uninstalls, Survives, AfterRemoval, Cleared, Installed, HasReason;
    var sets1;
    sets1, recent, uninstall := RemoveSets(before, recentBefore, localRemoved);
    known := sets1.Keys;
    assert forall id :: id in known ==> id in before by { KnownBefore(before, localRemoved, sets1); }
    var sets2 := ClearInstalled(sets1, kind);
    var sets3;
    sets3, order, install := InstallOrder(sets2, localOrder, localRemoved, now);
    forall id | id in known && id !in localRemoved ensures sets2[id].archived == before[id].archived {
      ArchivedStays(before[id], kind);
    }
    sets := EraseUnneeded(sets3);
  }

  lemma ArchivedStays(s: StickerSet, kind: Kind)
    ensures Cleared(AfterRemoval(s, false), kind).archived == s.archived
  {
  }

  lemma KnownBefore(before: Sets, removed: seq<SetId>, sets: Sets)
    requires RemovedFrom(before, removed, sets)
    ensures forall id :: id in sets ==> id in before
  {
  }

  // What the save is, on the flags themselves

  // Gone after the removals: what a removed cloud set takes along, and a removed set that nothing else keeps.
  lemma SurvivesExactly(before: Sets, removed: seq<SetId>, id: SetId)
    ensures Survives(before, removed, id) <==>
      && id in before
      && (CLOUD_RECENT in removed || CLOUD_RECENT_ATTACHED in removed ==>
            id != CLOUD_RECENT && id != CLOUD_RECENT_ATTACHED && id != CUSTOM)
      && (id in removed && id != CLOUD_RECENT && id != CLOUD_RECENT_ATTACHED ==>
            var s := before[id]; s.archived || s.featured || s.special || s.emoji || s.locked > 0)
  {
    if CLOUD_RECENT in removed {
      assert Cloud(CLOUD_RECENT);
    } else if CLOUD_RECENT_ATTACHED in removed {
      assert Cloud(CLOUD_RECENT_ATTACHED);
    }
  }

  lemma KindExactly(s: StickerSet)
    ensures KindOf(s) == Stickers <==> !s.emoji && !s.masks
    ensures KindOf(s) == Masks <==> !s.emoji && s.masks
    ensures KindOf(s) == Emoji <==> s.emoji
  {
  }

  lemma SavedFrame(s: StickerSet, id: SetId, localOrder: seq<SetId>, localRemoved: seq<SetId>, kind: Kind, now: int)
    ensures var s' := Saved(s, id, localOrder, localRemoved, kind, now);
      && s'.featured == s.featured && s'.special == s.special && s'.emoji == s.emoji && s'.masks == s.masks
      && s'.locked == s.locked && s'.stickers == s.stickers
  {
  }

  lemma KindStays(s: StickerSet, removed: bool)
    ensures KindOf(AfterRemoval(s, removed)) == KindOf(s)
  {
  }

  // Installed are the sets of the order, and besides them only the archived ones and those of another kind that were
  // installed and are not removed. A set of the order that was archived is no longer, unless it is removed, too.
  lemma SavedExactly(s: StickerSet, id: SetId, localOrder: seq<SetId>, localRemoved: seq<SetId>, kind: Kind, now: int)
    ensures var s' := Saved(s, id, localOrder, localRemoved, kind, now);
      var ofKind := match kind
        case Stickers => !s.emoji && !s.masks
        case Masks => !s.emoji && s.masks
        case Emoji => s.emoji;
      && (s'.installed <==>
            id in localOrder || (s.installed && (s.archived || (id !in localRemoved && !ofKind))))
      && (s'.archived <==> s.archived && (id in localOrder ==> id in localRemoved))
      && (s'.installDate
          == var kept := if id in localRemoved && !s.archived then 0 else s.installDate;
             if id in localOrder && kept == 0 then now else kept)
  {
    KindExactly(s);
    KindStays(s, id in localRemoved);
    hide KindOf;
  }

  // A set of another kind that is neither in the order nor removed is not touched, and stays if anything keeps it.
  lemma OtherKindsStay(before: Sets, sets: Sets, localOrder: seq<SetId>, localRemoved: seq<SetId>, kind: Kind, now: int,
                       id: SetId)
    requires id in sets <==>
      Survives(before, localRemoved, id) && HasReason(Saved(before[id], id, localOrder, localRemoved, kind, now))
    requires id in sets ==> sets[id] == Saved(before[id], id, localOrder, localRemoved, kind, now)
    requires id in before && id !in localOrder && id !in localRemoved && !Cloud(id) && id != CUSTOM
    requires match kind
      case Stickers => before[id].emoji || before[id].masks
      case Masks => before[id].emoji || !before[id].masks
      case Emoji => !before[id].emoji
    ensures var s := before[id];
      if s.featured || s.installed || s.archived || s.special || s.emoji || s.locked > 0
      then id in sets && sets[id] == s
      else id !in sets
  {
    SurvivesExactly(before, localRemoved, id);
    hide Survives;
  }

  // The stored state is sound after every save: the order names existing, installed sets only, each as often as the
  // local order does; no other set of the kind is installed unless it was before and is archived; and every set has a
  // reason to be kept.
  lemma SavedIsSound(before: Sets, sets: Sets, order: seq<SetId>, known: set<SetId>, localOrder: seq<SetId>,
                     localRemoved: seq<SetId>, kind: Kind, now: int)
    requires known <= before.Keys && order == Known(localOrder, known)
    requires forall id :: (id in sets
               <==> id in known && HasReason(Saved(before[id], id, localOrder, localRemoved, kind, now)))
    requires forall id :: id in sets ==> sets[id] == Saved(before[id], id, localOrder, localRemoved, kind, now)
    ensures forall id :: id in order ==>
              id in sets && sets[id].installed && (sets[id].archived ==> before[id].archived && id in localRemoved)
    ensures forall id :: (id in sets && id !in order && sets[id].installed
              && match kind
                 case Stickers => !sets[id].emoji && !sets[id].masks
                 case Masks => !sets[id].emoji && sets[id].masks
                 case Emoji => sets[id].emoji)
              ==> sets[id].archived && before[id].archived && before[id].installed
    ensures forall id :: id in sets ==>
              var s := sets[id]; s.featured || s.installed || s.archived || s.special || s.emoji || s.locked > 0
    ensures forall id :: multiset(order)[id] == if id in known then multiset(localOrder)[id] else 0
  {
    SavedOrder(order, known, localOrder);
    SavedReasons(before, sets, known, localOrder, localRemoved, kind, now);
    hide Known, HasReason;
    forall id | id in sets && id !in order && sets[id].installed
      ensures KindOf(sets[id]) == kind ==> sets[id].archived && before[id].archived && before[id].installed
      ensures KindOf(sets[id]) == Stickers <==> !sets[id].emoji && !sets[id].masks
      ensures KindOf(sets[id]) == Masks <==> !sets[id].emoji && sets[id].masks
      ensures KindOf(sets[id]) == Emoji <==> sets[id].emoji
    {
      KindExactly(sets[id]);
      KindExactly(before[id]);
      SavedFrame(before[id], id, localOrder, localRemoved, kind, now);
      SavedExactly(before[id], id, localOrder, localRemoved, kind, now);
      hide KindOf, Saved;
    }
    forall id | id in order
      ensures id in sets && sets[id].installed && (sets[id].archived ==> before[id].archived && id in localRemoved)
    {
      SavedExactly(before[id], id, localOrder, localRemoved, kind, now);
      hide Saved;
    }
  }

  lemma SavedOrder(order: seq<SetId>, known: set<SetId>, localOrder: seq<SetId>)
    requires order == Known(localOrder, known)
    ensures forall id :: id in order <==> id in localOrder && id in known
    ensures forall id :: multiset(order)[id] == if id in known then multiset(localOrder)[id] else 0
  {
    forall id
      ensures id in order <==> id in localOrder && id in known
      ensures multiset(order)[id] == if id in known then multiset(localOrder)[id] else 0
    {
      KnownOnes(localOrder, known, id);
    }
  }

  lemma SavedReasons(before: Sets, sets: Sets, known: set<SetId>, localOrder: seq<SetId>, localRemoved: seq<SetId>,
                     kind: Kind, now: int)
    requires known <= before.Keys
    requires forall id :: (id in sets
               <==> id in known && HasReason(Saved(before[id], id, localOrder, localRemoved, kind, now)))
    requires forall id :: id in sets ==> sets[id] == Saved(before[id], id, localOrder, localRemoved, kind, now)
    ensures forall id :: id in sets ==>
              var s := sets[id]; s.featured || s.installed || s.archived || s.special || s.emoji || s.locked > 0
    ensures forall id :: id in known && id in localOrder ==> id in sets
  {
    forall id | id in known && id in localOrder ensures id in sets {
      SavedExactly(before[id], id, localOrder, localRemoved, kind, now);
      assert HasReason(Saved(before[id], id, localOrder, localRemoved, kind, now));
    }
    hide Saved;
  }

  lemma CountLast(ds: seq<Document>, x: Document, d: Document)
    ensures multiset(ds + [x])[d] == multiset(ds)[d] + if x == d then 1 else 0
  {
  }

  lemma WithoutMore(rest: seq<Document>, last: Document, sets: Sets, removed: seq<SetId>)
    ensures Without(rest + [last], sets, removed)
      == Without(rest, sets, removed) + if InRemoved(sets, removed, last) then [] else [last]
  {
    hide InRemoved;
    assert (rest + [last])[..|rest|] == rest;
  }

  lemma {:induction false} WithoutKeeps(recent: seq<Document>, sets: Sets, removed: seq<SetId>, d: Document)
    ensures multiset(Without(recent, sets, removed))[d]
      == if InRemoved(sets, removed, d) then 0 else multiset(recent)[d]
    decreases |recent|
  {
    hide InRemoved;
    if recent == [] {
    } else {
      hide Without;
      var rest, last := recent[..|recent| - 1], recent[|recent| - 1];
      assert recent == rest + [last];
      WithoutKeeps(rest, sets, removed, d);
      WithoutMore(rest, last, sets, removed);
      CountLast(rest, last, d);
      CountLast(Without(rest, sets, removed), last, d);
      assert Without(rest, sets, removed) + [] == Without(rest, sets, removed);
    }
  }

  // The recent stickers lose those of the removed sets, in every copy, and no others.
  lemma WithoutCounts(recent: seq<Document>, sets: Sets, removed: seq<SetId>, d: Document)
    ensures multiset(Without(recent, sets, removed))[d]
      == if exists id :: id in removed && id in sets && d in sets[id].stickers
                         && id != CLOUD_RECENT && id != CLOUD_RECENT_ATTACHED
         then 0 else multiset(recent)[d]
  {
    WithoutKeeps(recent, sets, removed, d);
    hide Without;
  }
}
