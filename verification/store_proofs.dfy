/** What the store's operations promise: the initial board is well formed,
    every operation keeps it so, unknown ids change nothing, and items are
    neither lost nor duplicated except where `moveItem` loses them. */
module StoreProofs {
  import opened Types
  import opened Seqs
  import opened Containers
  import opened Store

  // ---------------------------------------------------------------------------
  // Helpers about the flattened tiers
  // ---------------------------------------------------------------------------

  /** Tiers whose item lists are all empty hold no items. */
  lemma {:induction false} FlattenAllEmpty(ts: seq<Tier>)
    requires forall i :: 0 <= i < |ts| ==> ts[i].items == []
    ensures Flatten(ts) == []
    decreases |ts|
  {
    if ts != [] {
      FlattenAllEmpty(ts[1..]);
    }
  }

  /** Tier lists whose item lists agree position by position flatten alike. */
  lemma {:induction false} FlattenSameItems(ts: seq<Tier>, us: seq<Tier>)
    requires |ts| == |us|
    requires forall i :: 0 <= i < |ts| ==> ts[i].items == us[i].items
    ensures Flatten(ts) == Flatten(us)
    decreases |ts|
  {
    if ts != [] {
      FlattenSameItems(ts[1..], us[1..]);
    }
  }

  /** Tier lists whose item ids agree position by position flatten to the same
      ids. */
  lemma {:induction false} FlattenSameIds(ts: seq<Tier>, us: seq<Tier>)
    requires |ts| == |us|
    requires forall i :: 0 <= i < |ts| ==> Ids(ts[i].items) == Ids(us[i].items)
    ensures Ids(Flatten(ts)) == Ids(Flatten(us))
    decreases |ts|
  {
    if ts != [] {
      FlattenSameIds(ts[1..], us[1..]);
      IdsAppend(ts[0].items, Flatten(ts[1..]));
      IdsAppend(us[0].items, Flatten(us[1..]));
    }
  }

  /** An id held by some tier is an id on the board. */
  lemma TierIdOnBoard(b: Board, k: int, id: string)
    requires 0 <= k < |b.tiers| && id in Ids(b.tiers[k].items)
    ensures id in Ids(AllItems(b))
  {
    var xs := b.tiers[k].items;
    var j :| 0 <= j < |xs| && Ids(xs)[j] == id;
    FlattenSplit(b.tiers, k);
    var all := AllItems(b);
    var at := |b.pool| + |Flatten(b.tiers[..k])| + j;
    assert all[at] == xs[j];
    assert Ids(all)[at] == id;
  }

  /** An id held by the pool is an id on the board. */
  lemma PoolIdOnBoard(b: Board, id: string)
    requires id in Ids(b.pool)
    ensures id in Ids(AllItems(b))
  {
    var j :| 0 <= j < |b.pool| && Ids(b.pool)[j] == id;
    assert AllItems(b)[j] == b.pool[j];
    assert Ids(AllItems(b))[j] == id;
  }

  /** Two boards with the same tier ids and item multiset, one well formed,
      make the other well formed too. */
  lemma WellFormedByPermutation(b: Board, r: Board)
    requires WellFormed(b)
    requires TierIds(r.tiers) == TierIds(b.tiers)
    requires multiset(AllItems(r)) == multiset(AllItems(b))
    ensures WellFormed(r)
  {
    MapPermutation(ItemId, AllItems(r), AllItems(b));
    DistinctSub(Ids(AllItems(r)), Ids(AllItems(b)));
  }

  // ---------------------------------------------------------------------------
  // The initial board
  // ---------------------------------------------------------------------------

  /** The store starts with eight empty tiers of distinct ids and an empty
      pool, which is a well-formed board. */
  lemma InitialWellFormed()
    ensures |Initial.tiers| == 8 && Initial.pool == []
    ensures forall i :: 0 <= i < |Initial.tiers| ==> Initial.tiers[i].items == []
    ensures WellFormed(Initial)
  {
    var ids := TierIds(DefaultTiers);
    assert ids == ["s", "aplus", "a", "aminus", "bplus", "b", "bminus", "c"];
    IndicesDistinct(ids);
    FlattenAllEmpty(DefaultTiers);
    assert AllItems(Initial) == [];
    assert multiset(Ids(AllItems(Initial))) == multiset{};
  }

  // ---------------------------------------------------------------------------
  // addTier and addItem
  // ---------------------------------------------------------------------------

  /** `addTier` with a fresh id keeps the board well formed and moves no item. */
  lemma AddTierWellFormed(b: Board, t: NewTier, freshId: string)
    requires WellFormed(b)
    requires freshId !in TierIds(b.tiers)
    ensures AllItems(AddTier(b, t, freshId)) == AllItems(b)
    ensures WellFormed(AddTier(b, t, freshId))
  {
    var r := AddTier(b, t, freshId);
    var nt := Tier(freshId, t.title, t.color, []);
    assert r.tiers == b.tiers + [nt];
    FlattenAppend(b.tiers, [nt]);
    assert Flatten([nt]) == [] by {
      assert [nt][1..] == [];
    }
    TierIdsAppend(b.tiers, [nt]);
    assert TierIds([nt]) == [freshId];
    DistinctSnoc(TierIds(b.tiers), freshId);
  }

  /** `addItem` with a fresh id keeps the board well formed; the board gains
      exactly the new item. */
  lemma AddItemWellFormed(b: Board, it: NewItem, freshId: string)
    requires WellFormed(b)
    requires freshId !in Ids(AllItems(b))
    ensures multiset(AllItems(AddItem(b, it, freshId)))
         == multiset(AllItems(b)) + multiset{Item(freshId, it.kind, it.content, it.fontSize)}
    ensures WellFormed(AddItem(b, it, freshId))
  {
    var r := AddItem(b, it, freshId);
    var x := Item(freshId, it.kind, it.content, it.fontSize);
    assert r.pool == b.pool + [x];
    var grown := AllItems(b) + [x];
    assert multiset(AllItems(r)) == multiset(grown);
    MapPermutation(ItemId, AllItems(r), grown);
    IdsAppend(AllItems(b), [x]);
    assert Ids([x]) == [freshId];
    DistinctSnoc(Ids(AllItems(b)), freshId);
    DistinctSub(Ids(AllItems(r)), Ids(grown));
  }

  // ---------------------------------------------------------------------------
  // removeTier
  // ---------------------------------------------------------------------------

  /** `removeTier` with an unknown id changes nothing. */
  lemma RemoveTierUnknown(b: Board, id: string)
    requires id !in TierIds(b.tiers)
    ensures RemoveTier(b, id) == b
  {
    WithoutTierAbsent(b.tiers, id);
    assert b.pool + [] == b.pool;
  }

  /** Removing the tier `addTier` just added gives back the board it was
      added to: the new tier is the only one with its id, and it is empty. */
  lemma RemoveTierUndoesAddTier(b: Board, t: NewTier, freshId: string)
    requires freshId !in TierIds(b.tiers)
    ensures RemoveTier(AddTier(b, t, freshId), freshId) == b
  {
    var nt := Tier(freshId, t.title, t.color, []);
    var ts := b.tiers + [nt];
    assert WithoutTier(ts, freshId) == b.tiers by {
      WithoutTierAbsent(b.tiers, freshId);
      FilterAppend(LacksTierId(freshId), b.tiers, [nt]);
      assert Filter(LacksTierId(freshId), [nt]) == [] by {
        assert [nt][1..] == [];
      }
      assert b.tiers + [] == b.tiers;
    }
    assert FindTier(ts, freshId) == Some(nt) by {
      forall i | 0 <= i < |b.tiers| ensures !HasTierId(freshId)(ts[i]) {
        assert TierIds(b.tiers)[i] == b.tiers[i].id;
      }
      assert HasTierId(freshId)(ts[|b.tiers|]);
    }
    assert b.pool + [] == b.pool;
  }

  /** With unique tier ids, `removeTier` drops exactly the tier at its
      position, keeps the other tiers in order, and appends the removed tier's
      items, in order, to the pool. */
  lemma RemoveTierAt(b: Board, k: int)
    requires Distinct(TierIds(b.tiers))
    requires 0 <= k < |b.tiers|
    ensures RemoveTier(b, b.tiers[k].id).tiers == b.tiers[..k] + b.tiers[k + 1..]
    ensures RemoveTier(b, b.tiers[k].id).pool == b.pool + b.tiers[k].items
  {
    FindTierAt(b.tiers, k);
    WithoutTierAt(b.tiers, k);
  }

  /** With unique tier ids, removing a known tier keeps every item. */
  lemma RemoveTierKeepsItems(b: Board, k: int)
    requires Distinct(TierIds(b.tiers))
    requires 0 <= k < |b.tiers|
    ensures multiset(AllItems(RemoveTier(b, b.tiers[k].id))) == multiset(AllItems(b))
  {
    var r := RemoveTier(b, b.tiers[k].id);
    RemoveTierAt(b, k);
    var front, back := b.tiers[..k], b.tiers[k + 1..];
    FlattenSplit(b.tiers, k);
    FlattenAppend(front, back);
    var f, t, g := Flatten(front), b.tiers[k].items, Flatten(back);
    assert AllItems(r) == b.pool + t + (f + g);
    assert AllItems(b) == b.pool + (f + t + g);
  }

  /** Dropping one tier from a list with unique ids leaves the ids unique. */
  lemma DistinctDropOne(ts: seq<Tier>, k: int)
    requires Distinct(TierIds(ts))
    requires 0 <= k < |ts|
    ensures Distinct(TierIds(ts[..k] + ts[k + 1..]))
  {
    var rest := ts[..k] + ts[k + 1..];
    assert ts == ts[..k] + [ts[k]] + ts[k + 1..];
    assert multiset(rest) + multiset([ts[k]]) == multiset(ts);
    MapSubMultiset(TierId, rest, ts, [ts[k]]);
    DistinctSub(TierIds(rest), TierIds(ts));
  }

  /** Removing a known tier leaves unique tier ids unique. */
  lemma RemoveTierKeepsIdsDistinct(b: Board, k: int)
    requires Distinct(TierIds(b.tiers))
    requires 0 <= k < |b.tiers|
    ensures Distinct(TierIds(RemoveTier(b, b.tiers[k].id).tiers))
  {
    RemoveTierAt(b, k);
    DistinctDropOne(b.tiers, k);
  }

  /** `removeTier` keeps a well-formed board well formed, and every item on
      the board survives it. */
  lemma RemoveTierWellFormed(b: Board, id: string)
    requires WellFormed(b)
    ensures multiset(AllItems(RemoveTier(b, id))) == multiset(AllItems(b))
    ensures WellFormed(RemoveTier(b, id))
  {
    var r := RemoveTier(b, id);
    if id in TierIds(b.tiers) {
      var k :| 0 <= k < |b.tiers| && TierIds(b.tiers)[k] == id;
      RemoveTierKeepsItems(b, k);
      RemoveTierKeepsIdsDistinct(b, k);
      MapPermutation(ItemId, AllItems(r), AllItems(b));
      DistinctSub(Ids(AllItems(r)), Ids(AllItems(b)));
    } else {
      RemoveTierUnknown(b, id);
    }
  }

  // ---------------------------------------------------------------------------
  // updateTier
  // ---------------------------------------------------------------------------

  /** `updateTier` with an unknown id changes nothing. */
  lemma UpdateTierUnknown(b: Board, id: string, p: TierPatch)
    requires id !in TierIds(b.tiers)
    ensures UpdateTier(b, id, p) == b
  {
    var r := UpdateTier(b, id, p);
    forall i | 0 <= i < |b.tiers| ensures r.tiers[i] == b.tiers[i] {
      assert TierIds(b.tiers)[i] == b.tiers[i].id;
    }
  }

  /** `updateTier` leaves every tier with another id as it was and patches
      every tier with the id, whether or not tier ids are unique. */
  lemma UpdateTierTouchesOnlyMatching(b: Board, id: string, p: TierPatch)
    ensures |UpdateTier(b, id, p).tiers| == |b.tiers|
    ensures forall i :: 0 <= i < |b.tiers| ==>
      UpdateTier(b, id, p).tiers[i]
        == (if b.tiers[i].id == id then PatchTier(b.tiers[i], p) else b.tiers[i])
  {
  }

  /** With unique tier ids, `updateTier` patches exactly the tier at its
      position. */
  lemma UpdateTierAt(b: Board, k: int, p: TierPatch)
    requires Distinct(TierIds(b.tiers))
    requires 0 <= k < |b.tiers|
    ensures UpdateTier(b, b.tiers[k].id, p).tiers == b.tiers[k := PatchTier(b.tiers[k], p)]
  {
    var r := UpdateTier(b, b.tiers[k].id, p);
    forall i | 0 <= i < |b.tiers| && i != k ensures r.tiers[i] == b.tiers[i] {
      if b.tiers[i].id == b.tiers[k].id {
        UniqueTierPosition(b.tiers, i, k);
        assert false;
      }
    }
  }

  /** An `updateTier` that leaves the items alone keeps the board well formed
      and every item where it was. */
  lemma UpdateTierWellFormed(b: Board, id: string, p: TierPatch)
    requires WellFormed(b)
    requires p.items.None?
    ensures AllItems(UpdateTier(b, id, p)) == AllItems(b)
    ensures WellFormed(UpdateTier(b, id, p))
  {
    var r := UpdateTier(b, id, p);
    FlattenSameItems(r.tiers, b.tiers);
  }

  // ---------------------------------------------------------------------------
  // updateItem
  // ---------------------------------------------------------------------------

  /** `updateItem` leaves every item with another id as it was and gives the
      items with the id the patch's fields. */
  lemma UpdateItemTouchesOnlyMatching(b: Board, id: string, p: ItemPatch)
    ensures forall j :: 0 <= j < |b.pool| ==>
      UpdateItem(b, id, p).pool[j]
        == (if b.pool[j].id == id then PatchItem(b.pool[j], p) else b.pool[j])
    ensures forall i, j :: 0 <= i < |b.tiers| && 0 <= j < |b.tiers[i].items| ==>
      UpdateItem(b, id, p).tiers[i].items[j]
        == (if b.tiers[i].items[j].id == id then PatchItem(b.tiers[i].items[j], p) else b.tiers[i].items[j])
  {
  }

  /** `updateItem` with an id no item has changes nothing. */
  lemma UpdateItemUnknown(b: Board, id: string, p: ItemPatch)
    requires id !in Ids(AllItems(b))
    ensures UpdateItem(b, id, p) == b
  {
    var r := UpdateItem(b, id, p);
    forall j | 0 <= j < |b.pool| ensures r.pool[j] == b.pool[j] {
      if b.pool[j].id == id {
        assert Ids(b.pool)[j] == id;
        PoolIdOnBoard(b, id);
        assert false;
      }
    }
    forall i | 0 <= i < |b.tiers| ensures r.tiers[i] == b.tiers[i] {
      var xs := b.tiers[i].items;
      forall j | 0 <= j < |xs| ensures r.tiers[i].items[j] == xs[j] {
        if xs[j].id == id {
          assert Ids(xs)[j] == id;
          TierIdOnBoard(b, i, id);
          assert false;
        }
      }
      assert r.tiers[i].items == xs;
    }
  }

  /** `updateItem` keeps a well-formed board well formed. */
  lemma UpdateItemWellFormed(b: Board, id: string, p: ItemPatch)
    requires WellFormed(b)
    ensures WellFormed(UpdateItem(b, id, p))
  {
    var r := UpdateItem(b, id, p);
    assert TierIds(r.tiers) == TierIds(b.tiers);
    FlattenSameIds(r.tiers, b.tiers);
    IdsAppend(r.pool, Flatten(r.tiers));
    IdsAppend(b.pool, Flatten(b.tiers));
  }

  // ---------------------------------------------------------------------------
  // reorderTiers
  // ---------------------------------------------------------------------------

  lemma RemoveFirstOfFour<T>(w: T, x: T, y: T, z: T)
    ensures RemoveAt([w, x, y, z], 0) == [x, y, z]
  {
    assert SpliceStart(0, 4) == 0;
    assert [w, x, y, z][1..] == [x, y, z];
  }

  lemma InsertThirdOfFour<T>(w: T, x: T, y: T, z: T)
    ensures InsertAt([x, y, z], 2, w) == [x, y, w, z]
  {
    var r := InsertAt([x, y, z], 2, w);
    assert SpliceStart(2, 3) == 2;
    assert r[..2] == [x, y] && r[2] == w && r[3..] == [z];
    assert r == r[..2] + [r[2]] + r[3..];
  }

  /** Moving tier 0 to position 2 of `[S, A, B, C]` gives `[A, B, S, C]`. */
  lemma ReorderTiersExample(s: Tier, a: Tier, bb: Tier, c: Tier, pool: seq<Item>)
    ensures ReorderTiers(Board([s, a, bb, c], pool), 0, 2).tiers == [a, bb, s, c]
  {
    RemoveFirstOfFour(s, a, bb, c);
    InsertThirdOfFour(s, a, bb, c);
  }

  /** `reorderTiers` moves one tier: taking it out of the result, from where it
      landed, leaves the other tiers in their old order. */
  lemma ReorderTiersKeepsOthers(b: Board, startIndex: int, endIndex: int)
    requires 0 < |b.tiers| && startIndex < |b.tiers|
    ensures var r := ReorderTiers(b, startIndex, endIndex);
            var s := SpliceStart(startIndex, |b.tiers|);
            var e := SpliceStart(endIndex, |b.tiers| - 1);
            r.tiers[..e] + r.tiers[e + 1..] == b.tiers[..s] + b.tiers[s + 1..]
  {
    RemoveThenInsert(b.tiers, startIndex, endIndex);
  }

  /** Splicing a tier out removes exactly its items from the flattened ones. */
  lemma FlattenRemoveAt(ts: seq<Tier>, start: int)
    requires SpliceStart(start, |ts|) < |ts|
    ensures multiset(Flatten(RemoveAt(ts, start))) + multiset(ts[SpliceStart(start, |ts|)].items)
         == multiset(Flatten(ts))
  {
    var k := SpliceStart(start, |ts|);
    FlattenSplit(ts, k);
    FlattenAppend(ts[..k], ts[k + 1..]);
  }

  /** Splicing a tier in adds exactly its items to the flattened ones. */
  lemma FlattenInsertAt(ts: seq<Tier>, start: int, t: Tier)
    ensures multiset(Flatten(InsertAt(ts, start, t))) == multiset(Flatten(ts)) + multiset(t.items)
  {
    var k := SpliceStart(start, |ts|);
    var us := InsertAt(ts, start, t);
    FlattenSplit(us, k);
    assert ts == ts[..k] + ts[k..];
    FlattenAppend(ts[..k], ts[k..]);
  }

  /** `reorderTiers` keeps a well-formed board well formed and every item on it. */
  lemma ReorderTiersWellFormed(b: Board, startIndex: int, endIndex: int)
    requires WellFormed(b)
    requires 0 < |b.tiers| && startIndex < |b.tiers|
    ensures multiset(AllItems(ReorderTiers(b, startIndex, endIndex))) == multiset(AllItems(b))
    ensures WellFormed(ReorderTiers(b, startIndex, endIndex))
  {
    var r := ReorderTiers(b, startIndex, endIndex);
    var moved := b.tiers[SpliceStart(startIndex, |b.tiers|)];
    var rest := RemoveAt(b.tiers, startIndex);
    FlattenRemoveAt(b.tiers, startIndex);
    FlattenInsertAt(rest, endIndex, moved);
    assert multiset(Flatten(r.tiers)) == multiset(Flatten(b.tiers));
    MapPermutation(TierId, r.tiers, b.tiers);
    DistinctSub(TierIds(r.tiers), TierIds(b.tiers));
    MapPermutation(ItemId, AllItems(r), AllItems(b));
    DistinctSub(Ids(AllItems(r)), Ids(AllItems(b)));
  }

  // ---------------------------------------------------------------------------
  // removeItem
  // ---------------------------------------------------------------------------

  /** Filtering every tier is filtering the flattened items. */
  lemma {:induction false} FlattenStrip(ts: seq<Tier>, id: string)
    ensures Flatten(Map(StripItem(id), ts)) == WithoutItem(Flatten(ts), id)
    decreases |ts|
  {
    if ts != [] {
      var us := Map(StripItem(id), ts);
      FlattenStrip(ts[1..], id);
      assert us[1..] == Map(StripItem(id), ts[1..]);
      FilterAppend(LacksItemId(id), ts[0].items, Flatten(ts[1..]));
    }
  }

  /** `removeItem` is the filter of the whole board: what remains is every
      item with another id, in the same containers and the same order. */
  lemma RemoveItemAll(b: Board, id: string)
    ensures AllItems(RemoveItem(b, id)) == WithoutItem(AllItems(b), id)
  {
    FlattenStrip(b.tiers, id);
    FilterAppend(LacksItemId(id), b.pool, Flatten(b.tiers));
  }

  /** Removing the item `addItem` just added gives back the board it was
      added to. */
  lemma RemoveItemUndoesAddItem(b: Board, it: NewItem, freshId: string)
    requires freshId !in Ids(AllItems(b))
    ensures RemoveItem(AddItem(b, it, freshId), freshId) == b
  {
    var x := Item(freshId, it.kind, it.content, it.fontSize);
    RemoveItemUnknown(b, freshId);
    FilterAppend(LacksItemId(freshId), b.pool, [x]);
    assert Filter(LacksItemId(freshId), [x]) == [] by {
      assert [x][1..] == [];
    }
    assert b.pool + [] == b.pool;
  }

  /** `removeItem` with an id no item has changes nothing. */
  lemma RemoveItemUnknown(b: Board, id: string)
    requires id !in Ids(AllItems(b))
    ensures RemoveItem(b, id) == b
  {
    var r := RemoveItem(b, id);
    if id in Ids(b.pool) {
      PoolIdOnBoard(b, id);
    }
    WithoutItemAbsent(b.pool, id);
    forall i | 0 <= i < |b.tiers| ensures r.tiers[i] == b.tiers[i] {
      if id in Ids(b.tiers[i].items) {
        TierIdOnBoard(b, i, id);
      }
      WithoutItemAbsent(b.tiers[i].items, id);
    }
  }

  /** On a well-formed board `removeItem` removes exactly the one item with the
      id, and the board stays well formed. */
  lemma RemoveItemRemovesOne(b: Board, k: int)
    requires WellFormed(b)
    requires 0 <= k < |AllItems(b)|
    ensures var r := RemoveItem(b, AllItems(b)[k].id);
            && AllItems(r) == AllItems(b)[..k] + AllItems(b)[k + 1..]
            && WellFormed(r)
  {
    var all := AllItems(b);
    var id := all[k].id;
    var r := RemoveItem(b, id);
    RemoveItemAll(b, id);
    WithoutItemAt(all, k);
    assert TierIds(r.tiers) == TierIds(b.tiers);
    MapFilterSubMultiset(ItemId, LacksItemId(id), all);
    DistinctSub(Ids(AllItems(r)), Ids(all));
  }

  /** `removeItem` keeps any well-formed board well formed. */
  lemma RemoveItemWellFormed(b: Board, id: string)
    requires WellFormed(b)
    ensures WellFormed(RemoveItem(b, id))
  {
    var r := RemoveItem(b, id);
    RemoveItemAll(b, id);
    assert TierIds(r.tiers) == TierIds(b.tiers);
    MapFilterSubMultiset(ItemId, LacksItemId(id), AllItems(b));
    DistinctSub(Ids(AllItems(r)), Ids(AllItems(b)));
  }
}
