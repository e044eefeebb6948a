/** Lookups over the two kinds of container (the pool and a tier's item list)
    and over the tier list, as the store and the drag handlers use them, plus
    the board's well-formedness invariant: tier ids are unique, and every item
    id is unique across the pool and all tiers together. */
module Containers {
  import opened Types
  import opened Seqs

  /** The ids of a sequence of items, in order. */
  function Ids(xs: seq<Item>): seq<string> {
    Map(ItemId, xs)
  }

  /** The ids of a sequence of tiers, in order. */
  function TierIds(ts: seq<Tier>): seq<string> {
    Map(TierId, ts)
  }

  function HasItemId(id: string): Item -> bool {
    (it: Item) => it.id == id
  }

  function LacksItemId(id: string): Item -> bool {
    (it: Item) => it.id != id
  }

  function HasTierId(id: string): Tier -> bool {
    (t: Tier) => t.id == id
  }

  function LacksTierId(id: string): Tier -> bool {
    (t: Tier) => t.id != id
  }

  /** `items.find(i => i.id === id)`: the first item with that id. */
  function FindItem(xs: seq<Item>, id: string): (r: Option<Item>)
    ensures r.None? <==> id !in Ids(xs)
    ensures r.Some? ==> r.value.id == id && r.value in xs
    ensures r.Some? ==> exists k :: 0 <= k < |xs| && xs[k] == r.value
                                 && forall i :: 0 <= i < k ==> xs[i].id != id
  {
    var k := FirstIndex(HasItemId(id), xs);
    if k < 0 then None else Some(xs[k])
  }

  /** `tiers.find(t => t.id === id)`: the first tier with that id. */
  function FindTier(ts: seq<Tier>, id: string): (r: Option<Tier>)
    ensures r.None? <==> id !in TierIds(ts)
    ensures r.Some? ==> r.value.id == id && r.value in ts
    ensures r.Some? ==> exists k :: 0 <= k < |ts| && ts[k] == r.value
                                 && forall i :: 0 <= i < k ==> ts[i].id != id
  {
    var k := FirstIndex(HasTierId(id), ts);
    if k < 0 then None else Some(ts[k])
  }

  /** `items.filter(i => i.id !== id)`. WithoutItemKeeps adds that every copy
      of every other item stays, and WithoutItemAppend that they keep their
      order. */
  function WithoutItem(xs: seq<Item>, id: string): (r: seq<Item>)
    ensures id !in Ids(r)
    ensures forall i :: 0 <= i < |xs| && xs[i].id != id ==> xs[i] in r
    ensures multiset(r) <= multiset(xs)
  {
    FilterSubMultiset(LacksItemId(id), xs);
    Filter(LacksItemId(id), xs)
  }

  /** `tiers.filter(t => t.id !== id)`. WithoutTierKeeps adds that every copy
      of every other tier stays, and WithoutTierAppend that they keep their
      order. */
  function WithoutTier(ts: seq<Tier>, id: string): (r: seq<Tier>)
    ensures id !in TierIds(r)
    ensures forall i :: 0 <= i < |ts| && ts[i].id != id ==> ts[i] in r
    ensures multiset(r) <= multiset(ts)
  {
    FilterSubMultiset(LacksTierId(id), ts);
    Filter(LacksTierId(id), ts)
  }

  /** Filtering out an item id keeps every copy of every other item and no
      copy of an item with that id. */
  lemma WithoutItemKeeps(xs: seq<Item>, id: string)
    ensures forall x: Item :: multiset(WithoutItem(xs, id))[x] == if x.id != id then multiset(xs)[x] else 0
  {
    FilterKeeps(LacksItemId(id), xs);
  }

  /** Filtering out a tier id keeps every copy of every other tier and no
      copy of a tier with that id. */
  lemma WithoutTierKeeps(ts: seq<Tier>, id: string)
    ensures forall t: Tier :: multiset(WithoutTier(ts, id))[t] == if t.id != id then multiset(ts)[t] else 0
  {
    FilterKeeps(LacksTierId(id), ts);
  }

  /** Filtering out an item id works piece by piece: the kept items of a
      concatenation are the kept items of each part, in the same order.
      With WithoutItemKeeps on a one-element list, this
      pins the result down completely. */
  lemma WithoutItemAppend(a: seq<Item>, b: seq<Item>, id: string)
    ensures WithoutItem(a + b, id) == WithoutItem(a, id) + WithoutItem(b, id)
  {
    FilterAppend(LacksItemId(id), a, b);
  }

  /** Filtering out a tier id works piece by piece, in order. */
  lemma WithoutTierAppend(a: seq<Tier>, b: seq<Tier>, id: string)
    ensures WithoutTier(a + b, id) == WithoutTier(a, id) + WithoutTier(b, id)
  {
    FilterAppend(LacksTierId(id), a, b);
  }

  /** Every tier's items, tier after tier. */
  function Flatten(ts: seq<Tier>): seq<Item> {
    if ts == [] then [] else ts[0].items + Flatten(ts[1..])
  }

  /** Every item on the board: the pool, then each tier's items in tier order. */
  function AllItems(b: Board): seq<Item> {
    b.pool + Flatten(b.tiers)
  }

  /** The invariant the store keeps: tier ids are unique, and no item id occurs
      twice anywhere on the board (so no item sits in two containers). */
  ghost predicate WellFormed(b: Board) {
    && Distinct(TierIds(b.tiers))
    && Distinct(Ids(AllItems(b)))
  }

  lemma IdsAppend(a: seq<Item>, b: seq<Item>)
    ensures Ids(a + b) == Ids(a) + Ids(b)
  {
    MapAppend(ItemId, a, b);
  }

  lemma TierIdsAppend(a: seq<Tier>, b: seq<Tier>)
    ensures TierIds(a + b) == TierIds(a) + TierIds(b)
  {
    MapAppend(TierId, a, b);
  }

  lemma {:induction false} FlattenAppend(a: seq<Tier>, b: seq<Tier>)
    ensures Flatten(a + b) == Flatten(a) + Flatten(b)
    decreases |a|
  {
    if a == [] {
      assert a + b == b;
    } else {
      assert (a + b)[0] == a[0];
      assert (a + b)[1..] == a[1..] + b;
      FlattenAppend(a[1..], b);
    }
  }

  /** The flattened items split around any one tier. */
  lemma {:induction false} FlattenSplit(ts: seq<Tier>, k: int)
    requires 0 <= k < |ts|
    ensures Flatten(ts) == Flatten(ts[..k]) + ts[k].items + Flatten(ts[k + 1..])
    decreases k
  {
    if k == 0 {
      assert ts[..0] == [];
    } else {
      var tail := ts[1..];
      FlattenSplit(tail, k - 1);
      assert tail[k - 1] == ts[k];
      assert tail[k..] == ts[k + 1..];
      assert ts[..k][0] == ts[0];
      assert ts[..k][1..] == tail[..k - 1];
    }
  }

  /** Replacing one tier replaces its items in the flattened multiset. */
  lemma FlattenUpdate(ts: seq<Tier>, k: int, t: Tier)
    requires 0 <= k < |ts|
    ensures multiset(Flatten(ts[k := t])) + multiset(ts[k].items)
         == multiset(Flatten(ts)) + multiset(t.items)
  {
    var us := ts[k := t];
    FlattenSplit(ts, k);
    FlattenSplit(us, k);
    assert us[..k] == ts[..k];
    assert us[k + 1..] == ts[k + 1..];
  }

  /** Under unique tier ids, an id names at most one position. */
  lemma UniqueTierPosition(ts: seq<Tier>, i: int, j: int)
    requires Distinct(TierIds(ts))
    requires 0 <= i < |ts| && 0 <= j < |ts| && ts[i].id == ts[j].id
    ensures i == j
  {
    DistinctIndices(TierIds(ts), i, j);
  }

  /** Under unique item ids, an id names at most one position. */
  lemma UniqueItemPosition(xs: seq<Item>, i: int, j: int)
    requires Distinct(Ids(xs))
    requires 0 <= i < |xs| && 0 <= j < |xs| && xs[i].id == xs[j].id
    ensures i == j
  {
    DistinctIndices(Ids(xs), i, j);
  }

  /** On a well-formed board the pool and every tier hold unique ids. */
  lemma ContainersDistinct(b: Board)
    requires WellFormed(b)
    ensures Distinct(Ids(b.pool))
    ensures forall k :: 0 <= k < |b.tiers| ==> Distinct(Ids(b.tiers[k].items))
  {
    IdsAppend(b.pool, Flatten(b.tiers));
    DistinctAppend(Ids(b.pool), Ids(Flatten(b.tiers)));
    forall k | 0 <= k < |b.tiers| ensures Distinct(Ids(b.tiers[k].items)) {
      var ts := b.tiers;
      FlattenSplit(ts, k);
      var rest := b.pool + Flatten(ts[..k]) + Flatten(ts[k + 1..]);
      assert multiset(ts[k].items) + multiset(rest) == multiset(AllItems(b));
      MapSubMultiset(ItemId, ts[k].items, AllItems(b), rest);
      DistinctSub(Ids(ts[k].items), Ids(AllItems(b)));
    }
  }

  /** Under unique ids, `find` by a tier's id returns that tier. */
  lemma FindTierAt(ts: seq<Tier>, k: int)
    requires Distinct(TierIds(ts))
    requires 0 <= k < |ts|
    ensures FirstIndex(HasTierId(ts[k].id), ts) == k
    ensures FindTier(ts, ts[k].id) == Some(ts[k])
  {
    var j := FirstIndex(HasTierId(ts[k].id), ts);
    assert HasTierId(ts[k].id)(ts[k]);
    UniqueTierPosition(ts, j, k);
  }

  /** Under unique ids, `find` by an item's id returns that item. */
  lemma FindItemAt(xs: seq<Item>, k: int)
    requires Distinct(Ids(xs))
    requires 0 <= k < |xs|
    ensures FirstIndex(HasItemId(xs[k].id), xs) == k
    ensures FindItem(xs, xs[k].id) == Some(xs[k])
  {
    var j := FirstIndex(HasItemId(xs[k].id), xs);
    assert HasItemId(xs[k].id)(xs[k]);
    UniqueItemPosition(xs, j, k);
  }

  /** Under unique ids, filtering out an item's id drops exactly that item. */
  lemma WithoutItemAt(xs: seq<Item>, k: int)
    requires Distinct(Ids(xs))
    requires 0 <= k < |xs|
    ensures WithoutItem(xs, xs[k].id) == xs[..k] + xs[k + 1..]
    ensures multiset(WithoutItem(xs, xs[k].id)) + multiset{xs[k]} == multiset(xs)
  {
    var p := LacksItemId(xs[k].id);
    var front, back := xs[..k], xs[k + 1..];
    assert WithoutItem(xs, xs[k].id) == front + back by {
      forall i | 0 <= i < |xs| && i != k ensures p(xs[i]) {
        if xs[i].id == xs[k].id {
          UniqueItemPosition(xs, i, k);
          assert false;
        }
      }
      FilterAllBut(p, xs, k);
    }
    assert multiset(xs) == multiset(front) + multiset{xs[k]} + multiset(back) by {
      assert xs == front + [xs[k]] + back;
    }
  }

  /** Filtering out an id nobody has changes nothing. */
  lemma WithoutItemAbsent(xs: seq<Item>, id: string)
    requires id !in Ids(xs)
    ensures WithoutItem(xs, id) == xs
  {
    var p := LacksItemId(id);
    forall i | 0 <= i < |xs| ensures p(xs[i]) {
      assert Ids(xs)[i] == xs[i].id;
    }
    FilterAll(p, xs);
  }

  /** Filtering out a tier id nobody has changes nothing. */
  lemma WithoutTierAbsent(ts: seq<Tier>, id: string)
    requires id !in TierIds(ts)
    ensures WithoutTier(ts, id) == ts
  {
    var p := LacksTierId(id);
    forall i | 0 <= i < |ts| ensures p(ts[i]) {
      assert TierIds(ts)[i] == ts[i].id;
    }
    FilterAll(p, ts);
  }

  /** Under unique tier ids, filtering out a tier's id drops exactly that tier. */
  lemma WithoutTierAt(ts: seq<Tier>, k: int)
    requires Distinct(TierIds(ts))
    requires 0 <= k < |ts|
    ensures WithoutTier(ts, ts[k].id) == ts[..k] + ts[k + 1..]
  {
    var p := LacksTierId(ts[k].id);
    forall i | 0 <= i < |ts| && i != k ensures p(ts[i]) {
      if ts[i].id == ts[k].id {
        UniqueTierPosition(ts, i, k);
        assert false;
      }
    }
    FilterAllBut(p, ts, k);
  }
}
