/** What `moveItem` does on a well-formed board: where it takes the item from,
    where the item lands, that no item is created or destroyed when the
    target exists, and that the item is lost when the target tier does not. */
module MoveProofs {
  import opened Types
  import opened Seqs
  import opened Containers
  import opened Store
  import opened StoreProofs

  /** The items of a container after the item at position `j` is filtered
      out. `RemoveAt` gives the same list for such an index, but it is written
      for `splice`'s start rule; this name keeps the plain slice in view for
      the proofs below, where the index is always in range and no clamping
      takes place. */
  function Without(xs: seq<Item>, j: int): seq<Item>
    requires 0 <= j < |xs|
  {
    xs[..j] + xs[j + 1..]
  }

  /** Where `moveItem` found its item: a pool position, or a tier position and
      a position inside that tier. */
  lemma TakenPosition(b: Board, itemId: string, source: ContainerId) returns (k: int, j: int)
    requires Taken(b, itemId, source).Some?
    ensures source.None? ==> 0 <= j < |b.pool| && b.pool[j] == Taken(b, itemId, source).value
    ensures source.Some? ==>
      && 0 <= k < |b.tiers| && b.tiers[k].id == source.value
      && 0 <= j < |b.tiers[k].items| && b.tiers[k].items[j] == Taken(b, itemId, source).value
  {
    var x := Taken(b, itemId, source).value;
    k := 0;
    if source.None? {
      j :| 0 <= j < |b.pool| && b.pool[j] == x;
    } else {
      var st := FindTier(b.tiers, source.value).value;
      k :| 0 <= k < |b.tiers| && b.tiers[k] == st;
      j :| 0 <= j < |st.items| && st.items[j] == x;
    }
  }

  /** On a well-formed board the item is found by its own id in its own
      container. */
  lemma TakenInPool(b: Board, j: int)
    requires WellFormed(b)
    requires 0 <= j < |b.pool|
    ensures Taken(b, b.pool[j].id, None) == Some(b.pool[j])
  {
    ContainersDistinct(b);
    FindItemAt(b.pool, j);
  }

  lemma TakenInTier(b: Board, k: int, j: int)
    requires WellFormed(b)
    requires 0 <= k < |b.tiers| && 0 <= j < |b.tiers[k].items|
    ensures Taken(b, b.tiers[k].items[j].id, Some(b.tiers[k].id)) == Some(b.tiers[k].items[j])
  {
    ContainersDistinct(b);
    FindTierAt(b.tiers, k);
    FindItemAt(b.tiers[k].items, j);
  }

  // ---------------------------------------------------------------------------
  // The two halves
  // ---------------------------------------------------------------------------

  lemma DetachFromPool(b: Board, j: int)
    requires WellFormed(b)
    requires 0 <= j < |b.pool|
    ensures Detach(b, b.pool[j].id, None) == Board(b.tiers, Without(b.pool, j))
  {
    ContainersDistinct(b);
    WithoutItemAt(b.pool, j);
  }

  lemma DetachFromTier(b: Board, k: int, j: int)
    requires WellFormed(b)
    requires 0 <= k < |b.tiers| && 0 <= j < |b.tiers[k].items|
    ensures Detach(b, b.tiers[k].items[j].id, Some(b.tiers[k].id))
         == Board(b.tiers[k := b.tiers[k].(items := Without(b.tiers[k].items, j))], b.pool)
  {
    var r := Detach(b, b.tiers[k].items[j].id, Some(b.tiers[k].id));
    var want := b.tiers[k := b.tiers[k].(items := Without(b.tiers[k].items, j))];
    ContainersDistinct(b);
    WithoutItemAt(b.tiers[k].items, j);
    forall i | 0 <= i < |b.tiers| ensures r.tiers[i] == want[i] {
      if i != k && b.tiers[i].id == b.tiers[k].id {
        UniqueTierPosition(b.tiers, i, k);
        assert false;
      }
    }
  }

  lemma AttachToTier(b: Board, m: int, index: int, x: Item)
    requires Distinct(TierIds(b.tiers))
    requires 0 <= m < |b.tiers|
    ensures Attach(b, Some(b.tiers[m].id), index, x)
         == Board(b.tiers[m := b.tiers[m].(items := InsertAt(b.tiers[m].items, index, x))], b.pool)
  {
    var r := Attach(b, Some(b.tiers[m].id), index, x);
    var want := b.tiers[m := b.tiers[m].(items := InsertAt(b.tiers[m].items, index, x))];
    forall i | 0 <= i < |b.tiers| ensures r.tiers[i] == want[i] {
      if i != m && b.tiers[i].id == b.tiers[m].id {
        UniqueTierPosition(b.tiers, i, m);
        assert false;
      }
    }
  }

  /** Splicing into a tier that was just replaced by one with the same id. */
  lemma AttachToReplaced(b: Board, k: int, t: Tier, index: int, x: Item)
    requires Distinct(TierIds(b.tiers))
    requires 0 <= k < |b.tiers| && t.id == b.tiers[k].id
    ensures Attach(Board(b.tiers[k := t], b.pool), Some(t.id), index, x)
         == Board(b.tiers[k := t.(items := InsertAt(t.items, index, x))], b.pool)
  {
    var mid := Board(b.tiers[k := t], b.pool);
    assert TierIds(mid.tiers) == TierIds(b.tiers);
    AttachToTier(mid, k, index, x);
    assert mid.tiers[k := t.(items := InsertAt(t.items, index, x))]
        == b.tiers[k := t.(items := InsertAt(t.items, index, x))];
  }

  /** Splicing into a tier id that no tier has changes nothing. */
  lemma AttachToMissingTier(b: Board, t: string, index: int, x: Item)
    requires t !in TierIds(b.tiers)
    ensures Attach(b, Some(t), index, x) == b
  {
    var r := Attach(b, Some(t), index, x);
    forall i | 0 <= i < |b.tiers| ensures r.tiers[i] == b.tiers[i] {
      assert TierIds(b.tiers)[i] == b.tiers[i].id;
    }
  }

  lemma DetachFromPoolRemovesOne(b: Board, j: int)
    requires WellFormed(b)
    requires 0 <= j < |b.pool|
    ensures multiset(AllItems(Detach(b, b.pool[j].id, None))) + multiset{b.pool[j]}
         == multiset(AllItems(b))
  {
    ContainersDistinct(b);
    WithoutItemAt(b.pool, j);
    DetachFromPool(b, j);
  }

  lemma DetachFromTierRemovesOne(b: Board, k: int, j: int)
    requires WellFormed(b)
    requires 0 <= k < |b.tiers| && 0 <= j < |b.tiers[k].items|
    ensures multiset(AllItems(Detach(b, b.tiers[k].items[j].id, Some(b.tiers[k].id))))
            + multiset{b.tiers[k].items[j]}
         == multiset(AllItems(b))
  {
    var xs := b.tiers[k].items;
    var x := xs[j];
    var mid := Detach(b, x.id, Some(b.tiers[k].id));
    ContainersDistinct(b);
    WithoutItemAt(xs, j);
    DetachFromTier(b, k, j);
    var w := multiset(WithoutItem(xs, x.id));
    FlattenUpdate(b.tiers, k, b.tiers[k].(items := Without(xs, j)));
    var a, f := multiset(Flatten(mid.tiers)), multiset(Flatten(b.tiers));
    assert a + multiset(xs) == f + w;
    assert multiset(xs) == w + multiset{x};
    assert (a + multiset{x}) + w == f + w;
    MultisetCancel(a + multiset{x}, f, w);
  }

  /** Taking the found item out of its source removes exactly that item from
      the board. */
  lemma DetachRemovesOne(b: Board, itemId: string, source: ContainerId)
    requires WellFormed(b)
    requires Taken(b, itemId, source).Some?
    ensures multiset(AllItems(Detach(b, itemId, source))) + multiset{Taken(b, itemId, source).value}
         == multiset(AllItems(b))
  {
    var k, j := TakenPosition(b, itemId, source);
    if source.None? {
      DetachFromPoolRemovesOne(b, j);
    } else {
      DetachFromTierRemovesOne(b, k, j);
    }
  }

  lemma AttachToTierAddsOne(b: Board, m: int, index: int, x: Item)
    requires Distinct(TierIds(b.tiers))
    requires 0 <= m < |b.tiers|
    ensures multiset(AllItems(Attach(b, Some(b.tiers[m].id), index, x))) == multiset(AllItems(b)) + multiset{x}
  {
    var xs := b.tiers[m].items;
    var r := Attach(b, Some(b.tiers[m].id), index, x);
    AttachToTier(b, m, index, x);
    FlattenUpdate(b.tiers, m, b.tiers[m].(items := InsertAt(xs, index, x)));
    var a, f := multiset(Flatten(r.tiers)), multiset(Flatten(b.tiers));
    assert a + multiset(xs) == f + (multiset(xs) + multiset{x});
    assert a + multiset(xs) == (f + multiset{x}) + multiset(xs);
    MultisetCancel(a, f + multiset{x}, multiset(xs));
  }

  /** Splicing an item into an existing container adds exactly that item to
      the board. */
  lemma AttachAddsOne(b: Board, target: ContainerId, index: int, x: Item)
    requires Distinct(TierIds(b.tiers))
    requires target.Some? ==> target.value in TierIds(b.tiers)
    ensures multiset(AllItems(Attach(b, target, index, x))) == multiset(AllItems(b)) + multiset{x}
  {
    if target.Some? {
      var m :| 0 <= m < |b.tiers| && TierIds(b.tiers)[m] == target.value;
      AttachToTierAddsOne(b, m, index, x);
    }
  }

  // ---------------------------------------------------------------------------
  // Conservation
  // ---------------------------------------------------------------------------

  /** When the source holds the item and the target exists, `moveItem` neither
      creates nor destroys an item, and the board stays well formed. */
  lemma MoveItemConserves(b: Board, itemId: string, source: ContainerId, target: ContainerId, index: int)
    requires WellFormed(b)
    requires Taken(b, itemId, source).Some?
    requires target.Some? ==> target.value in TierIds(b.tiers)
    ensures multiset(AllItems(MoveItem(b, itemId, source, target, index))) == multiset(AllItems(b))
    ensures WellFormed(MoveItem(b, itemId, source, target, index))
  {
    var x := Taken(b, itemId, source).value;
    var mid := Detach(b, itemId, source);
    DetachRemovesOne(b, itemId, source);
    AttachAddsOne(mid, target, index, x);
    WellFormedByPermutation(b, MoveItem(b, itemId, source, target, index));
  }

  /** When the target tier does not exist, `moveItem` still takes the item out
      of its source but puts it nowhere: the item is gone from the board. Ids
      stay unique. */
  lemma MoveItemToMissingTierLosesItem(b: Board, itemId: string, source: ContainerId, t: string, index: int)
    requires WellFormed(b)
    requires Taken(b, itemId, source).Some?
    requires t !in TierIds(b.tiers)
    ensures var r := MoveItem(b, itemId, source, Some(t), index);
            && multiset(AllItems(r)) + multiset{Taken(b, itemId, source).value} == multiset(AllItems(b))
            && itemId !in Ids(AllItems(r))
            && WellFormed(r)
  {
    var x := Taken(b, itemId, source).value;
    var r := MoveItem(b, itemId, source, Some(t), index);
    var mid := Detach(b, itemId, source);
    DetachRemovesOne(b, itemId, source);
    AttachToMissingTier(mid, t, index, x);
    assert r == mid;
    var grown := AllItems(r) + [x];
    assert multiset(grown) == multiset(AllItems(b));
    MapPermutation(ItemId, grown, AllItems(b));
    IdsAppend(AllItems(r), [x]);
    assert Ids([x]) == [itemId];
    assert multiset(Ids(AllItems(r))) + multiset{itemId} == multiset(Ids(AllItems(b)));
    assert multiset(Ids(AllItems(b)))[itemId] <= 1;
    assert multiset(Ids(AllItems(r)))[itemId] == 0;
    DistinctSub(Ids(AllItems(r)), Ids(AllItems(b)));
  }

  // ---------------------------------------------------------------------------
  // Where the item lands
  // ---------------------------------------------------------------------------

  /** When the source holds the item, `moveItem` is the two halves in turn. */
  lemma MoveItemSplit(b: Board, itemId: string, source: ContainerId, target: ContainerId, index: int)
    requires Taken(b, itemId, source).Some?
    ensures MoveItem(b, itemId, source, target, index)
         == Attach(Detach(b, itemId, source), target, index, Taken(b, itemId, source).value)
  {
  }

  /** Tier to another tier: the source tier loses the item, the target tier
      gains it at the splice position, and nothing else changes. */
  lemma MoveItemBetweenTiers(b: Board, k: int, j: int, m: int, index: int)
    requires WellFormed(b)
    requires 0 <= k < |b.tiers| && 0 <= j < |b.tiers[k].items|
    requires 0 <= m < |b.tiers| && m != k
    ensures var x := b.tiers[k].items[j];
            MoveItem(b, x.id, Some(b.tiers[k].id), Some(b.tiers[m].id), index)
            == Board(b.tiers[k := b.tiers[k].(items := Without(b.tiers[k].items, j))]
                            [m := b.tiers[m].(items := InsertAt(b.tiers[m].items, index, x))],
                     b.pool)
  {
    var x := b.tiers[k].items[j];
    TakenInTier(b, k, j);
    DetachFromTier(b, k, j);
    var mid := Detach(b, x.id, Some(b.tiers[k].id));
    assert mid.tiers[m] == b.tiers[m];
    AttachToTier(mid, m, index, x);
  }

  /** Tier to the same tier: the item is filtered out and spliced back in,
      the splice position read on the shortened list. */
  lemma MoveItemWithinTier(b: Board, k: int, j: int, index: int)
    requires WellFormed(b)
    requires 0 <= k < |b.tiers| && 0 <= j < |b.tiers[k].items|
    ensures var x := b.tiers[k].items[j];
            MoveItem(b, x.id, Some(b.tiers[k].id), Some(b.tiers[k].id), index)
            == Board(b.tiers[k := b.tiers[k].(items := InsertAt(Without(b.tiers[k].items, j), index, x))],
                     b.pool)
  {
    var x := b.tiers[k].items[j];
    var id := b.tiers[k].id;
    var k1 := b.tiers[k].(items := Without(b.tiers[k].items, j));
    TakenInTier(b, k, j);
    MoveItemSplit(b, x.id, Some(id), Some(id), index);
    DetachFromTier(b, k, j);
    AttachToReplaced(b, k, k1, index, x);
  }

  /** Pool to a tier. */
  lemma MoveItemPoolToTier(b: Board, j: int, m: int, index: int)
    requires WellFormed(b)
    requires 0 <= j < |b.pool| && 0 <= m < |b.tiers|
    ensures var x := b.pool[j];
            MoveItem(b, x.id, None, Some(b.tiers[m].id), index)
            == Board(b.tiers[m := b.tiers[m].(items := InsertAt(b.tiers[m].items, index, x))],
                     Without(b.pool, j))
  {
    TakenInPool(b, j);
    DetachFromPool(b, j);
    AttachToTier(Board(b.tiers, Without(b.pool, j)), m, index, b.pool[j]);
  }

  /** A tier to the pool. */
  lemma MoveItemTierToPool(b: Board, k: int, j: int, index: int)
    requires WellFormed(b)
    requires 0 <= k < |b.tiers| && 0 <= j < |b.tiers[k].items|
    ensures var x := b.tiers[k].items[j];
            MoveItem(b, x.id, Some(b.tiers[k].id), None, index)
            == Board(b.tiers[k := b.tiers[k].(items := Without(b.tiers[k].items, j))],
                     InsertAt(b.pool, index, x))
  {
    TakenInTier(b, k, j);
    DetachFromTier(b, k, j);
  }

  /** Pool to pool: the splice position is read on the shortened pool. */
  lemma MoveItemWithinPool(b: Board, j: int, index: int)
    requires WellFormed(b)
    requires 0 <= j < |b.pool|
    ensures MoveItem(b, b.pool[j].id, None, None, index)
         == Board(b.tiers, InsertAt(Without(b.pool, j), index, b.pool[j]))
  {
    TakenInPool(b, j);
    DetachFromPool(b, j);
  }

  /** Splicing the item back in where it was filtered out restores the list. */
  lemma InsertWithout(xs: seq<Item>, j: int)
    requires 0 <= j < |xs|
    ensures InsertAt(Without(xs, j), j, xs[j]) == xs
  {
    assert SpliceStart(j, |Without(xs, j)|) == j;
    assert Without(xs, j)[..j] == xs[..j];
    assert Without(xs, j)[j..] == xs[j + 1..];
    assert xs == xs[..j] + [xs[j]] + xs[j + 1..];
  }

  /** Moving an item from tier A to tier B and back again restores B exactly
      and puts the item back into A at the second splice position. */
  lemma MoveItemRoundTrip(b: Board, k: int, j: int, m: int, there: int, back: int)
    requires WellFormed(b)
    requires 0 <= k < |b.tiers| && 0 <= j < |b.tiers[k].items|
    requires 0 <= m < |b.tiers| && m != k
    ensures var x := b.tiers[k].items[j];
            var a, bt := b.tiers[k].id, b.tiers[m].id;
            MoveItem(MoveItem(b, x.id, Some(a), Some(bt), there), x.id, Some(bt), Some(a), back)
            == Board(b.tiers[k := b.tiers[k].(items := InsertAt(Without(b.tiers[k].items, j), back, x))],
                     b.pool)
  {
    var x := b.tiers[k].items[j];
    var a, bt := b.tiers[k].id, b.tiers[m].id;
    var K1 := b.tiers[k].(items := Without(b.tiers[k].items, j));
    var M1 := b.tiers[m].(items := InsertAt(b.tiers[m].items, there, x));
    var r1 := MoveItem(b, x.id, Some(a), Some(bt), there);
    assert r1 == Board(b.tiers[k := K1][m := M1], b.pool) by {
      MoveItemBetweenTiers(b, k, j, m, there);
    }
    assert WellFormed(r1) by {
      TakenInTier(b, k, j);
      MoveItemConserves(b, x.id, Some(a), Some(bt), there);
    }
    var p := SpliceStart(there, |b.tiers[m].items|);
    assert M1.items[p] == x;
    assert Without(M1.items, p) == b.tiers[m].items by {
      RemoveInserted(b.tiers[m].items, there, x);
    }
    var r2 := MoveItem(r1, x.id, Some(bt), Some(a), back);
    var K2 := K1.(items := InsertAt(K1.items, back, x));
    assert r2 == Board(r1.tiers[m := b.tiers[m]][k := K2], b.pool) by {
      assert r1.tiers[m] == M1 && r1.tiers[k] == K1;
      MoveItemBetweenTiers(r1, m, p, k, back);
    }
    UpdateRestore(b.tiers, k, m, K1, M1, K2);
  }

  /** Moving an item to another tier and then back to its old position gives
      back the board it started from. */
  lemma MoveItemThereAndBack(b: Board, k: int, j: int, m: int, there: int)
    requires WellFormed(b)
    requires 0 <= k < |b.tiers| && 0 <= j < |b.tiers[k].items|
    requires 0 <= m < |b.tiers| && m != k
    ensures var x := b.tiers[k].items[j];
            var a, bt := b.tiers[k].id, b.tiers[m].id;
            MoveItem(MoveItem(b, x.id, Some(a), Some(bt), there), x.id, Some(bt), Some(a), j) == b
  {
    MoveItemRoundTrip(b, k, j, m, there, j);
    InsertWithout(b.tiers[k].items, j);
    assert b.tiers[k := b.tiers[k]] == b.tiers;
  }
}
