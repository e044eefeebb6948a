/** What a whole drag gesture does to a well-formed board: the source tier
    the drag start records, the `moveItem` call the drop issues, and the board
    that call produces, for every kind of drop the view allows. */
module DragProofs {
  import opened Types
  import opened Seqs
  import opened Containers
  import opened Store
  import opened StoreProofs
  import opened MoveProofs
  import opened DragDrop

  // ---------------------------------------------------------------------------
  // On a well-formed board an item sits in one container only
  // ---------------------------------------------------------------------------

  /** No id is held both by a tier and by the pool. */
  lemma TierItemNotInPool(b: Board, k: int, id: string)
    requires WellFormed(b)
    requires 0 <= k < |b.tiers|
    ensures id in Ids(b.tiers[k].items) ==> id !in Ids(b.pool)
  {
    if id in Ids(b.tiers[k].items) {
      TierIdOnBoard(Board(b.tiers, []), k, id);
      assert AllItems(Board(b.tiers, [])) == Flatten(b.tiers);
    }
    IdsAppend(b.pool, Flatten(b.tiers));
    DistinctAppend(Ids(b.pool), Ids(Flatten(b.tiers)));
  }

  /** No id is held by two different tiers. */
  lemma TiersDisjoint(b: Board, k: int, k': int, id: string)
    requires WellFormed(b)
    requires 0 <= k < k' < |b.tiers|
    ensures id !in Ids(b.tiers[k].items) || id !in Ids(b.tiers[k'].items)
  {
    var ts := b.tiers;
    if id in Ids(ts[k].items) {
      var pre := ts[..k'];
      FlattenSplit(ts, k');
      assert pre[k] == ts[k];
      TierIdOnBoard(Board(pre, []), k, id);
      assert AllItems(Board(pre, [])) == Flatten(pre);
      var front := b.pool + Flatten(pre);
      var back := ts[k'].items + Flatten(ts[k' + 1..]);
      assert AllItems(b) == front + back;
      IdsAppend(front, back);
      IdsAppend(b.pool, Flatten(pre));
      IdsAppend(ts[k'].items, Flatten(ts[k' + 1..]));
      assert id in Ids(front);
      DistinctAppend(Ids(front), Ids(back));
      assert id !in Ids(back);
    }
  }

  /** An id a tier holds is held by no other tier. */
  lemma HeldOnlyBy(b: Board, k: int, id: string)
    requires WellFormed(b)
    requires 0 <= k < |b.tiers| && id in Ids(b.tiers[k].items)
    ensures forall i :: 0 <= i < |b.tiers| && i != k ==> id !in Ids(b.tiers[i].items)
  {
    forall i | 0 <= i < |b.tiers| && i != k ensures id !in Ids(b.tiers[i].items) {
      if i < k {
        TiersDisjoint(b, i, k, id);
      } else {
        TiersDisjoint(b, k, i, id);
      }
    }
  }

  // ---------------------------------------------------------------------------
  // handleDragStart
  // ---------------------------------------------------------------------------

  /** Picking up a tier's item records that tier as the source (or no tier,
      should its id be the empty string). */
  lemma DragStartFromTier(b: Board, g: Gesture, k: int, j: int)
    requires WellFormed(b)
    requires 0 <= k < |b.tiers| && 0 <= j < |b.tiers[k].items|
    ensures DragStart(b.tiers, g, b.tiers[k].items[j].id).activeTier == OrNull(b.tiers[k].id)
  {
    var id := b.tiers[k].items[j].id;
    assert Ids(b.tiers[k].items)[j] == id;
    HeldOnlyBy(b, k, id);
  }

  /** Picking up a pool item records no source tier. */
  lemma DragStartFromPool(b: Board, g: Gesture, j: int)
    requires WellFormed(b)
    requires 0 <= j < |b.pool|
    ensures DragStart(b.tiers, g, b.pool[j].id).activeTier == None
  {
    var id := b.pool[j].id;
    assert Ids(b.pool)[j] == id;
    forall k | 0 <= k < |b.tiers| ensures id !in Ids(b.tiers[k].items) {
      TierItemNotInPool(b, k, id);
    }
  }

  // ---------------------------------------------------------------------------
  // handleDragEnd
  // ---------------------------------------------------------------------------

  /** `k` is the tier the drop resolves to: the first tier that is the hovered
      element or holds it. */
  ghost predicate ResolvesTo(tiers: seq<Tier>, over: string, k: int) {
    && 0 <= k < |tiers|
    && IsOrHolds(over)(tiers[k])
    && forall i :: 0 <= i < k ==> !IsOrHolds(over)(tiers[i])
  }

  /** A drop that resolves to `k` finds `k` first. */
  lemma ResolvesToFirst(tiers: seq<Tier>, over: string, k: int)
    requires ResolvesTo(tiers, over, k)
    ensures FirstIndex(IsOrHolds(over), tiers) == k
  {
  }

  /** Conversely, whatever tier the lookup finds is the one the drop
      resolves to. */
  lemma FirstResolves(tiers: seq<Tier>, over: string)
    requires 0 <= FirstIndex(IsOrHolds(over), tiers)
    ensures ResolvesTo(tiers, over, FirstIndex(IsOrHolds(over), tiers))
  {
  }

  /** Dropping back onto the source tier does nothing, and the gesture state
      is not reset: the handler returns before clearing it. */
  lemma DragEndSameTier(b: Board, g: Gesture, active: string, over: string, k: int)
    requires ResolvesTo(b.tiers, over, k)
    requires g.activeTier == Some(b.tiers[k].id)
    ensures DragEnd(b, g, active, Some(over)) == DropOutcome(None, g)
  {
    ResolvesToFirst(b.tiers, over, k);
  }

  /** Dropping onto another tier moves the item there: in front of the hovered
      item when an item of that tier is hovered, else at the end. The gesture
      state is cleared. */
  lemma DragEndOtherTier(b: Board, g: Gesture, active: string, over: string, k: int) returns (index: int)
    requires ResolvesTo(b.tiers, over, k)
    requires g.activeTier != Some(b.tiers[k].id)
    ensures DragEnd(b, g, active, Some(over))
         == DropOutcome(Some(MoveCall(active, g.activeTier, Some(b.tiers[k].id), index)), Idle)
    ensures 0 <= index <= |b.tiers[k].items|
    ensures over !in Ids(b.tiers[k].items) ==> index == |b.tiers[k].items|
    ensures over in Ids(b.tiers[k].items) ==>
      && index < |b.tiers[k].items|
      && b.tiers[k].items[index].id == over
      && forall i :: 0 <= i < index ==> b.tiers[k].items[i].id != over
  {
    ResolvesToFirst(b.tiers, over, k);
    var xs := b.tiers[k].items;
    var i := FirstIndex(HasItemId(over), xs);
    index := if i >= 0 then i else |xs|;
    if over in Ids(xs) {
      var p :| 0 <= p < |xs| && Ids(xs)[p] == over;
      assert HasItemId(over)(xs[p]);
    } else {
      forall q | 0 <= q < |xs| ensures !HasItemId(over)(xs[q]) {
        assert Ids(xs)[q] == xs[q].id;
      }
    }
    assert forall q :: 0 <= q < index ==> !HasItemId(over)(xs[q]);
  }

  /** Dropping where no tier matches sends the item to the end of the pool,
      by the pool's length before the move. */
  lemma DragEndOffTiers(b: Board, g: Gesture, active: string, over: string)
    requires forall k :: 0 <= k < |b.tiers| ==> !IsOrHolds(over)(b.tiers[k])
    ensures DragEnd(b, g, active, Some(over))
         == DropOutcome(Some(MoveCall(active, g.activeTier, None, |b.pool|)), Idle)
  {
  }

  /** The tier highlighted while hovering is the tier a drop there goes to:
      no highlight when the drop sends the item to the pool; otherwise the
      target tier read through `|| null`, and the source tier when the drop
      is a no-op onto the tier the item came from. NoHighlightDropsToPool
      gives the converse when no tier id is empty. */
  lemma DragOverHighlightsDropTier(b: Board, g: Gesture, h: Gesture, active: string, over: string)
    ensures var d := DragEnd(b, h, active, Some(over));
            var lit := DragOver(b.tiers, g, Some(over)).overId;
            && (d.call.Some? && d.call.value.target.None? ==> lit == None)
            && (d.call.Some? && d.call.value.target.Some? ==> lit == OrNull(d.call.value.target.value))
            && (d.call.None? ==> h.activeTier.Some? && lit == OrNull(h.activeTier.value))
  {
  }

  /** The converse, when no tier has the empty id (which `|| null` would read
      as no tier): a hover that highlights nothing means a drop there sends
      the item to the pool. */
  lemma NoHighlightDropsToPool(b: Board, g: Gesture, h: Gesture, active: string, over: string)
    requires forall k :: 0 <= k < |b.tiers| ==> b.tiers[k].id != ""
    ensures DragOver(b.tiers, g, Some(over)).overId == None ==>
      var d := DragEnd(b, h, active, Some(over));
      d.call.Some? && d.call.value.target.None?
  {
  }

  // ---------------------------------------------------------------------------
  // Whole gestures: drag start, then drop
  // ---------------------------------------------------------------------------

  /** Appending is splicing in at the current length. */
  lemma InsertAtEnd(xs: seq<Item>, x: Item)
    ensures InsertAt(xs, |xs|, x) == xs + [x]
  {
  }

  /** Dragging a tier's item onto a different tier moves it there and nowhere
      else; the board stays well formed and the gesture ends. */
  lemma GestureTierToTier(b: Board, k: int, j: int, over: string, m: int) returns (index: int)
    requires WellFormed(b)
    requires 0 <= k < |b.tiers| && 0 <= j < |b.tiers[k].items| && b.tiers[k].id != ""
    requires ResolvesTo(b.tiers, over, m) && m != k
    ensures var x := b.tiers[k].items[j];
            var g := DragStart(b.tiers, Idle, x.id);
            Drop(b, g, x.id, Some(over))
            == (Board(b.tiers[k := b.tiers[k].(items := Without(b.tiers[k].items, j))]
                             [m := b.tiers[m].(items := InsertAt(b.tiers[m].items, index, x))],
                      b.pool),
                Idle)
    ensures 0 <= index <= |b.tiers[m].items|
    ensures over in Ids(b.tiers[m].items) ==> index < |b.tiers[m].items| && b.tiers[m].items[index].id == over
    ensures WellFormed(Drop(b, DragStart(b.tiers, Idle, b.tiers[k].items[j].id), b.tiers[k].items[j].id, Some(over)).0)
  {
    var x := b.tiers[k].items[j];
    var g := DragStart(b.tiers, Idle, x.id);
    DragStartFromTier(b, Idle, k, j);
    assert g.activeTier == Some(b.tiers[k].id);
    if b.tiers[m].id == b.tiers[k].id {
      UniqueTierPosition(b.tiers, m, k);
    }
    index := DragEndOtherTier(b, g, x.id, over, m);
    var moved := MoveItem(b, x.id, Some(b.tiers[k].id), Some(b.tiers[m].id), index);
    assert Drop(b, g, x.id, Some(over)) == (moved, Idle);
    MoveItemBetweenTiers(b, k, j, m, index);
    TakenInTier(b, k, j);
    assert b.tiers[m].id in TierIds(b.tiers) by {
      assert TierIds(b.tiers)[m] == b.tiers[m].id;
    }
    MoveItemConserves(b, x.id, Some(b.tiers[k].id), Some(b.tiers[m].id), index);
  }

  /** Dragging a tier's item back onto its own tier changes nothing, and the
      gesture state is left as the drag start set it, not reset. */
  lemma GestureSameTier(b: Board, k: int, j: int, over: string)
    requires WellFormed(b)
    requires 0 <= k < |b.tiers| && 0 <= j < |b.tiers[k].items| && b.tiers[k].id != ""
    requires ResolvesTo(b.tiers, over, k)
    ensures var x := b.tiers[k].items[j];
            var g := DragStart(b.tiers, Idle, x.id);
            Drop(b, g, x.id, Some(over)) == (b, g) && g != Idle
  {
    var x := b.tiers[k].items[j];
    DragStartFromTier(b, Idle, k, j);
    DragEndSameTier(b, DragStart(b.tiers, Idle, x.id), x.id, over, k);
  }

  /** Dragging a pool item onto a tier moves it into that tier. */
  lemma GesturePoolToTier(b: Board, j: int, over: string, m: int) returns (index: int)
    requires WellFormed(b)
    requires 0 <= j < |b.pool|
    requires ResolvesTo(b.tiers, over, m)
    ensures var x := b.pool[j];
            var g := DragStart(b.tiers, Idle, x.id);
            Drop(b, g, x.id, Some(over))
            == (Board(b.tiers[m := b.tiers[m].(items := InsertAt(b.tiers[m].items, index, x))],
                      Without(b.pool, j)),
                Idle)
    ensures 0 <= index <= |b.tiers[m].items|
    ensures over in Ids(b.tiers[m].items) ==> index < |b.tiers[m].items| && b.tiers[m].items[index].id == over
  {
    var x := b.pool[j];
    var g := DragStart(b.tiers, Idle, x.id);
    DragStartFromPool(b, Idle, j);
    index := DragEndOtherTier(b, g, x.id, over, m);
    assert Drop(b, g, x.id, Some(over)) == (MoveItem(b, x.id, None, Some(b.tiers[m].id), index), Idle);
    MoveItemPoolToTier(b, j, m, index);
  }

  /** Dragging a tier's item off every tier puts it last in the pool. */
  lemma GestureTierToPool(b: Board, k: int, j: int, over: string)
    requires WellFormed(b)
    requires 0 <= k < |b.tiers| && 0 <= j < |b.tiers[k].items| && b.tiers[k].id != ""
    requires forall i :: 0 <= i < |b.tiers| ==> !IsOrHolds(over)(b.tiers[i])
    ensures var x := b.tiers[k].items[j];
            var g := DragStart(b.tiers, Idle, x.id);
            Drop(b, g, x.id, Some(over))
            == (Board(b.tiers[k := b.tiers[k].(items := Without(b.tiers[k].items, j))], b.pool + [x]),
                Idle)
  {
    var x := b.tiers[k].items[j];
    DragStartFromTier(b, Idle, k, j);
    MoveItemTierToPool(b, k, j, |b.pool|);
    InsertAtEnd(b.pool, x);
  }

  /** Dragging a pool item off every tier moves it to the end of the pool:
      the drop passes the old pool length, which the splice clamps to the
      shortened pool. */
  lemma GesturePoolToPool(b: Board, j: int, over: string)
    requires WellFormed(b)
    requires 0 <= j < |b.pool|
    requires forall i :: 0 <= i < |b.tiers| ==> !IsOrHolds(over)(b.tiers[i])
    ensures var x := b.pool[j];
            var g := DragStart(b.tiers, Idle, x.id);
            Drop(b, g, x.id, Some(over)) == (Board(b.tiers, Without(b.pool, j) + [x]), Idle)
  {
    var x := b.pool[j];
    DragStartFromPool(b, Idle, j);
    MoveItemWithinPool(b, j, |b.pool|);
    assert SpliceStart(|b.pool|, |Without(b.pool, j)|) == |Without(b.pool, j)|;
    InsertAtEnd(Without(b.pool, j), x);
  }

  /** A drop without a drop target moves nothing and ends the gesture. */
  lemma GestureWithoutTarget(b: Board, g: Gesture, active: string)
    ensures Drop(b, g, active, None) == (b, Idle)
  {
  }
}
