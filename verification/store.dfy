/** The tier-list store: its initial board and its state transitions. Each
    operation is a total function from the old board to the new one; ids the
    TypeScript store draws from `crypto.randomUUID` are passed in as `freshId`. */
module Store {
  import opened Types
  import opened Seqs
  import opened Containers

  /** The eight default tiers, S down to C, all empty. */
  const DefaultTiers: seq<Tier> := [
    Tier("s", "S", "#FF7F7F", []),
    Tier("aplus", "A+", "#FFBF7F", []),
    Tier("a", "A", "#FFDF7F", []),
    Tier("aminus", "A-", "#FFFF7F", []),
    Tier("bplus", "B+", "#BFFF7F", []),
    Tier("b", "B", "#7FFF7F", []),
    Tier("bminus", "B-", "#7FFFFF", []),
    Tier("c", "C", "#7FBFFF", [])
  ]

  /** The board the store starts with: the default tiers and an empty pool. */
  const Initial: Board := Board(DefaultTiers, [])

  /** `addTier`: a new, empty tier goes at the end of the tier list. */
  function AddTier(b: Board, t: NewTier, freshId: string): (r: Board)
    ensures |r.tiers| == |b.tiers| + 1
    ensures r.tiers[..|b.tiers|] == b.tiers
    ensures r.tiers[|b.tiers|] == Tier(freshId, t.title, t.color, [])
    ensures r.pool == b.pool
  {
    Board(b.tiers + [Tier(freshId, t.title, t.color, [])], b.pool)
  }

  /** `removeTier`: every tier with the id leaves the list, and the items of
      the first such tier join the end of the pool. */
  function RemoveTier(b: Board, id: string): (r: Board)
    ensures id !in TierIds(r.tiers)
    ensures multiset(r.tiers) <= multiset(b.tiers)
    ensures |r.pool| >= |b.pool| && r.pool[..|b.pool|] == b.pool
  {
    var moved := match FindTier(b.tiers, id)
      case Some(t) => t.items
      case None => [];
    assert (b.pool + moved)[..|b.pool|] == b.pool;
    Board(WithoutTier(b.tiers, id), b.pool + moved)
  }

  /** The per-tier step of `updateTier`. */
  function PatchTierIf(id: string, p: TierPatch): Tier -> Tier {
    (t: Tier) => if t.id == id then PatchTier(t, p) else t
  }

  /** `updateTier`: the tiers with the id take the patch's fields; nothing
      else changes. */
  function UpdateTier(b: Board, id: string, p: TierPatch): (r: Board)
    ensures TierIds(r.tiers) == TierIds(b.tiers)
    ensures r.pool == b.pool
    ensures forall i :: 0 <= i < |b.tiers| && b.tiers[i].id != id ==> r.tiers[i] == b.tiers[i]
  {
    Board(Map(PatchTierIf(id, p), b.tiers), b.pool)
  }

  /** The per-item step of `updateItem`. */
  function PatchItemIf(id: string, p: ItemPatch): Item -> Item {
    (it: Item) => if it.id == id then PatchItem(it, p) else it
  }

  /** The per-tier step of `updateItem`. */
  function PatchItemsOf(id: string, p: ItemPatch): Tier -> Tier {
    (t: Tier) => t.(items := Map(PatchItemIf(id, p), t.items))
  }

  /** `updateItem`: every item with the id, in the pool and in every tier,
      takes the patch's fields; ids, tiers and positions all stay. */
  function UpdateItem(b: Board, id: string, p: ItemPatch): (r: Board)
    ensures |r.tiers| == |b.tiers|
    ensures forall i :: 0 <= i < |b.tiers| ==>
      && r.tiers[i].id == b.tiers[i].id
      && r.tiers[i].title == b.tiers[i].title
      && r.tiers[i].color == b.tiers[i].color
      && Ids(r.tiers[i].items) == Ids(b.tiers[i].items)
    ensures Ids(r.pool) == Ids(b.pool)
  {
    var r := Board(Map(PatchItemsOf(id, p), b.tiers), Map(PatchItemIf(id, p), b.pool));
    assert Ids(r.pool) == Ids(b.pool);
    assert forall i :: 0 <= i < |b.tiers| ==> Ids(r.tiers[i].items) == Ids(b.tiers[i].items);
    r
  }

  /** `reorderTiers`: the tier at `startIndex` is spliced out and spliced back
      in at `endIndex` (positions read as `splice` reads them). The store
      inserts `undefined` when no tier sits at `startIndex`; that case is
      excluded here. */
  function ReorderTiers(b: Board, startIndex: int, endIndex: int): (r: Board)
    requires 0 < |b.tiers| && startIndex < |b.tiers|
    ensures multiset(r.tiers) == multiset(b.tiers)
    ensures r.tiers[SpliceStart(endIndex, |b.tiers| - 1)] == b.tiers[SpliceStart(startIndex, |b.tiers|)]
    ensures r.pool == b.pool
  {
    var moved := b.tiers[SpliceStart(startIndex, |b.tiers|)];
    var rest := RemoveAt(b.tiers, startIndex);
    Board(InsertAt(rest, endIndex, moved), b.pool)
  }

  /** `addItem`: a new item goes at the end of the pool. */
  function AddItem(b: Board, it: NewItem, freshId: string): (r: Board)
    ensures r.tiers == b.tiers
    ensures |r.pool| == |b.pool| + 1
    ensures r.pool[..|b.pool|] == b.pool
    ensures r.pool[|b.pool|] == Item(freshId, it.kind, it.content, it.fontSize)
  {
    Board(b.tiers, b.pool + [Item(freshId, it.kind, it.content, it.fontSize)])
  }

  /** The per-tier step of `removeItem`. */
  function StripItem(id: string): Tier -> Tier {
    (t: Tier) => t.(items := WithoutItem(t.items, id))
  }

  /** `removeItem`: every item with the id leaves the pool and every tier; the
      tiers themselves stay as they were. */
  function RemoveItem(b: Board, id: string): (r: Board)
    ensures id !in Ids(r.pool)
    ensures |r.tiers| == |b.tiers|
    ensures forall i :: 0 <= i < |b.tiers| ==>
      && r.tiers[i].id == b.tiers[i].id
      && r.tiers[i].title == b.tiers[i].title
      && r.tiers[i].color == b.tiers[i].color
      && id !in Ids(r.tiers[i].items)
      && multiset(r.tiers[i].items) <= multiset(b.tiers[i].items)
    ensures multiset(r.pool) <= multiset(b.pool)
  {
    Board(Map(StripItem(id), b.tiers), WithoutItem(b.pool, id))
  }

  /** The source-side step of `moveItem` for a tier source. */
  function StripItemFrom(tierId: string, itemId: string): Tier -> Tier {
    (t: Tier) => if t.id == tierId then t.(items := WithoutItem(t.items, itemId)) else t
  }

  /** The target-side step of `moveItem` for a tier target. */
  function InsertItemInto(tierId: string, index: int, x: Item): Tier -> Tier {
    (t: Tier) => if t.id == tierId then t.(items := InsertAt(t.items, index, x)) else t
  }

  /** The item `moveItem` finds in the claimed source, if any: the pool when
      the source is `None`, else the first tier with the source id. */
  function Taken(b: Board, itemId: string, source: ContainerId): (r: Option<Item>)
    ensures r.Some? ==> r.value.id == itemId
  {
    match source
    case None => FindItem(b.pool, itemId)
    case Some(s) =>
      match FindTier(b.tiers, s)
      case None => None
      case Some(st) => FindItem(st.items, itemId)
  }

  /** The first half of `moveItem`: the board with the item filtered out of
      the claimed source (the pool, or every tier with the source id). */
  function Detach(b: Board, itemId: string, source: ContainerId): (r: Board)
    ensures TierIds(r.tiers) == TierIds(b.tiers)
  {
    match source
    case None => Board(b.tiers, WithoutItem(b.pool, itemId))
    case Some(s) =>
      var r := Board(Map(StripItemFrom(s, itemId), b.tiers), b.pool);
      assert TierIds(r.tiers) == TierIds(b.tiers);
      r
  }

  /** The second half of `moveItem`: `x` spliced into the target at `index`
      (the pool, or every tier with the target id). */
  function Attach(b: Board, target: ContainerId, index: int, x: Item): (r: Board)
    ensures TierIds(r.tiers) == TierIds(b.tiers)
  {
    match target
    case None => Board(b.tiers, InsertAt(b.pool, index, x))
    case Some(t) =>
      var r := Board(Map(InsertItemInto(t, index, x), b.tiers), b.pool);
      assert TierIds(r.tiers) == TierIds(b.tiers);
      r
  }

  /** `moveItem`: take the item out of the claimed source and splice it into
      the target at `index`. When the source does not hold it, the board is
      returned unchanged. */
  function MoveItem(b: Board, itemId: string, source: ContainerId, target: ContainerId, index: int): (r: Board)
    ensures TierIds(r.tiers) == TierIds(b.tiers)
    ensures source.None? && itemId !in Ids(b.pool) ==> r == b
    ensures source.Some? && source.value !in TierIds(b.tiers) ==> r == b
    ensures (source.Some? && FindTier(b.tiers, source.value).Some?
             && itemId !in Ids(FindTier(b.tiers, source.value).value.items)) ==> r == b
  {
    match Taken(b, itemId, source)
    case None => b
    case Some(x) => Attach(Detach(b, itemId, source), target, index, x)
  }
}
