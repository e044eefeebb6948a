/** The data model of the tier-list editor: items, tiers, the board that holds
    them, and the payloads the store's operations accept. */
module Types {

  /** `T | undefined` (or `T | null`) in the TypeScript: an optional value. */
  datatype Option<+T> = None | Some(value: T)

  /** An item is either a text label or an image; `content` carries the text or
      the image's data URL. */
  datatype ItemKind = Text | Image

  /** An item. `fontSize` is optional; numbers are modelled as integers. */
  datatype Item = Item(id: string, kind: ItemKind, content: string, fontSize: Option<int>)

  /** A tier: an id, a title, a display colour and an ordered list of items. */
  datatype Tier = Tier(id: string, title: string, color: string, items: seq<Item>)

  /** The data part of the store: the ordered tiers and the unassigned pool
      (the store calls the pool `items`). */
  datatype Board = Board(tiers: seq<Tier>, pool: seq<Item>)

  /** What `addTier` accepts: a tier without `id` and `items`. */
  datatype NewTier = NewTier(title: string, color: string)

  /** What `addItem` accepts: an item without `id`. */
  datatype NewItem = NewItem(kind: ItemKind, content: string, fontSize: Option<int>)

  /** What `updateTier` accepts: any subset of the tier's fields except `id`. */
  datatype TierPatch = TierPatch(title: Option<string>, color: Option<string>, items: Option<seq<Item>>)

  /** What `updateItem` accepts: any subset of the item's fields except `id`. */
  datatype ItemPatch = ItemPatch(kind: Option<ItemKind>, content: Option<string>, fontSize: Option<int>)

  /** A container id as `moveItem` takes it: `None` is the pool, `Some(t)` the
      tier whose id is `t`. */
  type ContainerId = Option<string>

  function ItemId(it: Item): string { it.id }

  function TierId(t: Tier): string { t.id }

  /** `{ ...tier, ...updates }`: every field present in the patch wins. */
  function PatchTier(t: Tier, p: TierPatch): (r: Tier)
    ensures r.id == t.id
  {
    Tier(t.id,
         if p.title.Some? then p.title.value else t.title,
         if p.color.Some? then p.color.value else t.color,
         if p.items.Some? then p.items.value else t.items)
  }

  /** `{ ...item, ...updates }`: every field present in the patch wins. */
  function PatchItem(it: Item, p: ItemPatch): (r: Item)
    ensures r.id == it.id
  {
    Item(it.id,
         if p.kind.Some? then p.kind.value else it.kind,
         if p.content.Some? then p.content.value else it.content,
         if p.fontSize.Some? then p.fontSize else it.fontSize)
  }
}
