# TierTango store and drag-and-drop, in Dafny

TierTango is a browser tier-list editor. A board holds an ordered list of
tiers (S, A+, A, … each with a title, a colour and an ordered list of items)
and a pool of items not yet ranked. Items are text or images. The zustand
store in `src/store/tierListStore.ts` owns the board and offers eight
transitions:

- `addTier`, `removeTier`, `updateTier`, `reorderTiers`
- `addItem`, `removeItem`, `updateItem`, `moveItem`

The tier-list view in `src/components/TierList.tsx` turns drag gestures into
`moveItem` calls through three handlers: `handleDragStart`,
`handleDragOver` and `handleDragEnd`.

The model:

- `types.dfy` (`Types`): the records of `src/types/index.ts` and the patch
  payloads. The tier's `label` field is called `title`, because `label` is a
  Dafny keyword. For the same reason the item's `type` field is called `kind`,
  with type `ItemKind`.
- `seqs.dfy` (`Seqs`): the array machinery the store relies on.
  - `splice`, with the index rules of section 23.1.3.31 of ECMAScript 2024: a
    negative start counts from the end, and every start is clamped.
  - `map`, `filter` and `findIndex`.
  - Duplicate-free sequences.
- `containers.dfy` (`Containers`): lookups by id over the pool, the tiers
  and their items, and the board invariant `WellFormed`. The invariant says
  tier ids are unique, and no item id occurs twice across the pool and all
  tiers together.
- `store.dfy` (`Store`): the default board and the eight transitions. Each is
  a pure function from the old board to the new one.
- `store_proofs.dfy` (`StoreProofs`) and `move_proofs.dfy` (`MoveProofs`):
  what each transition does at a known position, that each keeps `WellFormed`,
  conservation of items, and round trips.
- `drag_drop.dfy` (`DragDrop`): the three handlers, over the board snapshot
  and the view's gesture state (`activeId`, `activeTier`, `overId`). `Drop`
  applies the handler's `moveItem` call to the store.
- `drag_proofs.dfy` (`DragProofs`): whole gestures, from drag start to drop,
  and the board each one produces.

Three behaviours of TierTango are stated as proved facts rather than
changed:

- `moveItem` with a target tier that does not exist still takes the item out
  of its source, so the item disappears from the board. The view never
  issues such a call: its targets always come from the current tiers.
- Dropping an item back onto its own tier returns before the gesture state is
  reset.
- A drop off every tier passes the pool's length from before the move.
  `splice` clamps it, so the item ends up last in the pool.

## Model

| member | source | states |
|---|---|---|
| Types.PatchTier | src/types/index.ts:21 | a tier patch never changes the tier's id, since updates exclude `id` |
| Types.PatchItem | src/types/index.ts:22 | an item patch never changes the item's id |
| Seqs.SpliceStart | src/store/tierListStore.ts:63-64 | the position `splice` acts on: counted from the end when negative, clamped to the array, never past its length |
| Seqs.InsertAt | src/store/tierListStore.ts:108 | `splice(index, 0, x)` puts `x` at the splice position, keeps the elements before and after it in order, and adds exactly one `x` to the multiset |
| Seqs.RemoveAt | src/store/tierListStore.ts:63 | `splice(start, 1)` drops exactly the element at the splice position and keeps the rest in order |
| Seqs.FirstIndex | src/store/tierListStore.ts:90 | `find`/`findIndex`: -1 exactly when nothing matches, otherwise a match with no match before it |
| Containers.FindItem | src/store/tierListStore.ts:90 | an item lookup fails exactly when no item has the id; otherwise it returns the first item of the list with that id |
| Containers.FindTier | src/store/tierListStore.ts:93 | a tier lookup fails exactly when no tier has the id; otherwise it returns the first tier of the list with that id |
| Containers.WithoutItem | src/store/tierListStore.ts:91 | filtering out an id leaves no item with it, keeps every other item, and invents nothing (multiplicity and order: WithoutItemKeeps, WithoutItemAppend) |
| Containers.WithoutItemAt | src/store/tierListStore.ts:78 | under unique ids, filtering out an item's id removes exactly that one item |
| Containers.WithoutTier | src/store/tierListStore.ts:27 | filtering out a tier id leaves no tier with it, keeps every other tier, and invents nothing (multiplicity and order: WithoutTierKeeps, WithoutTierAppend) |
| Containers.WithoutItemKeeps | src/store/tierListStore.ts:91 | filtering out an item id keeps every copy of every item with another id and no copy of one with that id |
| Containers.WithoutTierKeeps | src/store/tierListStore.ts:27 | filtering out a tier id keeps every copy of every tier with another id and no copy of one with that id |
| Containers.WithoutItemAppend | src/store/tierListStore.ts:91 | filtering out an item id keeps the other items in their order: the result for a concatenation is the results for the parts, concatenated |
| Containers.WithoutTierAppend | src/store/tierListStore.ts:27 | filtering out a tier id keeps the other tiers in their order, part by part |
| Seqs.FilterKeeps | src/store/tierListStore.ts:27 | `filter` keeps every copy of an element that passes and no copy of one that fails |
| StoreProofs.InitialWellFormed | src/store/tierListStore.ts:4-17 | the store starts with eight empty tiers with distinct ids and an empty pool, which satisfies the board invariant |
| Store.AddTier | src/store/tierListStore.ts:20-23 | the new tier goes last, with the fresh id, the given title and colour and no items; the other tiers and the pool are unchanged |
| StoreProofs.AddTierWellFormed | src/store/tierListStore.ts:20-23 | with a fresh id, adding a tier moves no item and keeps the invariant |
| StoreProofs.RemoveTierUndoesAddTier | src/store/tierListStore.ts:20-32 | removing the tier just added gives back the previous board |
| Store.RemoveTier | src/store/tierListStore.ts:25-32 | afterwards no tier has the id, no tier is invented, and the old pool is kept as a prefix of the new pool |
| StoreProofs.RemoveTierUnknown | src/store/tierListStore.ts:25-32 | removing an unknown tier changes nothing |
| StoreProofs.RemoveTierAt | src/store/tierListStore.ts:25-32 | with unique tier ids, exactly that tier leaves the list and its items are appended to the pool in order |
| StoreProofs.RemoveTierWellFormed | src/store/tierListStore.ts:25-32 | removing a tier loses no item (they move to the pool) and keeps the invariant |
| Store.UpdateTier | src/store/tierListStore.ts:34-39 | tier ids and the pool are unchanged, and every tier with another id is untouched |
| StoreProofs.UpdateTierUnknown | src/store/tierListStore.ts:34-39 | updating an unknown tier changes nothing |
| StoreProofs.UpdateTierTouchesOnlyMatching | src/store/tierListStore.ts:34-39 | on every board, each tier with the id takes the patch and every other tier is left as it was |
| StoreProofs.UpdateTierAt | src/store/tierListStore.ts:34-39 | with unique tier ids, exactly the tier at that position takes the patch |
| StoreProofs.UpdateTierWellFormed | src/store/tierListStore.ts:34-39 | a patch without an `items` field keeps every item where it was and keeps the invariant |
| Store.UpdateItem | src/store/tierListStore.ts:41-58 | the tiers keep their ids, titles, colours and item ids in order, and the pool keeps its item ids |
| StoreProofs.UpdateItemTouchesOnlyMatching | src/store/tierListStore.ts:41-58 | each item with the id, in the pool and in every tier, takes the patch; every other item is unchanged |
| StoreProofs.UpdateItemUnknown | src/store/tierListStore.ts:41-58 | updating an unknown item changes nothing |
| StoreProofs.UpdateItemWellFormed | src/store/tierListStore.ts:41-58 | updating an item keeps the invariant |
| Store.ReorderTiers | src/store/tierListStore.ts:60-66 | the tiers are a permutation of the old ones, the moved tier sits at the clamped end position, and the pool is unchanged |
| StoreProofs.ReorderTiersExample | src/store/tierListStore.ts:60-66 | moving the first of S, A, B, C to index 2 gives A, B, S, C |
| StoreProofs.ReorderTiersKeepsOthers | src/store/tierListStore.ts:60-66 | taking the moved tier out of the result gives back the other tiers in their old order |
| StoreProofs.ReorderTiersWellFormed | src/store/tierListStore.ts:60-66 | reordering moves no item and keeps the invariant |
| Store.AddItem | src/store/tierListStore.ts:68-71 | the new item goes last in the pool with the fresh id; the tiers are unchanged |
| StoreProofs.AddItemWellFormed | src/store/tierListStore.ts:68-71 | with a fresh id, the board gains exactly the new item and keeps the invariant |
| StoreProofs.RemoveItemUndoesAddItem | src/store/tierListStore.ts:68-80 | removing the item just added gives back the previous board |
| Store.RemoveItem | src/store/tierListStore.ts:73-80 | no item with the id is left in the pool or in any tier; tiers keep their id, title and colour; nothing is invented |
| StoreProofs.RemoveItemAll | src/store/tierListStore.ts:73-80 | the board's items afterwards are the old ones with the id filtered out |
| StoreProofs.RemoveItemUnknown | src/store/tierListStore.ts:73-80 | removing an unknown item changes nothing |
| StoreProofs.RemoveItemRemovesOne | src/store/tierListStore.ts:73-80 | on a well-formed board, exactly the one item with the id goes and the invariant is kept |
| StoreProofs.RemoveItemWellFormed | src/store/tierListStore.ts:73-80 | removing an item keeps the invariant |
| Store.Taken | src/store/tierListStore.ts:88-102 | the item `moveItem` takes from its source, if any, has the requested id |
| Store.MoveItem | src/store/tierListStore.ts:82-121 | tier ids never change; when the source does not hold the item (the pool lacks it, the source tier is unknown, or that tier lacks it) the board is unchanged |
| MoveProofs.TakenInPool | src/store/tierListStore.ts:89-91 | on a well-formed board, a pool item is found in the pool by its own id |
| MoveProofs.TakenInTier | src/store/tierListStore.ts:93-95 | on a well-formed board, a tier item is found in its own tier by its own id |
| MoveProofs.DetachRemovesOne | src/store/tierListStore.ts:88-102 | taking the item out of its source removes exactly that one item from the board |
| MoveProofs.AttachAddsOne | src/store/tierListStore.ts:106-118 | putting the item into the pool or an existing tier adds exactly that one item |
| MoveProofs.MoveItemConserves | src/store/tierListStore.ts:82-121 | when the source holds the item and the target exists, the board keeps the same items and stays well formed |
| MoveProofs.MoveItemToMissingTierLosesItem | src/store/tierListStore.ts:109-118 | with a target tier that does not exist, the item leaves the board entirely; ids stay unique |
| MoveProofs.MoveItemBetweenTiers | src/store/tierListStore.ts:93-117 | tier to other tier: the source tier loses exactly that item, the target gains it at the splice position, nothing else changes |
| MoveProofs.MoveItemWithinTier | src/store/tierListStore.ts:93-117 | tier to the same tier: the item is filtered out, then spliced back at a position read on the shortened list |
| MoveProofs.MoveItemPoolToTier | src/store/tierListStore.ts:89-117 | pool to tier: the pool loses the item and the tier gains it at the splice position |
| MoveProofs.MoveItemTierToPool | src/store/tierListStore.ts:93-108 | tier to pool: the tier loses the item and the pool gains it at the splice position |
| MoveProofs.MoveItemWithinPool | src/store/tierListStore.ts:89-108 | pool to pool: the item is filtered out, then spliced back at a position read on the shortened pool |
| MoveProofs.MoveItemRoundTrip | src/store/tierListStore.ts:82-121 | moving from tier A to tier B and back restores B exactly and puts the item into A at the second position |
| MoveProofs.MoveItemThereAndBack | src/store/tierListStore.ts:82-121 | moving to another tier and back to the old position gives back the board it started from |
| DragDrop.OrNull | src/components/TierList.tsx:36 | `id \|\| null`: no tier exactly when the id is empty, otherwise that id |
| DragDrop.DragStart | src/components/TierList.tsx:29-37 | records the dragged id and, as source, the first tier holding it (none when no tier holds it); the hovered tier is kept |
| DragProofs.DragStartFromTier | src/components/TierList.tsx:29-37 | on a well-formed board, picking up a tier's item records that tier |
| DragProofs.DragStartFromPool | src/components/TierList.tsx:29-37 | on a well-formed board, picking up a pool item records no tier |
| DragDrop.DragOver | src/components/TierList.tsx:39-50 | highlights the first tier that is the hovered element or holds it, or none; the dragged item and its source are kept |
| DragDrop.DragEnd | src/components/TierList.tsx:52-86 | no drop target: no call and a reset gesture; any call moves the dragged id from the recorded source, to the pool at its old length or to a tier other than the source at a position inside it, and resets the gesture; no call with a target leaves the gesture as it was |
| DragProofs.DragEndSameTier | src/components/TierList.tsx:63-67 | a drop onto the source tier issues no call and returns before resetting the gesture |
| DragProofs.DragEndOtherTier | src/components/TierList.tsx:69-76 | a drop onto another tier moves the item in front of the first hovered item of that tier, or to its end |
| DragProofs.DragEndOffTiers | src/components/TierList.tsx:77-80 | a drop where no tier matches moves the item to the pool at the pool's old length |
| DragProofs.DragOverHighlightsDropTier | src/components/TierList.tsx:39-80 | the tier highlighted while hovering is where a drop there goes: no highlight when the drop sends the item to the pool; otherwise the target tier read through `|| null` (so a tier with the empty id is not highlighted), and the source tier when the drop is a no-op |
| DragProofs.NoHighlightDropsToPool | src/components/TierList.tsx:39-80 | when no tier has the empty id, a hover that highlights nothing means a drop there goes to the pool |
| DragDrop.Drop | src/components/TierList.tsx:52-86 | the next gesture state is the handler's; with no call the board is unchanged |
| DragProofs.GestureTierToTier | src/components/TierList.tsx:29-86 | dragging a tier's item onto another tier moves it there, in front of the hovered item when there is one; the board stays well formed and the gesture ends |
| DragProofs.GestureSameTier | src/components/TierList.tsx:29-86 | dragging a tier's item onto its own tier changes nothing and leaves the gesture state set |
| DragProofs.GesturePoolToTier | src/components/TierList.tsx:29-86 | dragging a pool item onto a tier moves it from the pool into that tier |
| DragProofs.GestureTierToPool | src/components/TierList.tsx:29-86 | dragging a tier's item off every tier puts it last in the pool |
| DragProofs.GesturePoolToPool | src/components/TierList.tsx:29-86 | dragging a pool item off every tier moves it to the end of the pool |
| DragProofs.GestureWithoutTarget | src/components/TierList.tsx:55-85 | a drop without a target changes nothing and ends the gesture |

## Left out

- The React rendering, the dnd-kit sensors, collision detection and sortable contexts are left out. Only the handlers' decisions are modelled; the ids of the dragged and hovered elements are inputs.
- PNG export through `html-to-image` and image upload through `FileReader` are left out: they are browser I/O.
- `crypto.randomUUID` is left out: the new id is a `freshId` parameter. Freshness is a precondition only of the lemmas that need it.
- `handleAddTier`'s random colour from `Math.random` is left out: the colour is an input of `AddTier`.
- Dark mode (`isDarkMode`, `toggleDarkMode`) and its `matchMedia` initial value are left out. They have no bearing on the board.
- zustand's `set` merging is left out. Each transition returns the whole board; untouched fields are copied unchanged.
- Item `fontSize` is modelled as an integer rather than a floating-point number. Nothing in the model computes with it.
- Store.ReorderTiers: requires a non-empty tier list and a start index that names a tier. Out of range, the TypeScript splices `undefined` into the tier list. No caller in the view uses this operation.
- Types.PatchItem: an absent patch field is `None` and leaves the item's field as it was. TypeScript also accepts an explicit `undefined` (`{ fontSize: undefined }`), which the spread in `updateItem` uses to clear the field. The model cannot express that clearing; no caller in the view sends such a patch. Types.PatchTier has the same limit for tier patches.
- StoreProofs.UpdateTierWellFormed: requires a patch without `items`. A patch may replace a tier's items arbitrarily, which can duplicate ids; the view never sends one.
- Store.RemoveTier: with duplicate tier ids, only the first such tier's items reach the pool. The lemmas about it assume unique tier ids, which every store operation keeps.
- DragProofs.GestureTierToTier, DragProofs.GestureSameTier, DragProofs.GestureTierToPool: require the source tier's id to be non-empty. `|| null` reads an empty id as "no tier"; store-created ids are never empty.
- `handleDragStart`, `handleDragOver` and `handleDragEnd` read the board and gesture state captured at render time. The model passes that snapshot explicitly and does not model React's batching of state updates.
