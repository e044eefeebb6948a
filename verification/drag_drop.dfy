/** The drag-and-drop decisions of the tier list view. The three handlers read
    the current board snapshot and the gesture's local state (`activeId`,
    `activeTier`, `overId`); the drop handler decides whether to call
    `moveItem`, and with which arguments. The ids of the dragged item and of
    the element under the cursor come from the drag library and are taken as
    arbitrary inputs. */
module DragDrop {
  import opened Types
  import opened Seqs
  import opened Containers
  import opened Store

  /** The view's gesture state: the dragged id, the tier it was picked up
      from (`None` for the pool), and the tier under the cursor. */
  datatype Gesture = Gesture(activeId: Option<string>, activeTier: Option<string>, overId: Option<string>)

  /** No gesture in progress. */
  const Idle: Gesture := Gesture(None, None, None)

  /** The arguments of one `moveItem` call. */
  datatype MoveCall = MoveCall(itemId: string, source: ContainerId, target: ContainerId, index: int)

  /** What the drop handler does: at most one `moveItem` call, and the gesture
      state it leaves behind. */
  datatype DropOutcome = DropOutcome(call: Option<MoveCall>, next: Gesture)

  /** `id || null`: JavaScript treats the empty string as false, so an empty
      id reads as "no tier". */
  function OrNull(id: string): (r: Option<string>)
    ensures r.Some? <==> id != ""
    ensures r.Some? ==> r.value == id
  {
    if id == "" then None else Some(id)
  }

  /** `tier.items.some(item => item.id === id)`. */
  function Holds(id: string): Tier -> bool {
    (t: Tier) => id in Ids(t.items)
  }

  /** `tier.id === id || tier.items.some(item => item.id === id)`. */
  function IsOrHolds(id: string): Tier -> bool {
    (t: Tier) => t.id == id || id in Ids(t.items)
  }

  /** `handleDragStart`: remember the dragged id and the first tier whose
      items contain it; when no tier does, the item comes from the pool. */
  function DragStart(tiers: seq<Tier>, g: Gesture, active: string): (r: Gesture)
    ensures r.activeId == Some(active) && r.overId == g.overId
    ensures (forall k :: 0 <= k < |tiers| ==> active !in Ids(tiers[k].items)) ==> r.activeTier == None
    ensures forall k :: 0 <= k < |tiers| && active in Ids(tiers[k].items)
                     && (forall i :: 0 <= i < k ==> active !in Ids(tiers[i].items))
                     ==> r.activeTier == OrNull(tiers[k].id)
  {
    var k := FirstIndex(Holds(active), tiers);
    var source := if k < 0 then None else OrNull(tiers[k].id);
    assert forall k' :: 0 <= k' < |tiers| && active in Ids(tiers[k'].items)
                     && (forall i :: 0 <= i < k' ==> active !in Ids(tiers[i].items))
                     ==> k' == k by {
      forall k' | 0 <= k' < |tiers| && active in Ids(tiers[k'].items)
                  && (forall i :: 0 <= i < k' ==> active !in Ids(tiers[i].items))
        ensures k' == k
      {
        assert Holds(active)(tiers[k']);
      }
    }
    g.(activeId := Some(active), activeTier := source)
  }

  /** `handleDragOver`: the highlighted tier is the first tier that is the
      hovered element or holds it; with nothing hovered, or nothing matching,
      no tier is highlighted. The store is not touched. */
  function DragOver(tiers: seq<Tier>, g: Gesture, over: Option<string>): (r: Gesture)
    ensures r.activeId == g.activeId && r.activeTier == g.activeTier
    ensures over.None? ==> r.overId == None
    ensures over.Some? && (forall k :: 0 <= k < |tiers| ==> !IsOrHolds(over.value)(tiers[k]))
            ==> r.overId == None
    ensures over.Some? ==>
      forall k :: 0 <= k < |tiers| && IsOrHolds(over.value)(tiers[k])
               && (forall i :: 0 <= i < k ==> !IsOrHolds(over.value)(tiers[i]))
               ==> r.overId == OrNull(tiers[k].id)
  {
    match over
    case None => g.(overId := None)
    case Some(o) =>
      var k := FirstIndex(IsOrHolds(o), tiers);
      g.(overId := if k < 0 then None else OrNull(tiers[k].id))
  }

  /** `handleDragEnd`: resolve the drop target to a tier (the hovered tier
      itself, or the tier holding the hovered item). Dropping back onto the
      source tier returns at once, leaving the gesture state as it was.
      Dropping on another tier moves the item there, in front of the hovered
      item or at the end; dropping anywhere else sends it to the end of the
      pool. Without a drop target nothing moves. */
  function DragEnd(b: Board, g: Gesture, active: string, over: Option<string>): (r: DropOutcome)
    ensures over.None? ==> r == DropOutcome(None, Idle)
    ensures r.call.Some? ==> r.next == Idle && r.call.value.itemId == active && r.call.value.source == g.activeTier
    ensures r.call.Some? && r.call.value.target.None? ==> r.call.value.index == |b.pool|
    ensures r.call.Some? && r.call.value.target.Some? ==>
      && r.call.value.target != g.activeTier
      && exists k :: 0 <= k < |b.tiers| && b.tiers[k].id == r.call.value.target.value
                  && 0 <= r.call.value.index <= |b.tiers[k].items|
    ensures r.call.None? && over.Some? ==> r.next == g
  {
    match over
    case None => DropOutcome(None, Idle)
    case Some(o) =>
      var k := FirstIndex(IsOrHolds(o), b.tiers);
      if k >= 0 then
        var target := b.tiers[k];
        if Some(target.id) == g.activeTier then
          DropOutcome(None, g)
        else
          var i := FirstIndex(HasItemId(o), target.items);
          DropOutcome(Some(MoveCall(active, g.activeTier, Some(target.id), if i >= 0 then i else |target.items|)), Idle)
      else
        DropOutcome(Some(MoveCall(active, g.activeTier, None, |b.pool|)), Idle)
  }

  /** A drop as the view performs it: the handler's decision, with its
      `moveItem` call applied to the store. */
  function Drop(b: Board, g: Gesture, active: string, over: Option<string>): (r: (Board, Gesture))
    ensures r.1 == DragEnd(b, g, active, over).next
    ensures DragEnd(b, g, active, over).call.None? ==> r.0 == b
  {
    var d := DragEnd(b, g, active, over);
    var board := match d.call
      case None => b
      case Some(c) => MoveItem(b, c.itemId, c.source, c.target, c.index);
    (board, d.next)
  }
}
