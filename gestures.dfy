/**
 * The pointer handlers of the board (static/app.js, onPointerDown,
 * onPointerMove, onPointerUp and the pan and image-drag helpers they call),
 * with the per-frame tick, recenter and the wheel. The state is the module's
 * variables: the pan flags and anchors, the camera, the image drag and the
 * pending long-press timer, modelled as the item the timer will pick up.
 * Timer expiry and animation frames are events the environment delivers.
 */
module Gestures {
  import opened Wrappers
  import opened Grid
  import opened Placement
  import opened Camera

  /** A pointer farther than this from the press on either axis cancels the long press. */
  const MOVE_CANCEL: real := 6.0

  /** `imageDrag`: the item held and its world position when the hold began. */
  datatype ImageDrag = ImageDrag(item: nat, startWX: real, startWY: real)

  /** The movement test of onPointerMove: more than MOVE_CANCEL away on either axis, in either direction. */
  predicate MovedFar(startX: real, startY: real, x: real, y: real)
    ensures MovedFar(startX, startY, x, y)
            <==> x > startX + MOVE_CANCEL || x < startX - MOVE_CANCEL || y > startY + MOVE_CANCEL || y < startY - MOVE_CANCEL
  {
    Abs(x - startX) > MOVE_CANCEL || Abs(y - startY) > MOVE_CANCEL
  }

  /**
   * The movement test measures distance: staying put never cancels the hold,
   * and the test reads the same with the two points exchanged.
   */
  lemma MovedFarIsDistance(startX: real, startY: real, x: real, y: real)
    ensures !MovedFar(x, y, x, y)
    ensures MovedFar(startX, startY, x, y) <==> MovedFar(x, y, startX, startY)
  {
  }

  class Stage {
    /** The placement state whose items the image drag moves. */
    const world: World

    var targetX: real
    var targetY: real
    var viewX: real
    var viewY: real
    var inertiaVX: real
    var inertiaVY: real

    var isPanning: bool
    var dragStartX: real
    var dragStartY: real
    var startTargetX: real
    var startTargetY: real

    var imageDrag: Option<ImageDrag>
    /** `longPressTimer`: Some(i) while a timer is armed that will pick up item i. */
    var longPress: Option<nat>

    ghost predicate Valid()
      reads this, world
    {
      && world.Valid()
      && (imageDrag.Some? ==> imageDrag.value.item < |world.items|)
      && (longPress.Some? ==> longPress.value < |world.items|)
    }

    /** The initial module state: camera at the origin, nothing pressed, no timer. */
    constructor (w: World)
      requires w.Valid()
      ensures Valid() && world == w
      ensures targetX == 0.0 && targetY == 0.0 && viewX == 0.0 && viewY == 0.0
      ensures inertiaVX == 0.0 && inertiaVY == 0.0
      ensures !isPanning && imageDrag.None? && longPress.None?
    {
      world := w;
      targetX, targetY, viewX, viewY := 0.0, 0.0, 0.0, 0.0;
      inertiaVX, inertiaVY := 0.0, 0.0;
      isPanning := false;
      dragStartX, dragStartY, startTargetX, startTargetY := 0.0, 0.0, 0.0, 0.0;
      imageDrag := None;
      longPress := None;
    }

    /**
     * One frame of animate: inertia moves the target and decays only while
     * nothing is held; then the view follows the target.
     */
    method Tick()
      modifies this`targetX, this`targetY, this`inertiaVX, this`inertiaVY, this`viewX, this`viewY
      ensures if !isPanning && imageDrag.None? then
                && targetX == old(targetX) + old(inertiaVX) && targetY == old(targetY) + old(inertiaVY)
                && inertiaVX == Decay(old(inertiaVX)) && inertiaVY == Decay(old(inertiaVY))
              else
                && targetX == old(targetX) && targetY == old(targetY)
                && inertiaVX == old(inertiaVX) && inertiaVY == old(inertiaVY)
      ensures viewX == Smooth(old(viewX), targetX) && viewY == Smooth(old(viewY), targetY)
    {
      if !isPanning && imageDrag.None? {
        targetX := targetX + inertiaVX;
        targetY := targetY + inertiaVY;
        inertiaVX := Decay(inertiaVX);
        inertiaVY := Decay(inertiaVY);
      }
      viewX := Smooth(viewX, targetX);
      viewY := Smooth(viewY, targetY);
    }

    /** recenter: target and inertia back to zero; the view glides back on later frames. */
    method Recenter()
      modifies this`targetX, this`targetY, this`inertiaVX, this`inertiaVY
      ensures targetX == 0.0 && targetY == 0.0 && inertiaVX == 0.0 && inertiaVY == 0.0
    {
      targetX, targetY := 0.0, 0.0;
      inertiaVX, inertiaVY := 0.0, 0.0;
    }

    /**
     * onWheel: an impulse against the wheel direction on the velocity, never on
     * the target; with shift held the vertical wheel drives the horizontal axis.
     */
    method Wheel(deltaX: real, deltaY: real, shiftKey: bool)
      modifies this`inertiaVX, this`inertiaVY
      ensures var h := if shiftKey then deltaY else deltaX;
              && inertiaVX == old(inertiaVX) - h * WHEEL_SCALE
              && (h > 0.0 ==> inertiaVX < old(inertiaVX)) && (h < 0.0 ==> inertiaVX > old(inertiaVX))
      ensures inertiaVY == old(inertiaVY) - deltaY * WHEEL_SCALE
      ensures (deltaY > 0.0 ==> inertiaVY < old(inertiaVY)) && (deltaY < 0.0 ==> inertiaVY > old(inertiaVY))
    {
      inertiaVX := inertiaVX - (if shiftKey then deltaY else deltaX) * WHEEL_SCALE;
      inertiaVY := inertiaVY - deltaY * WHEEL_SCALE;
    }

    /** startPan: anchor the drag at the pointer and the current target; stop the inertia. */
    method StartPan(x: real, y: real)
      modifies this`isPanning, this`dragStartX, this`dragStartY, this`startTargetX, this`startTargetY,
               this`inertiaVX, this`inertiaVY
      ensures isPanning && dragStartX == x && dragStartY == y
      ensures startTargetX == targetX && startTargetY == targetY
      ensures inertiaVX == 0.0 && inertiaVY == 0.0
    {
      isPanning := true;
      dragStartX, dragStartY := x, y;
      startTargetX, startTargetY := targetX, targetY;
      inertiaVX, inertiaVY := 0.0, 0.0;
    }

    /**
     * movePan: while panning and not dragging an image, the target is the
     * anchor plus the pointer offset, and the velocity is that offset scaled;
     * otherwise nothing changes.
     */
    method MovePan(x: real, y: real)
      modifies this`targetX, this`targetY, this`inertiaVX, this`inertiaVY
      ensures if isPanning && imageDrag.None? then
                && targetX == startTargetX + (x - dragStartX) && targetY == startTargetY + (y - dragStartY)
                && inertiaVX == (x - dragStartX) * DRAG_VELOCITY && inertiaVY == (y - dragStartY) * DRAG_VELOCITY
              else
                && targetX == old(targetX) && targetY == old(targetY)
                && inertiaVX == old(inertiaVX) && inertiaVY == old(inertiaVY)
    {
      if !isPanning || imageDrag.Some? {
        return;
      }
      var dx := x - dragStartX;
      var dy := y - dragStartY;
      targetX, targetY := startTargetX + dx, startTargetY + dy;
      inertiaVX, inertiaVY := dx * DRAG_VELOCITY, dy * DRAG_VELOCITY;
    }

    /** endPan: the pan is over; the velocity left by movePan carries on as inertia. */
    method EndPan()
      modifies this`isPanning
      ensures !isPanning
    {
      isPanning := false;
    }

    /**
     * onPointerDown: a press on item `hit` re-arms the long-press timer for it
     * (a press elsewhere leaves any timer alone); every press starts a pan.
     */
    method PointerDown(x: real, y: real, hit: Option<nat>)
      requires Valid() && (hit.Some? ==> hit.value < |world.items|)
      modifies this`longPress, this`isPanning, this`dragStartX, this`dragStartY,
               this`startTargetX, this`startTargetY, this`inertiaVX, this`inertiaVY
      ensures Valid()
      ensures longPress == if hit.Some? then hit else old(longPress)
      ensures isPanning && dragStartX == x && dragStartY == y
      ensures startTargetX == targetX && startTargetY == targetY
      ensures inertiaVX == 0.0 && inertiaVY == 0.0
    {
      if hit.Some? {
        longPress := hit;
      }
      StartPan(x, y);
    }

    /** beginImageDrag, run when the long-press timer fires: item `i` is held at its current position. */
    method BeginImageDrag(i: nat)
      requires Valid() && i < |world.items|
      modifies this`imageDrag
      ensures Valid()
      ensures imageDrag == Some(ImageDrag(i, world.items[i].pos.x, world.items[i].pos.y))
    {
      imageDrag := Some(ImageDrag(i, world.items[i].pos.x, world.items[i].pos.y));
    }

    /** The long-press timer fires: a pending press picks up its item; with no timer armed nothing happens. */
    method LongPressFires()
      requires Valid()
      modifies this`imageDrag, this`longPress
      ensures Valid() && longPress.None?
      ensures match old(longPress)
              case None => imageDrag == old(imageDrag)
              case Some(i) => imageDrag == Some(ImageDrag(i, world.items[i].pos.x, world.items[i].pos.y))
    {
      if longPress.Some? {
        var i := longPress.value;
        longPress := None;
        BeginImageDrag(i);
      }
    }

    /**
     * updateImageDrag: the held item sits at its start position plus the
     * pointer offset from the press; the grid is not updated.
     */
    method UpdateImageDrag(x: real, y: real)
      requires Valid() && imageDrag.Some?
      modifies world`items
      ensures Valid()
      ensures var d := imageDrag.value;
              world.Snapshot() == MoveTo(old(world.Snapshot()), d.item,
                                         Point(d.startWX + (x - dragStartX), d.startWY + (y - dragStartY)))
    {
      var d := imageDrag.value;
      world.MoveItem(d.item, Point(d.startWX + (x - dragStartX), d.startWY + (y - dragStartY)));
    }

    /** endImageDrag: the item is let go where it is. */
    method EndImageDrag()
      modifies this`imageDrag
      ensures imageDrag.None?
    {
      imageDrag := None;
    }

    /**
     * onPointerMove: a move far enough from the press cancels the pending long
     * press; then either the held image follows the pointer (the camera is
     * untouched) or the pan follows it.
     */
    method PointerMove(x: real, y: real)
      requires Valid()
      modifies this`longPress, this`targetX, this`targetY, this`inertiaVX, this`inertiaVY, world`items
      ensures Valid()
      ensures longPress == if MovedFar(dragStartX, dragStartY, x, y) then None else old(longPress)
      ensures imageDrag.Some? ==>
                var d := imageDrag.value;
                && world.Snapshot() == MoveTo(old(world.Snapshot()), d.item,
                                              Point(d.startWX + (x - dragStartX), d.startWY + (y - dragStartY)))
                && targetX == old(targetX) && targetY == old(targetY)
                && inertiaVX == old(inertiaVX) && inertiaVY == old(inertiaVY)
      ensures imageDrag.None? ==>
                && world.items == old(world.items)
                && if isPanning then
                     && targetX == startTargetX + (x - dragStartX) && targetY == startTargetY + (y - dragStartY)
                     && inertiaVX == (x - dragStartX) * DRAG_VELOCITY && inertiaVY == (y - dragStartY) * DRAG_VELOCITY
                   else
                     && targetX == old(targetX) && targetY == old(targetY)
                     && inertiaVX == old(inertiaVX) && inertiaVY == old(inertiaVY)
    {
      if MovedFar(dragStartX, dragStartY, x, y) {
        longPress := None;
      }
      if imageDrag.Some? {
        UpdateImageDrag(x, y);
        return;
      }
      MovePan(x, y);
    }

    /**
     * onPointerUp and onPointerCancel: the timer is always cancelled. An image
     * drag ends the drag only (endPan is skipped, so the pan flag stays as it
     * was); otherwise the pan ends.
     */
    method PointerUp()
      modifies this`longPress, this`imageDrag, this`isPanning
      ensures longPress.None? && imageDrag.None?
      ensures isPanning == (old(imageDrag).Some? && old(isPanning))
    {
      longPress := None;
      if imageDrag.Some? {
        EndImageDrag();
        return;
      }
      EndPan();
    }
  }

  /**
   * Press on item `i` at (x0, y0), hold until the timer fires, move to
   * (x1, y1): the item is held and follows the pointer while the camera's
   * target and view stay put and the pan stays anchored at the press.
   */
  method HoldAndDrag(s: Stage, i: nat, x0: real, y0: real, x1: real, y1: real)
    requires s.Valid() && s.imageDrag.None? && i < |s.world.items|
    modifies s, s.world`items
    ensures s.Valid()
    ensures s.imageDrag == Some(ImageDrag(i, old(s.world.items[i].pos.x), old(s.world.items[i].pos.y)))
    ensures s.world.Snapshot() == MoveTo(old(s.world.Snapshot()), i,
                                         Point(old(s.world.items[i].pos.x) + (x1 - x0), old(s.world.items[i].pos.y) + (y1 - y0)))
    ensures s.targetX == old(s.targetX) && s.targetY == old(s.targetY)
    ensures s.viewX == old(s.viewX) && s.viewY == old(s.viewY)
    ensures s.isPanning && s.longPress.None?
    ensures s.dragStartX == x0 && s.dragStartY == y0
    ensures s.startTargetX == old(s.targetX) && s.startTargetY == old(s.targetY)
  {
    ghost var start := s.world.items[i].pos;
    s.PointerDown(x0, y0, Some(i));
    s.LongPressFires();
    assert s.imageDrag == Some(ImageDrag(i, start.x, start.y));
    s.PointerMove(x1, y1);
  }

  /**
   * Press on item `i` at (x0, y0), hold until the timer fires, move to
   * (x1, y1), release: the item moves by the pointer offset, no other item
   * moves, and the camera's target and view stay put. The release leaves the
   * pan flag raised, anchored at the press.
   */
  method HoldDragRelease(s: Stage, i: nat, x0: real, y0: real, x1: real, y1: real)
    requires s.Valid() && s.imageDrag.None? && i < |s.world.items|
    modifies s, s.world`items
    ensures s.Valid()
    ensures |s.world.items| == |old(s.world.items)|
    ensures s.world.items[i] == Item(old(s.world.items[i].url),
                                     Point(old(s.world.items[i].pos.x) + (x1 - x0), old(s.world.items[i].pos.y) + (y1 - y0)))
    ensures forall j | 0 <= j < |s.world.items| && j != i :: s.world.items[j] == old(s.world.items[j])
    ensures s.targetX == old(s.targetX) && s.targetY == old(s.targetY)
    ensures s.viewX == old(s.viewX) && s.viewY == old(s.viewY)
    ensures s.isPanning && s.imageDrag.None? && s.longPress.None?
    ensures s.dragStartX == x0 && s.dragStartY == y0
    ensures s.startTargetX == old(s.targetX) && s.startTargetY == old(s.targetY)
  {
    HoldAndDrag(s, i, x0, y0, x1, y1);
    s.PointerUp();
  }

  /**
   * After a hold, drag and release, a pointer move to (x2, y2) with no button
   * down pans the camera from the anchor of the earlier press; the items stay
   * where the drag left them.
   */
  method HoverAfterDragPans(s: Stage, i: nat, x0: real, y0: real, x1: real, y1: real, x2: real, y2: real)
    requires s.Valid() && s.imageDrag.None? && i < |s.world.items|
    modifies s, s.world`items
    ensures s.Valid() && s.isPanning
    ensures s.targetX == old(s.targetX) + (x2 - x0) && s.targetY == old(s.targetY) + (y2 - y0)
    ensures s.inertiaVX == (x2 - x0) * DRAG_VELOCITY && s.inertiaVY == (y2 - y0) * DRAG_VELOCITY
    ensures s.viewX == old(s.viewX) && s.viewY == old(s.viewY)
  {
    HoldDragRelease(s, i, x0, y0, x1, y1);
    s.PointerMove(x2, y2);
  }

  /** A quick press and release on an item is only a pan release: nothing moves and no timer is left. */
  method TapIsPanRelease(s: Stage, i: nat, x: real, y: real)
    requires s.Valid() && s.imageDrag.None? && i < |s.world.items|
    modifies s
    ensures s.Valid()
    ensures !s.isPanning && s.imageDrag.None? && s.longPress.None?
    ensures s.targetX == old(s.targetX) && s.targetY == old(s.targetY)
    ensures s.inertiaVX == 0.0 && s.inertiaVY == 0.0
  {
    s.PointerDown(x, y, Some(i));
    s.PointerUp();
  }

  /** A pan released mid-motion carries on: the next frame adds the drag velocity to the target. */
  method FlingThenTick(s: Stage, x0: real, y0: real, x1: real, y1: real)
    requires s.Valid() && s.imageDrag.None?
    modifies s, s.world`items
    ensures s.targetX == old(s.targetX) + (x1 - x0) + (x1 - x0) * DRAG_VELOCITY
    ensures s.targetY == old(s.targetY) + (y1 - y0) + (y1 - y0) * DRAG_VELOCITY
    ensures s.inertiaVX == Decay((x1 - x0) * DRAG_VELOCITY) && s.inertiaVY == Decay((y1 - y0) * DRAG_VELOCITY)
  {
    s.PointerDown(x0, y0, None);
    s.PointerMove(x1, y1);
    s.PointerUp();
    s.Tick();
  }
}
