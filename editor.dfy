/**
 * The interactive mask editor: the edit session's working copy of one
 * image's masks, the selected index (-1 for none) and the gesture flags,
 * with the handlers of the add button, the mouse and the touch screen.
 *
 * Pointer positions are in source-image pixels; touches are in client
 * pixels and are converted with the canvas's on-screen origin and the
 * display scale, as the canvas handlers do.
 */
module Editor {
  import opened Wrappers
  import opened Geometry
  import opened Masks

  const MinSize: real := 30.0
  const MaxPinchSize: real := 500.0
  const NewMaskSize: real := 80.0
  /** Radii of the delete button and the resize handle, in display pixels. */
  const DeleteRadius: real := 15.0
  const ResizeRadius: real := 12.0

  /** The point lies in the mask's closed axis-aligned square `centre ± size/2` (rotation is ignored). */
  predicate InBox(m: Mask, p: Point) {
    m.x - m.size / 2.0 <= p.x <= m.x + m.size / 2.0 && m.y - m.size / 2.0 <= p.y <= m.y + m.size / 2.0
  }

  /** The topmost (last drawn) mask whose square contains `p`, or -1. */
  function FindMaskAt(masks: seq<Mask>, p: Point): (r: int)
    ensures -1 <= r < |masks|
    ensures 0 <= r ==> InBox(masks[r], p) && forall j :: r < j < |masks| ==> !InBox(masks[j], p)
    ensures r == -1 <==> forall j :: 0 <= j < |masks| ==> !InBox(masks[j], p)
  {
    if |masks| == 0 then -1
    else if InBox(masks[|masks| - 1], p) then |masks| - 1
    else FindMaskAt(masks[..|masks| - 1], p)
  }

  function DeleteCorner(m: Mask): Point { Point(m.x + m.size / 2.0, m.y - m.size / 2.0) }

  function ResizeCorner(m: Mask): Point { Point(m.x + m.size / 2.0, m.y + m.size / 2.0) }

  /** Within 15 display pixels of the selected mask's top-right corner. */
  predicate OnDeleteButton(p: Point, m: Mask, scale: real)
    requires 0.0 < scale
  {
    WithinRadius(p, DeleteCorner(m), DeleteRadius / scale)
  }

  /** Within 12 display pixels of the selected mask's bottom-right corner. */
  predicate OnResizeHandle(p: Point, m: Mask, scale: real)
    requires 0.0 < scale
  {
    WithinRadius(p, ResizeCorner(m), ResizeRadius / scale)
  }

  /**
   * The delete-button test is the source's `sqrt(dx*dx + dy*dy) < 15 / scale`
   * on the offset from the mask's top-right corner, for a true square root.
   */
  lemma DeleteButtonByDistance(p: Point, m: Mask, scale: real, math: Maths)
    requires 0.0 < scale && IsSqrt(math.sqrt)
    ensures OnDeleteButton(p, m, scale) <==> math.sqrt(Sq(p.x - (m.x + m.size / 2.0)) + Sq(p.y - (m.y - m.size / 2.0))) < DeleteRadius / scale
  {
    var d2 := DistSq(p, DeleteCorner(m));
    assert d2 == Sq(p.x - (m.x + m.size / 2.0)) + Sq(p.y - (m.y - m.size / 2.0));
    SquaredCompareAgrees(d2, math.sqrt(d2), DeleteRadius / scale);
  }

  /**
   * The resize-handle test is the source's `sqrt(dx*dx + dy*dy) < 12 / scale`
   * on the offset from the mask's bottom-right corner, for a true square root.
   */
  lemma ResizeHandleByDistance(p: Point, m: Mask, scale: real, math: Maths)
    requires 0.0 < scale && IsSqrt(math.sqrt)
    ensures OnResizeHandle(p, m, scale) <==> math.sqrt(Sq(p.x - (m.x + m.size / 2.0)) + Sq(p.y - (m.y + m.size / 2.0))) < ResizeRadius / scale
  {
    var d2 := DistSq(p, ResizeCorner(m));
    assert d2 == Sq(p.x - (m.x + m.size / 2.0)) + Sq(p.y - (m.y + m.size / 2.0));
    SquaredCompareAgrees(d2, math.sqrt(d2), ResizeRadius / scale);
  }

  /** What a pointer-down does. */
  datatype Press = AddMask | DeleteSelected | StartResize | SelectMask(k: nat) | Deselect

  /**
   * The pointer-down decision, in priority order: add mode places a mask;
   * otherwise, with a mask selected, its delete button and then its resize
   * handle; otherwise the topmost mask under the pointer is selected, and a
   * press on empty canvas clears the selection.
   */
  function PressTarget(addMode: bool, masks: seq<Mask>, selected: int, p: Point, scale: real): (t: Press)
    requires -1 <= selected < |masks| && 0.0 < scale
    ensures t == AddMask <==> addMode
    ensures t == DeleteSelected <==> !addMode && 0 <= selected && OnDeleteButton(p, masks[selected], scale)
    ensures t == StartResize <==>
      !addMode && 0 <= selected && !OnDeleteButton(p, masks[selected], scale) && OnResizeHandle(p, masks[selected], scale)
    ensures t.SelectMask? ==>
      t.k < |masks| && InBox(masks[t.k], p) && forall j :: t.k < j < |masks| ==> !InBox(masks[j], p)
    ensures t == Deselect ==> forall j :: 0 <= j < |masks| ==> !InBox(masks[j], p)
  {
    if addMode then AddMask
    else if 0 <= selected && OnDeleteButton(p, masks[selected], scale) then DeleteSelected
    else if 0 <= selected && OnResizeHandle(p, masks[selected], scale) then StartResize
    else
      var k := FindMaskAt(masks, p);
      if 0 <= k then SelectMask(k) else Deselect
  }

  /**
   * On a mask smaller than 27 display pixels the two affordances overlap,
   * and a press in the overlap deletes rather than resizes.
   */
  lemma DeleteWinsOverResize(math: Maths)
    ensures var m := Mask("m", 100.0, 100.0, 20.0, None, None, "e", None, None, true, 0);
      var p := Point(110.0, 100.0);
      OnDeleteButton(p, m, 1.0) && OnResizeHandle(p, m, 1.0) && PressTarget(false, [m], 0, p, 1.0) == DeleteSelected
  {
  }

  /** The mask placed by a press in add mode. It has no box size, no type and no rotation. */
  function NewMask(id: string, p: Point, emoji: string): Mask {
    Mask(id, p.x, p.y, NewMaskSize, None, None, emoji, None, None, true, 0)
  }

  /** `splice(i, 1)`: the sequence without its `i`-th element, the others kept in order. */
  function RemoveAt(s: seq<Mask>, i: int): (r: seq<Mask>)
    requires 0 <= i < |s|
    ensures |r| == |s| - 1
    ensures forall j :: 0 <= j < i ==> r[j] == s[j]
    ensures forall j :: i <= j < |r| ==> r[j] == s[j + 1]
  {
    s[..i] + s[i + 1..]
  }

  /** Deleting a mask loses exactly that one mask: the multiset of masks shrinks by it and nothing else. */
  lemma RemoveAtMultiset(s: seq<Mask>, i: int)
    requires 0 <= i < |s|
    ensures multiset(RemoveAt(s, i)) + multiset{s[i]} == multiset(s)
  {
    assert s == s[..i] + [s[i]] + s[i + 1..];
  }

  /** The offset from the mask centre to the pointer, recorded when a drag starts. */
  function DragOffset(p: Point, m: Mask): Point { Point(p.x - m.x, p.y - m.y) }

  /** The single-pointer resize: twice the pointer's distance from the centre, never below 30. */
  function ResizeSize(p: Point, m: Mask, math: Maths): (r: real)
    ensures MinSize <= r
    ensures MinSize <= 2.0 * math.sqrt(DistSq(p, Center(m))) ==> r == 2.0 * math.sqrt(DistSq(p, Center(m)))
    ensures 2.0 * math.sqrt(DistSq(p, Center(m))) < MinSize ==> r == MinSize
  {
    Max(MinSize, math.sqrt(DistSq(p, Center(m))) * 2.0)
  }

  /** The single-pointer resize has no ceiling: some pointer position gives a size above any bound. */
  lemma ResizeHasNoCeiling(m: Mask, bound: real, math: Maths)
    requires IsSqrt(math.sqrt)
    ensures exists p :: ResizeSize(p, m, math) > bound
  {
    var d := Max(bound, MinSize) + 1.0;
    var p := Point(m.x + d, m.y);
    DistSqAlongX(Center(m), d);
    var s := math.sqrt(d * d);
    assert 0.0 <= d * d;
    RootOfSquare(s, d);
    assert ResizeSize(p, m, math) > bound;
  }

  /**
   * The pinch resize: the starting size scaled by the ratio of the current
   * to the starting finger distance, clamped to [30, 500]. When the fingers
   * started at one point the source divides by zero; the model takes the
   * clamp of +Infinity (500) while the fingers are apart and 30 otherwise.
   */
  function PinchSize(initialSize: real, initialDistance: real, currentDistance: real): (r: real)
    ensures MinSize <= r <= MaxPinchSize
    ensures initialDistance != 0.0 && MinSize <= initialSize * (currentDistance / initialDistance) <= MaxPinchSize ==>
      r == initialSize * (currentDistance / initialDistance)
    ensures initialDistance != 0.0 && initialSize * (currentDistance / initialDistance) < MinSize ==> r == MinSize
    ensures initialDistance != 0.0 && MaxPinchSize < initialSize * (currentDistance / initialDistance) ==> r == MaxPinchSize
  {
    if initialDistance != 0.0 then
      Max(MinSize, Min(MaxPinchSize, initialSize * (currentDistance / initialDistance)))
    else if 0.0 < currentDistance && 0.0 < initialSize then MaxPinchSize
    else MinSize
  }

  /** Before the fingers move apart or together, a pinch keeps a size that is already within [30, 500]. */
  lemma PinchStartKeepsSize(size: real, d: real)
    requires 0.0 < d && MinSize <= size <= MaxPinchSize
    ensures PinchSize(size, d, d) == size
  {
    assert d / d == 1.0;
  }

  /** The two-finger rotation: the mask's starting rotation plus the turn of the finger line since the start. */
  function TwoFingerRotation(initialMaskRotation: real, initialAngle: real, angle: real): (r: real)
    ensures r - initialMaskRotation == angle - initialAngle
    ensures angle == initialAngle ==> r == initialMaskRotation
  {
    initialMaskRotation + (angle - initialAngle)
  }

  /**
   * The two-finger pan: the midpoint's move since the last event, in source
   * pixels. Scaled back to the display, the mask moves exactly with the midpoint.
   */
  function Pan(c: Point, last: Point, current: Point, scale: real): (r: Point)
    requires 0.0 < scale
    ensures (r.x - c.x) * scale == current.x - last.x && (r.y - c.y) * scale == current.y - last.y
    ensures current == last ==> r == c
  {
    Point(c.x + (current.x - last.x) / scale, c.y + (current.y - last.y) / scale)
  }

  /** Panning through midpoints `cs`, one move event per midpoint after the first. */
  function PanThrough(c: Point, cs: seq<Point>, scale: real): Point
    requires 0.0 < scale && 0 < |cs|
  {
    if |cs| == 1 then c else Pan(PanThrough(c, cs[..|cs| - 1], scale), cs[|cs| - 2], cs[|cs| - 1], scale)
  }

  /**
   * The pan steps add up: over a whole gesture the mask moves by the
   * midpoint's total displacement from the gesture start, in source pixels.
   */
  lemma {:induction false} PanTelescopes(c: Point, cs: seq<Point>, scale: real)
    requires 0.0 < scale && 0 < |cs|
    ensures PanThrough(c, cs, scale) ==
      Point(c.x + (cs[|cs| - 1].x - cs[0].x) / scale, c.y + (cs[|cs| - 1].y - cs[0].y) / scale)
  {
    if |cs| > 1 {
      var init := cs[..|cs| - 1];
      PanTelescopes(c, init, scale);
      var a, b, e := cs[0], cs[|cs| - 2], cs[|cs| - 1];
      DivAdd(b.x - a.x, e.x - b.x, scale);
      DivAdd(b.y - a.y, e.y - b.y, scale);
    }
  }

  lemma DivAdd(a: real, b: real, s: real)
    requires s != 0.0
    ensures a / s + b / s == (a + b) / s
  {
    var q1, q2 := a / s, b / s;
    assert q1 * s == a && q2 * s == b;
    assert (q1 + q2) * s == q1 * s + q2 * s;
  }

  /**
   * The mask after one two-finger move: pinch-resized while pinching,
   * rotated while rotating, and panned when a previous midpoint is known.
   */
  function TwoFingerStep(m: Mask, t0: Point, t1: Point, isPinching: bool, isRotating: bool,
                         initialPinchSize: real, initialPinchDistance: real,
                         initialMaskRotation: real, initialRotation: real,
                         lastTouchCenter: Option<Point>, scale: real, math: Maths): (r: Mask)
    requires 0.0 < scale
    ensures isPinching ==> r.size == PinchSize(initialPinchSize, initialPinchDistance, TouchDistance(t0, t1, math))
    ensures isPinching ==> MinSize <= r.size <= MaxPinchSize
    ensures !isPinching ==> r.size == m.size
    ensures isRotating ==> r.rotation == Some(TwoFingerRotation(initialMaskRotation, initialRotation, TouchAngle(t0, t1, math)))
    ensures !isRotating ==> r.rotation == m.rotation
    ensures lastTouchCenter.Some? ==> Center(r) == Pan(Center(m), lastTouchCenter.value, TouchCenter(t0, t1), scale)
    ensures lastTouchCenter == None ==> r.x == m.x && r.y == m.y
    ensures r.id == m.id && r.emoji == m.emoji && r.maskType == m.maskType && r.isChild == m.isChild && r.age == m.age
    ensures r.width == m.width && r.height == m.height
  {
    var m1 := if isPinching then m.(size := PinchSize(initialPinchSize, initialPinchDistance, TouchDistance(t0, t1, math))) else m;
    var m2 := if isRotating then m1.(rotation := Some(TwoFingerRotation(initialMaskRotation, initialRotation, TouchAngle(t0, t1, math)))) else m1;
    match lastTouchCenter
    case None => m2
    case Some(last) =>
      var c := Pan(Center(m2), last, TouchCenter(t0, t1), scale);
      m2.(x := c.x, y := c.y)
  }

  /** The state of one open (or closed) edit session. */
  class EditSession {
    var isEditing: bool
    var currentImageIndex: int
    var masks: seq<Mask>
    var selected: int
    var isDragging: bool
    var isResizing: bool
    var addMode: bool
    var dragOffset: Point
    var selectedEmoji: string
    var scale: real
    var isPinching: bool
    var isRotating: bool
    var initialPinchDistance: real
    var initialPinchSize: real
    var initialRotation: real
    var initialMaskRotation: real
    var lastTouchCenter: Option<Point>
    const math: Maths

    /** The selection is -1 or a mask of the working copy, and the display scale is positive. */
    ghost predicate Valid()
      reads this
    {
      -1 <= selected < |masks| && 0.0 < scale
    }

    constructor (math: Maths)
      ensures Valid() && this.math == math
      ensures !isEditing && currentImageIndex == -1 && masks == [] && selected == -1
      ensures !isDragging && !isResizing && !addMode && !isPinching && !isRotating
      ensures dragOffset == Point(0.0, 0.0) && selectedEmoji == "😊" && scale == 1.0
      ensures initialPinchDistance == 0.0 && initialPinchSize == 0.0 && initialRotation == 0.0
      ensures initialMaskRotation == 0.0 && lastTouchCenter == None
    {
      this.math := math;
      isEditing, currentImageIndex, masks, selected := false, -1, [], -1;
      isDragging, isResizing, addMode := false, false, false;
      dragOffset, selectedEmoji, scale := Point(0.0, 0.0), "😊", 1.0;
      isPinching, isRotating := false, false;
      initialPinchDistance, initialPinchSize, initialRotation, initialMaskRotation := 0.0, 0.0, 0.0, 0.0;
      lastTouchCenter := None;
    }

    /**
     * Opening an image for editing: the session takes a copy of the image's
     * masks (a value, so later edits never reach the store). `source` is
     * None when the index names no live image; the source then fails after
     * recording the index and the editing flag.
     */
    method Open(index: int, source: Option<seq<Mask>>, emoji: string)
      requires Valid()
      modifies this`currentImageIndex, this`isEditing, this`masks, this`selected, this`addMode, this`selectedEmoji
      ensures Valid()
      ensures currentImageIndex == index && isEditing
      ensures source.Some? ==> masks == source.value && selected == -1 && !addMode && selectedEmoji == emoji
      ensures source.None? ==>
        masks == old(masks) && selected == old(selected) && addMode == old(addMode) && selectedEmoji == old(selectedEmoji)
    {
      currentImageIndex := index;
      isEditing := true;
      if source.Some? {
        masks := source.value;
        selected := -1;
        addMode := false;
        selectedEmoji := emoji;
      }
    }

    /** The image has loaded: fit it into the wrapper, less its 40-pixel margin, never enlarging it. */
    method ImageLoaded(wrapperWidth: real, wrapperHeight: real, imageWidth: real, imageHeight: real)
      requires Valid()
      requires 40.0 < wrapperWidth && 40.0 < wrapperHeight && 0.0 < imageWidth && 0.0 < imageHeight
      modifies this`scale
      ensures Valid()
      ensures scale == FitScale(wrapperWidth - 40.0, wrapperHeight - 40.0, imageWidth, imageHeight)
    {
      scale := FitScale(wrapperWidth - 40.0, wrapperHeight - 40.0, imageWidth, imageHeight);
    }

    /** Leaving the editor, by finishing or cancelling: the working copy is dropped. */
    method Close()
      requires Valid()
      modifies this`isEditing, this`currentImageIndex, this`masks, this`selected
      ensures Valid()
      ensures !isEditing && currentImageIndex == -1 && masks == [] && selected == -1
    {
      isEditing, currentImageIndex, masks, selected := false, -1, [], -1;
    }

    /** The add button flips add mode and clears the selection. */
    method ToggleAddMode()
      requires Valid()
      modifies this`addMode, this`selected
      ensures Valid()
      ensures addMode == !old(addMode) && selected == -1
    {
      addMode := !addMode;
      selected := -1;
    }

    /** Picking an emoji in the editor also re-skins the selected mask. */
    method SelectEmoji(e: string)
      requires Valid()
      modifies this`selectedEmoji, this`masks
      ensures Valid()
      ensures selectedEmoji == e
      ensures masks == if 0 <= selected then old(masks)[selected := old(masks)[selected].(emoji := e)] else old(masks)
    {
      selectedEmoji := e;
      if 0 <= selected {
        masks := masks[selected := masks[selected].(emoji := e)];
      }
    }

    /** The decision a pointer-down at `p` takes in the current state. */
    function PressHere(p: Point): Press
      requires Valid()
      reads this
    {
      PressTarget(addMode, masks, selected, p, scale)
    }

    /** What a pointer-down at `p`, taking decision `t`, did to the session. */
    twostate predicate Pressed(t: Press, p: Point, id: string)
      requires old(Valid())
      requires t.SelectMask? ==> t.k < |old(masks)|
      requires t == DeleteSelected ==> 0 <= old(selected)
      reads this
    {
      match t
      case AddMask =>
        && masks == old(masks) + [NewMask(id, p, old(selectedEmoji))] && selected == |masks| - 1 && !addMode
        && isDragging == old(isDragging) && isResizing == old(isResizing) && dragOffset == old(dragOffset)
      case DeleteSelected =>
        && masks == RemoveAt(old(masks), old(selected)) && selected == -1 && addMode == old(addMode)
        && isDragging == old(isDragging) && isResizing == old(isResizing) && dragOffset == old(dragOffset)
      case StartResize =>
        && isResizing && masks == old(masks) && selected == old(selected) && addMode == old(addMode)
        && isDragging == old(isDragging) && dragOffset == old(dragOffset)
      case SelectMask(k) =>
        && selected == k && isDragging && dragOffset == DragOffset(p, old(masks)[k]) && masks == old(masks)
        && addMode == old(addMode) && isResizing == old(isResizing)
      case Deselect =>
        && selected == -1 && masks == old(masks) && addMode == old(addMode)
        && isDragging == old(isDragging) && isResizing == old(isResizing) && dragOffset == old(dragOffset)
    }

    /** Mouse-down (and a one-finger touch start) at `p`; `id` is the opaque id a new mask would get. */
    method MouseDown(p: Point, id: string)
      requires Valid()
      modifies this`masks, this`selected, this`addMode, this`isResizing, this`isDragging, this`dragOffset
      ensures Valid()
      ensures Pressed(old(PressHere(p)), p, id)
    {
      var t := PressHere(p);
      Apply(t, p, id);
    }

    /** Carrying out the pointer-down decision `t`. */
    method Apply(t: Press, p: Point, id: string)
      requires Valid()
      requires t.SelectMask? ==> t.k < |masks|
      requires t == DeleteSelected ==> 0 <= selected
      modifies this`masks, this`selected, this`addMode, this`isResizing, this`isDragging, this`dragOffset
      ensures Valid()
      ensures Pressed(t, p, id)
    {
      match t
      case AddMask =>
        masks := masks + [NewMask(id, p, selectedEmoji)];
        addMode := false;
        selected := |masks| - 1;
      case DeleteSelected =>
        masks := RemoveAt(masks, selected);
        selected := -1;
      case StartResize =>
        isResizing := true;
      case SelectMask(k) =>
        selected := k;
        isDragging := true;
        dragOffset := DragOffset(p, masks[k]);
      case Deselect =>
        selected := -1;
    }

    /**
     * What a pointer move to `p` did: a drag puts the selected mask's centre
     * at the pointer less the recorded offset, a resize sets its size from
     * the pointer's distance. Nothing happens when neither is under way, or
     * when no mask is selected (the source then fails reading the mask).
     */
    twostate predicate MovedTo(p: Point)
      requires old(Valid())
      reads this
    {
      if (old(isDragging) || old(isResizing)) && 0 <= old(selected) then
        var m := old(masks)[old(selected)];
        masks == old(masks)[old(selected) :=
          if old(isDragging) then m.(x := p.x - old(dragOffset).x, y := p.y - old(dragOffset).y)
          else m.(size := ResizeSize(p, m, math))]
      else masks == old(masks)
    }

    method MouseMove(p: Point)
      requires Valid()
      modifies this`masks
      ensures Valid()
      ensures MovedTo(p)
    {
      if !isDragging && !isResizing { return; }
      if selected < 0 { return; }
      var m := masks[selected];
      if isDragging {
        masks := masks[selected := m.(x := p.x - dragOffset.x, y := p.y - dragOffset.y)];
      } else if isResizing {
        masks := masks[selected := m.(size := ResizeSize(p, m, math))];
      }
    }

    /** Mouse-up and mouse-leave end a drag or a resize. */
    method MouseUp()
      requires Valid()
      modifies this`isDragging, this`isResizing
      ensures Valid()
      ensures !isDragging && !isResizing
    {
      isDragging, isResizing := false, false;
    }

    /**
     * A touch start with the list of current touches, in client
     * coordinates. One touch acts as a mouse-down at its canvas position;
     * two touches with a mask selected start a pinch and rotation and end
     * any drag or resize; anything else does nothing.
     */
    method TouchStart(touches: seq<Point>, rectOrigin: Point, id: string)
      requires Valid()
      modifies this`masks, this`selected, this`addMode, this`isResizing, this`isDragging, this`dragOffset
      modifies this`isPinching, this`isRotating, this`initialPinchDistance, this`initialPinchSize
      modifies this`initialRotation, this`initialMaskRotation, this`lastTouchCenter
      ensures Valid()
      ensures |touches| == 1 ==>
        && Pressed(old(PressHere(CanvasCoords(touches[0], rectOrigin, scale))), CanvasCoords(touches[0], rectOrigin, scale), id)
        && isPinching == old(isPinching) && isRotating == old(isRotating)
        && initialPinchDistance == old(initialPinchDistance) && initialPinchSize == old(initialPinchSize)
        && initialRotation == old(initialRotation) && initialMaskRotation == old(initialMaskRotation)
        && lastTouchCenter == old(lastTouchCenter)
      ensures |touches| == 2 && 0 <= old(selected) ==>
        && isPinching && isRotating && !isDragging && !isResizing
        && initialPinchDistance == TouchDistance(touches[0], touches[1], math)
        && initialPinchSize == old(masks)[old(selected)].size
        && initialRotation == TouchAngle(touches[0], touches[1], math)
        && initialMaskRotation == RotationOf(old(masks)[old(selected)])
        && lastTouchCenter == Some(TouchCenter(touches[0], touches[1]))
        && masks == old(masks) && selected == old(selected) && addMode == old(addMode) && dragOffset == old(dragOffset)
      ensures |touches| != 1 && !(|touches| == 2 && 0 <= old(selected)) ==>
        && masks == old(masks) && selected == old(selected) && addMode == old(addMode)
        && isDragging == old(isDragging) && isResizing == old(isResizing) && dragOffset == old(dragOffset)
        && isPinching == old(isPinching) && isRotating == old(isRotating)
        && initialPinchDistance == old(initialPinchDistance) && initialPinchSize == old(initialPinchSize)
        && initialRotation == old(initialRotation) && initialMaskRotation == old(initialMaskRotation)
        && lastTouchCenter == old(lastTouchCenter)
    {
      if |touches| == 1 {
        var p := CanvasCoords(touches[0], rectOrigin, scale);
        MouseDown(p, id);
      } else if |touches| == 2 && 0 <= selected {
        StartPinch(touches[0], touches[1]);
      }
    }

    /** The two-finger start on the selected mask: record the finger distance, angle and midpoint. */
    method StartPinch(t0: Point, t1: Point)
      requires Valid() && 0 <= selected
      modifies this`isResizing, this`isDragging, this`isPinching, this`isRotating, this`initialPinchDistance
      modifies this`initialPinchSize, this`initialRotation, this`initialMaskRotation, this`lastTouchCenter
      ensures Valid()
      ensures isPinching && isRotating && !isDragging && !isResizing
      ensures initialPinchDistance == TouchDistance(t0, t1, math) && initialPinchSize == masks[selected].size
      ensures initialRotation == TouchAngle(t0, t1, math) && initialMaskRotation == RotationOf(masks[selected])
      ensures lastTouchCenter == Some(TouchCenter(t0, t1))
    {
      var m := masks[selected];
      isPinching, isRotating := true, true;
      isDragging, isResizing := false, false;
      initialPinchDistance := TouchDistance(t0, t1, math);
      initialPinchSize := m.size;
      initialRotation := TouchAngle(t0, t1, math);
      initialMaskRotation := RotationOf(m);
      lastTouchCenter := Some(TouchCenter(t0, t1));
    }

    /**
     * A touch move. One touch acts as a mouse move at its canvas position;
     * two touches with a mask selected pinch-resize, rotate and pan that mask
     * and record the new midpoint; anything else does nothing.
     */
    method TouchMove(touches: seq<Point>, rectOrigin: Point)
      requires Valid()
      modifies this`masks, this`lastTouchCenter
      ensures Valid()
      ensures |touches| == 1 ==> MovedTo(CanvasCoords(touches[0], rectOrigin, scale)) && lastTouchCenter == old(lastTouchCenter)
      ensures |touches| == 2 && 0 <= selected ==>
        && masks == old(masks)[selected := TwoFingerStep(old(masks)[selected], touches[0], touches[1],
                                                         isPinching, isRotating, initialPinchSize, initialPinchDistance,
                                                         initialMaskRotation, initialRotation, old(lastTouchCenter), scale, math)]
        && lastTouchCenter == Some(TouchCenter(touches[0], touches[1]))
      ensures |touches| != 1 && !(|touches| == 2 && 0 <= selected) ==>
        masks == old(masks) && lastTouchCenter == old(lastTouchCenter)
    {
      if |touches| == 1 {
        MouseMove(CanvasCoords(touches[0], rectOrigin, scale));
      } else if |touches| == 2 && 0 <= selected {
        var m := masks[selected];
        if isPinching {
          m := m.(size := PinchSize(initialPinchSize, initialPinchDistance, TouchDistance(touches[0], touches[1], math)));
        }
        if isRotating {
          m := m.(rotation := Some(TwoFingerRotation(initialMaskRotation, initialRotation, TouchAngle(touches[0], touches[1], math))));
        }
        var current := TouchCenter(touches[0], touches[1]);
        if lastTouchCenter.Some? {
          var c := Pan(Center(m), lastTouchCenter.value, current, scale);
          m := m.(x := c.x, y := c.y);
        }
        lastTouchCenter := Some(current);
        masks := masks[selected := m];
      }
    }

    /**
     * A touch end with the number of touches still down. Down to none or one,
     * the pinch and rotation end and the midpoint is forgotten; down to none,
     * any drag or resize ends too. A lone remaining finger does not resume a
     * drag, because starting the pinch ended it.
     */
    method TouchEnd(remaining: nat)
      requires Valid()
      modifies this`isPinching, this`isRotating, this`lastTouchCenter, this`isDragging, this`isResizing
      ensures Valid()
      ensures remaining <= 1 ==> !isPinching && !isRotating && lastTouchCenter == None
      ensures remaining == 0 ==> !isDragging && !isResizing
      ensures remaining == 1 ==> isDragging == old(isDragging) && isResizing == old(isResizing)
      ensures 2 <= remaining ==>
        && isPinching == old(isPinching) && isRotating == old(isRotating) && lastTouchCenter == old(lastTouchCenter)
        && isDragging == old(isDragging) && isResizing == old(isResizing)
    {
      if remaining == 0 {
        isPinching, isRotating, lastTouchCenter := false, false, None;
        MouseUp();
      } else if remaining == 1 {
        isPinching, isRotating, lastTouchCenter := false, false, None;
      }
    }
  }

  /**
   * The drag offset recorded by a press that selects a mask reproduces the
   * mask's centre: moving to the press point leaves every mask in place.
   */
  method DragStartKeepsCentre(e: EditSession, p: Point, id: string)
    requires e.Valid() && e.PressHere(p).SelectMask?
    modifies e
    ensures e.Valid()
    ensures e.masks == old(e.masks) && e.isDragging
  {
    e.MouseDown(p, id);
    var k := e.selected;
    var m := e.masks[k];
    assert p.x - (p.x - m.x) == m.x && p.y - (p.y - m.y) == m.y;
    e.MouseMove(p);
    assert e.masks == old(e.masks)[k := m];
  }

  /**
   * After a pinch, lifting one finger leaves a finger that moves nothing:
   * starting the pinch ended the drag, and the lift does not restart it.
   */
  method LoneFingerAfterPinch(e: EditSession, t0: Point, t1: Point, rectOrigin: Point, q: Point)
    requires e.Valid() && 0 <= e.selected
    modifies e
    ensures e.Valid()
    ensures e.masks == old(e.masks) && !e.isDragging && !e.isResizing && !e.isPinching
  {
    e.TouchStart([t0, t1], rectOrigin, "");
    e.TouchEnd(1);
    e.TouchMove([q], rectOrigin);
  }
}
