/**
 * The effect of pointer events on the launch parameters, the four drag
 * flags and the two checkboxes, as pure functions of the state before the
 * event. The simulator class applies them in place.
 */
module Controls {
  import opened Slider

  /** The four slider-bound parameters: speed (m/s), start height (m), time scale, launch angle (degrees). */
  datatype Params = Params(speed: real, height0: real, timeScale: real, angleDeg: real)

  /** Which slider handles are being dragged. */
  datatype Drag = Drag(speed: bool, height: bool, time: bool, angle: bool)

  /** The two overlay toggles: the gravity arrow and the velocity arrows. */
  datatype Boxes = Boxes(showForce: bool, showVelocity: bool)

  /** A screen rectangle, left/top corner and size in pixels. */
  datatype Rect = Rect(left: int, top: int, width: int, height: int)

  const ForceBox: Rect := Rect(1000, 120, 20, 20)
  const VelocityBox: Rect := Rect(1000, 150, 20, 20)

  const NoDrag: Drag := Drag(false, false, false, false)

  predicate ParamsInRange(p: Params) {
    InRange(SpeedSlider, p.speed) && InRange(HeightSlider, p.height0)
    && InRange(TimeSlider, p.timeScale) && InRange(AngleSlider, p.angleDeg)
  }

  function DragCount(d: Drag): nat {
    (if d.speed then 1 else 0) + (if d.height then 1 else 0)
    + (if d.time then 1 else 0) + (if d.angle then 1 else 0)
  }

  /** pygame's `Rect.collidepoint`: the left and top edges are inside, the right and bottom edges are not. */
  predicate Contains(r: Rect, x: int, y: int) {
    r.left <= x < r.left + r.width && r.top <= y < r.top + r.height
  }

  /**
   * A pointer move to column `mx`: the first dragged slider, in the order
   * speed, height, time, angle, takes the value under the pointer, unless
   * the simulation is running.
   */
  function Motion(p: Params, d: Drag, running: bool, mx: int): (r: Params)
    ensures running ==> r == p
    ensures r.speed != p.speed ==> !running && d.speed
    ensures r.height0 != p.height0 ==> !running && !d.speed && d.height
    ensures r.timeScale != p.timeScale ==> !running && !d.speed && !d.height && d.time
    ensures r.angleDeg != p.angleDeg ==> !running && !d.speed && !d.height && !d.time && d.angle
    ensures !running && d.speed ==> r.speed == ValueAt(SpeedSlider, mx as real)
    ensures !running && !d.speed && d.height ==> r.height0 == ValueAt(HeightSlider, mx as real)
    ensures !running && !d.speed && !d.height && d.time ==> r.timeScale == ValueAt(TimeSlider, mx as real)
    ensures !running && !d.speed && !d.height && !d.time && d.angle ==> r.angleDeg == ValueAt(AngleSlider, mx as real)
  {
    if d.speed && !running then p.(speed := ValueAt(SpeedSlider, mx as real))
    else if d.height && !running then p.(height0 := ValueAt(HeightSlider, mx as real))
    else if d.time && !running then p.(timeScale := ValueAt(TimeSlider, mx as real))
    else if d.angle && !running then p.(angleDeg := ValueAt(AngleSlider, mx as real))
    else p
  }

  /** A pointer move keeps every parameter within its slider's range. */
  lemma MotionKeepsRange(p: Params, d: Drag, running: bool, mx: int)
    requires ParamsInRange(p)
    ensures ParamsInRange(Motion(p, d, running, mx))
  {
  }

  /** A pointer move changes at most one parameter. */
  lemma MotionChangesAtMostOne(p: Params, d: Drag, running: bool, mx: int)
    ensures var r := Motion(p, d, running, mx);
            r == p || r == p.(speed := r.speed) || r == p.(height0 := r.height0)
            || r == p.(timeScale := r.timeScale) || r == p.(angleDeg := r.angleDeg)
  {
  }

  /**
   * A left press at `(mx, my)`: the first slider, in the order speed,
   * height, time, angle, whose handle lies under the press starts dragging.
   * Flags already set stay set; the running phase is not consulted.
   */
  function Press(p: Params, d: Drag, mx: int, my: int): (r: Drag)
    ensures r.speed == (d.speed || HitsHandle(SpeedSlider, p.speed, mx, my))
    ensures r.height == (d.height || (!HitsHandle(SpeedSlider, p.speed, mx, my) && HitsHandle(HeightSlider, p.height0, mx, my)))
    ensures r.time == (d.time || (!HitsHandle(SpeedSlider, p.speed, mx, my) && !HitsHandle(HeightSlider, p.height0, mx, my)
                                  && HitsHandle(TimeSlider, p.timeScale, mx, my)))
    ensures r.angle == (d.angle || (!HitsHandle(SpeedSlider, p.speed, mx, my) && !HitsHandle(HeightSlider, p.height0, mx, my)
                                    && !HitsHandle(TimeSlider, p.timeScale, mx, my) && HitsHandle(AngleSlider, p.angleDeg, mx, my)))
    ensures DragCount(r) <= DragCount(d) + 1
  {
    if HitsHandle(SpeedSlider, p.speed, mx, my) then d.(speed := true)
    else if HitsHandle(HeightSlider, p.height0, mx, my) then d.(height := true)
    else if HitsHandle(TimeSlider, p.timeScale, mx, my) then d.(time := true)
    else if HitsHandle(AngleSlider, p.angleDeg, mx, my) then d.(angle := true)
    else d
  }

  /**
   * Since the grab bands do not overlap, a press from rest grabs exactly the
   * slider whose handle is under it, and nothing when there is none:
   * the first-match order never decides anything.
   */
  lemma PressGrabsHandleUnderPointer(p: Params, mx: int, my: int)
    ensures var r := Press(p, NoDrag, mx, my);
            DragCount(r) <= 1
            && r.speed == HitsHandle(SpeedSlider, p.speed, mx, my)
            && r.height == HitsHandle(HeightSlider, p.height0, mx, my)
            && r.time == HitsHandle(TimeSlider, p.timeScale, mx, my)
            && r.angle == HitsHandle(AngleSlider, p.angleDeg, mx, my)
  {
    forall a, b | a in Sliders && b in Sliders && a != b
      ensures forall va, vb :: !(HitsHandle(a, va, mx, my) && HitsHandle(b, vb, mx, my))
    {
      forall va, vb ensures !(HitsHandle(a, va, mx, my) && HitsHandle(b, vb, mx, my)) {
        HandlesNeverOverlap(a, b, va, vb, mx, my);
      }
    }
  }

  /** A press flips each checkbox it lands in, whatever the button and whatever the phase. */
  function Click(c: Boxes, x: int, y: int): (r: Boxes)
    ensures r.showForce == (c.showForce != Contains(ForceBox, x, y))
    ensures r.showVelocity == (c.showVelocity != Contains(VelocityBox, x, y))
  {
    Boxes(if Contains(ForceBox, x, y) then !c.showForce else c.showForce,
          if Contains(VelocityBox, x, y) then !c.showVelocity else c.showVelocity)
  }

  /** Two presses at the same place restore both checkboxes. */
  lemma ClickTwiceRestores(c: Boxes, x: int, y: int)
    ensures Click(Click(c, x, y), x, y) == c
  {
  }

  /** No press lands in both checkboxes: a press flips at most one of them. */
  lemma ClickFlipsAtMostOne(c: Boxes, x: int, y: int)
    ensures Click(c, x, y).showForce == c.showForce || Click(c, x, y).showVelocity == c.showVelocity
  {
  }

  /** No press both grabs a slider handle and flips a checkbox, while the parameters are in range. */
  lemma BoxesAwayFromHandles(p: Params, x: int, y: int)
    requires ParamsInRange(p)
    requires Contains(ForceBox, x, y) || Contains(VelocityBox, x, y)
    ensures Press(p, NoDrag, x, y) == NoDrag
  {
    HitColumnBound(SpeedSlider, p.speed, x, y);
    HitColumnBound(HeightSlider, p.height0, x, y);
    HitColumnBound(TimeSlider, p.timeScale, x, y);
    HitColumnBound(AngleSlider, p.angleDeg, x, y);
  }
}
