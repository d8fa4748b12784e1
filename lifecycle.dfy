/**
 * The controller of the visualiser's main loop as a state machine over
 * values: the effect of each input event, of an event batch, and of one
 * frame's simulation update. The `Simulation` module performs the same
 * updates in place on an object and is proved against these functions.
 */
module Lifecycle {
  import opened Geometry
  import opened Slider
  import opened Physics
  import opened Controls
  import opened Trail

  datatype Key = Space | KeyR | OtherKey

  /** The input events the loop reacts to; everything else is `OtherEvent`. */
  datatype Event =
    | Quit
    | KeyDown(key: Key)
    | MouseDown(button: int, x: int, y: int)
    | MouseUp(button: int)
    | MouseMotion(x: int, y: int)
    | OtherEvent

  /** Cosine and sine of a launch angle; the angle-to-direction trigonometry is supplied by the caller. */
  datatype Direction = Direction(cos: real, sin: real)

  /** A unit vector in the first quadrant: the direction of an angle in [0, 90] degrees. */
  ghost predicate IsDirection(d: Direction) {
    0.0 <= d.cos <= 1.0 && 0.0 <= d.sin <= 1.0 && d.cos * d.cos + d.sin * d.sin == 1.0
  }

  ghost predicate DirectionsValid(direction: real -> Direction) {
    forall a :: AngleSlider.lo <= a <= AngleSlider.hi ==> IsDirection(direction(a))
  }

  /** The whole controller state of the main loop. */
  datatype State = State(
    running: bool,              // a flight is in progress
    fired: bool,                // launched since the last reset
    boxes: Boxes,
    drag: Drag,
    params: Params,
    vxComp: real,               // launch velocity components (m/s)
    vyComp: real,
    startTime: real,            // wall-clock seconds at launch
    trailPoints: seq<Point>,
    trailSurface: seq<Segment>, // everything painted on the trail raster since the last reset
    ball: Point,                // ball centre in pixels
    vxInst: real,               // velocity at the last running frame (m/s)
    vyInst: real)

  /** The pixel row of the stop level, four metres below the reference: the bottom edge of the 900-pixel window. */
  const StopRow: int := 900

  /** The state before the first event: speed 10 m/s, height 2 m, time scale 1, angle 45 degrees, all flags off. */
  const Initial: State := State(false, false, Boxes(false, false), NoDrag, Params(10.0, 2.0, 1.0, 45.0),
                                0.0, 0.0, 0.0, [], [], Point(12, 12), 0.0, 0.0)

  /** The invariant the controller keeps between events and frames. */
  ghost predicate Valid(st: State) {
    && ParamsInRange(st.params)
    && (st.running ==> st.fired)
    && (!st.fired ==> st.trailPoints == [])
    && (st.fired && !st.running ==> st.trailPoints != [] && Last(st.trailPoints).y == StopRow)
    && EndsWith(st.trailSurface, Segments(st.trailPoints))
    && 0.0 <= st.vxComp <= SpeedSlider.hi && 0.0 <= st.vyComp <= SpeedSlider.hi
    && (forall i :: 0 <= i < |st.trailPoints| ==> StartX <= st.trailPoints[i].x && st.trailPoints[i].y <= StopRow)
  }

  lemma InitialValid()
    ensures Valid(Initial)
  {
  }

  /** The stop level is drawn on `StopRow`, and no height at or above it is drawn below that row. */
  lemma StopRowBound(x: real, h: real)
    requires GroundStop <= h
    ensures PhysToPixel(x, h).y <= StopRow
    ensures h == GroundStop ==> PhysToPixel(x, h).y == StopRow
  {
    TruncOfInt(StopRow);
    TruncMonotone(GroundY as real - h * Scale, StopRow as real);
  }

  /** Space while idle: start a flight from the current speed and angle, with an empty trail. */
  function Launch(st: State, now: real, dir: Direction): (r: State)
    ensures r.running && r.fired && r.startTime == now && r.trailPoints == []
    ensures r.trailSurface == st.trailSurface
    ensures r.params == st.params && r.drag == st.drag && r.boxes == st.boxes && r.ball == st.ball
    ensures r.vxInst == st.vxInst && r.vyInst == st.vyInst
    ensures r.vxComp == st.params.speed * dir.cos && r.vyComp == st.params.speed * dir.sin
    ensures IsDirection(dir) ==> r.vxComp * r.vxComp + r.vyComp * r.vyComp == st.params.speed * st.params.speed
    ensures IsDirection(dir) && 0.0 <= st.params.speed ==> 0.0 <= r.vxComp <= st.params.speed && 0.0 <= r.vyComp <= st.params.speed
  {
    var v0 := st.params.speed;
    var r := st.(running := true, fired := true, startTime := now, trailPoints := [],
                 vxComp := v0 * dir.cos, vyComp := v0 * dir.sin);
    assert r.vxComp * r.vxComp + r.vyComp * r.vyComp == v0 * v0 * (dir.cos * dir.cos + dir.sin * dir.sin);
    assert IsDirection(dir) && 0.0 <= v0 ==> v0 * dir.cos <= v0 * 1.0 && v0 * dir.sin <= v0 * 1.0;
    r
  }

  /** R: end any flight and wipe the trail and the raster; the sliders and checkboxes keep their state. */
  function Reset(st: State): (r: State)
    ensures !r.running && !r.fired && r.trailPoints == [] && r.trailSurface == []
    ensures r.params == st.params && r.drag == st.drag && r.boxes == st.boxes && r.ball == st.ball
  {
    st.(running := false, fired := false, trailSurface := [], trailPoints := [])
  }

  /** A key press: Space launches only when no flight is running; R resets in any phase. */
  function OnKey(st: State, key: Key, now: real, dir: Direction): (r: State)
    ensures key == Space && st.running ==> r == st
    ensures key == Space && !st.running ==> r == Launch(st, now, dir)
    ensures key == KeyR ==> r == Reset(st)
    ensures key == OtherKey ==> r == st
  {
    if key == Space && !st.running then Launch(st, now, dir)
    else if key == KeyR then Reset(st)
    else st
  }

  /** A button press: a left press may grab a slider handle (in any phase); any press toggles the checkbox under it. */
  function OnMouseDown(st: State, button: int, x: int, y: int): (r: State)
    ensures r.params == st.params && r.running == st.running && r.trailPoints == st.trailPoints
    ensures r.boxes == Click(st.boxes, x, y)
    ensures button == 1 ==> r.drag == Press(st.params, st.drag, x, y)
    ensures button != 1 ==> r.drag == st.drag
    ensures button == 1 && st.drag == NoDrag ==> DragCount(r.drag) <= 1
    ensures r == st.(drag := r.drag, boxes := r.boxes)
  {
    var drag := if button == 1 then Press(st.params, st.drag, x, y) else st.drag;
    PressGrabsHandleUnderPointer(st.params, x, y);
    st.(drag := drag, boxes := Click(st.boxes, x, y))
  }

  /** A left release drops every drag, wherever the pointer is; nothing else changes. */
  function OnMouseUp(st: State, button: int): (r: State)
    ensures button == 1 ==> r == st.(drag := NoDrag)
    ensures button != 1 ==> r == st
  {
    if button == 1 then st.(drag := NoDrag) else st
  }

  /** A pointer move: the first dragged slider follows the pointer column unless a flight is running. */
  function OnMouseMotion(st: State, x: int): (r: State)
    ensures st.running ==> r == st
    ensures r == st.(params := Motion(st.params, st.drag, st.running, x))
    ensures ParamsInRange(st.params) ==> ParamsInRange(r.params)
  {
    st.(params := Motion(st.params, st.drag, st.running, x))
  }

  /** One event of a batch; `direction` gives cosine and sine of the angle slider's value at the moment of a launch. */
  function Step(st: State, e: Event, now: real, direction: real -> Direction): (r: State)
    ensures !e.KeyDown? ==> r == st.(drag := r.drag, boxes := r.boxes, params := r.params)
    ensures !e.KeyDown? && st.running ==> r.params == st.params
    ensures e.Quit? || e.OtherEvent? ==> r == st
  {
    match e
    case Quit => st
    case KeyDown(key) => OnKey(st, key, now, direction(st.params.angleDeg))
    case MouseDown(button, x, y) => OnMouseDown(st, button, x, y)
    case MouseUp(button) => OnMouseUp(st, button)
    case MouseMotion(x, _) => OnMouseMotion(st, x)
    case OtherEvent => st
  }

  /** One frame's simulation update, read at wall-clock time `now`. */
  function Frame(st: State, now: real): (r: State)
    ensures r == st.(running := r.running, ball := r.ball, trailPoints := r.trailPoints,
                     trailSurface := r.trailSurface, vxInst := r.vxInst, vyInst := r.vyInst)
    ensures r.running ==> st.running
    ensures st.running ==> Flown(st, now, r)
    ensures st.running ==> r.trailPoints == st.trailPoints + [r.ball]
    ensures st.running ==> r.trailSurface == st.trailSurface + Painted(st.trailPoints, r.ball)
    ensures st.running && !r.running ==> r.ball.y == StopRow
    ensures !st.running ==> r == st.(ball := PhysToPixel(0.0, st.params.height0))
  {
    if st.running then Advance(st, now) else st.(ball := PhysToPixel(0.0, st.params.height0))
  }

  /** The running branch of a frame: the flight advanced to `now`, then the new position recorded in the trail. */
  function Advance(st: State, now: real): (r: State)
    ensures Flown(st, now, r)
    ensures r == st.(running := r.running, ball := r.ball, vxInst := r.vxInst, vyInst := r.vyInst,
                     trailPoints := st.trailPoints + [r.ball],
                     trailSurface := st.trailSurface + Painted(st.trailPoints, r.ball))
    ensures !r.running ==> r.ball.y == StopRow
  {
    Record(Move(st, now))
  }

  /**
   * `r` shows the flight of `st` at wall-clock time `now`: simulated time is
   * the scaled time since launch, the flight goes on exactly while the
   * height is above the stop level, the ball is drawn at the height held at
   * that level, and the velocity is the one at that time.
   */
  predicate Flown(st: State, now: real, r: State) {
    var t := Elapsed(now, st.startTime, st.params.timeScale);
    var h := HeightAt(st.params.height0, st.vyComp, t);
    && (r.running <==> GroundStop < h)
    && r.ball == PhysToPixel(XAt(st.vxComp, t), if h <= GroundStop then GroundStop else h)
    && r.vxInst == st.vxComp && r.vyInst == VyAt(st.vyComp, t)
  }

  /** The flight evaluated at `now`: ball position and velocity, and the ground stop. */
  function Move(st: State, now: real): (r: State)
    ensures Flown(st, now, r)
    ensures r == st.(running := r.running, ball := r.ball, vxInst := r.vxInst, vyInst := r.vyInst)
    ensures !r.running ==> r.ball.y == StopRow
  {
    var t := Elapsed(now, st.startTime, st.params.timeScale);
    var s := Evaluate(st.vxComp, st.vyComp, st.params.height0, t);
    StopRowBound(s.x, s.h);
    st.(running := !s.landed, ball := PhysToPixel(s.x, s.h), vxInst := st.vxComp, vyInst := VyAt(st.vyComp, t))
  }

  /** The ball position appended to the trail, and the line to it from the previous point painted on the raster. */
  function Record(st: State): (r: State)
    ensures r == st.(trailPoints := st.trailPoints + [st.ball],
                     trailSurface := st.trailSurface + Painted(st.trailPoints, st.ball))
  {
    var points := st.trailPoints + [st.ball];
    st.(trailPoints := points,
        trailSurface := if |points| > 1 then st.trailSurface + [Segment(points[|points| - 2], points[|points| - 1])]
                        else st.trailSurface)
  }

  /**
   * A batch of events processed in order, stopping at the first `Quit`
   * (which ends the program); the flag says whether one was met.
   */
  function Run(st: State, events: seq<Event>, now: real, direction: real -> Direction): (r: (State, bool))
    ensures r.1 <==> Quit in events
    decreases |events|
  {
    if events == [] then (st, false)
    else if events[0].Quit? then (st, true)
    else
      var r := Run(Step(st, events[0], now, direction), events[1..], now, direction);
      assert events == [events[0]] + events[1..];
      r
  }

  /** A launch keeps the invariant, given a direction in the first quadrant. */
  lemma LaunchValid(st: State, now: real, dir: Direction)
    requires Valid(st) && IsDirection(dir)
    ensures Valid(Launch(st, now, dir))
  {
  }

  /** Every event keeps the invariant. */
  lemma StepValid(st: State, e: Event, now: real, direction: real -> Direction)
    requires Valid(st) && DirectionsValid(direction)
    ensures Valid(Step(st, e, now, direction))
  {
    if e.KeyDown? && e.key == Space && !st.running {
      LaunchValid(st, now, direction(st.params.angleDeg));
    }
  }

  /** Every frame keeps the invariant. */
  lemma FrameValid(st: State, now: real)
    requires Valid(st)
    ensures Valid(Frame(st, now))
  {
    if st.running {
      var r := Frame(st, now);
      var t := Elapsed(now, st.startTime, st.params.timeScale);
      var s := Evaluate(st.vxComp, st.vyComp, st.params.height0, t);
      assert 0.0 <= s.x by {
        assert st.vxComp * t >= 0.0;
      }
      StopRowBound(s.x, s.h);
      PhysToPixelMonotone(0.0, s.h, s.x, s.h);
      TruncOfInt(StartX);
      PaintKeepsSuffix(st.trailSurface, st.trailPoints, r.ball);
      assert r.trailSurface == st.trailSurface + Painted(st.trailPoints, r.ball);
    }
  }

  /**
   * No event changes a parameter during a flight: Space is ignored then, R
   * ends the flight, and pointer moves are gated. So the height and time
   * scale that each frame reads are those of the launch.
   */
  lemma ParamsFixedInFlight(st: State, e: Event, now: real, direction: real -> Direction)
    requires st.running
    ensures Step(st, e, now, direction).params == st.params
  {
  }

  /** Every event batch keeps the invariant. */
  lemma {:induction false} RunValid(st: State, events: seq<Event>, now: real, direction: real -> Direction)
    requires Valid(st) && DirectionsValid(direction)
    ensures Valid(Run(st, events, now, direction).0)
    decreases |events|
  {
    if events != [] && !events[0].Quit? {
      StepValid(st, events[0], now, direction);
      RunValid(Step(st, events[0], now, direction), events[1..], now, direction);
    }
  }

  predicate NoKeys(events: seq<Event>) {
    forall i :: 0 <= i < |events| ==> !events[i].KeyDown?
  }

  /**
   * Without key presses, a batch neither starts nor ends a flight and leaves
   * the trail alone; during a flight it also leaves every launch parameter
   * unchanged, so the height and time scale read each frame are those of the launch.
   */
  lemma {:induction false} RunWithoutKeys(st: State, events: seq<Event>, now: real, direction: real -> Direction)
    requires NoKeys(events)
    ensures var r := Run(st, events, now, direction).0;
            r.running == st.running && r.fired == st.fired && r.startTime == st.startTime
            && r.vxComp == st.vxComp && r.vyComp == st.vyComp
            && r.trailPoints == st.trailPoints && r.trailSurface == st.trailSurface
            && (st.running ==> r.params == st.params)
    decreases |events|
  {
    if events != [] && !events[0].Quit? {
      assert !events[0].KeyDown?;
      RunWithoutKeys(Step(st, events[0], now, direction), events[1..], now, direction);
    }
  }

  /** Every flight the sliders allow has ended at the first frame 80 wall-clock seconds after launch (time scale at least 0.1). */
  lemma FlightEndsBy80Seconds(st: State, now: real)
    requires Valid(st) && st.running && st.startTime + 80.0 <= now
    ensures !Frame(st, now).running
  {
    var ts := st.params.timeScale;
    var t := Elapsed(now, st.startTime, ts);
    assert InRange(TimeSlider, ts);
    ElapsedAtLeast(now, st.startTime, ts, 80.0);
    LandedByEight(st.params.height0, st.vyComp, t);
  }

  /** Once a flight has ended, later frames add nothing to the trail and show the ball back at its start position. */
  lemma FramesAfterLanding(st: State, now: real, later: real)
    requires st.running && !Frame(st, now).running
    ensures var r := Frame(Frame(st, now), later);
            r.trailPoints == Frame(st, now).trailPoints
            && r.ball == PhysToPixel(0.0, st.params.height0)
  {
  }
}
