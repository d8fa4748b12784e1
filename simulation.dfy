/**
 * The main loop's global state as one object whose fields the event
 * handlers and the per-frame update change in place. Every method is
 * proved to perform exactly the transition that `Lifecycle` defines on
 * values; the event handlers, `Frame`, `ProcessEvents` and `Tick` are
 * also proved to keep `Lifecycle.Valid`.
 */
module Simulation {
  import opened Geometry
  import opened Slider
  import opened Physics
  import opened Controls
  import opened Trail
  import Lifecycle

  class Simulator {
    var running: bool
    var fired: bool
    var showForce: bool
    var showVelocity: bool
    var draggingSpeed: bool
    var draggingHeight: bool
    var draggingTime: bool
    var draggingAngle: bool
    var speed: real
    var height0: real
    var timeScale: real
    var angleDeg: real
    var vxComp: real
    var vyComp: real
    var startTime: real
    var trailPoints: seq<Point>
    var trailSurface: seq<Segment>
    var ball: Point
    var vxInst: real
    var vyInst: real

    /** The fields, read as one controller state. */
    function Snapshot(): Lifecycle.State
      reads this
    {
      Lifecycle.State(running, fired, Boxes(showForce, showVelocity),
                      Drag(draggingSpeed, draggingHeight, draggingTime, draggingAngle),
                      Params(speed, height0, timeScale, angleDeg),
                      vxComp, vyComp, startTime, trailPoints, trailSurface, ball, vxInst, vyInst)
    }

    ghost predicate Valid()
      reads this
    {
      Lifecycle.Valid(Snapshot())
    }

    constructor ()
      ensures Snapshot() == Lifecycle.Initial && Valid()
    {
      running, fired := false, false;
      showForce, showVelocity := false, false;
      draggingSpeed, draggingHeight, draggingTime, draggingAngle := false, false, false, false;
      speed, height0, timeScale, angleDeg := 10.0, 2.0, 1.0, 45.0;
      vxComp, vyComp, startTime := 0.0, 0.0, 0.0;
      trailPoints, trailSurface := [], [];
      ball := Point(12, 12);
      vxInst, vyInst := 0.0, 0.0;
      Lifecycle.InitialValid();
    }

    /** A key press at wall-clock time `now`; `dir` is the direction of the current angle. */
    method PressKey(key: Lifecycle.Key, now: real, dir: Lifecycle.Direction)
      requires Valid() && Lifecycle.IsDirection(dir)
      modifies this
      ensures Snapshot() == Lifecycle.OnKey(old(Snapshot()), key, now, dir)
      ensures Valid()
    {
      if key == Lifecycle.Space && !running {
        Lifecycle.LaunchValid(Snapshot(), now, dir);
        Launch(now, dir);
      } else if key == Lifecycle.KeyR {
        Reset();
      }
    }

    /** Start a flight: the velocity components are fixed from the current speed and direction. */
    method Launch(now: real, dir: Lifecycle.Direction)
      modifies this
      ensures Snapshot() == Lifecycle.Launch(old(Snapshot()), now, dir)
    {
      running := true;
      fired := true;
      startTime := now;
      trailPoints := [];
      var v0 := speed;
      vxComp := v0 * dir.cos;
      vyComp := v0 * dir.sin;
    }

    /** End any flight and clear the trail and the raster. */
    method Reset()
      modifies this
      ensures Snapshot() == Lifecycle.Reset(old(Snapshot()))
    {
      running := false;
      fired := false;
      trailSurface := [];
      trailPoints := [];
    }

    /** A button press at `(x, y)`. */
    method PressButton(button: int, x: int, y: int)
      requires Valid()
      modifies this
      ensures Snapshot() == Lifecycle.OnMouseDown(old(Snapshot()), button, x, y)
      ensures Valid()
    {
      if button == 1 {
        if HitsHandle(SpeedSlider, speed, x, y) {
          draggingSpeed := true;
        } else if HitsHandle(HeightSlider, height0, x, y) {
          draggingHeight := true;
        } else if HitsHandle(TimeSlider, timeScale, x, y) {
          draggingTime := true;
        } else if HitsHandle(AngleSlider, angleDeg, x, y) {
          draggingAngle := true;
        }
      }
      if Contains(ForceBox, x, y) {
        showForce := !showForce;
      }
      if Contains(VelocityBox, x, y) {
        showVelocity := !showVelocity;
      }
    }

    /** A button release. */
    method ReleaseButton(button: int)
      requires Valid()
      modifies this
      ensures Snapshot() == Lifecycle.OnMouseUp(old(Snapshot()), button)
      ensures Valid()
    {
      if button == 1 {
        draggingSpeed := false;
        draggingHeight := false;
        draggingTime := false;
        draggingAngle := false;
      }
    }

    /** A pointer move to `(x, y)`. */
    method MovePointer(x: int, y: int)
      requires Valid()
      modifies this
      ensures Snapshot() == Lifecycle.OnMouseMotion(old(Snapshot()), x)
      ensures Valid()
    {
      if draggingSpeed && !running {
        speed := ValueAt(SpeedSlider, x as real);
      } else if draggingHeight && !running {
        height0 := ValueAt(HeightSlider, x as real);
      } else if draggingTime && !running {
        timeScale := ValueAt(TimeSlider, x as real);
      } else if draggingAngle && !running {
        angleDeg := ValueAt(AngleSlider, x as real);
      }
    }

    /** One event other than `Quit`, dispatched on its kind. */
    method HandleEvent(e: Lifecycle.Event, now: real, direction: real -> Lifecycle.Direction)
      requires Valid() && Lifecycle.DirectionsValid(direction)
      modifies this
      ensures Snapshot() == Lifecycle.Step(old(Snapshot()), e, now, direction)
      ensures Valid()
    {
      match e
      case Quit =>
      case KeyDown(key) =>
        PressKey(key, now, direction(angleDeg));
      case MouseDown(button, x, y) =>
        PressButton(button, x, y);
      case MouseUp(button) =>
        ReleaseButton(button);
      case MouseMotion(x, y) =>
        MovePointer(x, y);
      case OtherEvent =>
    }

    /** Handle a batch of events in arrival order; a `Quit` ends the program, so nothing after it is handled. */
    method ProcessEvents(events: seq<Lifecycle.Event>, now: real, direction: real -> Lifecycle.Direction)
      returns (exited: bool)
      requires Valid() && Lifecycle.DirectionsValid(direction)
      modifies this
      ensures (Snapshot(), exited) == Lifecycle.Run(old(Snapshot()), events, now, direction)
      ensures Valid()
    {
      var i := 0;
      exited := false;
      while i < |events| && !exited
        invariant 0 <= i <= |events|
        invariant Valid()
        invariant !exited ==> Lifecycle.Run(old(Snapshot()), events, now, direction)
                              == Lifecycle.Run(Snapshot(), events[i..], now, direction)
        invariant exited ==> Lifecycle.Run(old(Snapshot()), events, now, direction) == (Snapshot(), true)
        decreases |events| - i, if exited then 0 else 1
      {
        if events[i].Quit? {
          exited := true;
        } else {
          assert events[i..][1..] == events[i + 1..];
          HandleEvent(events[i], now, direction);
          i := i + 1;
        }
      }
    }

    /** One frame's simulation update at wall-clock time `now`. */
    method Frame(now: real)
      requires Valid()
      modifies this
      ensures Snapshot() == Lifecycle.Frame(old(Snapshot()), now)
      ensures Valid()
    {
      ghost var st := Snapshot();
      if running {
        Advance(now);
      } else {
        ball := PhysToPixel(0.0, height0);
      }
      Lifecycle.FrameValid(st, now);
    }

    /** The running branch of a frame. */
    method Advance(now: real)
      requires running
      modifies this
      ensures Snapshot() == Lifecycle.Advance(old(Snapshot()), now)
    {
      Move(now);
      Record();
    }

    /** Evaluate the flight at `now`, stopping it at the ground. */
    method Move(now: real)
      requires running
      modifies this
      ensures Snapshot() == Lifecycle.Move(old(Snapshot()), now)
    {
      var t := Elapsed(now, startTime, timeScale);
      vxInst := vxComp;
      vyInst := VyAt(vyComp, t);
      var sample := Evaluate(vxComp, vyComp, height0, t);
      if sample.landed {
        running := false;
      }
      ball := PhysToPixel(sample.x, sample.h);
    }

    /** Append the ball position to the trail and paint the line to it. */
    method Record()
      modifies this
      ensures Snapshot() == Lifecycle.Record(old(Snapshot()))
    {
      trailPoints := trailPoints + [ball];
      if |trailPoints| > 1 {
        trailSurface := trailSurface + [Segment(trailPoints[|trailPoints| - 2], trailPoints[|trailPoints| - 1])];
      }
    }

    /**
     * One iteration of the main loop: the pending events (read at `eventTime`),
     * then, unless one of them was `Quit`, the frame update (read at `frameTime`).
     */
    method Tick(events: seq<Lifecycle.Event>, eventTime: real, frameTime: real, direction: real -> Lifecycle.Direction)
      returns (exited: bool)
      requires Valid() && Lifecycle.DirectionsValid(direction)
      modifies this
      ensures var (st, quit) := Lifecycle.Run(old(Snapshot()), events, eventTime, direction);
              exited == quit && Snapshot() == if quit then st else Lifecycle.Frame(st, frameTime)
      ensures Valid()
    {
      exited := ProcessEvents(events, eventTime, direction);
      if !exited {
        Frame(frameTime);
      }
    }
  }
}
