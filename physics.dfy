/**
 * Closed-form projectile kinematics of the visualiser: simulated time from
 * the wall clock, position and vertical velocity at that time, and the stop
 * at four metres below the reference level.
 */
module Physics {

  /** Gravitational acceleration, m/s^2. */
  const G: real := 9.8
  /** The flight ends once the height reaches this level (metres). */
  const GroundStop: real := -4.0

  /** Simulated seconds since launch: real seconds scaled by `timeScale`, floored at zero. */
  function Elapsed(now: real, startTime: real, timeScale: real): (t: real)
    ensures t >= 0.0
    ensures startTime <= now && 0.0 <= timeScale ==> t == (now - startTime) * timeScale
    ensures now <= startTime && 0.0 <= timeScale ==> t == 0.0
  {
    var t := (now - startTime) * timeScale;
    if t < 0.0 then 0.0 else t
  }

  /** Horizontal distance travelled after `t` simulated seconds. */
  function XAt(vx: real, t: real): real {
    vx * t
  }

  /** Height after `t` simulated seconds, before the ground stop is applied. */
  function HeightAt(h0: real, vy: real, t: real): real {
    h0 + vy * t - 0.5 * G * t * t
  }

  /** Vertical velocity after `t` simulated seconds (upwards positive). */
  function VyAt(vy: real, t: real): real {
    vy - G * t
  }

  /** The state of a flight at one instant, as one running frame evaluates it. */
  datatype Sample = Sample(x: real, h: real, landed: bool)

  /** One running frame's evaluation: the height is held at `GroundStop` once reached, which ends the flight. */
  function Evaluate(vx: real, vy: real, h0: real, t: real): (s: Sample)
    ensures s.x == XAt(vx, t)
    ensures s.landed <==> HeightAt(h0, vy, t) <= GroundStop
    ensures s.h >= GroundStop
    ensures s.landed ==> s.h == GroundStop
    ensures !s.landed ==> s.h == HeightAt(h0, vy, t)
  {
    var h := HeightAt(h0, vy, t);
    if h <= GroundStop then Sample(XAt(vx, t), GroundStop, true) else Sample(XAt(vx, t), h, false)
  }

  /** At the moment of launch the body is at its start height. */
  lemma AtLaunch(vx: real, vy: real, h0: real)
    ensures Evaluate(vx, vy, h0, 0.0) == Sample(0.0, h0, false) || h0 <= GroundStop
    ensures HeightAt(h0, vy, 0.0) == h0 && XAt(vx, 0.0) == 0.0 && VyAt(vy, 0.0) == vy
  {
  }

  /** With a positive horizontal component, the horizontal position strictly grows with time. */
  lemma XStrictlyIncreasing(vx: real, t1: real, t2: real)
    requires 0.0 < vx && t1 < t2
    ensures XAt(vx, t1) < XAt(vx, t2)
  {
    assert vx * (t2 - t1) > 0.0;
  }

  /** The vertical velocity is the rate of change of the height: a finite difference over `d` is its midpoint value. */
  lemma HeightDifference(h0: real, vy: real, t: real, d: real)
    ensures HeightAt(h0, vy, t + d) - HeightAt(h0, vy, t) == VyAt(vy, t + d / 2.0) * d
  {
    assert (t + d) * (t + d) - t * t == 2.0 * t * d + d * d;
  }

  /** No height exceeds the apex `h0 + vy^2 / (2g)`, reached at `t = vy / g`. */
  lemma HeightBelowApex(h0: real, vy: real, t: real)
    ensures HeightAt(h0, vy, t) <= h0 + vy * vy / (2.0 * G)
    ensures HeightAt(h0, vy, vy / G) == h0 + vy * vy / (2.0 * G)
  {
    var d := t - vy / G;
    assert HeightAt(h0, vy, t) == h0 + vy * vy / (2.0 * G) - 0.5 * G * (d * d);
    assert d * d >= 0.0;
  }

  /** Every flight the sliders allow (start at most 4 m up, vertical speed at most 30 m/s) has hit the stop level by t = 8 s. */
  lemma LandedByEight(h0: real, vy: real, t: real)
    requires h0 <= 4.0 && 0.0 <= vy <= 30.0 && 8.0 <= t
    ensures HeightAt(h0, vy, t) <= GroundStop
  {
    assert vy * t <= 30.0 * t;
    assert 0.5 * G * t * t >= 39.2 * t by {
      assert t * t >= 8.0 * t;
    }
  }

  /** Simulated time never runs backwards as the wall clock advances. */
  lemma ElapsedMonotone(n1: real, n2: real, startTime: real, timeScale: real)
    requires n1 <= n2 && 0.0 <= timeScale
    ensures Elapsed(n1, startTime, timeScale) <= Elapsed(n2, startTime, timeScale)
  {
    assert (n1 - startTime) * timeScale <= (n2 - startTime) * timeScale;
  }

  /** After `w` wall-clock seconds, at least `w` times the time scale has elapsed in simulation. */
  lemma ElapsedAtLeast(now: real, startTime: real, timeScale: real, w: real)
    requires 0.0 <= w && startTime + w <= now && 0.0 <= timeScale
    ensures Elapsed(now, startTime, timeScale) >= w * timeScale
  {
    assert (now - startTime) * timeScale >= w * timeScale;
  }
}
