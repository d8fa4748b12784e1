/**
 * The four horizontal sliders of the visualiser: where each handle is drawn
 * for a value, which value a pointer column selects (clamped to the track),
 * and whether a press is close enough to a handle to grab it.
 */
module Slider {
  import opened Geometry

  const TrackWidth: int := 500
  const TrackHeight: int := 6
  /** A press grabs a handle when it is strictly closer than this in both x and y. */
  const HitTolerance: int := 15

  /** Track origin `(x, y)` in pixels and the range `[lo, hi]` of the bound parameter. */
  datatype SliderSpec = SliderSpec(x: int, y: int, lo: real, hi: real)

  const SpeedSlider: SliderSpec := SliderSpec(350, 20, 0.0, 30.0)
  const HeightSlider: SliderSpec := SliderSpec(350, 60, -2.5, 4.0)
  const TimeSlider: SliderSpec := SliderSpec(350, 100, 0.1, 2.0)
  const AngleSlider: SliderSpec := SliderSpec(350, 140, 0.0, 90.0)

  /** The sliders in the order in which a press tests them. */
  const Sliders: seq<SliderSpec> := [SpeedSlider, HeightSlider, TimeSlider, AngleSlider]

  ghost predicate WellFormed(s: SliderSpec) {
    s.lo < s.hi
  }

  predicate InRange(s: SliderSpec, v: real) {
    s.lo <= v <= s.hi
  }

  /** The pointer column pulled back onto the track. */
  function ClampToTrack(s: SliderSpec, px: real): (c: real)
    ensures s.x as real <= c <= (s.x + TrackWidth) as real
    ensures s.x as real <= px <= (s.x + TrackWidth) as real ==> c == px
    ensures px < s.x as real ==> c == s.x as real
    ensures (s.x + TrackWidth) as real < px ==> c == (s.x + TrackWidth) as real
  {
    if px < s.x as real then s.x as real
    else if (s.x + TrackWidth) as real < px then (s.x + TrackWidth) as real
    else px
  }

  /** How far along the track the clamped pointer is, from 0 at its start to 1 at its end. */
  function Ratio(s: SliderSpec, px: real): (r: real)
    ensures 0.0 <= r <= 1.0
    ensures r * TrackWidth as real == ClampToTrack(s, px) - s.x as real
  {
    var r := (ClampToTrack(s, px) - s.x as real) / TrackWidth as real;
    FractionBounds(ClampToTrack(s, px) - s.x as real, TrackWidth as real, r);
    r
  }

  /** The point a fraction `r` of the way from `lo` to `hi`. */
  function Lerp(lo: real, hi: real, r: real): (v: real)
    requires lo < hi && 0.0 <= r <= 1.0
    ensures lo <= v <= hi
    ensures r == 0.0 ==> v == lo
    ensures r == 1.0 ==> v == hi
  {
    ScaleBounds(r, hi - lo);
    lo + r * (hi - lo)
  }

  /** The value a drag to pointer column `px` selects: linear along the track, clamped at both ends. */
  function ValueAt(s: SliderSpec, px: real): (v: real)
    requires WellFormed(s)
    ensures InRange(s, v)
  {
    Lerp(s.lo, s.hi, Ratio(s, px))
  }

  /** How far `v` lies above the minimum, as a fraction of the slider's range. */
  function Fraction(s: SliderSpec, v: real): (f: real)
    requires WellFormed(s)
    ensures f * (s.hi - s.lo) == v - s.lo
    ensures InRange(s, v) ==> 0.0 <= f <= 1.0
  {
    var f := (v - s.lo) / (s.hi - s.lo);
    DivisionExact(v - s.lo, s.hi - s.lo, f);
    if InRange(s, v) then
      FractionBounds(v - s.lo, s.hi - s.lo, f);
      f
    else
      f
  }

  /** The pixel column at which the handle of value `v` is drawn (`draw_slider`). */
  function HandleX(s: SliderSpec, v: real): (hx: real)
    requires WellFormed(s)
    ensures (hx - s.x as real) * (s.hi - s.lo) == (v - s.lo) * TrackWidth as real
    ensures InRange(s, v) ==> s.x as real <= hx <= (s.x + TrackWidth) as real
  {
    var f := Fraction(s, v);
    ScaleSwap(f, s.hi - s.lo, v - s.lo, TrackWidth as real);
    if InRange(s, v) then
      ScaleBounds(f, TrackWidth as real);
      s.x as real + f * TrackWidth as real
    else
      s.x as real + f * TrackWidth as real
  }

  /** The pixel row through the middle of the track (`y + slider_h // 2`). */
  function CenterY(s: SliderSpec): int {
    s.y + TrackHeight / 2
  }

  /** A press at `(mx, my)` lies on the handle of a slider showing value `v`. */
  predicate HitsHandle(s: SliderSpec, v: real, mx: int, my: int)
    requires WellFormed(s)
    ensures HitsHandle(s, v, mx, my) <==>
              HandleX(s, v) - HitTolerance as real < mx as real < HandleX(s, v) + HitTolerance as real
              && CenterY(s) - HitTolerance < my < CenterY(s) + HitTolerance
  {
    Abs(mx as real - HandleX(s, v)) < HitTolerance as real && Abs((my - CenterY(s)) as real) < HitTolerance as real
  }

  lemma SlidersWellFormed()
    ensures forall s :: s in Sliders ==> WellFormed(s)
  {
  }

  /** A pointer at or left of the track selects the minimum; at or right of its end, the maximum. */
  lemma ValueAtEnds(s: SliderSpec, px: real)
    requires WellFormed(s)
    ensures px <= s.x as real ==> ValueAt(s, px) == s.lo
    ensures (s.x + TrackWidth) as real <= px ==> ValueAt(s, px) == s.hi
  {
    var r := Ratio(s, px);
    if px <= s.x as real {
      Cancel(r, 0.0, TrackWidth as real);
    }
    if (s.x + TrackWidth) as real <= px {
      Cancel(r, 1.0, TrackWidth as real);
    }
  }

  /** Moving the pointer right never lowers the selected value. */
  lemma ValueAtMonotone(s: SliderSpec, p1: real, p2: real)
    requires WellFormed(s) && p1 <= p2
    ensures ValueAt(s, p1) <= ValueAt(s, p2)
  {
    RatioMonotone(s, p1, p2);
    LerpMonotone(s.lo, s.hi, Ratio(s, p1), Ratio(s, p2));
  }

  lemma RatioMonotone(s: SliderSpec, p1: real, p2: real)
    requires p1 <= p2
    ensures Ratio(s, p1) <= Ratio(s, p2)
  {
    var r1, r2 := Ratio(s, p1), Ratio(s, p2);
    if r2 < r1 {
      ScaleStrict(r2, r1, TrackWidth as real);
    }
  }

  lemma LerpMonotone(lo: real, hi: real, r1: real, r2: real)
    requires lo < hi && 0.0 <= r1 <= r2 <= 1.0
    ensures Lerp(lo, hi, r1) <= Lerp(lo, hi, r2)
  {
    var d := hi - lo;
    ScaleMonotone(r1, r2, d);
    assert Lerp(lo, hi, r1) == lo + r1 * d;
    assert Lerp(lo, hi, r2) == lo + r2 * d;
  }

  /** The fraction of the range at which `Lerp` lands is the fraction it was given. */
  lemma LerpFraction(lo: real, hi: real, r: real)
    requires lo < hi && 0.0 <= r <= 1.0
    ensures (Lerp(lo, hi, r) - lo) / (hi - lo) == r
  {
    var f := (Lerp(lo, hi, r) - lo) / (hi - lo);
    DivisionExact(Lerp(lo, hi, r) - lo, hi - lo, f);
    Cancel(f, r, hi - lo);
  }

  /** Dragging to the column where a value's handle is drawn selects that value again. */
  lemma ValueAtHandle(s: SliderSpec, v: real)
    requires WellFormed(s) && InRange(s, v)
    ensures s.x as real <= HandleX(s, v) <= (s.x + TrackWidth) as real
    ensures ValueAt(s, HandleX(s, v)) == v
  {
    var f := Fraction(s, v);
    ScaleBounds(f, TrackWidth as real);
    var hx := HandleX(s, v);
    assert ClampToTrack(s, hx) == hx;
    Cancel(Ratio(s, hx), f, TrackWidth as real);
  }

  /** The handle of a dragged value is drawn under the pointer, pulled back onto the track. */
  lemma HandleAtValue(s: SliderSpec, px: real)
    requires WellFormed(s)
    ensures HandleX(s, ValueAt(s, px)) == ClampToTrack(s, px)
  {
    LerpFraction(s.lo, s.hi, Ratio(s, px));
  }

  /** The grab bands of two different sliders are disjoint, so at most one handle is under any press. */
  lemma HandlesNeverOverlap(a: SliderSpec, b: SliderSpec, va: real, vb: real, mx: int, my: int)
    requires a in Sliders && b in Sliders && a != b
    ensures WellFormed(a) && WellFormed(b)
    ensures !(HitsHandle(a, va, mx, my) && HitsHandle(b, vb, mx, my))
  {
  }

  /** A grabbed handle is within the tolerance of the track: at most column 864 for a value in range. */
  lemma HitColumnBound(s: SliderSpec, v: real, mx: int, my: int)
    requires s in Sliders && InRange(s, v)
    ensures WellFormed(s)
    ensures HitsHandle(s, v, mx, my) ==> s.x - HitTolerance < mx < s.x + TrackWidth + HitTolerance
  {
    ValueAtHandle(s, v);
  }

  lemma DivisionExact(a: real, d: real, f: real)
    requires d != 0.0 && f == a / d
    ensures f * d == a
  {
  }

  lemma FractionBounds(a: real, d: real, f: real)
    requires 0.0 < d && 0.0 <= a <= d && f == a / d
    ensures f * d == a && 0.0 <= f <= 1.0
  {
  }

  lemma ScaleBounds(f: real, k: real)
    requires 0.0 <= f <= 1.0 && 0.0 < k
    ensures 0.0 <= f * k <= k
  {
  }

  lemma ScaleMonotone(a: real, b: real, k: real)
    requires a <= b && 0.0 < k
    ensures a * k <= b * k
  {
  }

  lemma ScaleStrict(a: real, b: real, k: real)
    requires a < b && 0.0 < k
    ensures a * k < b * k
  {
  }

  lemma ScaleSwap(f: real, d: real, a: real, w: real)
    requires f * d == a
    ensures (f * w) * d == a * w
  {
  }

  lemma Cancel(a: real, b: real, k: real)
    requires k != 0.0 && a * k == b * k
    ensures a == b
  {
  }
}
