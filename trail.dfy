/**
 * The motion trail: the list of pixel points visited during a flight, and
 * the line segments between consecutive points that are painted onto the
 * persistent trail raster.
 */
module Trail {
  import opened Geometry

  /** One blue line painted onto the trail raster, from one trail point to the next. */
  datatype Segment = Segment(from: Point, to: Point)

  function Last(s: seq<Point>): Point
    requires s != []
  {
    s[|s| - 1]
  }

  /** The line painted when `p` is appended to the trail `points`: from the previous last point, if there is one. */
  function Painted(points: seq<Point>, p: Point): seq<Segment> {
    if points == [] then [] else [Segment(Last(points), p)]
  }

  /** The segments joining consecutive points of `s`, in order. */
  function Segments(s: seq<Point>): (r: seq<Segment>)
    ensures |r| == if |s| < 2 then 0 else |s| - 1
    ensures forall i :: 0 <= i < |r| ==> r[i] == Segment(s[i], s[i + 1])
  {
    if |s| < 2 then [] else [Segment(s[0], s[1])] + Segments(s[1..])
  }

  /** `tail` is what was painted most recently onto `painted`. */
  predicate EndsWith(painted: seq<Segment>, tail: seq<Segment>) {
    |tail| <= |painted| && painted[|painted| - |tail|..] == tail
  }

  /** Appending a point adds exactly one segment, from the previous last point, if there was one. */
  lemma {:induction false} SegmentsSnoc(s: seq<Point>, p: Point)
    ensures Segments(s + [p]) == Segments(s) + Painted(s, p)
  {
    var l := Segments(s + [p]);
    var r := Segments(s) + Painted(s, p);
    assert |l| == |r|;
    forall i | 0 <= i < |l| ensures l[i] == r[i] {
      assert (s + [p])[i] == if i < |s| then s[i] else p;
      assert (s + [p])[i + 1] == if i + 1 < |s| then s[i + 1] else p;
    }
  }

  /** Painting the segment of a newly appended point keeps the raster ending with the trail's segments. */
  lemma PaintKeepsSuffix(painted: seq<Segment>, s: seq<Point>, p: Point)
    requires EndsWith(painted, Segments(s))
    ensures EndsWith(painted + Painted(s, p), Segments(s + [p]))
  {
    SegmentsSnoc(s, p);
    var added := Painted(s, p);
    var n := |painted| - |Segments(s)|;
    assert (painted + added)[n..] == painted[n..] + added;
  }
}
