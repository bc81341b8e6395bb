/** The brush engine: stroke creation, point capture with a distance gate and directional smoothing,
    and the direction/pressure-change simplifier. */
module BrushEngine {
  import opened DrawingTypes
  import opened Seqs

  const SmoothingFactor: real := 0.1
  const MinDistance: real := 2.0

  datatype Point2D = Point2D(x: real, y: real)

  /** The legacy 3D position; its depth is ignored. */
  datatype Point3D = Point3D(x: real, y: real, z: Option<real>)

  /** A stroke with no points, styled from the brush settings and stamped with the capture time `now`. */
  function CreateStroke(id: string, settings: BrushSettings, now: int): (s: Stroke)
    ensures s.points == [] && s.id == id && s.timestamp == now
    ensures s.color == settings.color && s.size == settings.size
    ensures s.opacity == settings.opacity && s.layerId == settings.layerId
  {
    Stroke(id, [], settings.color, settings.size, settings.opacity, settings.layerId, now)
  }

  function SquaredDistance(position: Point2D, p: StrokePoint): real
  {
    (position.x - p.x) * (position.x - p.x) + (position.y - p.y) * (position.y - p.y)
  }

  /** The distance gate: the sample lies closer than MinDistance to the last stored point.
      Both sides of the comparison are non-negative, so comparing squares is the same test. */
  predicate IsTooClose(points: seq<StrokePoint>, position: Point2D)
  {
    |points| > 0 && SquaredDistance(position, points[|points| - 1]) < MinDistance * MinDistance
  }

  /** Directional smoothing: once two points are stored, the new position is the last stored point
      moved by SmoothingFactor times the displacement from the second-last one to the sample. */
  function SmoothPoint(previous: seq<StrokePoint>, p: StrokePoint): (r: StrokePoint)
    ensures r.pressure == p.pressure && r.timestamp == p.timestamp
    ensures |previous| < 2 ==> r == p
    ensures |previous| >= 2 ==>
      && r.x - previous[|previous| - 1].x == (p.x - previous[|previous| - 2].x) * SmoothingFactor
      && r.y - previous[|previous| - 1].y == (p.y - previous[|previous| - 2].y) * SmoothingFactor
  {
    if |previous| < 2 then p
    else
      var last := previous[|previous| - 1];
      var secondLast := previous[|previous| - 2];
      StrokePoint(
        last.x + (p.x - secondLast.x) * SmoothingFactor,
        last.y + (p.y - secondLast.y) * SmoothingFactor,
        p.pressure,
        p.timestamp)
  }

  /** The point list after one `addPoint2D` call at time `now`. */
  function AppendSample(points: seq<StrokePoint>, position: Point2D, pressure: real, now: int): (r: seq<StrokePoint>)
    ensures |points| <= |r| <= |points| + 1 && r[..|points|] == points
    ensures |r| == |points| <==> IsTooClose(points, position)
    ensures |r| == |points| + 1 ==>
      r[|points|] == SmoothPoint(points, StrokePoint(position.x, position.y, pressure, now))
  {
    if IsTooClose(points, position) then points
    else
      var point := StrokePoint(position.x, position.y, pressure, now);
      if |points| > 1 then points + [SmoothPoint(points, point)] else points + [point]
  }

  /** The first two samples that pass the gate are stored exactly as given. */
  lemma FirstTwoSamplesExact(points: seq<StrokePoint>, position: Point2D, pressure: real, now: int)
    requires |points| < 2 && !IsTooClose(points, position)
    ensures AppendSample(points, position, pressure, now) == points + [StrokePoint(position.x, position.y, pressure, now)]
  {
  }

  /** The gate compares the raw sample with the smoothed last point, so two consecutive stored points
      may still lie closer than MinDistance: stored (0,0), (10,0), sample (12,0) passes the gate at
      distance 2 and is stored at (11.2, 0), 1.2 from its predecessor. */
  lemma StoredPointsNotSpacedByGate()
    ensures var pts := [StrokePoint(0.0, 0.0, 1.0, 0), StrokePoint(10.0, 0.0, 1.0, 1)];
            var r := AppendSample(pts, Point2D(12.0, 0.0), 1.0, 2);
            |r| == 3 && r[2] == StrokePoint(11.2, 0.0, 1.0, 2)
            && SquaredDistance(Point2D(r[2].x, r[2].y), r[1]) < MinDistance * MinDistance
  {
    var pts := [StrokePoint(0.0, 0.0, 1.0, 0), StrokePoint(10.0, 0.0, 1.0, 1)];
    assert !IsTooClose(pts, Point2D(12.0, 0.0));
  }

  /** A stroke under capture, whose point list is appended to in place. */
  class LiveStroke {
    const id: string
    const color: string
    const size: real
    const opacity: real
    const layerId: string
    const timestamp: int
    var points: seq<StrokePoint>

    constructor (s: Stroke)
      ensures Value() == s
    {
      id, color, size, opacity, layerId, timestamp := s.id, s.color, s.size, s.opacity, s.layerId, s.timestamp;
      points := s.points;
    }

    /** The stroke value this object currently holds. */
    function Value(): Stroke
      reads this
    {
      Stroke(id, points, color, size, opacity, layerId, timestamp)
    }

    /** `addPoint2D`: append at most one point, gated by distance and smoothed once two points exist. */
    method AddPoint2D(position: Point2D, now: int, pressure: real := 1.0)
      modifies this
      ensures points == AppendSample(old(points), position, pressure, now)
    {
      if |points| > 0 {
        var lastPoint := points[|points| - 1];
        if SquaredDistance(position, lastPoint) < MinDistance * MinDistance {
          return;
        }
      }
      var point := StrokePoint(position.x, position.y, pressure, now);
      if |points| > 1 {
        var smoothed := SmoothPoint(points, point);
        points := points + [smoothed];
      } else {
        points := points + [point];
      }
    }

    /** `addPoint`: the 3D entry point, which drops the depth and delegates to AddPoint2D. */
    method AddPoint(position: Point3D, now: int, pressure: real := 1.0)
      modifies this
      ensures points == AppendSample(old(points), Point2D(position.x, position.y), pressure, now)
    {
      AddPoint2D(Point2D(position.x, position.y), now, pressure);
    }
  }

  function Abs(x: real): real
  {
    if x < 0.0 then -x else x
  }

  /** The cosine between the normalised vectors previous->current and current->next is below 0.95.
      A zero-length vector is left unnormalised, so the cosine is then 0. Over the reals,
      dot / (|a| |b|) < 0.95 holds exactly when dot < 0 or dot^2 < 0.9025 |a|^2 |b|^2. */
  predicate TurnsSignificantly(previous: StrokePoint, current: StrokePoint, next: StrokePoint)
  {
    var ux, uy := current.x - previous.x, current.y - previous.y;
    var vx, vy := next.x - current.x, next.y - current.y;
    var lu, lv := ux * ux + uy * uy, vx * vx + vy * vy;
    var dot := ux * vx + uy * vy;
    lu == 0.0 || lv == 0.0 || dot < 0.0 || dot * dot < 0.9025 * lu * lv
  }

  /** An interior point survives simplification when the direction changes or the pressure differs
      by more than 0.1 from the last kept point. */
  predicate KeepPoint(previous: StrokePoint, current: StrokePoint, next: StrokePoint)
  {
    TurnsSignificantly(previous, current, next) || Abs(current.pressure - previous.pressure) > 0.1
  }

  /** The simplifier from interior index `i` on, with `kept` the points kept so far. */
  function SimplifyFrom(pts: seq<StrokePoint>, i: nat, kept: seq<StrokePoint>): (r: seq<StrokePoint>)
    requires 1 <= i < |pts| && |kept| > 0
    ensures |kept| + 1 <= |r| <= |kept| + |pts| - i
    ensures r[..|kept|] == kept && r[|r| - 1] == pts[|pts| - 1]
    decreases |pts| - i
  {
    if i == |pts| - 1 then kept + [pts[i]]
    else if KeepPoint(kept[|kept| - 1], pts[i], pts[i + 1]) then
      var r := SimplifyFrom(pts, i + 1, kept + [pts[i]]);
      assert r[..|kept| + 1][..|kept|] == r[..|kept|];
      r
    else SimplifyFrom(pts, i + 1, kept)
  }

  /** Whatever the simplifier appends to an in-order selection of `pts[..i]` is again in order. */
  lemma {:induction false} SimplifyFromSubsequence(pts: seq<StrokePoint>, i: nat, kept: seq<StrokePoint>)
    requires 1 <= i < |pts| && |kept| > 0
    requires IsSubsequence(kept, pts[..i])
    ensures IsSubsequence(SimplifyFrom(pts, i, kept), pts)
    decreases |pts| - i
  {
    assert pts[..i + 1][..i] == pts[..i];
    if i == |pts| - 1 {
      assert pts[..i + 1] == pts;
      SubsequenceExtendBoth(kept, pts[..i], pts[i]);
    } else if KeepPoint(kept[|kept| - 1], pts[i], pts[i + 1]) {
      SubsequenceExtendBoth(kept, pts[..i], pts[i]);
      SimplifyFromSubsequence(pts, i + 1, kept + [pts[i]]);
    } else {
      SubsequenceExtendRight(kept, pts[..i], pts[i]);
      SimplifyFromSubsequence(pts, i + 1, kept);
    }
  }

  /** The point list `optimizeStroke` produces. */
  function OptimizedPoints(pts: seq<StrokePoint>): (r: seq<StrokePoint>)
    ensures |pts| <= 2 ==> r == pts
    ensures |pts| > 2 ==> 2 <= |r| <= |pts| && r[0] == pts[0] && r[|r| - 1] == pts[|pts| - 1]
    ensures IsSubsequence(r, pts)
  {
    if |pts| <= 2 then
      SubsequenceOfSelf(pts);
      pts
    else
      assert IsSubsequence([pts[0]], pts[..1]) by {
        assert pts[..1][..0] == [];
      }
      SimplifyFromSubsequence(pts, 1, [pts[0]]);
      var r := SimplifyFrom(pts, 1, [pts[0]]);
      assert r[..1][0] == r[0];
      r
  }

  /** The simplifier reads only the points from `i` on: two lists that agree from there, one
      shifted by `d` places, are simplified alike. */
  lemma {:induction false} SimplifyFromShift(pts: seq<StrokePoint>, q: seq<StrokePoint>, i: nat, d: nat, kept: seq<StrokePoint>)
    requires 1 <= i < |q| && |kept| > 0 && |pts| == |q| + d
    requires forall j :: i <= j < |q| ==> pts[j + d] == q[j]
    ensures SimplifyFrom(pts, i + d, kept) == SimplifyFrom(q, i, kept)
    decreases |q| - i
  {
    assert pts[i + d] == q[i];
    if i < |q| - 1 {
      assert pts[i + d + 1] == q[i + 1];
      if KeepPoint(kept[|kept| - 1], q[i], q[i + 1]) {
        SimplifyFromShift(pts, q, i + 1, d, kept + [q[i]]);
      } else {
        SimplifyFromShift(pts, q, i + 1, d, kept);
      }
    }
  }

  /** Points kept before the last one play no part in later decisions: they stay in front. */
  lemma {:induction false} SimplifyFromPrefix(pts: seq<StrokePoint>, i: nat, a: seq<StrokePoint>, kept: seq<StrokePoint>)
    requires 1 <= i < |pts| && |kept| > 0
    ensures SimplifyFrom(pts, i, a + kept) == a + SimplifyFrom(pts, i, kept)
    decreases |pts| - i
  {
    assert (a + kept)[|a + kept| - 1] == kept[|kept| - 1];
    if i == |pts| - 1 {
      assert (a + kept) + [pts[i]] == a + (kept + [pts[i]]);
    } else if KeepPoint(kept[|kept| - 1], pts[i], pts[i + 1]) {
      assert (a + kept) + [pts[i]] == a + (kept + [pts[i]]);
      SimplifyFromPrefix(pts, i + 1, a, kept + [pts[i]]);
    } else {
      SimplifyFromPrefix(pts, i + 1, a, kept);
    }
  }

  /** The keep rule on the second point, judged against the first (the last point kept so far):
      when it holds, the first point is kept and simplification goes on from the second as though
      the stroke began there; when it fails, the result is what it would have been had the point
      never been sampled. Applied again to the rest, the two cases settle every interior point. */
  lemma SecondPointRule(pts: seq<StrokePoint>)
    requires |pts| > 2
    ensures KeepPoint(pts[0], pts[1], pts[2]) ==> OptimizedPoints(pts) == [pts[0]] + OptimizedPoints(pts[1..])
    ensures !KeepPoint(pts[0], pts[1], pts[2]) ==> OptimizedPoints(pts) == OptimizedPoints([pts[0]] + pts[2..])
  {
    if KeepPoint(pts[0], pts[1], pts[2]) {
      SecondPointKept(pts);
    } else {
      SecondPointDropped(pts);
    }
  }

  /** The keep case of SecondPointRule. */
  lemma SecondPointKept(pts: seq<StrokePoint>)
    requires |pts| > 2 && KeepPoint(pts[0], pts[1], pts[2])
    ensures OptimizedPoints(pts) == [pts[0]] + OptimizedPoints(pts[1..])
  {
    assert SimplifyFrom(pts, 1, [pts[0]]) == SimplifyFrom(pts, 2, [pts[0]] + [pts[1]]);
    KeptSecondThenRest(pts);
  }

  /** With the first two points kept, the rest is simplified as though the stroke began at the second. */
  lemma KeptSecondThenRest(pts: seq<StrokePoint>)
    requires |pts| > 2
    ensures SimplifyFrom(pts, 2, [pts[0]] + [pts[1]]) == [pts[0]] + OptimizedPoints(pts[1..])
  {
    SimplifyFromPrefix(pts, 2, [pts[0]], [pts[1]]);
    RestFromSecond(pts);
  }

  /** The pass from the third point on, with the second kept last, is OptimizedPoints of the
      stroke without its first point. */
  lemma RestFromSecond(pts: seq<StrokePoint>)
    requires |pts| > 2
    ensures SimplifyFrom(pts, 2, [pts[1]]) == OptimizedPoints(pts[1..])
  {
    var q := pts[1..];
    if |q| == 2 {
      assert SimplifyFrom(pts, 2, [pts[1]]) == [pts[1]] + [pts[2]];
      assert q == [pts[1]] + [pts[2]];
    } else {
      SimplifyFromShift(pts, q, 1, 1, [pts[1]]);
      assert [q[0]] == [pts[1]];
    }
  }

  /** The drop case of SecondPointRule. */
  lemma SecondPointDropped(pts: seq<StrokePoint>)
    requires |pts| > 2 && !KeepPoint(pts[0], pts[1], pts[2])
    ensures OptimizedPoints(pts) == OptimizedPoints([pts[0]] + pts[2..])
  {
    var q := [pts[0]] + pts[2..];
    SimplifyFromShift(pts, q, 1, 1, [pts[0]]);
    if |q| <= 2 {
      assert SimplifyFrom(q, 1, [pts[0]]) == q;
    }
  }

  /** `optimizeStroke`: a copy of the stroke with the simplified point list; every other field is kept. */
  method OptimizeStroke(stroke: Stroke) returns (r: Stroke)
    ensures r == stroke.(points := OptimizedPoints(stroke.points))
    ensures |stroke.points| <= 2 ==> r == stroke
  {
    if |stroke.points| <= 2 {
      return stroke;
    }
    var pts := stroke.points;
    var optimized := [pts[0]];
    var i := 1;
    while i < |pts| - 1
      invariant 1 <= i <= |pts| - 1 && |optimized| > 0
      invariant SimplifyFrom(pts, i, optimized) == OptimizedPoints(pts)
    {
      var current := pts[i];
      var previous := optimized[|optimized| - 1];
      var next := pts[i + 1];
      if KeepPoint(previous, current, next) {
        optimized := optimized + [current];
      }
      i := i + 1;
    }
    optimized := optimized + [pts[|pts| - 1]];
    r := stroke.(points := optimized);
  }
}
