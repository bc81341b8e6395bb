/** The stroke capture state machine driven by pointer down, move and up. Stroke ids and sample
    times, which the application draws from the clock and a random source, are parameters. */
module DrawingCapture {
  import opened DrawingTypes
  import opened BrushEngine
  import opened DrawingStore

  /** The brush settings a new stroke takes from the store: colour, size, opacity, active layer. */
  function Brush(store: DrawingState): BrushSettings
    reads store`brushColor, store`brushSize, store`brushOpacity, store`activeLayerId
  {
    BrushSettings(store.brushColor, store.brushSize, store.brushOpacity, store.activeLayerId)
  }

  /** The stroke that pointer-down starts: the brush settings and one point at full pressure.
      The stroke's timestamp and the first point's are two separate clock readings: `strokeTime`
      is taken when the stroke is created, `pointTime` when the first sample is added. */
  function StartedStroke(brush: BrushSettings, point: Point2D, strokeId: string, strokeTime: int, pointTime: int): (s: Stroke)
    ensures s == CreateStroke(strokeId, brush, strokeTime).(points := AppendSample([], point, 1.0, pointTime))
    ensures s.points == [StrokePoint(point.x, point.y, 1.0, pointTime)] && s.timestamp == strokeTime
  {
    Stroke(strokeId, [StrokePoint(point.x, point.y, 1.0, pointTime)], brush.color, brush.size,
           brush.opacity, brush.layerId, strokeTime)
  }

  /** `startDrawing`: ignored while a stroke is under way; otherwise create a stroke from the brush
      settings (clock reading `strokeTime`), record the first sample (full pressure, clock reading
      `pointTime`) and enter the drawing state. */
  method StartDrawing(store: DrawingState, point: Point2D, strokeId: string, strokeTime: int, pointTime: int)
    modifies store`currentStroke, store`isDrawing
    ensures old(store.isDrawing) ==> store.isDrawing && store.currentStroke == old(store.currentStroke)
    ensures !old(store.isDrawing) ==>
      store.isDrawing && store.currentStroke == Some(StartedStroke(Brush(store), point, strokeId, strokeTime, pointTime))
  {
    if store.isDrawing {
      return;
    }
    var settings := Brush(store);
    var live := new LiveStroke(CreateStroke(strokeId, settings, strokeTime));
    live.AddPoint2D(point, pointTime);
    store.SetCurrentStroke(Some(live.Value()));
    store.SetIsDrawing(true);
  }

  /** `updateDrawing`: outside a stroke nothing happens; otherwise the sample goes through the
      brush engine and the current stroke gains at most one point. */
  method UpdateDrawing(store: DrawingState, point: Point2D, now: int)
    modifies store`currentStroke
    ensures !old(store.isDrawing) || old(store.currentStroke).None? ==> store.currentStroke == old(store.currentStroke)
    ensures old(store.isDrawing) && old(store.currentStroke).Some? ==>
      var s := old(store.currentStroke).value;
      store.currentStroke == Some(s.(points := AppendSample(s.points, point, 1.0, now)))
  {
    if !store.isDrawing || store.currentStroke.None? {
      return;
    }
    var live := new LiveStroke(store.currentStroke.value);
    live.AddPoint2D(point, now);
    store.SetCurrentStroke(Some(live.Value()));
  }

  /** `stopDrawing`: outside a stroke nothing happens; otherwise the current stroke, whatever its
      length, is committed with one snapshot, and the drawing state is left. */
  method StopDrawing(store: DrawingState)
    requires store.Valid()
    modifies store`currentStroke, store`isDrawing
    modifies store`strokes, store`history, store`historyIndex, store`canUndo, store`canRedo
    ensures store.Valid()
    ensures !old(store.isDrawing) || old(store.currentStroke).None? ==>
      && store.currentStroke == old(store.currentStroke) && store.isDrawing == old(store.isDrawing)
      && store.HistoryView() == old(store.HistoryView())
    ensures old(store.isDrawing) && old(store.currentStroke).Some? ==>
      store.strokes == old(store.strokes) + [old(store.currentStroke).value]
    ensures old(store.isDrawing) && old(store.currentStroke).Some? ==>
      store.HistoryView() == AfterSave(old(store.HistoryView()).(strokes := store.strokes))
    ensures old(store.isDrawing) && old(store.currentStroke).Some? ==>
      store.currentStroke == None && !store.isDrawing
  {
    if store.isDrawing && store.currentStroke.Some? {
      CommitStroke(store);
    }
  }

  /** The committing branch of `stopDrawing`: add the current stroke (one snapshot), clear it and
      leave the drawing state. */
  method CommitStroke(store: DrawingState)
    requires store.Valid() && store.currentStroke.Some?
    modifies store`currentStroke, store`isDrawing
    modifies store`strokes, store`history, store`historyIndex, store`canUndo, store`canRedo
    ensures store.Valid()
    ensures store.strokes == old(store.strokes) + [old(store.currentStroke).value]
    ensures store.HistoryView() == AfterSave(old(store.HistoryView()).(strokes := old(store.strokes) + [old(store.currentStroke).value]))
    ensures store.currentStroke == None && !store.isDrawing
  {
    var stroke := store.currentStroke.value;
    ghost var h0 := store.HistoryView();
    store.AddStroke(stroke);
    ghost var h1 := store.HistoryView();
    assert h1 == AfterSave(h0.(strokes := h0.strokes + [stroke])) && HistoryInvariant(h1);
    store.ClearCurrentStroke();
    assert store.HistoryView() == h1;
    store.SetIsDrawing(false);
    assert store.HistoryView() == h1;
  }

  /** The point list after pointer moves to `samples` at `times`, starting from `points`: one
      AppendSample per move, at full pressure. */
  function FeedSamples(points: seq<StrokePoint>, samples: seq<Point2D>, times: seq<int>): (r: seq<StrokePoint>)
    requires |times| == |samples|
    ensures |points| <= |r| <= |points| + |samples| && r[..|points|] == points
    decreases |samples|
  {
    if |samples| == 0 then points
    else
      var n := |samples| - 1;
      var before := FeedSamples(points, samples[..n], times[..n]);
      var r := AppendSample(before, samples[n], 1.0, times[n]);
      assert r[..|points|] == r[..|before|][..|points|];
      r
  }

  /** The stroke a whole gesture commits: created from the brush settings at clock reading
      `strokeTime`, started at the first sample and fed the remaining samples, each sample at its
      own clock reading in `times`. It has the store's style and layer, starts at the first sample
      and holds at most one point per sample. */
  function GestureStroke(brush: BrushSettings, samples: seq<Point2D>, times: seq<int>, strokeId: string, strokeTime: int): (s: Stroke)
    requires |samples| >= 1 && |times| == |samples|
    ensures s.id == strokeId && s.color == brush.color && s.size == brush.size
    ensures s.opacity == brush.opacity && s.layerId == brush.layerId && s.timestamp == strokeTime
    ensures 1 <= |s.points| <= |samples|
    ensures s.points[0] == StrokePoint(samples[0].x, samples[0].y, 1.0, times[0])
  {
    var first := StartedStroke(brush, samples[0], strokeId, strokeTime, times[0]);
    var s := first.(points := FeedSamples(first.points, samples[1..], times[1..]));
    assert s.points[..1][0] == s.points[0];
    s
  }

  /** The gesture stroke is the started stroke fed the later samples. */
  lemma GestureStrokeParts(brush: BrushSettings, samples: seq<Point2D>, times: seq<int>, strokeId: string, strokeTime: int)
    requires |samples| >= 1 && |times| == |samples|
    ensures var first := StartedStroke(brush, samples[0], strokeId, strokeTime, times[0]);
      GestureStroke(brush, samples, times, strokeId, strokeTime) == first.(points := FeedSamples(first.points, samples[1..], times[1..]))
  {
  }

  /** The moves of a gesture: each sample goes through UpdateDrawing, in order. */
  method FollowSamples(store: DrawingState, samples: seq<Point2D>, times: seq<int>)
    requires store.isDrawing && store.currentStroke.Some?
    requires |times| == |samples|
    modifies store`currentStroke
    ensures var s0 := old(store.currentStroke.value);
      store.currentStroke == Some(s0.(points := FeedSamples(s0.points, samples, times)))
  {
    ghost var s0 := store.currentStroke.value;
    var i := 0;
    while i < |samples|
      invariant 0 <= i <= |samples|
      invariant store.currentStroke == Some(s0.(points := FeedSamples(s0.points, samples[..i], times[..i])))
    {
      UpdateDrawing(store, samples[i], times[i]);
      assert samples[..i + 1][..i] == samples[..i] && times[..i + 1][..i] == times[..i];
      i := i + 1;
    }
    assert samples[..i] == samples && times[..i] == times;
  }

  /** Pointer-down on the first sample and a move per later sample: the gesture stroke is under
      way and nothing else changes. The stroke is created at `strokeTime`; sample i is added at
      `times[i]`. */
  method TraceGesture(store: DrawingState, samples: seq<Point2D>, times: seq<int>, strokeId: string, strokeTime: int)
    requires !store.isDrawing
    requires |samples| >= 1 && |times| == |samples|
    modifies store`currentStroke, store`isDrawing
    ensures store.isDrawing && store.currentStroke == Some(GestureStroke(Brush(store), samples, times, strokeId, strokeTime))
  {
    GestureStrokeParts(Brush(store), samples, times, strokeId, strokeTime);
    StartDrawing(store, samples[0], strokeId, strokeTime, times[0]);
    FollowSamples(store, samples[1..], times[1..]);
  }

  /** One whole gesture from the idle state: pointer-down on the first sample, a move per later
      sample, pointer-up. It commits exactly the gesture stroke, with one snapshot. */
  method DrawGesture(store: DrawingState, samples: seq<Point2D>, times: seq<int>, strokeId: string, strokeTime: int)
    requires store.Valid() && !store.isDrawing
    requires |samples| >= 1 && |times| == |samples|
    modifies store`currentStroke, store`isDrawing
    modifies store`strokes, store`history, store`historyIndex, store`canUndo, store`canRedo
    ensures store.Valid() && !store.isDrawing && store.currentStroke == None
    ensures store.strokes == old(store.strokes) + [GestureStroke(Brush(store), samples, times, strokeId, strokeTime)]
    ensures store.HistoryView() == AfterSave(old(store.HistoryView()).(strokes := store.strokes))
  {
    ghost var h0 := store.HistoryView();
    TraceGesture(store, samples, times, strokeId, strokeTime);
    assert store.HistoryView() == h0;
    StopDrawing(store);
  }
}
