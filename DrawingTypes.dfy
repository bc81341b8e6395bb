/** The value types of the drawing engine: points, strokes, brush settings, layers and animation frames.
    Coordinates, pressure, size and opacity are reals; timestamps and durations are integers. */
module DrawingTypes {
  import opened Seqs

  datatype Option<T> = None | Some(value: T)

  /** One pointer sample of a stroke. */
  datatype StrokePoint = StrokePoint(x: real, y: real, pressure: real, timestamp: int)

  /** One continuous drag, tagged with the layer it belongs to. */
  datatype Stroke = Stroke(
    id: string,
    points: seq<StrokePoint>,
    color: string,
    size: real,
    opacity: real,
    layerId: string,
    timestamp: int)

  /** The brush state copied into a new stroke. */
  datatype BrushSettings = BrushSettings(color: string, size: real, opacity: real, layerId: string)

  datatype Layer = Layer(id: string, name: string, visible: bool, opacity: real, strokes: seq<Stroke>)

  /** `duration` is in milliseconds. */
  datatype AnimationFrame = AnimationFrame(id: string, duration: int, strokes: seq<Stroke>)

  /** A stroke with fewer than two points is degenerate: it is neither rendered, exported nor kept by the optimisers. */
  predicate IsDrawable(s: Stroke)
  {
    |s.points| > 1
  }

  /** The drawable strokes of a list, in order (`filter(stroke => stroke.points.length > 1)`). */
  function DrawableStrokes(strokes: seq<Stroke>): (r: seq<Stroke>)
    ensures forall i :: 0 <= i < |r| ==> IsDrawable(r[i])
    ensures forall s :: s in r <==> s in strokes && IsDrawable(s)
    ensures IsSubsequence(r, strokes)
  {
    Filter(strokes, IsDrawable)
  }

  /** Some stroke of the list carries this id (`strokes.some(s => s.id === id)`). */
  predicate HasStrokeId(strokes: seq<Stroke>, id: string)
  {
    exists k :: 0 <= k < |strokes| && strokes[k].id == id
  }

  /** Total number of strokes held by a list of layers. */
  function TotalStrokes(layers: seq<Layer>): nat
  {
    if |layers| == 0 then 0 else TotalStrokes(layers[..|layers| - 1]) + |layers[|layers| - 1].strokes|
  }

  lemma {:induction false} TotalStrokesConcat(a: seq<Layer>, b: seq<Layer>)
    ensures TotalStrokes(a + b) == TotalStrokes(a) + TotalStrokes(b)
    decreases |b|
  {
    if |b| > 0 {
      assert (a + b)[..|a + b| - 1] == a + b[..|b| - 1];
      TotalStrokesConcat(a, b[..|b| - 1]);
    } else {
      assert a + b == a;
    }
  }

  /** The strokes whose id differs from `id`, in order (`filter(s => s.id !== id)`). */
  function WithoutStroke(strokes: seq<Stroke>, id: string): (r: seq<Stroke>)
    ensures forall i :: 0 <= i < |r| ==> r[i].id != id && r[i] in strokes
    ensures forall i :: 0 <= i < |strokes| && strokes[i].id != id ==> strokes[i] in r
    ensures !HasStrokeId(r, id)
    ensures IsSubsequence(r, strokes)
    ensures !HasStrokeId(strokes, id) ==> r == strokes
  {
    var keep := (s: Stroke) => s.id != id;
    assert !HasStrokeId(strokes, id) ==> Filter(strokes, keep) == strokes by {
      if !HasStrokeId(strokes, id) { FilterAll(strokes, keep); }
    }
    Filter(strokes, keep)
  }
}
