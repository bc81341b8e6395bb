/** Export of a drawing: the PNG draw plan (the calls made on a 1920x1080 2D context), the SVG
    document text, the JSON document value, and the GIF/MP4 fallbacks to PNG. The object URL and
    the encoding of the canvas into bytes are not modelled; the ISO date in the file names and the
    clock reading in the JSON document are parameters, and so is the number-to-text conversion
    used inside SVG attributes. */
module ExportManager {
  import opened Seqs
  import opened DrawingTypes
  import opened LayerManager

  const ExportWidth: int := 1920
  const ExportHeight: int := 1080

  /** What an export produces besides its URL. */
  datatype Payload =
    | Raster(width: int, height: int, calls: seq<DrawCall>)
    | Text(content: string)
    | Json(data: ExportData)

  datatype ExportResult = ExportResult(payload: Payload, filename: string, mimeType: string)

  /** The JSON document before it is serialised. */
  datatype ExportData = ExportData(version: string, timestamp: int, strokes: seq<Stroke>, layers: seq<Layer>)

  /** One call made on the 2D context. `StrokePath` records the style in force when it is made. */
  datatype DrawCall =
    | ClearRect(left: int, top: int, w: int, h: int)
    | BeginPath
    | MoveTo(x: real, y: real)
    | LineTo(x: real, y: real)
    | StrokePath(style: string, width: real, alpha: real, cap: string, join: string)

  /** The strokes that belong to the layer `id`. */
  function OnLayer(id: string): Stroke -> bool
  {
    (s: Stroke) => s.layerId == id
  }

  function LayerStrokes(strokes: seq<Stroke>, layer: Layer): (r: seq<Stroke>)
    ensures forall i :: 0 <= i < |r| ==> r[i].layerId == layer.id && r[i] in strokes
    ensures forall i :: 0 <= i < |strokes| && strokes[i].layerId == layer.id ==> strokes[i] in r
  {
    Filter(strokes, OnLayer(layer.id))
  }

  function VisibleLayers(layers: seq<Layer>): (r: seq<Layer>)
    ensures (forall i :: 0 <= i < |layers| ==> !layers[i].visible) ==> r == []
  {
    Filter(layers, IsVisible)
  }

  /** The 2D drawing context of the export canvas: its style state and the calls made on it. */
  class DrawContext {
    var globalAlpha: real
    var strokeStyle: string
    var lineWidth: real
    var lineCap: string
    var lineJoin: string
    var calls: seq<DrawCall>

    /** A fresh context in the canvas default state. */
    constructor ()
      ensures globalAlpha == 1.0 && strokeStyle == "#000000" && lineWidth == 1.0
      ensures lineCap == "butt" && lineJoin == "miter" && calls == []
    {
      globalAlpha, strokeStyle, lineWidth, lineCap, lineJoin := 1.0, "#000000", 1.0, "butt", "miter";
      calls := [];
    }

    method Clear(x: int, y: int, w: int, h: int)
      modifies this`calls
      ensures calls == old(calls) + [ClearRect(x, y, w, h)]
    {
      calls := calls + [ClearRect(x, y, w, h)];
    }

    method Begin()
      modifies this`calls
      ensures calls == old(calls) + [BeginPath]
    {
      calls := calls + [BeginPath];
    }

    method Move(x: real, y: real)
      modifies this`calls
      ensures calls == old(calls) + [MoveTo(x, y)]
    {
      calls := calls + [MoveTo(x, y)];
    }

    method Line(x: real, y: real)
      modifies this`calls
      ensures calls == old(calls) + [LineTo(x, y)]
    {
      calls := calls + [LineTo(x, y)];
    }

    /** `stroke()`: draws the current path with the style in force. */
    method Stroke()
      modifies this`calls
      ensures calls == old(calls) + [StrokePath(strokeStyle, lineWidth, globalAlpha, lineCap, lineJoin)]
    {
      calls := calls + [StrokePath(strokeStyle, lineWidth, globalAlpha, lineCap, lineJoin)];
    }
  }

  function LineTos(points: seq<StrokePoint>): (r: seq<DrawCall>)
    ensures |r| == |points| && forall i :: 0 <= i < |r| ==> r[i] == LineTo(points[i].x, points[i].y)
  {
    seq(|points|, i requires 0 <= i < |points| => LineTo(points[i].x, points[i].y))
  }

  /** The calls that draw one stroke of at least two points at opacity `alpha`: a path from the
      first point through every later one, stroked with round caps and joins. */
  function StrokeCalls(s: Stroke, alpha: real): seq<DrawCall>
    requires |s.points| >= 2
  {
    [BeginPath, MoveTo(s.points[0].x, s.points[0].y)] + LineTos(s.points[1..])
      + [StrokePath(s.color, s.size, alpha, "round", "round")]
  }

  /** The opacity a stroke is drawn at: its layer's opacity times its own. */
  function EffectiveAlpha(layerOpacity: real, strokeOpacity: real): real
  {
    layerOpacity * strokeOpacity
  }

  /** The calls that draw one stroke of a layer of opacity `layerOpacity`: none for a stroke with
      fewer than two points, otherwise its path at layer opacity times stroke opacity. */
  function LayerStrokeCalls(s: Stroke, layerOpacity: real): seq<DrawCall>
  {
    if |s.points| < 2 then [] else StrokeCalls(s, EffectiveAlpha(layerOpacity, s.opacity))
  }

  /** The calls that draw the strokes of one layer of opacity `opacity`; strokes with fewer than
      two points are skipped. */
  function LayerCalls(opacity: real, strokes: seq<Stroke>): seq<DrawCall>
  {
    if |strokes| == 0 then []
    else
      LayerCalls(opacity, strokes[..|strokes| - 1]) + LayerStrokeCalls(strokes[|strokes| - 1], opacity)
  }

  /** The path style of a context: colour, width, cap and join. */
  datatype Style = Style(color: string, width: real, cap: string, join: string)

  function StyleOf(ctx: DrawContext): Style
    reads ctx
  {
    Style(ctx.strokeStyle, ctx.lineWidth, ctx.lineCap, ctx.lineJoin)
  }

  /** The path style left behind by drawing `strokes` from style `init`: that of the last stroke
      with at least two points, or `init` when there is none. */
  function StyleAfter(strokes: seq<Stroke>, init: Style): Style
  {
    if |strokes| == 0 then init
    else
      var s := strokes[|strokes| - 1];
      if |s.points| >= 2 then Style(s.color, s.size, "round", "round") else StyleAfter(strokes[..|strokes| - 1], init)
  }

  /** Draws one stroke of at least two points. */
  method DrawStroke(ctx: DrawContext, s: Stroke, layerOpacity: real)
    requires |s.points| >= 2
    modifies ctx
    ensures ctx.calls == old(ctx.calls) + StrokeCalls(s, EffectiveAlpha(layerOpacity, s.opacity))
    ensures ctx.strokeStyle == s.color && ctx.lineWidth == s.size
    ensures ctx.lineCap == "round" && ctx.lineJoin == "round" && ctx.globalAlpha == EffectiveAlpha(layerOpacity, s.opacity)
  {
    ctx.strokeStyle := s.color;
    ctx.lineWidth := s.size;
    ctx.lineCap := "round";
    ctx.lineJoin := "round";
    ctx.globalAlpha := EffectiveAlpha(layerOpacity, s.opacity);
    ctx.Begin();
    ctx.Move(s.points[0].x, s.points[0].y);
    ghost var before := ctx.calls;
    var i := 1;
    while i < |s.points|
      invariant 1 <= i <= |s.points|
      invariant ctx.calls == before + LineTos(s.points[1..i])
      invariant ctx.strokeStyle == s.color && ctx.lineWidth == s.size
      invariant ctx.lineCap == "round" && ctx.lineJoin == "round" && ctx.globalAlpha == EffectiveAlpha(layerOpacity, s.opacity)
    {
      ctx.Line(s.points[i].x, s.points[i].y);
      assert LineTos(s.points[1..i + 1]) == LineTos(s.points[1..i]) + [LineTo(s.points[i].x, s.points[i].y)];
      i := i + 1;
    }
    assert s.points[1..i] == s.points[1..];
    ctx.Stroke();
  }

  /** One step of `renderLayerToCanvas`: a stroke with fewer than two points is skipped. */
  method DrawIfDrawable(ctx: DrawContext, s: Stroke, layerOpacity: real)
    modifies ctx
    ensures ctx.calls == old(ctx.calls) + LayerStrokeCalls(s, layerOpacity)
    ensures StyleOf(ctx) == StyleAfter([s], old(StyleOf(ctx)))
  {
    if |s.points| >= 2 {
      DrawStroke(ctx, s, layerOpacity);
    } else {
      assert LayerStrokeCalls(s, layerOpacity) == [];
    }
  }

  /** The stroke loop of `renderLayerToCanvas`: each stroke of the list in order. */
  method RenderStrokes(ctx: DrawContext, layerOpacity: real, strokes: seq<Stroke>)
    modifies ctx
    ensures ctx.calls == old(ctx.calls) + LayerCalls(layerOpacity, strokes)
    ensures StyleOf(ctx) == StyleAfter(strokes, old(StyleOf(ctx)))
  {
    ghost var before, init := ctx.calls, StyleOf(ctx);
    var j := 0;
    while j < |strokes|
      invariant 0 <= j <= |strokes|
      invariant ctx.calls == before + LayerCalls(layerOpacity, strokes[..j])
      invariant StyleOf(ctx) == StyleAfter(strokes[..j], init)
    {
      DrawIfDrawable(ctx, strokes[j], layerOpacity);
      LayerCallsSnoc(layerOpacity, strokes, j, init);
      ConcatAssoc(before, LayerCalls(layerOpacity, strokes[..j]), LayerStrokeCalls(strokes[j], layerOpacity));
      j := j + 1;
    }
    assert strokes[..j] == strokes;
  }

  lemma LayerCallsSnoc(opacity: real, strokes: seq<Stroke>, j: int, init: Style)
    requires 0 <= j < |strokes|
    ensures LayerCalls(opacity, strokes[..j + 1]) == LayerCalls(opacity, strokes[..j]) + LayerStrokeCalls(strokes[j], opacity)
    ensures StyleAfter(strokes[..j + 1], init) == StyleAfter([strokes[j]], StyleAfter(strokes[..j], init))
  {
    assert strokes[..j + 1][..j] == strokes[..j];
  }

  /** `renderLayerToCanvas`: draws the layer's strokes in order at layer opacity times stroke
      opacity, then resets the opacity to 1. The path style is left at that of the last stroke
      drawn, or as it was when none was. */
  method RenderLayerToCanvas(ctx: DrawContext, layer: Layer, allStrokes: seq<Stroke>)
    modifies ctx
    ensures ctx.calls == old(ctx.calls) + LayerCalls(layer.opacity, LayerStrokes(allStrokes, layer))
    ensures ctx.globalAlpha == 1.0
    ensures StyleOf(ctx) == StyleAfter(LayerStrokes(allStrokes, layer), old(StyleOf(ctx)))
  {
    ctx.globalAlpha := layer.opacity;
    var layerStrokes := LayerStrokes(allStrokes, layer);
    RenderStrokes(ctx, layer.opacity, layerStrokes);
    ctx.globalAlpha := 1.0;
  }

  /** The calls that draw every layer of the list in order. */
  function DocumentCalls(strokes: seq<Stroke>, layers: seq<Layer>): seq<DrawCall>
  {
    if |layers| == 0 then []
    else
      var l := layers[|layers| - 1];
      DocumentCalls(strokes, layers[..|layers| - 1]) + LayerCalls(l.opacity, LayerStrokes(strokes, l))
  }

  function DatedName(date: string, extension: string): string
  {
    "drawing_" + date + "." + extension
  }

  /** What the PNG export draws: a transparent 1920x1080 canvas, then the visible layers in order. */
  function PngExport(strokes: seq<Stroke>, layers: seq<Layer>, date: string): (r: ExportResult)
    ensures r.payload.Raster? && r.payload.width == 1920 && r.payload.height == 1080
    ensures |r.payload.calls| >= 1 && r.payload.calls[0] == ClearRect(0, 0, 1920, 1080)
    ensures (forall i :: 0 <= i < |layers| ==> !layers[i].visible) ==> r.payload.calls == [ClearRect(0, 0, 1920, 1080)]
    ensures r.filename == "drawing_" + date + ".png" && r.mimeType == "image/png"
  {
    ExportResult(
      Raster(ExportWidth, ExportHeight,
             [ClearRect(0, 0, ExportWidth, ExportHeight)] + DocumentCalls(strokes, VisibleLayers(layers))),
      DatedName(date, "png"), "image/png")
  }

  lemma DocumentCallsSnoc(strokes: seq<Stroke>, layers: seq<Layer>, i: int)
    requires 0 <= i < |layers|
    ensures DocumentCalls(strokes, layers[..i + 1])
      == DocumentCalls(strokes, layers[..i]) + LayerCalls(layers[i].opacity, LayerStrokes(strokes, layers[i]))
  {
    assert layers[..i + 1][..i] == layers[..i];
  }

  /** The layer loop of `exportAsPNG`: each layer of the list rendered in order. */
  method RenderLayers(ctx: DrawContext, layers: seq<Layer>, strokes: seq<Stroke>)
    modifies ctx
    ensures ctx.calls == old(ctx.calls) + DocumentCalls(strokes, layers)
  {
    ghost var before := ctx.calls;
    var i := 0;
    while i < |layers|
      invariant 0 <= i <= |layers|
      invariant ctx.calls == before + DocumentCalls(strokes, layers[..i])
    {
      RenderLayerToCanvas(ctx, layers[i], strokes);
      DocumentCallsSnoc(strokes, layers, i);
      ConcatAssoc(before, DocumentCalls(strokes, layers[..i]), LayerCalls(layers[i].opacity, LayerStrokes(strokes, layers[i])));
      i := i + 1;
    }
    assert layers[..i] == layers;
  }

  /** `exportAsPNG`. */
  method ExportAsPng(strokes: seq<Stroke>, layers: seq<Layer>, date: string) returns (r: ExportResult)
    ensures r == PngExport(strokes, layers, date)
  {
    var ctx := new DrawContext();
    ctx.Clear(0, 0, ExportWidth, ExportHeight);
    var visible := VisibleLayers(layers);
    RenderLayers(ctx, visible, strokes);
    assert ctx.calls == [ClearRect(0, 0, ExportWidth, ExportHeight)] + DocumentCalls(strokes, visible);
    r := ExportResult(Raster(ExportWidth, ExportHeight, ctx.calls), DatedName(date, "png"), "image/png");
  }

  /** `exportAsGIF`: falls back to the PNG export. */
  method ExportAsGif(strokes: seq<Stroke>, layers: seq<Layer>, date: string) returns (r: ExportResult)
    ensures r == PngExport(strokes, layers, date)
  {
    r := ExportAsPng(strokes, layers, date);
  }

  /** `exportAsMP4`: falls back to the PNG export. */
  method ExportAsMp4(strokes: seq<Stroke>, layers: seq<Layer>, date: string) returns (r: ExportResult)
    ensures r == PngExport(strokes, layers, date)
  {
    r := ExportAsPng(strokes, layers, date);
  }

  /** Every `stroke()` call of a layer's plan draws a stroke of that layer with at least two points,
      in its own colour and size, at layer opacity times stroke opacity; the lemma names the stroke. */
  lemma {:induction false} LayerCallSource(opacity: real, strokes: seq<Stroke>, k: int) returns (s: Stroke, j: int)
    requires 0 <= k < |LayerCalls(opacity, strokes)| && LayerCalls(opacity, strokes)[k].StrokePath?
    ensures 0 <= j < |strokes| && strokes[j] == s && |s.points| >= 2
    ensures LayerCalls(opacity, strokes)[k] == StrokePath(s.color, s.size, EffectiveAlpha(opacity, s.opacity), "round", "round")
  {
    var n := |strokes| - 1;
    var prefix := LayerCalls(opacity, strokes[..n]);
    if k < |prefix| {
      s, j := LayerCallSource(opacity, strokes[..n], k);
    } else {
      s, j := strokes[n], n;
      var m := k - |prefix|;
      var calls := StrokeCalls(s, EffectiveAlpha(opacity, s.opacity));
      assert m < |calls|;
    }
  }

  /** Every `stroke()` call of the PNG plan draws a stroke of at least two points belonging to a
      layer of the list, at that layer's opacity times the stroke's; the lemma names both. */
  lemma {:induction false} DocumentCallSource(strokes: seq<Stroke>, layers: seq<Layer>, k: int)
    returns (l: Layer, s: Stroke)
    requires 0 <= k < |DocumentCalls(strokes, layers)| && DocumentCalls(strokes, layers)[k].StrokePath?
    ensures l in layers && s in strokes && s.layerId == l.id && |s.points| >= 2
    ensures DocumentCalls(strokes, layers)[k] == StrokePath(s.color, s.size, EffectiveAlpha(l.opacity, s.opacity), "round", "round")
  {
    var n := |layers| - 1;
    var prefix := DocumentCalls(strokes, layers[..n]);
    if k < |prefix| {
      l, s := DocumentCallSource(strokes, layers[..n], k);
      assert l in layers[..n];
    } else {
      l := layers[n];
      assert DocumentCalls(strokes, layers) == prefix + LayerCalls(l.opacity, LayerStrokes(strokes, l));
      s := LastLayerCallSource(strokes, l, prefix, k);
    }
  }

  /** The last layer's share of DocumentCallSource: a call past the earlier layers' calls. */
  lemma LastLayerCallSource(strokes: seq<Stroke>, l: Layer, prefix: seq<DrawCall>, k: int) returns (s: Stroke)
    requires |prefix| <= k < |prefix + LayerCalls(l.opacity, LayerStrokes(strokes, l))|
    requires (prefix + LayerCalls(l.opacity, LayerStrokes(strokes, l)))[k].StrokePath?
    ensures s in strokes && s.layerId == l.id && |s.points| >= 2
    ensures (prefix + LayerCalls(l.opacity, LayerStrokes(strokes, l)))[k]
      == StrokePath(s.color, s.size, EffectiveAlpha(l.opacity, s.opacity), "round", "round")
  {
    var onLayer := LayerStrokes(strokes, l);
    var j;
    s, j := LayerCallSource(l.opacity, onLayer, k - |prefix|);
    OnLayerStroke(strokes, l, j);
  }

  /** A stroke picked out for a layer belongs to it and comes from the list. */
  lemma OnLayerStroke(strokes: seq<Stroke>, l: Layer, j: int)
    requires 0 <= j < |LayerStrokes(strokes, l)|
    ensures LayerStrokes(strokes, l)[j].layerId == l.id && LayerStrokes(strokes, l)[j] in strokes
  {
  }

  /** The PNG export draws only visible layers and skips degenerate strokes; each drawn stroke's
      opacity is its layer's times its own. */
  lemma PngDrawsVisibleStrokes(strokes: seq<Stroke>, layers: seq<Layer>, date: string, k: int)
    returns (l: Layer, s: Stroke)
    requires var calls := PngExport(strokes, layers, date).payload.calls;
      0 <= k < |calls| && calls[k].StrokePath?
    ensures l in layers && l.visible && s in strokes && s.layerId == l.id && |s.points| >= 2
    ensures PngExport(strokes, layers, date).payload.calls[k]
      == StrokePath(s.color, s.size, EffectiveAlpha(l.opacity, s.opacity), "round", "round")
  {
    var visible := VisibleLayers(layers);
    l, s := DocumentCallSource(strokes, visible, k - 1);
  }

  /** A drawable stroke of a layer's list is stroked at layer opacity times its own. */
  lemma {:induction false} LayerCallsDrawEach(opacity: real, strokes: seq<Stroke>, s: Stroke)
    requires s in strokes && |s.points| >= 2
    ensures StrokePath(s.color, s.size, EffectiveAlpha(opacity, s.opacity), "round", "round") in LayerCalls(opacity, strokes)
    decreases |strokes|
  {
    var n := |strokes| - 1;
    assert strokes == strokes[..n] + [strokes[n]];
    if strokes[n] == s {
      var calls := StrokeCalls(s, EffectiveAlpha(opacity, s.opacity));
      assert calls[|calls| - 1] == StrokePath(s.color, s.size, EffectiveAlpha(opacity, s.opacity), "round", "round");
    } else {
      assert s in strokes[..n];
      LayerCallsDrawEach(opacity, strokes[..n], s);
    }
  }

  /** Every drawable stroke on a layer of the list is stroked, at that layer's opacity times its own. */
  lemma {:induction false} DocumentCallsDrawEach(strokes: seq<Stroke>, layers: seq<Layer>, l: Layer, s: Stroke)
    requires l in layers && s in strokes && s.layerId == l.id && |s.points| >= 2
    ensures StrokePath(s.color, s.size, EffectiveAlpha(l.opacity, s.opacity), "round", "round") in DocumentCalls(strokes, layers)
    decreases |layers|
  {
    var n := |layers| - 1;
    assert layers == layers[..n] + [layers[n]];
    if layers[n] == l {
      var j :| 0 <= j < |strokes| && strokes[j] == s;
      assert s in LayerStrokes(strokes, l);
      LayerCallsDrawEach(l.opacity, LayerStrokes(strokes, l), s);
    } else {
      assert l in layers[..n];
      DocumentCallsDrawEach(strokes, layers[..n], l, s);
    }
  }

  /** The converse of PngDrawsVisibleStrokes: every stroke of two or more points on a visible layer
      is stroked into the PNG, at that layer's opacity times its own. */
  lemma PngDrawsEveryVisibleStroke(strokes: seq<Stroke>, layers: seq<Layer>, date: string, l: Layer, s: Stroke)
    requires l in layers && l.visible && s in strokes && s.layerId == l.id && |s.points| >= 2
    ensures StrokePath(s.color, s.size, EffectiveAlpha(l.opacity, s.opacity), "round", "round")
      in PngExport(strokes, layers, date).payload.calls
  {
    var i :| 0 <= i < |layers| && layers[i] == l;
    assert IsVisible(layers[i]);
    DocumentCallsDrawEach(strokes, VisibleLayers(layers), l, s);
  }

  // ---------------------------------------------------------------------------------------------
  // SVG

  /** One `<path>` element: the stroke's points, colour, width and opacity. */
  datatype SvgPath = SvgPath(points: seq<StrokePoint>, color: string, width: real, opacity: real)

  /** One `<g>` element: a visible layer's opacity and its paths. */
  datatype SvgGroup = SvgGroup(opacity: real, paths: seq<SvgPath>)

  function PathOf(s: Stroke): SvgPath
  {
    SvgPath(s.points, s.color, s.size, s.opacity)
  }

  function PathsOf(strokes: seq<Stroke>): (r: seq<SvgPath>)
    ensures |r| == |strokes| && forall i :: 0 <= i < |r| ==> r[i] == PathOf(strokes[i])
  {
    seq(|strokes|, i requires 0 <= i < |strokes| => PathOf(strokes[i]))
  }

  /** The paths of one layer as the export loop emits them: a stroke with fewer than two points is
      skipped. */
  function LayerPaths(layerStrokes: seq<Stroke>): (r: seq<SvgPath>)
    ensures forall k :: 0 <= k < |r| ==> |r[k].points| >= 2
  {
    if |layerStrokes| == 0 then []
    else
      var s := layerStrokes[|layerStrokes| - 1];
      LayerPaths(layerStrokes[..|layerStrokes| - 1]) + (if |s.points| < 2 then [] else [PathOf(s)])
  }

  /** The paths of a layer are exactly its drawable strokes, in order. */
  lemma {:induction false} LayerPathsAreDrawable(layerStrokes: seq<Stroke>)
    ensures LayerPaths(layerStrokes) == PathsOf(DrawableStrokes(layerStrokes))
    decreases |layerStrokes|
  {
    if |layerStrokes| > 0 {
      var n := |layerStrokes| - 1;
      var s := layerStrokes[n];
      LayerPathsAreDrawable(layerStrokes[..n]);
      var before := DrawableStrokes(layerStrokes[..n]);
      assert DrawableStrokes(layerStrokes) == before + (if IsDrawable(s) then [s] else []);
      if IsDrawable(s) {
        assert PathsOf(before + [s]) == PathsOf(before) + [PathOf(s)];
      }
    }
  }

  /** The element tree for a list of visible layers: one group per layer, in order. */
  function Groups(strokes: seq<Stroke>, visible: seq<Layer>): (r: seq<SvgGroup>)
    ensures |r| == |visible|
    ensures forall i :: 0 <= i < |r| ==>
      r[i] == SvgGroup(visible[i].opacity, LayerPaths(LayerStrokes(strokes, visible[i])))
  {
    seq(|visible|, i requires 0 <= i < |visible| =>
      SvgGroup(visible[i].opacity, LayerPaths(LayerStrokes(strokes, visible[i]))))
  }

  /** The element tree of the SVG export. */
  function SvgTree(strokes: seq<Stroke>, layers: seq<Layer>): seq<SvgGroup>
  {
    Groups(strokes, VisibleLayers(layers))
  }

  /** The groups are the visible layers, in list order, each at its layer's opacity. */
  lemma SvgTreeGroups(strokes: seq<Stroke>, layers: seq<Layer>)
    ensures var r := SvgTree(strokes, layers);
      var visible := VisibleLayers(layers);
      && |r| == |visible| && IsSubsequence(visible, layers)
      && (forall i :: 0 <= i < |visible| ==> visible[i].visible && r[i].opacity == visible[i].opacity)
      && (forall i :: 0 <= i < |layers| && layers[i].visible ==> layers[i] in visible)
  {
  }

  /** Group `i` holds one path per stroke of its layer with at least two points, in stroke order. */
  lemma SvgGroupPaths(strokes: seq<Stroke>, layers: seq<Layer>, i: int)
    requires 0 <= i < |VisibleLayers(layers)|
    ensures var layer := VisibleLayers(layers)[i];
      SvgTree(strokes, layers)[i].paths == PathsOf(DrawableStrokes(LayerStrokes(strokes, layer)))
  {
    LayerPathsAreDrawable(LayerStrokes(strokes, VisibleLayers(layers)[i]));
  }

  const SvgHeader: string := "<svg width=\"1920\" height=\"1080\" xmlns=\"http://www.w3.org/2000/svg\">"
  const SvgFooter: string := "</svg>"
  /** The fixed attributes that close every `<path>` element. */
  const PathTail: string := "\" fill=\"none\" stroke-linecap=\"round\" stroke-linejoin=\"round\"/>"

  /** The ` L x y` segments for the given points. */
  function LineSegments(points: seq<StrokePoint>, num: real -> string): string
  {
    if |points| == 0 then ""
    else
      var p := points[|points| - 1];
      LineSegments(points[..|points| - 1], num) + " L " + num(p.x) + " " + num(p.y)
  }

  /** The `d` attribute: `M x0 y0`, then ` L xi yi` for every later point, in order. */
  function PathData(points: seq<StrokePoint>, num: real -> string): string
    requires |points| >= 1
  {
    "M " + num(points[0].x) + " " + num(points[0].y) + LineSegments(points[1..], num)
  }

  function PathText(p: SvgPath, num: real -> string): string
    requires |p.points| >= 1
  {
    "<path d=\"" + PathData(p.points, num) + "\" stroke=\"" + p.color + "\" stroke-width=\"" + num(p.width)
      + "\" stroke-opacity=\"" + num(p.opacity) + PathTail
  }

  predicate WellFormedPaths(paths: seq<SvgPath>)
  {
    forall i :: 0 <= i < |paths| ==> |paths[i].points| >= 1
  }

  function PathsText(paths: seq<SvgPath>, num: real -> string): string
    requires WellFormedPaths(paths)
  {
    if |paths| == 0 then ""
    else PathsText(paths[..|paths| - 1], num) + PathText(paths[|paths| - 1], num)
  }

  function GroupOpen(opacity: real, num: real -> string): string
  {
    "<g opacity=\"" + num(opacity) + "\">"
  }

  function GroupText(g: SvgGroup, num: real -> string): string
    requires WellFormedPaths(g.paths)
  {
    GroupOpen(g.opacity, num) + PathsText(g.paths, num) + "</g>"
  }

  function GroupsText(groups: seq<SvgGroup>, num: real -> string): string
    requires forall i :: 0 <= i < |groups| ==> WellFormedPaths(groups[i].paths)
  {
    if |groups| == 0 then ""
    else GroupsText(groups[..|groups| - 1], num) + GroupText(groups[|groups| - 1], num)
  }

  /** The SVG document text of the export tree. */
  function SvgText(strokes: seq<Stroke>, layers: seq<Layer>, num: real -> string): (r: string)
    ensures |r| >= |SvgHeader| + |SvgFooter|
    ensures r[..|SvgHeader|] == SvgHeader && r[|r| - |SvgFooter|..] == SvgFooter
    ensures (forall i :: 0 <= i < |layers| ==> !layers[i].visible) ==> r == SvgHeader + SvgFooter
  {
    SvgHeader + GroupsText(SvgTree(strokes, layers), num) + SvgFooter
  }

  /** The inner loop of `exportAsSVG`: the `d` attribute built one segment at a time. */
  method BuildPathData(points: seq<StrokePoint>, num: real -> string) returns (path: string)
    requires |points| >= 1
    ensures path == PathData(points, num)
  {
    path := "M " + num(points[0].x) + " " + num(points[0].y);
    ghost var head := path;
    var i := 1;
    while i < |points|
      invariant 1 <= i <= |points|
      invariant path == head + LineSegments(points[1..i], num)
    {
      assert points[1..i + 1][..i - 1] == points[1..i];
      path := path + " L " + num(points[i].x) + " " + num(points[i].y);
      i := i + 1;
    }
    assert points[1..i] == points[1..];
  }

  lemma LayerPathsSnoc(layerStrokes: seq<Stroke>, j: int)
    requires 0 <= j < |layerStrokes|
    ensures var s := layerStrokes[j];
      LayerPaths(layerStrokes[..j + 1])
        == LayerPaths(layerStrokes[..j]) + (if |s.points| < 2 then [] else [PathOf(s)])
  {
    assert layerStrokes[..j + 1][..j] == layerStrokes[..j];
  }

  /** The `<path>` element of one stroke of at least two points. */
  method PathElement(s: Stroke, num: real -> string) returns (element: string)
    requires |s.points| >= 2
    ensures element == PathText(PathOf(s), num)
  {
    var path := BuildPathData(s.points, num);
    element := "<path d=\"" + path + "\" stroke=\"" + s.color + "\" stroke-width=\"" + num(s.size)
      + "\" stroke-opacity=\"" + num(s.opacity) + PathTail;
  }

  lemma PathsTextSnoc(paths: seq<SvgPath>, p: SvgPath, num: real -> string)
    requires WellFormedPaths(paths) && |p.points| >= 1
    ensures WellFormedPaths(paths + [p])
    ensures PathsText(paths + [p], num) == PathsText(paths, num) + PathText(p, num)
  {
    assert (paths + [p])[..|paths|] == paths;
  }

  lemma LayerPathsTextSnoc(svg: string, layerStrokes: seq<Stroke>, j: int, num: real -> string)
    requires 0 <= j < |layerStrokes|
    ensures |layerStrokes[j].points| < 2 ==>
      svg + PathsText(LayerPaths(layerStrokes[..j + 1]), num) == svg + PathsText(LayerPaths(layerStrokes[..j]), num)
    ensures |layerStrokes[j].points| >= 2 ==>
      svg + PathsText(LayerPaths(layerStrokes[..j + 1]), num)
        == svg + PathsText(LayerPaths(layerStrokes[..j]), num) + PathText(PathOf(layerStrokes[j]), num)
  {
    var s := layerStrokes[j];
    var before := LayerPaths(layerStrokes[..j]);
    LayerPathsSnoc(layerStrokes, j);
    if |s.points| >= 2 {
      var p := PathOf(s);
      PathsTextSnoc(before, p, num);
      ConcatAssoc(svg, PathsText(before, num), PathText(p, num));
    } else {
      assert before + [] == before;
    }
  }

  /** The stroke loop of `exportAsSVG` for one layer: a `<path>` per stroke of at least two points. */
  method AppendLayerPaths(svg: string, layerStrokes: seq<Stroke>, num: real -> string) returns (r: string)
    ensures r == svg + PathsText(LayerPaths(layerStrokes), num)
  {
    r := svg;
    var j := 0;
    while j < |layerStrokes|
      invariant 0 <= j <= |layerStrokes|
      invariant r == svg + PathsText(LayerPaths(layerStrokes[..j]), num)
    {
      var s := layerStrokes[j];
      LayerPathsTextSnoc(svg, layerStrokes, j, num);
      if |s.points| >= 2 {
        var element := PathElement(s, num);
        r := r + element;
      }
      j := j + 1;
    }
    assert layerStrokes[..j] == layerStrokes;
  }

  lemma GroupsSnoc(strokes: seq<Stroke>, visible: seq<Layer>, i: int)
    requires 0 <= i < |visible|
    ensures Groups(strokes, visible[..i + 1]) == Groups(strokes, visible[..i]) + [Groups(strokes, visible)[i]]
  {
  }

  lemma GroupsTextSnoc(groups: seq<SvgGroup>, g: SvgGroup, num: real -> string)
    requires forall i :: 0 <= i < |groups| ==> WellFormedPaths(groups[i].paths)
    requires WellFormedPaths(g.paths)
    ensures forall i :: 0 <= i < |groups + [g]| ==> WellFormedPaths((groups + [g])[i].paths)
    ensures GroupsText(groups + [g], num) == GroupsText(groups, num) + GroupText(g, num)
  {
    assert (groups + [g])[..|groups|] == groups;
  }

  /** The `<g>` element of one layer: its opening tag, its paths, its closing tag. */
  method GroupElement(strokes: seq<Stroke>, layer: Layer, num: real -> string) returns (element: string)
    ensures element == GroupText(SvgGroup(layer.opacity, LayerPaths(LayerStrokes(strokes, layer))), num)
  {
    element := AppendLayerPaths(GroupOpen(layer.opacity, num), LayerStrokes(strokes, layer), num);
    element := element + "</g>";
  }

  /** The layer loop of `exportAsSVG`: a `<g>` per layer of the list, in order. */
  method AppendGroups(svg: string, strokes: seq<Stroke>, visible: seq<Layer>, num: real -> string) returns (r: string)
    ensures r == svg + GroupsText(Groups(strokes, visible), num)
  {
    r := svg;
    var i := 0;
    while i < |visible|
      invariant 0 <= i <= |visible|
      invariant r == svg + GroupsText(Groups(strokes, visible[..i]), num)
    {
      var element := GroupElement(strokes, visible[i], num);
      GroupsSnoc(strokes, visible, i);
      GroupsTextSnoc(Groups(strokes, visible[..i]), Groups(strokes, visible)[i], num);
      ConcatAssoc(svg, GroupsText(Groups(strokes, visible[..i]), num), element);
      r := r + element;
      assert r == svg + GroupsText(Groups(strokes, visible[..i]) + [Groups(strokes, visible)[i]], num);
      i := i + 1;
    }
    assert visible[..i] == visible;
  }

  /** `exportAsSVG`: the header, one group per visible layer holding its paths, the footer. */
  method ExportAsSvg(strokes: seq<Stroke>, layers: seq<Layer>, date: string, num: real -> string)
    returns (r: ExportResult)
    ensures r == ExportResult(Text(SvgText(strokes, layers, num)), DatedName(date, "svg"), "image/svg+xml")
  {
    var svg := AppendGroups(SvgHeader, strokes, VisibleLayers(layers), num);
    svg := svg + SvgFooter;
    r := ExportResult(Text(svg), DatedName(date, "svg"), "image/svg+xml");
  }

  // ---------------------------------------------------------------------------------------------
  // JSON

  /** `toFixed(3)` read back by `parseFloat`: the nearest multiple of 0.001, a tie going away from
      zero, the sign kept. */
  function Round3(x: real): (r: real)
    ensures (r * 1000.0).Floor as real == r * 1000.0
    ensures x >= 0.0 ==> r >= 0.0
    ensures x <= 0.0 ==> r <= 0.0
  {
    if x < 0.0 then
      NegatedThousandth(RoundUp3(-x));
      -RoundUp3(-x)
    else RoundUp3(x)
  }

  /** The negation of a multiple of 0.001 is one too. */
  lemma NegatedThousandth(r: real)
    requires (r * 1000.0).Floor as real == r * 1000.0
    ensures ((-r) * 1000.0).Floor as real == (-r) * 1000.0
  {
    var m := (r * 1000.0).Floor;
    assert (-r) * 1000.0 == (-m) as real;
  }

  /** For non-negative values: the nearest multiple of 0.001, a tie going up. */
  function RoundUp3(y: real): (r: real)
    ensures (r * 1000.0).Floor as real == r * 1000.0
    ensures y >= 0.0 ==> r >= 0.0
  {
    var n := (y * 1000.0 + 0.5).Floor;
    assert (n as real / 1000.0) * 1000.0 == n as real;
    n as real / 1000.0
  }

  /** Rounding moves a value by at most half a thousandth. */
  lemma Round3Error(x: real)
    ensures -0.0005 <= Round3(x) - x <= 0.0005
  {
    var y := if x < 0.0 then -x else x;
    var n := (y * 1000.0 + 0.5).Floor;
    assert y * 1000.0 + 0.5 - 1.0 < n as real <= y * 1000.0 + 0.5;
  }

  /** A multiple of 0.001 is kept as it is. */
  lemma RoundUp3Fixed(n: int)
    ensures RoundUp3(n as real / 1000.0) == n as real / 1000.0
  {
    assert (n as real / 1000.0) * 1000.0 + 0.5 == n as real + 0.5;
    assert (n as real + 0.5).Floor == n;
  }

  /** Rounding twice is rounding once. */
  lemma Round3Idempotent(x: real)
    ensures Round3(Round3(x)) == Round3(x)
  {
    var y := if x < 0.0 then -x else x;
    var n := (y * 1000.0 + 0.5).Floor;
    assert n >= 0;
    RoundUp3Fixed(n);
    if x < 0.0 && n > 0 {
      assert Round3(x) == -(n as real / 1000.0);
      assert -Round3(x) == n as real / 1000.0;
    }
  }

  /** Ties go away from zero, as `toFixed` picks the larger of two equally near multiples of the
      magnitude: m + 0.5 thousandths becomes m + 1, and its negation -(m + 1). */
  lemma Round3Ties(m: nat)
    ensures Round3((m as real + 0.5) / 1000.0) == (m + 1) as real / 1000.0
    ensures Round3(-((m as real + 0.5) / 1000.0)) == -((m + 1) as real / 1000.0)
  {
    var y := (m as real + 0.5) / 1000.0;
    assert y * 1000.0 + 0.5 == (m + 1) as real;
    assert (y * 1000.0 + 0.5).Floor == m + 1;
    assert -(-y) == y;
  }

  /** A point as exported: x, y and pressure rounded by Round3, the timestamp kept. */
  function RoundedPoint(p: StrokePoint): StrokePoint
  {
    StrokePoint(Round3(p.x), Round3(p.y), Round3(p.pressure), p.timestamp)
  }

  /** A stroke as exported: every point's coordinates and pressure rounded, its timestamp and every
      other field of the stroke kept. */
  function RoundedStroke(s: Stroke): (r: Stroke)
    ensures r.(points := s.points) == s && |r.points| == |s.points|
    ensures forall k :: 0 <= k < |r.points| ==> r.points[k] == RoundedPoint(s.points[k])
  {
    s.(points := seq(|s.points|, k requires 0 <= k < |s.points| => RoundedPoint(s.points[k])))
  }

  function RoundedStrokes(strokes: seq<Stroke>): (r: seq<Stroke>)
    ensures |r| == |strokes| && forall i :: 0 <= i < |r| ==> r[i] == RoundedStroke(strokes[i])
  {
    seq(|strokes|, i requires 0 <= i < |strokes| => RoundedStroke(strokes[i]))
  }

  /** `exportAsJSON`: version "1.0", the clock reading `now`, the rounded strokes and the layers as
      they are. */
  function ExportAsJson(strokes: seq<Stroke>, layers: seq<Layer>, now: int, date: string): (r: ExportResult)
    ensures r.mimeType == "application/json" && r.filename == DatedName(date, "json")
    ensures r.payload.Json? && r.payload.data.version == "1.0" && r.payload.data.timestamp == now
    ensures r.payload.data.layers == layers && |r.payload.data.strokes| == |strokes|
    ensures forall i :: 0 <= i < |strokes| ==>
      var e := r.payload.data.strokes[i];
      && e.(points := strokes[i].points) == strokes[i] && |e.points| == |strokes[i].points|
      && forall k :: 0 <= k < |e.points| ==>
           e.points[k] == RoundedPoint(strokes[i].points[k])
           && e.points[k].timestamp == strokes[i].points[k].timestamp
           && -0.0005 <= e.points[k].x - strokes[i].points[k].x <= 0.0005
           && -0.0005 <= e.points[k].y - strokes[i].points[k].y <= 0.0005
           && -0.0005 <= e.points[k].pressure - strokes[i].points[k].pressure <= 0.0005
  {
    var exported := RoundedStrokes(strokes);
    assert forall i, k :: 0 <= i < |strokes| && 0 <= k < |strokes[i].points| ==>
      exported[i].points[k] == RoundedPoint(strokes[i].points[k]);
    forall p | p in Points(strokes)
      ensures -0.0005 <= Round3(p.x) - p.x <= 0.0005 && -0.0005 <= Round3(p.y) - p.y <= 0.0005
      ensures -0.0005 <= Round3(p.pressure) - p.pressure <= 0.0005
    {
      Round3Error(p.x);
      Round3Error(p.y);
      Round3Error(p.pressure);
    }
    ExportResult(Json(ExportData("1.0", now, exported, layers)), DatedName(date, "json"), "application/json")
  }

  /** Every point of every stroke. */
  ghost function Points(strokes: seq<Stroke>): (r: set<StrokePoint>)
    ensures forall i, k :: 0 <= i < |strokes| && 0 <= k < |strokes[i].points| ==> strokes[i].points[k] in r
  {
    set i, k | 0 <= i < |strokes| && 0 <= k < |strokes[i].points| :: strokes[i].points[k]
  }

  /** Exporting what a JSON export produced yields the same strokes: rounding is idempotent. */
  lemma JsonReexportStable(strokes: seq<Stroke>, layers: seq<Layer>, now: int, date: string)
    ensures var once := ExportAsJson(strokes, layers, now, date).payload.data.strokes;
      ExportAsJson(once, layers, now, date).payload.data.strokes == once
  {
    var once := RoundedStrokes(strokes);
    forall i | 0 <= i < |once|
      ensures RoundedStroke(once[i]) == once[i]
    {
      forall k | 0 <= k < |once[i].points|
        ensures RoundedPoint(once[i].points[k]) == once[i].points[k]
      {
        var p := strokes[i].points[k];
        Round3Idempotent(p.x);
        Round3Idempotent(p.y);
        Round3Idempotent(p.pressure);
      }
    }
  }
}
