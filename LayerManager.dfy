/** Pure transformations over the layer list: creation, duplication, merging, visibility filtering,
    lookup, moving a stroke between layers and pruning degenerate strokes. */
module LayerManager {
  import opened DrawingTypes
  import opened Seqs

  /** A fresh visible, fully opaque, empty layer; `id` stands for the generated id. */
  function CreateLayer(id: string, name: string): (l: Layer)
    ensures l.id == id && l.name == name && l.visible && l.opacity == 1.0 && l.strokes == []
  {
    Layer(id, name, true, 1.0, [])
  }

  /** A copy under id `id` named "<name> Copy"; visibility, opacity and the very same strokes are kept. */
  function DuplicateLayer(layer: Layer, id: string): (l: Layer)
    ensures l.id == id && l.name == layer.name + " Copy"
    ensures l.visible == layer.visible && l.opacity == layer.opacity && l.strokes == layer.strokes
  {
    layer.(id := id, name := layer.name + " Copy")
  }

  /** Merge the layer at `target` into the one below it: the lower layer keeps its fields and gets
      its own strokes followed by the target's; the target disappears. An index that is 0 or out of
      range leaves the list as it is. */
  function MergeLayersDown(layers: seq<Layer>, target: int): (r: seq<Layer>)
    ensures target <= 0 || target >= |layers| ==> r == layers
    ensures 0 < target < |layers| ==>
      && |r| == |layers| - 1
      && r[..target - 1] == layers[..target - 1]
      && r[target - 1] == layers[target - 1].(strokes := layers[target - 1].strokes + layers[target].strokes)
      && r[target..] == layers[target + 1..]
  {
    if target <= 0 || target >= |layers| then layers
    else
      var below := layers[target - 1];
      var merged := below.(strokes := below.strokes + layers[target].strokes);
      layers[..target - 1] + [merged] + layers[target + 1..]
  }

  /** A merge neither loses nor adds strokes. */
  lemma MergePreservesStrokeCount(layers: seq<Layer>, target: int)
    ensures TotalStrokes(MergeLayersDown(layers, target)) == TotalStrokes(layers)
  {
    if 0 < target < |layers| {
      var head, rest := layers[..target - 1], layers[target + 1..];
      var below, top := layers[target - 1], layers[target];
      var merged := below.(strokes := below.strokes + top.strokes);
      assert layers == head + [below, top] + rest;
      assert MergeLayersDown(layers, target) == head + [merged] + rest;
      TotalStrokesConcat(head + [below, top], rest);
      TotalStrokesConcat(head, [below, top]);
      TotalStrokesConcat(head + [merged], rest);
      TotalStrokesConcat(head, [merged]);
      assert [below, top][..1] == [below];
      assert TotalStrokes([below, top]) == |below.strokes| + |top.strokes|;
    }
  }

  predicate IsVisible(l: Layer)
  {
    l.visible
  }

  /** Exactly the visible layers, in list order. */
  function GetVisibleLayers(layers: seq<Layer>): (r: seq<Layer>)
    ensures forall i :: 0 <= i < |r| ==> r[i].visible && r[i] in layers
    ensures forall i :: 0 <= i < |layers| && layers[i].visible ==> layers[i] in r
    ensures IsSubsequence(r, layers)
  {
    Filter(layers, IsVisible)
  }

  /** `getLayerByStroke`: a scan in list order that returns the first layer holding the stroke id. */
  method GetLayerByStroke(layers: seq<Layer>, strokeId: string) returns (r: Option<Layer>)
    ensures r.None? <==> forall i :: 0 <= i < |layers| ==> !HasStrokeId(layers[i].strokes, strokeId)
    ensures r.Some? ==>
      exists i :: 0 <= i < |layers| && layers[i] == r.value
        && HasStrokeId(layers[i].strokes, strokeId)
        && forall j :: 0 <= j < i ==> !HasStrokeId(layers[j].strokes, strokeId)
  {
    var i := 0;
    while i < |layers|
      invariant 0 <= i <= |layers|
      invariant forall j :: 0 <= j < i ==> !HasStrokeId(layers[j].strokes, strokeId)
    {
      if HasStrokeId(layers[i].strokes, strokeId) {
        return Some(layers[i]);
      }
      i := i + 1;
    }
    return None;
  }

  /** `findIndex` by id: the first position holding `id`, or -1. */
  function FindLayerIndex(layers: seq<Layer>, id: string): (k: int)
    ensures -1 <= k < |layers|
    ensures k == -1 <==> forall j :: 0 <= j < |layers| ==> layers[j].id != id
    ensures k >= 0 ==> layers[k].id == id && forall j :: 0 <= j < k ==> layers[j].id != id
  {
    if |layers| == 0 then -1
    else if layers[0].id == id then 0
    else
      var k := FindLayerIndex(layers[1..], id);
      if k == -1 then -1 else k + 1
  }

  /** Two lists with the same ids position by position give the same `findIndex` answer. */
  lemma FindLayerIndexByIds(a: seq<Layer>, b: seq<Layer>, id: string)
    requires |a| == |b| && forall i :: 0 <= i < |a| ==> a[i].id == b[i].id
    ensures FindLayerIndex(a, id) == FindLayerIndex(b, id)
  {
  }

  /** `find` by id: the first layer with that id. */
  function FindLayer(layers: seq<Layer>, id: string): (r: Option<Layer>)
    ensures r.None? <==> forall j :: 0 <= j < |layers| ==> layers[j].id != id
    ensures r.Some? ==> r.value.id == id && r.value == layers[FindLayerIndex(layers, id)]
  {
    var k := FindLayerIndex(layers, id);
    if k < 0 then None else Some(layers[k])
  }

  /** `find` by stroke id inside one layer. */
  function FindStroke(strokes: seq<Stroke>, id: string): (r: Option<Stroke>)
    ensures r.None? <==> !HasStrokeId(strokes, id)
    ensures r.Some? ==> r.value.id == id && r.value in strokes
    ensures r.Some? ==> exists k :: 0 <= k < |strokes| && r.value == strokes[k] &&
                                    forall j :: 0 <= j < k ==> strokes[j].id != id
  {
    if |strokes| == 0 then None
    else if strokes[0].id == id then Some(strokes[0])
    else
      var r := FindStroke(strokes[1..], id);
      assert HasStrokeId(strokes[1..], id) ==> HasStrokeId(strokes, id);
      assert HasStrokeId(strokes, id) ==> HasStrokeId(strokes[1..], id) by {
        if HasStrokeId(strokes, id) {
          var k :| 0 <= k < |strokes| && strokes[k].id == id;
          assert strokes[1..][k - 1].id == id;
        }
      }
      assert r.Some? ==> exists k :: 0 <= k < |strokes| && r.value == strokes[k] &&
                                     forall j :: 0 <= j < k ==> strokes[j].id != id by {
        if r.Some? {
          var k :| 0 <= k < |strokes[1..]| && r.value == strokes[1..][k] &&
                   forall j :: 0 <= j < k ==> strokes[1..][j].id != id;
          assert forall j :: 0 <= j < k + 1 ==> strokes[j].id != id by {
            forall j | 0 <= j < k + 1 ensures strokes[j].id != id {
              if j > 0 { assert strokes[j] == strokes[1..][j - 1]; }
            }
          }
          assert r.value == strokes[k + 1];
        }
      }
      r
  }

  /** What one layer becomes when `stroke` moves from layer `fromId` to layer `toId`: a source layer
      loses every stroke with that id; otherwise a destination layer gets the stroke, retagged, at the end. */
  function Relocate(layer: Layer, strokeId: string, fromId: string, toId: string, stroke: Stroke): Layer
  {
    if layer.id == fromId then layer.(strokes := WithoutStroke(layer.strokes, strokeId))
    else if layer.id == toId then layer.(strokes := layer.strokes + [stroke.(layerId := toId)])
    else layer
  }

  /** Move a stroke between layers. A missing layer id, or a stroke id absent from the first layer
      with `fromId`, returns the list unchanged; otherwise every layer is relocated as above. */
  function MoveStrokeBetweenLayers(layers: seq<Layer>, strokeId: string, fromId: string, toId: string): (r: seq<Layer>)
    ensures FindLayer(layers, fromId).None? || FindLayer(layers, toId).None? ==> r == layers
    ensures FindLayer(layers, fromId).Some? && !HasStrokeId(FindLayer(layers, fromId).value.strokes, strokeId) ==> r == layers
    ensures |r| == |layers|
    ensures forall i :: 0 <= i < |r| ==>
      r[i].id == layers[i].id && r[i].name == layers[i].name
      && r[i].visible == layers[i].visible && r[i].opacity == layers[i].opacity
    ensures forall i :: 0 <= i < |r| && layers[i].id != fromId && layers[i].id != toId ==> r[i] == layers[i]
    ensures FindLayer(layers, toId).Some? && FindLayer(layers, fromId).Some? ==>
      match FindStroke(FindLayer(layers, fromId).value.strokes, strokeId)
      case None => true
      case Some(stroke) =>
        forall i :: 0 <= i < |r| ==>
          && (layers[i].id == fromId ==> r[i].strokes == WithoutStroke(layers[i].strokes, strokeId))
          && (layers[i].id == toId && toId != fromId ==> r[i].strokes == layers[i].strokes + [stroke.(layerId := toId)])
  {
    match FindLayer(layers, fromId)
    case None => layers
    case Some(from) =>
      if FindLayer(layers, toId).None? then layers
      else
        match FindStroke(from.strokes, strokeId)
        case None => layers
        case Some(stroke) => RelocateAll(layers, strokeId, fromId, toId, stroke)
  }

  /** Every layer of the list relocated, in place. Ids, names, visibility and opacity are kept; the
      source layers lose the stroke id and the other destination layers gain the retagged stroke. */
  function RelocateAll(layers: seq<Layer>, strokeId: string, fromId: string, toId: string, stroke: Stroke): (r: seq<Layer>)
    ensures |r| == |layers|
    ensures forall i :: 0 <= i < |r| ==>
      r[i].id == layers[i].id && r[i].name == layers[i].name
      && r[i].visible == layers[i].visible && r[i].opacity == layers[i].opacity
    ensures forall i :: 0 <= i < |r| && layers[i].id != fromId && layers[i].id != toId ==> r[i] == layers[i]
    ensures forall i :: 0 <= i < |r| && layers[i].id == fromId ==> r[i].strokes == WithoutStroke(layers[i].strokes, strokeId)
    ensures forall i :: 0 <= i < |r| && layers[i].id == toId && toId != fromId ==>
      r[i].strokes == layers[i].strokes + [stroke.(layerId := toId)]
  {
    seq(|layers|, i requires 0 <= i < |layers| => Relocate(layers[i], strokeId, fromId, toId, stroke))
  }

  /** Between two distinct layers, the stroke leaves the source and arrives, retagged with the
      destination id, as the last stroke of the destination. */
  lemma MoveStrokeRelocates(layers: seq<Layer>, strokeId: string, fromId: string, toId: string)
    requires fromId != toId
    requires FindLayer(layers, fromId).Some? && FindLayer(layers, toId).Some?
    requires HasStrokeId(FindLayer(layers, fromId).value.strokes, strokeId)
    ensures var r := MoveStrokeBetweenLayers(layers, strokeId, fromId, toId);
      && FindLayer(r, fromId).Some? && !HasStrokeId(FindLayer(r, fromId).value.strokes, strokeId)
      && FindLayer(r, toId).Some?
      && (var dest := FindLayer(r, toId).value.strokes;
          |dest| > 0 && dest[|dest| - 1].id == strokeId && dest[|dest| - 1].layerId == toId)
  {
    var stroke := FindStroke(FindLayer(layers, fromId).value.strokes, strokeId).value;
    assert MoveStrokeBetweenLayers(layers, strokeId, fromId, toId) == RelocateAll(layers, strokeId, fromId, toId, stroke);
    RelocateAllFinds(layers, strokeId, fromId, toId, stroke);
  }

  /** The layers found by id after relocating between two distinct present layers. */
  lemma RelocateAllFinds(layers: seq<Layer>, strokeId: string, fromId: string, toId: string, stroke: Stroke)
    requires fromId != toId && stroke.id == strokeId
    requires FindLayer(layers, fromId).Some? && FindLayer(layers, toId).Some?
    ensures var r := RelocateAll(layers, strokeId, fromId, toId, stroke);
      && FindLayer(r, fromId).Some? && !HasStrokeId(FindLayer(r, fromId).value.strokes, strokeId)
      && FindLayer(r, toId).Some?
      && (var dest := FindLayer(r, toId).value.strokes;
          |dest| > 0 && dest[|dest| - 1].id == strokeId && dest[|dest| - 1].layerId == toId)
  {
    var r := RelocateAll(layers, strokeId, fromId, toId, stroke);
    FindLayerIndexByIds(layers, r, fromId);
    FindLayerIndexByIds(layers, r, toId);
    var f, t := FindLayerIndex(layers, fromId), FindLayerIndex(layers, toId);
    assert FindLayer(r, fromId).value == r[f];
    assert r[f].strokes == WithoutStroke(layers[f].strokes, strokeId);
    assert FindLayer(r, toId).value == r[t];
    assert r[t].strokes == layers[t].strokes + [stroke.(layerId := toId)];
  }

  /** Moving a stroke to the layer it is already on drops it: the source branch wins, so the layer
      loses the stroke and nothing is appended. */
  lemma MoveStrokeToSameLayerDropsIt(layers: seq<Layer>, strokeId: string, layerId: string)
    requires FindLayer(layers, layerId).Some?
    requires HasStrokeId(FindLayer(layers, layerId).value.strokes, strokeId)
    ensures var r := MoveStrokeBetweenLayers(layers, strokeId, layerId, layerId);
      forall i :: 0 <= i < |r| && r[i].id == layerId ==> !HasStrokeId(r[i].strokes, strokeId)
  {
  }

  /** `optimizeLayers`: every layer keeps its fields and position and loses its degenerate strokes. */
  function OptimizeLayers(layers: seq<Layer>): (r: seq<Layer>)
    ensures |r| == |layers|
    ensures forall i :: 0 <= i < |r| ==>
      && r[i].id == layers[i].id && r[i].name == layers[i].name
      && r[i].visible == layers[i].visible && r[i].opacity == layers[i].opacity
      && (forall k :: 0 <= k < |r[i].strokes| ==> IsDrawable(r[i].strokes[k]))
      && IsSubsequence(r[i].strokes, layers[i].strokes)
      && (forall k :: 0 <= k < |layers[i].strokes| && IsDrawable(layers[i].strokes[k]) ==> layers[i].strokes[k] in r[i].strokes)
  {
    seq(|layers|, i requires 0 <= i < |layers| => layers[i].(strokes := DrawableStrokes(layers[i].strokes)))
  }

  /** Every layer keeps each copy of a drawable stroke, duplicates included, and no degenerate one. */
  lemma OptimizeLayersCounts(layers: seq<Layer>, i: int, s: Stroke)
    requires 0 <= i < |layers|
    ensures multiset(OptimizeLayers(layers)[i].strokes)[s] == if IsDrawable(s) then multiset(layers[i].strokes)[s] else 0
  {
    FilterCounts(layers[i].strokes, IsDrawable, s);
  }

  /** Pruning twice is pruning once. */
  lemma OptimizeLayersIdempotent(layers: seq<Layer>)
    ensures OptimizeLayers(OptimizeLayers(layers)) == OptimizeLayers(layers)
  {
    var once := OptimizeLayers(layers);
    forall i | 0 <= i < |layers|
      ensures OptimizeLayers(once)[i] == once[i]
    {
      FilterIdempotent(layers[i].strokes, IsDrawable);
    }
  }
}
