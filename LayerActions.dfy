/** The layer actions of the layers hook: each computes a new layer list from the store's current
    one and writes it back, together with the active layer id where the action changes it. */
module LayerActions {
  import opened Seqs
  import opened DrawingTypes
  import opened LayerManager
  import opened DrawingStore

  /** No two layers share an id. The store does not enforce this; ids are generated fresh. */
  predicate UniqueIds(layers: seq<Layer>)
  {
    forall i, j :: 0 <= i < j < |layers| ==> layers[i].id != layers[j].id
  }

  function NotNamed(id: string): Layer -> bool
  {
    (l: Layer) => l.id != id
  }

  /** The list without every layer carrying `id`, the rest in order. */
  function LayersWithout(layers: seq<Layer>, id: string): (r: seq<Layer>)
    ensures forall i :: 0 <= i < |r| ==> r[i].id != id && r[i] in layers
    ensures forall i :: 0 <= i < |layers| && layers[i].id != id ==> layers[i] in r
    ensures IsSubsequence(r, layers)
  {
    Filter(layers, NotNamed(id))
  }

  /** With unique ids, deleting the layer at position `k` removes exactly that layer. */
  lemma LayersWithoutRemovesOne(layers: seq<Layer>, k: int)
    requires UniqueIds(layers) && 0 <= k < |layers|
    ensures LayersWithout(layers, layers[k].id) == layers[..k] + layers[k + 1..]
  {
    var id := layers[k].id;
    var p := NotNamed(id);
    assert layers == layers[..k] + [layers[k]] + layers[k + 1..];
    FilterConcat(layers[..k] + [layers[k]], layers[k + 1..], p);
    FilterConcat(layers[..k], [layers[k]], p);
    FilterAll(layers[..k], p);
    FilterAll(layers[k + 1..], p);
    assert [layers[k]][..0] == [];
  }

  /** Deleting an id no layer carries changes nothing. */
  lemma LayersWithoutAbsent(layers: seq<Layer>, id: string)
    requires forall i :: 0 <= i < |layers| ==> layers[i].id != id
    ensures LayersWithout(layers, id) == layers
  {
    FilterAll(layers, NotNamed(id));
  }

  /** The active id after deleting `id`: unchanged unless the active layer is deleted, then the
      first remaining layer's id, or the empty string when nothing remains. */
  function ActiveAfterDelete(remaining: seq<Layer>, active: string, id: string): (r: string)
    ensures id != active ==> r == active
    ensures id == active && |remaining| > 0 ==> r == remaining[0].id
    ensures id == active && |remaining| == 0 ==> r == ""
  {
    if id != active then active
    else if |remaining| > 0 then remaining[0].id
    else ""
  }

  /** The layer list with `f` applied to every layer carrying `id`. */
  function UpdateWhere(layers: seq<Layer>, id: string, f: Layer -> Layer): (r: seq<Layer>)
    ensures |r| == |layers|
    ensures forall i :: 0 <= i < |r| ==> r[i] == if layers[i].id == id then f(layers[i]) else layers[i]
  {
    seq(|layers|, i requires 0 <= i < |layers| => if layers[i].id == id then f(layers[i]) else layers[i])
  }

  function FlipVisible(l: Layer): Layer
  {
    l.(visible := !l.visible)
  }

  /** Every layer with `id` has its visibility flipped; nothing else changes. */
  function ToggledVisibility(layers: seq<Layer>, id: string): (r: seq<Layer>)
    ensures |r| == |layers|
    ensures forall i :: 0 <= i < |r| ==>
      && r[i].id == layers[i].id && r[i].name == layers[i].name
      && r[i].opacity == layers[i].opacity && r[i].strokes == layers[i].strokes
      && r[i].visible == (if layers[i].id == id then !layers[i].visible else layers[i].visible)
  {
    UpdateWhere(layers, id, FlipVisible)
  }

  /** Toggling twice restores the list. */
  lemma ToggleInvolution(layers: seq<Layer>, id: string)
    ensures ToggledVisibility(ToggledVisibility(layers, id), id) == layers
  {
    var r := ToggledVisibility(ToggledVisibility(layers, id), id);
    assert forall i :: 0 <= i < |r| ==> r[i] == layers[i];
  }

  /** Every layer with `id` takes the given opacity, unclamped; nothing else changes. */
  function WithOpacity(layers: seq<Layer>, id: string, opacity: real): (r: seq<Layer>)
    ensures |r| == |layers|
    ensures forall i :: 0 <= i < |r| ==>
      && r[i].id == layers[i].id && r[i].name == layers[i].name
      && r[i].visible == layers[i].visible && r[i].strokes == layers[i].strokes
      && r[i].opacity == (if layers[i].id == id then opacity else layers[i].opacity)
  {
    UpdateWhere(layers, id, (l: Layer) => l.(opacity := opacity))
  }

  /** Every layer with `id` takes the given name; nothing else changes. */
  function Renamed(layers: seq<Layer>, id: string, name: string): (r: seq<Layer>)
    ensures |r| == |layers|
    ensures forall i :: 0 <= i < |r| ==>
      && r[i].id == layers[i].id && r[i].visible == layers[i].visible
      && r[i].opacity == layers[i].opacity && r[i].strokes == layers[i].strokes
      && r[i].name == (if layers[i].id == id then name else layers[i].name)
  {
    UpdateWhere(layers, id, (l: Layer) => l.(name := name))
  }

  /** Setting the opacity twice keeps only the second value. */
  lemma OpacityLastWins(layers: seq<Layer>, id: string, a: real, b: real)
    ensures WithOpacity(WithOpacity(layers, id, a), id, b) == WithOpacity(layers, id, b)
  {
    var r, s := WithOpacity(WithOpacity(layers, id, a), id, b), WithOpacity(layers, id, b);
    assert forall i :: 0 <= i < |r| ==> r[i] == s[i];
  }

  /** The list with positions `i` and `i + 1` exchanged. */
  function SwapAdjacent(layers: seq<Layer>, i: int): (r: seq<Layer>)
    requires 0 <= i < |layers| - 1
    ensures |r| == |layers| && r[i] == layers[i + 1] && r[i + 1] == layers[i]
    ensures forall j :: 0 <= j < |r| && j != i && j != i + 1 ==> r[j] == layers[j]
    ensures multiset(r) == multiset(layers)
  {
    var r := layers[i := layers[i + 1]][i + 1 := layers[i]];
    assert layers == layers[..i] + [layers[i], layers[i + 1]] + layers[i + 2..];
    assert r == layers[..i] + [layers[i + 1], layers[i]] + layers[i + 2..];
    r
  }

  /** `moveLayerUp` with the guard that evidently was meant: the layer with `id` changes places with
      the next one; the last layer, and an id no layer carries, leave the list as it is. */
  function Raise(layers: seq<Layer>, id: string): (r: seq<Layer>)
    ensures multiset(r) == multiset(layers)
    ensures var k := FindLayerIndex(layers, id);
      && (0 <= k < |layers| - 1 ==> r == SwapAdjacent(layers, k))
      && (k == -1 || k == |layers| - 1 ==> r == layers)
  {
    var k := FindLayerIndex(layers, id);
    if 0 <= k < |layers| - 1 then SwapAdjacent(layers, k) else layers
  }

  /** `moveLayerDown`: the layer with `id` changes places with the previous one; the first layer,
      and an id no layer carries, leave the list as it is. */
  function Lower(layers: seq<Layer>, id: string): (r: seq<Layer>)
    ensures multiset(r) == multiset(layers)
    ensures var k := FindLayerIndex(layers, id);
      && (k > 0 ==> r == SwapAdjacent(layers, k - 1))
      && (k <= 0 ==> r == layers)
  {
    var k := FindLayerIndex(layers, id);
    if k > 0 then SwapAdjacent(layers, k - 1) else layers
  }

  /** A position holding `id` with no earlier one is what `findIndex` returns. */
  lemma FindFirstAt(layers: seq<Layer>, id: string, j: int)
    requires 0 <= j < |layers| && layers[j].id == id
    requires forall i :: 0 <= i < j ==> layers[i].id != id
    ensures FindLayerIndex(layers, id) == j
  {
  }

  /** Swapping `k` and `k + 1` twice restores the list. */
  lemma SwapTwice(layers: seq<Layer>, k: int)
    requires 0 <= k < |layers| - 1
    ensures SwapAdjacent(SwapAdjacent(layers, k), k) == layers
  {
    var r := SwapAdjacent(SwapAdjacent(layers, k), k);
    assert forall j :: 0 <= j < |layers| ==> r[j] == layers[j];
  }

  /** With unique ids, lowering a layer that was raised puts it back. */
  lemma LowerUndoesRaise(layers: seq<Layer>, id: string)
    requires UniqueIds(layers)
    requires 0 <= FindLayerIndex(layers, id) < |layers| - 1
    ensures Lower(Raise(layers, id), id) == layers
  {
    var k := FindLayerIndex(layers, id);
    var r := SwapAdjacent(layers, k);
    assert layers[k + 1].id != id;
    FindFirstAt(r, id, k + 1);
    SwapTwice(layers, k);
  }

  /** With unique ids, raising a layer that was lowered puts it back. */
  lemma RaiseUndoesLower(layers: seq<Layer>, id: string)
    requires UniqueIds(layers)
    requires FindLayerIndex(layers, id) > 0
    ensures Raise(Lower(layers, id), id) == layers
  {
    var k := FindLayerIndex(layers, id);
    var r := SwapAdjacent(layers, k - 1);
    FindFirstAt(r, id, k - 1);
    SwapTwice(layers, k - 1);
  }

  /** The array slots of the list, every one of them filled. */
  function Slots(layers: seq<Layer>): (r: seq<Option<Layer>>)
    ensures |r| == |layers| && forall i :: 0 <= i < |r| ==> r[i] == Some(layers[i])
  {
    seq(|layers|, i requires 0 <= i < |layers| => Some(layers[i]))
  }

  /** `moveLayerUp` as written: the guard only checks `index < length - 1`, so the `-1` that
      `findIndex` returns for an unknown id passes it. The swap then writes the first layer to the
      non-index property "-1" and the missing element read from index -1 to slot 0. */
  function RaiseAsWritten(layers: seq<Layer>, id: string): (r: seq<Option<Layer>>)
    ensures |r| == |layers|
  {
    var k := FindLayerIndex(layers, id);
    var slots := Slots(layers);
    if k < |layers| - 1 then
      if k == -1 then slots[0 := None]
      else Slots(SwapAdjacent(layers, k))
    else slots
  }

  /** For an id some layer carries, the code as written agrees with Raise. */
  lemma RaiseAsWrittenAgreesOnKnownIds(layers: seq<Layer>, id: string)
    requires FindLayerIndex(layers, id) >= 0
    ensures RaiseAsWritten(layers, id) == Slots(Raise(layers, id))
  {
  }

  /** For an id no layer carries, the code as written empties the first slot of a non-empty list:
      the bottom layer disappears from the list. */
  lemma RaiseAsWrittenLosesFirstLayer(layers: seq<Layer>, id: string)
    requires |layers| >= 1 && forall i :: 0 <= i < |layers| ==> layers[i].id != id
    ensures RaiseAsWritten(layers, id)[0] == None
    ensures Raise(layers, id) == layers
  {
  }

  /** `createLayer`: append a fresh layer named `name` (with `id` for its generated id) and make it active. */
  method CreateLayerAction(store: DrawingState, id: string, name: string)
    modifies store`layers, store`activeLayerId
    ensures store.layers == old(store.layers) + [CreateLayer(id, name)]
    ensures store.activeLayerId == id
  {
    var newLayer := CreateLayer(id, name);
    store.SetLayers(store.layers + [newLayer]);
    store.SetActiveLayer(newLayer.id);
  }

  /** `deleteLayer`: refused while at most one layer exists; otherwise drop every layer carrying the
      id, and pick a new active layer if the active one was named. */
  method DeleteLayerAction(store: DrawingState, id: string)
    modifies store`layers, store`activeLayerId
    ensures |old(store.layers)| <= 1 ==> store.layers == old(store.layers) && store.activeLayerId == old(store.activeLayerId)
    ensures |old(store.layers)| > 1 ==>
      && store.layers == LayersWithout(old(store.layers), id)
      && store.activeLayerId == ActiveAfterDelete(store.layers, old(store.activeLayerId), id)
  {
    if |store.layers| <= 1 {
      return;
    }
    var updated := LayersWithout(store.layers, id);
    store.SetLayers(updated);
    if id == store.activeLayerId {
      store.SetActiveLayer(if |updated| > 0 then updated[0].id else "");
    }
  }

  /** The active layer exists: the list is non-empty and some layer carries the active id. */
  predicate ActiveLayerExists(layers: seq<Layer>, active: string)
  {
    exists i :: 0 <= i < |layers| && layers[i].id == active
  }

  /** With unique ids, a delete that goes ahead leaves at least one layer, and the active id still
      names a layer whenever it named one before. */
  lemma DeleteKeepsActiveLayer(layers: seq<Layer>, active: string, id: string)
    requires UniqueIds(layers) && |layers| > 1 && ActiveLayerExists(layers, active)
    ensures var remaining := LayersWithout(layers, id);
      && |remaining| >= 1
      && ActiveLayerExists(remaining, ActiveAfterDelete(remaining, active, id))
  {
    var remaining := LayersWithout(layers, id);
    var a :| 0 <= a < |layers| && layers[a].id == active;
    var other := if a == 0 then 1 else 0;
    assert layers[other].id != active;
    if layers[a].id != id {
      var j :| 0 <= j < |remaining| && remaining[j] == layers[a];
    } else {
      var j :| 0 <= j < |remaining| && remaining[j] == layers[other];
    }
  }

  /** `toggleLayerVisibility`. */
  method ToggleLayerVisibilityAction(store: DrawingState, id: string)
    modifies store`layers
    ensures store.layers == ToggledVisibility(old(store.layers), id)
  {
    store.SetLayers(ToggledVisibility(store.layers, id));
  }

  /** `updateLayerOpacity`. */
  method UpdateLayerOpacityAction(store: DrawingState, id: string, opacity: real)
    modifies store`layers
    ensures store.layers == WithOpacity(old(store.layers), id, opacity)
  {
    store.SetLayers(WithOpacity(store.layers, id, opacity));
  }

  /** `moveLayerUp`, with the corrected guard. */
  method MoveLayerUpAction(store: DrawingState, id: string)
    modifies store`layers
    ensures store.layers == Raise(old(store.layers), id)
  {
    var k := FindLayerIndex(store.layers, id);
    if 0 <= k < |store.layers| - 1 {
      store.SetLayers(SwapAdjacent(store.layers, k));
    }
  }

  /** `moveLayerDown`. */
  method MoveLayerDownAction(store: DrawingState, id: string)
    modifies store`layers
    ensures store.layers == Lower(old(store.layers), id)
  {
    var k := FindLayerIndex(store.layers, id);
    if k > 0 {
      store.SetLayers(SwapAdjacent(store.layers, k - 1));
    }
  }

  /** `renameLayer`. */
  method RenameLayerAction(store: DrawingState, id: string, name: string)
    modifies store`layers
    ensures store.layers == Renamed(old(store.layers), id, name)
  {
    store.SetLayers(Renamed(store.layers, id, name));
  }
}
