/** The application's state container: brush settings, strokes, layers, animation state and the
    bounded snapshot history behind undo/redo. */
module DrawingStore {
  import opened DrawingTypes

  /** The capacity of the snapshot history. */
  const MaxHistory: nat := 50

  datatype DrawingTool = Brush | Eraser | Select

  /** The undo/redo part of the store: the live strokes, the snapshots, the cursor and the two flags. */
  datatype HistoryState = HistoryState(
    strokes: seq<Stroke>,
    history: seq<seq<Stroke>>,
    historyIndex: int,
    canUndo: bool,
    canRedo: bool)

  /** A non-empty bounded history with the cursor inside it. This is what holds between a
      stroke mutation and the snapshot that follows it. */
  predicate CursorInRange(h: HistoryState)
  {
    1 <= |h.history| <= MaxHistory && 0 <= h.historyIndex < |h.history|
  }

  /** What every store state satisfies: the cursor is in range, the flags match it, and the live
      strokes equal the snapshot under the cursor. */
  predicate HistoryInvariant(h: HistoryState)
  {
    && CursorInRange(h)
    && h.canUndo == (h.historyIndex > 0)
    && h.canRedo == (h.historyIndex < |h.history| - 1)
    && h.strokes == h.history[h.historyIndex]
  }

  /** The history part of the initial store: one empty snapshot and nothing to undo or redo. */
  function InitialHistory(): (h: HistoryState)
    ensures HistoryInvariant(h) && h.strokes == [] && h.history == [[]]
    ensures h.historyIndex == 0 && !h.canUndo && !h.canRedo
  {
    HistoryState([], [[]], 0, false, false)
  }

  /** Drop the oldest snapshots beyond the capacity. */
  function Evict(entries: seq<seq<Stroke>>): (r: seq<seq<Stroke>>)
    ensures |r| == if |entries| > MaxHistory then MaxHistory else |entries|
    ensures r == entries[|entries| - |r|..]
  {
    if |entries| > MaxHistory then entries[|entries| - MaxHistory..] else entries
  }

  /** `saveToHistory`: abandon the redo branch, append a copy of the live strokes, evict beyond the
      capacity and put the cursor on the new last snapshot. */
  function AfterSave(h: HistoryState): (r: HistoryState)
    requires 0 <= h.historyIndex < |h.history|
    ensures r.strokes == h.strokes
    ensures |r.history| == if h.historyIndex + 2 > MaxHistory then MaxHistory else h.historyIndex + 2
    ensures r.history[|r.history| - 1] == h.strokes
    ensures r.history[..|r.history| - 1] == h.history[h.historyIndex + 2 - |r.history|..h.historyIndex + 1]
    ensures r.historyIndex == |r.history| - 1 && r.canUndo == (|r.history| > 1) && !r.canRedo
  {
    var kept := h.history[..h.historyIndex + 1];
    var entries := Evict(kept + [h.strokes]);
    assert entries[..|entries| - 1] == kept[|kept| + 1 - |entries|..];
    HistoryState(h.strokes, entries, |entries| - 1, |entries| > 1, false)
  }

  /** The saved state spelled out: the kept prefix and the live strokes, after eviction. */
  lemma AfterSaveParts(h: HistoryState)
    requires 0 <= h.historyIndex < |h.history|
    ensures var entries := Evict(h.history[..h.historyIndex + 1] + [h.strokes]);
      AfterSave(h) == HistoryState(h.strokes, entries, |entries| - 1, |entries| > 1, false)
  {
  }

  /** `undo`: step the cursor back and restore that snapshot; at the first snapshot nothing changes. */
  function AfterUndo(h: HistoryState): (r: HistoryState)
    requires 0 <= h.historyIndex < |h.history|
    ensures h.historyIndex == 0 ==> r == h
    ensures h.historyIndex > 0 ==>
      && r.historyIndex == h.historyIndex - 1 && r.history == h.history
      && r.strokes == h.history[r.historyIndex]
      && r.canUndo == (r.historyIndex > 0) && r.canRedo
  {
    if h.historyIndex > 0 then
      var newIndex := h.historyIndex - 1;
      h.(strokes := h.history[newIndex], historyIndex := newIndex, canUndo := newIndex > 0, canRedo := true)
    else h
  }

  /** `redo`: step the cursor forward and restore that snapshot; at the last snapshot nothing changes. */
  function AfterRedo(h: HistoryState): (r: HistoryState)
    requires 0 <= h.historyIndex < |h.history|
    ensures h.historyIndex == |h.history| - 1 ==> r == h
    ensures h.historyIndex < |h.history| - 1 ==>
      && r.historyIndex == h.historyIndex + 1 && r.history == h.history
      && r.strokes == h.history[r.historyIndex]
      && r.canUndo && r.canRedo == (r.historyIndex < |h.history| - 1)
  {
    if h.historyIndex < |h.history| - 1 then
      var newIndex := h.historyIndex + 1;
      h.(strokes := h.history[newIndex], historyIndex := newIndex, canUndo := true,
         canRedo := newIndex < |h.history| - 1)
    else h
  }

  /** Saving restores the full invariant from any state whose cursor is in range, such as the one
      right after a stroke mutation: the length stays within 1..MaxHistory, the flags match the new
      cursor and the live strokes are the last snapshot. */
  lemma SaveEstablishesInvariant(h: HistoryState)
    requires CursorInRange(h)
    ensures HistoryInvariant(AfterSave(h))
  {
  }

  lemma UndoKeepsInvariant(h: HistoryState)
    requires HistoryInvariant(h)
    ensures HistoryInvariant(AfterUndo(h))
  {
  }

  lemma RedoKeepsInvariant(h: HistoryState)
    requires HistoryInvariant(h)
    ensures HistoryInvariant(AfterRedo(h))
  {
  }

  /** Undo followed by redo gives back exactly the state before the undo. */
  lemma UndoThenRedo(h: HistoryState)
    requires HistoryInvariant(h) && h.canUndo
    ensures AfterRedo(AfterUndo(h)) == h
  {
  }

  /** Redo followed by undo gives back exactly the state before the redo. */
  lemma RedoThenUndo(h: HistoryState)
    requires HistoryInvariant(h) && h.canRedo
    ensures AfterUndo(AfterRedo(h)) == h
  {
  }

  /** After a mutation and its snapshot, one undo brings back the strokes from before the mutation,
      also when the snapshot evicted the oldest entry. */
  lemma {:induction false} UndoRevertsMutation(h: HistoryState, strokes: seq<Stroke>)
    requires HistoryInvariant(h)
    ensures var saved := AfterSave(h.(strokes := strokes));
      saved.canUndo && AfterUndo(saved).strokes == h.strokes
  {
    var mutated := h.(strokes := strokes);
    var saved := AfterSave(mutated);
    var n := |saved.history|;
    assert n >= 2;
    var kept := h.history[h.historyIndex + 2 - n..h.historyIndex + 1];
    assert saved.history[..n - 1] == kept;
    assert kept[n - 2] == h.history[h.historyIndex];
    assert saved.history[n - 2] == saved.history[..n - 1][n - 2];
    var undone := AfterUndo(saved);
    assert undone.strokes == saved.history[n - 2];
  }

  /** Clamp `x` into [lo, hi] as `Math.max(lo, Math.min(hi, x))`. */
  function Clamp(x: real, lo: real, hi: real): (r: real)
    requires lo <= hi
    ensures lo <= r <= hi
    ensures lo <= x <= hi ==> r == x
    ensures x < lo ==> r == lo
    ensures x > hi ==> r == hi
  {
    var upper := if hi < x then hi else x;
    if lo > upper then lo else upper
  }

  /** The store. Each action overwrites the fields named in its `modifies` clause and no others. */
  class DrawingState {
    var currentTool: DrawingTool
    var isDrawing: bool
    var currentStroke: Option<Stroke>

    var brushColor: string
    var brushSize: real
    var brushOpacity: real

    var strokes: seq<Stroke>
    var layers: seq<Layer>
    var activeLayerId: string

    var frames: seq<AnimationFrame>
    var currentFrame: int
    var isPlaying: bool
    var frameRate: real

    var history: seq<seq<Stroke>>
    var historyIndex: int
    var canUndo: bool
    var canRedo: bool

    /** The history fields as a value. */
    function HistoryView(): HistoryState
      reads this`strokes, this`history, this`historyIndex, this`canUndo, this`canRedo
    {
      HistoryState(strokes, history, historyIndex, canUndo, canRedo)
    }

    ghost predicate Valid()
      reads this`strokes, this`history, this`historyIndex, this`canUndo, this`canRedo
    {
      HistoryInvariant(HistoryView())
    }

    ghost predicate CursorValid()
      reads this`history, this`historyIndex
    {
      1 <= |history| <= MaxHistory && 0 <= historyIndex < |history|
    }

    /** The initial store: brush tool, black 5-pixel opaque brush, one default layer, one 100 ms
        frame at 12 frames per second, and a history holding one empty snapshot. */
    constructor ()
      ensures Valid()
      ensures currentTool == Brush && !isDrawing && currentStroke == None
      ensures brushColor == "#000000" && brushSize == 5.0 && brushOpacity == 1.0
      ensures strokes == [] && layers == [Layer("layer_default", "Layer 1", true, 1.0, [])]
      ensures activeLayerId == "layer_default"
      ensures frames == [AnimationFrame("frame_0", 100, [])] && currentFrame == 0 && !isPlaying && frameRate == 12.0
      ensures HistoryView() == InitialHistory()
    {
      currentTool, isDrawing, currentStroke := Brush, false, None;
      brushColor, brushSize, brushOpacity := "#000000", 5.0, 1.0;
      strokes := [];
      layers := [Layer("layer_default", "Layer 1", true, 1.0, [])];
      activeLayerId := "layer_default";
      frames := [AnimationFrame("frame_0", 100, [])];
      currentFrame, isPlaying, frameRate := 0, false, 12.0;
      history, historyIndex, canUndo, canRedo := [[]], 0, false, false;
    }

    method SetCurrentTool(tool: DrawingTool)
      modifies this`currentTool
      ensures currentTool == tool
    {
      currentTool := tool;
    }

    method SetIsDrawing(drawing: bool)
      modifies this`isDrawing
      ensures isDrawing == drawing
    {
      isDrawing := drawing;
    }

    method SetCurrentStroke(stroke: Option<Stroke>)
      modifies this`currentStroke
      ensures currentStroke == stroke
    {
      currentStroke := stroke;
    }

    method ClearCurrentStroke()
      modifies this`currentStroke
      ensures currentStroke == None
    {
      currentStroke := None;
    }

    method SetBrushColor(color: string)
      modifies this`brushColor
      ensures brushColor == color
    {
      brushColor := color;
    }

    /** The brush size is clamped to [1, 50]. */
    method SetBrushSize(size: real)
      modifies this`brushSize
      ensures brushSize == Clamp(size, 1.0, 50.0) && 1.0 <= brushSize <= 50.0
    {
      brushSize := Clamp(size, 1.0, 50.0);
    }

    /** The brush opacity is clamped to [0, 1]. */
    method SetBrushOpacity(opacity: real)
      modifies this`brushOpacity
      ensures brushOpacity == Clamp(opacity, 0.0, 1.0) && 0.0 <= brushOpacity <= 1.0
    {
      brushOpacity := Clamp(opacity, 0.0, 1.0);
    }

    method SetLayers(newLayers: seq<Layer>)
      modifies this`layers
      ensures layers == newLayers
    {
      layers := newLayers;
    }

    method SetActiveLayer(layerId: string)
      modifies this`activeLayerId
      ensures activeLayerId == layerId
    {
      activeLayerId := layerId;
    }

    method SetFrames(newFrames: seq<AnimationFrame>)
      modifies this`frames
      ensures frames == newFrames
    {
      frames := newFrames;
    }

    method SetCurrentFrame(frame: int)
      modifies this`currentFrame
      ensures currentFrame == frame
    {
      currentFrame := frame;
    }

    method SetIsPlaying(playing: bool)
      modifies this`isPlaying
      ensures isPlaying == playing
    {
      isPlaying := playing;
    }

    /** The frame rate is clamped to [1, 60]. */
    method SetFrameRate(rate: real)
      modifies this`frameRate
      ensures frameRate == Clamp(rate, 1.0, 60.0) && 1.0 <= frameRate <= 60.0
    {
      frameRate := Clamp(rate, 1.0, 60.0);
    }

    /** `saveToHistory`: slice off the redo branch, push the live strokes, splice off the oldest
        entries beyond the capacity. */
    method SaveToHistory()
      requires CursorValid()
      modifies this`history, this`historyIndex, this`canUndo, this`canRedo
      ensures Valid()
      ensures HistoryView() == AfterSave(old(HistoryView()))
    {
      ghost var h := HistoryView();
      SaveEstablishesInvariant(h);
      var newHistory := PushSnapshot(history[..historyIndex + 1], strokes);
      AfterSaveParts(h);
      history, historyIndex, canUndo, canRedo := newHistory, |newHistory| - 1, |newHistory| > 1, false;
      assert HistoryView() == HistoryState(h.strokes, newHistory, |newHistory| - 1, |newHistory| > 1, false);
    }

    /** The new history list: the snapshot pushed, then the oldest entries spliced away. */
    static method PushSnapshot(kept: seq<seq<Stroke>>, snapshot: seq<Stroke>) returns (entries: seq<seq<Stroke>>)
      ensures entries == Evict(kept + [snapshot])
    {
      entries := kept + [snapshot];
      if |entries| > MaxHistory {
        entries := entries[|entries| - MaxHistory..];
      }
    }

    /** `addStroke`: append the stroke, then take one snapshot. */
    method AddStroke(stroke: Stroke)
      requires Valid()
      modifies this`strokes, this`history, this`historyIndex, this`canUndo, this`canRedo
      ensures Valid()
      ensures strokes == old(strokes) + [stroke]
      ensures HistoryView() == AfterSave(old(HistoryView()).(strokes := old(strokes) + [stroke]))
    {
      strokes := strokes + [stroke];
      SaveToHistory();
    }

    /** `removeStroke`: drop every stroke with the id, keeping the others in order, then take one snapshot. */
    method RemoveStroke(strokeId: string)
      requires Valid()
      modifies this`strokes, this`history, this`historyIndex, this`canUndo, this`canRedo
      ensures Valid()
      ensures strokes == WithoutStroke(old(strokes), strokeId)
      ensures HistoryView() == AfterSave(old(HistoryView()).(strokes := WithoutStroke(old(strokes), strokeId)))
    {
      strokes := WithoutStroke(strokes, strokeId);
      SaveToHistory();
    }

    /** `clearStrokes`: empty the stroke list, then take one snapshot. */
    method ClearStrokes()
      requires Valid()
      modifies this`strokes, this`history, this`historyIndex, this`canUndo, this`canRedo
      ensures Valid()
      ensures strokes == []
      ensures HistoryView() == AfterSave(old(HistoryView()).(strokes := []))
    {
      strokes := [];
      SaveToHistory();
    }

    method Undo()
      requires Valid()
      modifies this`strokes, this`historyIndex, this`canUndo, this`canRedo
      ensures Valid()
      ensures HistoryView() == AfterUndo(old(HistoryView()))
    {
      UndoKeepsInvariant(HistoryView());
      if historyIndex > 0 {
        var newIndex := historyIndex - 1;
        strokes, historyIndex, canUndo, canRedo := history[newIndex], newIndex, newIndex > 0, true;
      }
    }

    method Redo()
      requires Valid()
      modifies this`strokes, this`historyIndex, this`canUndo, this`canRedo
      ensures Valid()
      ensures HistoryView() == AfterRedo(old(HistoryView()))
    {
      RedoKeepsInvariant(HistoryView());
      if historyIndex < |history| - 1 {
        var newIndex := historyIndex + 1;
        strokes, historyIndex, canUndo, canRedo := history[newIndex], newIndex, true, newIndex < |history| - 1;
      }
    }
  }

  /** Undo and then redo on the store leave the strokes, the history and the flags as they were. */
  method UndoRedoRoundTrip(store: DrawingState)
    requires store.Valid() && store.canUndo
    modifies store
    ensures store.Valid() && store.HistoryView() == old(store.HistoryView())
  {
    UndoThenRedo(store.HistoryView());
    store.Undo();
    store.Redo();
  }
}
