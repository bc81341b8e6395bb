# Drawing and animation engine, modelled in Dafny

This project models the data engine behind a browser drawing and animation application.

- **Strokes.** A stroke is a list of sampled points with pressure and time, drawn in one colour, size and opacity on one layer.
- **Layers.** A layer is a named, ordered container that can be shown, hidden and faded.
- **Frames.** An animation is a list of frames, each holding its own strokes and a duration.
- **The store.** One central store holds the current tool, the brush settings, the live strokes, the layers, the frames, the playback state and a bounded undo/redo history of stroke-list snapshots.

The modules follow the program's structure:

| module | what it models |
|---|---|
| `DrawingTypes` | the core record types and the common stroke filters |
| `Seqs` | order-preserving filtering, subsequences, concatenation |
| `BrushEngine` | stroke creation, the point gate and smoothing, the live stroke object, stroke simplification |
| `LayerManager` | the pure layer operations: create, duplicate, merge down, visible layers, find by stroke, move a stroke, drop single-point strokes |
| `LayerActions` | the layer hook's actions on the store: create, delete, toggle, opacity, move up and down, rename |
| `AnimationEngine` | frame creation and duplication, cross-fade tweening, onion skin, animation pruning, total duration |
| `AnimationPlayback` | the playback tick, play/pause/stop, go to a frame, add/delete/duplicate a frame |
| `DrawingStore` | the store as a class; the undo/redo history as a value with its invariant and round-trips |
| `DrawingCapture` | the drawing hook: start, update and stop a stroke; a whole gesture end to end |
| `ExportManager` | the PNG draw plan on a 2D context, the SVG text, the JSON document, and the GIF and MP4 fallbacks |
| `ColorCodec` | the colour picker's `#rrggbb` parsing and formatting |

How the model is written:

- **Mutable objects.** The store (`DrawingStore.DrawingState`), a stroke being drawn (`BrushEngine.LiveStroke`) and the 2D drawing context (`ExportManager.DrawContext`) are classes. Their methods list what they change in `modifies` clauses.
- **Pure code.** The managers' pure functions are Dafny functions.
- **Loops.** Loops that build a result step by step are methods with loop invariants, proved equal to a function of their inputs. These are stroke simplification, the onion skin, tweening, the layer lookup by stroke, the PNG rendering loop and the SVG text builder.
- **Numbers.** Numbers are `real`; timestamps and frame durations are `int`.
- **Outside inputs.** Generated ids, clock readings, the ISO date and the number-to-text conversion are parameters.

## Model

| member | source | states |
|---|---|---|
| DrawingTypes.DrawableStrokes | client/src/lib/drawing/LayerManager.ts:96 | the strokes with at least two points, in their original order; a stroke is kept exactly when it has two or more points |
| DrawingTypes.WithoutStroke | client/src/lib/stores/useDrawingStore.ts:120-123 | the strokes whose id differs from the given one, in order; no stroke with that id remains, every other stroke is kept, and an absent id changes nothing |
| DrawingTypes.TotalStrokesConcat | client/src/lib/drawing/LayerManager.ts:23-43 | the stroke count of two layer lists joined is the sum of their counts (used to show that merging keeps every stroke) |
| Seqs.Filter | client/src/lib/drawing/LayerManager.ts:46 | `Array.filter`: the result is an order-preserving subsequence of the input; an element is in it exactly when it is in the input and satisfies the predicate |
| Seqs.FilterCounts | client/src/lib/drawing/LayerManager.ts:46 | each element satisfying the predicate keeps every one of its copies and every other element loses them all; with the subsequence clause this fixes the result |
| Seqs.FilterConcat | client/src/lib/drawing/ExportManager.ts:19 | filtering two joined lists is filtering each and joining the results |
| Seqs.FilterIdempotent | client/src/lib/drawing/LayerManager.ts:93-98 | filtering twice by the same predicate is filtering once |
| Seqs.FilterAll | client/src/lib/drawing/LayerManager.ts:93-98 | a filter that every element passes returns the list unchanged |
| BrushEngine.CreateStroke | client/src/lib/drawing/BrushEngine.ts:12-22 | a new stroke has no points, the given id, the brush's colour, size, opacity and layer, and the clock reading as its timestamp |
| BrushEngine.SmoothPoint | client/src/lib/drawing/BrushEngine.ts:58-76 | fewer than two earlier points: the sample is returned as is; otherwise the new point lies one tenth of the step from the second-to-last point to the sample beyond the last point, with the sample's pressure and time |
| BrushEngine.AppendSample | client/src/lib/drawing/BrushEngine.ts:24-51 | a sample closer than 2 units to the last stored point is dropped; otherwise exactly one point is appended, the smoothed sample, and the earlier points are untouched |
| BrushEngine.FirstTwoSamplesExact | client/src/lib/drawing/BrushEngine.ts:45-50 | the first two accepted samples are stored exactly as sampled, without smoothing |
| BrushEngine.StoredPointsNotSpacedByGate | client/src/lib/drawing/BrushEngine.ts:26-47 | the distance gate compares the raw sample, not the smoothed point that is stored, so two stored points can lie closer than 2 units (an example with 10 then 12 on the x axis stores 11.2) |
| BrushEngine.LiveStroke.constructor | client/src/lib/drawing/BrushEngine.ts:12-22 | the live object holds exactly the given stroke |
| BrushEngine.LiveStroke.AddPoint2D | client/src/lib/drawing/BrushEngine.ts:24-51 | `addPoint2D` mutates the stroke's point list in place to `AppendSample` of the old list; every other field is kept |
| BrushEngine.LiveStroke.AddPoint | client/src/lib/drawing/BrushEngine.ts:54-56 | the 3D entry point drops the depth coordinate and does what `AddPoint2D` does |
| BrushEngine.SimplifyFrom | client/src/lib/drawing/BrushEngine.ts:86-123 | the simplification pass keeps the points already chosen as a prefix, adds at most one point per interior point, and always ends with the last point |
| BrushEngine.SimplifyFromSubsequence | client/src/lib/drawing/BrushEngine.ts:84-123 | the simplified points are an order-preserving subsequence of the original points |
| BrushEngine.OptimizedPoints | client/src/lib/drawing/BrushEngine.ts:78-129 | two or fewer points are kept as they are; otherwise the first and last points are kept, the count does not grow, and the result is a subsequence of the input |
| BrushEngine.SimplifyFromPrefix | client/src/lib/drawing/BrushEngine.ts:86-123 | only the last kept point takes part in later decisions: the points kept before it stay in front, whatever they are |
| BrushEngine.SimplifyFromShift | client/src/lib/drawing/BrushEngine.ts:86-123 | the pass reads only the points from the current index on, so two lists that agree from there are simplified alike |
| BrushEngine.SecondPointRule | client/src/lib/drawing/BrushEngine.ts:86-120 | the second point is judged against the first: when the rule holds the result is the first point followed by the simplification of the stroke from the second point on, and when it fails the result is what it would have been had the second point never been recorded; applied again to the shorter stroke, the two cases settle the fate of every interior point against the last point kept |
| BrushEngine.OptimizeStroke | client/src/lib/drawing/BrushEngine.ts:78-129 | the loop's stroke equals the input stroke with its points replaced by `OptimizedPoints`, and a stroke with two or fewer points is returned unchanged |
| LayerManager.CreateLayer | client/src/lib/drawing/LayerManager.ts:4-12 | a new layer is visible, fully opaque and empty, under the given id and name |
| LayerManager.DuplicateLayer | client/src/lib/drawing/LayerManager.ts:14-21 | the copy has a new id, the name with " Copy" appended, and the same visibility, opacity and strokes |
| LayerManager.MergeLayersDown | client/src/lib/drawing/LayerManager.ts:23-43 | an index of 0 or less, or at or past the end, changes nothing; otherwise the layer's strokes are appended to the layer below, the layer is removed and its neighbours are untouched |
| LayerManager.MergePreservesStrokeCount | client/src/lib/drawing/LayerManager.ts:23-43 | merging down never loses or adds a stroke |
| LayerManager.GetVisibleLayers | client/src/lib/drawing/LayerManager.ts:45-47 | exactly the visible layers, in order |
| LayerManager.GetLayerByStroke | client/src/lib/drawing/LayerManager.ts:49-56 | nothing exactly when no layer holds the stroke id; otherwise the first layer that holds it |
| LayerManager.FindLayerIndex | client/src/lib/drawing/LayerManager.ts:64-65 | `findIndex`: -1 exactly when no layer has the id, otherwise the first index that has it |
| LayerManager.FindLayer | client/src/lib/drawing/LayerManager.ts:64-65 | `find`: nothing exactly when no layer has the id, otherwise the first layer with it |
| LayerManager.FindStroke | client/src/lib/drawing/LayerManager.ts:71 | `find`: nothing exactly when no stroke has the id, otherwise the first stroke of the list with that id (no earlier stroke has it) |
| LayerManager.MoveStrokeBetweenLayers | client/src/lib/drawing/LayerManager.ts:58-91 | a missing source layer, target layer or stroke leaves the list unchanged; otherwise every layer keeps its id, name, visibility and opacity, the source loses the stroke, the target gains it at the end re-tagged with the target's id, and the other layers are untouched |
| LayerManager.RelocateAll | client/src/lib/drawing/LayerManager.ts:76-90 | the map over the layers: the source drops the stroke id, a different target gains the re-tagged stroke, and all other layers and all layer attributes are kept |
| LayerManager.MoveStrokeRelocates | client/src/lib/drawing/LayerManager.ts:58-91 | between two different existing layers, afterwards the source no longer holds the stroke and the target's last stroke is it, tagged with the target layer |
| LayerManager.MoveStrokeToSameLayerDropsIt | client/src/lib/drawing/LayerManager.ts:77-88 | moving a stroke to the layer it is already on deletes it, because the source branch is tested first |
| LayerManager.OptimizeLayers | client/src/lib/drawing/LayerManager.ts:93-98 | every layer keeps its attributes and position; its strokes are an in-order subsequence of its old ones, each with at least two points, and every old stroke with at least two points is among them |
| LayerManager.OptimizeLayersCounts | client/src/lib/drawing/LayerManager.ts:93-98 | a layer keeps every copy of each stroke with at least two points, duplicates included, and no copy of a shorter one |
| LayerManager.OptimizeLayersIdempotent | client/src/lib/drawing/LayerManager.ts:93-98 | optimising the layers twice is optimising them once |
| LayerActions.LayersWithout | client/src/hooks/useLayers.ts:25 | exactly the layers whose id differs, in order |
| LayerActions.LayersWithoutRemovesOne | client/src/hooks/useLayers.ts:25 | with unique ids, deleting a present id removes exactly that one layer |
| LayerActions.LayersWithoutAbsent | client/src/hooks/useLayers.ts:25 | deleting an absent id changes nothing |
| LayerActions.ActiveAfterDelete | client/src/hooks/useLayers.ts:28-31 | deleting another layer keeps the active id; deleting the active layer makes the first remaining layer active, or the empty id when none remains |
| LayerActions.DeleteKeepsActiveLayer | client/src/hooks/useLayers.ts:22-32 | with unique ids, more than one layer and an existing active layer, a delete leaves at least one layer and an active id that names one of them |
| LayerActions.ToggledVisibility | client/src/hooks/useLayers.ts:34-41 | only the named layer's visibility flips; everything else is kept |
| LayerActions.ToggleInvolution | client/src/hooks/useLayers.ts:34-41 | toggling the same layer twice restores the list |
| LayerActions.WithOpacity | client/src/hooks/useLayers.ts:43-50 | only the named layer's opacity becomes the given value; everything else is kept |
| LayerActions.OpacityLastWins | client/src/hooks/useLayers.ts:43-50 | two opacity updates on one layer amount to the last one |
| LayerActions.Renamed | client/src/hooks/useLayers.ts:72-79 | only the named layer's name changes; everything else is kept |
| LayerActions.SwapAdjacent | client/src/hooks/useLayers.ts:56-57 | the two positions trade places, every other position is kept, and the result is a permutation |
| LayerActions.Raise | client/src/hooks/useLayers.ts:52-60 | corrected `moveLayerUp`: a found layer below the top swaps with the one above it; the top layer and an unknown id change nothing; always a permutation |
| LayerActions.Lower | client/src/hooks/useLayers.ts:62-70 | `moveLayerDown`: a found layer above the bottom swaps with the one below it; otherwise nothing changes; always a permutation |
| LayerActions.LowerUndoesRaise | client/src/hooks/useLayers.ts:52-70 | with unique ids, moving a layer up and then down restores the list |
| LayerActions.RaiseUndoesLower | client/src/hooks/useLayers.ts:52-70 | with unique ids, moving a layer down and then up restores the list |
| LayerActions.RaiseAsWritten | client/src/hooks/useLayers.ts:52-60 | `moveLayerUp` as written, its slots holding a layer or a hole; the list keeps its length |
| LayerActions.RaiseAsWrittenAgreesOnKnownIds | client/src/hooks/useLayers.ts:52-60 | for an id that is present, the as-written action is the corrected one |
| LayerActions.RaiseAsWrittenLosesFirstLayer | client/src/hooks/useLayers.ts:53-57 | for an id that is absent from a non-empty list, the as-written action leaves a hole where the first layer was, while the corrected one changes nothing |
| LayerActions.CreateLayerAction | client/src/hooks/useLayers.ts:15-20 | the new layer is appended and becomes the active layer |
| LayerActions.DeleteLayerAction | client/src/hooks/useLayers.ts:22-32 | with at most one layer nothing changes; otherwise the layer is removed and the active id follows `ActiveAfterDelete` |
| LayerActions.ToggleLayerVisibilityAction | client/src/hooks/useLayers.ts:34-41 | the store's layers become `ToggledVisibility` of the old ones |
| LayerActions.UpdateLayerOpacityAction | client/src/hooks/useLayers.ts:43-50 | the store's layers become `WithOpacity` of the old ones |
| LayerActions.MoveLayerUpAction | client/src/hooks/useLayers.ts:52-60 | the store's layers become `Raise` of the old ones |
| LayerActions.MoveLayerDownAction | client/src/hooks/useLayers.ts:62-70 | the store's layers become `Lower` of the old ones |
| LayerActions.RenameLayerAction | client/src/hooks/useLayers.ts:72-79 | the store's layers become `Renamed` of the old ones |
| AnimationEngine.CreateFrame | client/src/lib/drawing/AnimationEngine.ts:4-10 | a new frame is empty, lasts 100 ms and has the given id |
| AnimationEngine.DuplicateFrame | client/src/lib/drawing/AnimationEngine.ts:12-21 | the copy has a new id and the same duration, and each stroke is the original with only its id replaced |
| AnimationEngine.CrossFade | client/src/lib/drawing/AnimationEngine.ts:47-75 | the tween holds as many strokes as the two frames together; their order, ids and opacities are stated by `CrossFadeShape` |
| AnimationEngine.CrossFadeShape | client/src/lib/drawing/AnimationEngine.ts:47-75 | the "from" strokes come first at opacity times (1 - t), then the "to" strokes at opacity times t, each id tagged `interp_<id>_<t>`; only id and opacity differ from the originals |
| AnimationEngine.CrossFadeConservesOpacity | client/src/lib/drawing/AnimationEngine.ts:57-72 | fading a stroke list into itself splits each stroke's opacity between its two copies without loss |
| AnimationEngine.CrossFadeOpacityInRange | client/src/lib/drawing/AnimationEngine.ts:57-72 | for t in [0, 1] and opacities in [0, 1], every tweened opacity stays in [0, 1] |
| AnimationEngine.InterpolateStrokes | client/src/lib/drawing/AnimationEngine.ts:47-75 | the two push loops produce exactly `CrossFade` |
| AnimationEngine.InterpolateFrames | client/src/lib/drawing/AnimationEngine.ts:23-45 | steps - 1 tween frames (none for fewer than two steps); frame i is a 100 ms frame holding the cross-fade at t = (i + 1) / steps |
| AnimationEngine.OnionFactor | client/src/lib/drawing/AnimationEngine.ts:90-91 | at distance d inside the range the fade factor is 1 - 0.8 d / range, which lies in [0.2, 1), so the 0.1 floor never applies |
| AnimationEngine.PushGhosts | client/src/lib/drawing/AnimationEngine.ts:93-100 | one neighbour frame's strokes are appended re-tagged, faded by the distance factor and tinted by side, after the strokes gathered so far |
| AnimationEngine.GenerateOnionSkin | client/src/lib/drawing/AnimationEngine.ts:77-104 | the loop over the window produces exactly `OnionSkin`: the neighbours' strokes in frame order, the current frame skipped; the range defaults to 3 |
| AnimationEngine.OnionSkin | client/src/lib/drawing/AnimationEngine.ts:77-104 | no ghosts for an empty frame list or a range of zero or less (the window then holds at most the current frame) |
| AnimationEngine.OnionSkinSource | client/src/lib/drawing/AnimationEngine.ts:83-100 | every onion stroke comes from a stroke of a frame inside the window, other than the current one, re-tagged, faded by the distance factor and tinted by side |
| AnimationEngine.OnionSkinKeeps | client/src/lib/drawing/AnimationEngine.ts:83-100 | every stroke of every frame inside the window other than the current one appears in the skin as its ghost, so together with `OnionSkinSource` the skin is exactly the window's ghosts |
| AnimationEngine.OnionSkinNeighbours | client/src/lib/drawing/AnimationEngine.ts:77-104 | with range 1 around frame 2 of four frames, the skin is frame 1's stroke tinted red and frame 3's tinted teal, each at a fifth of its opacity |
| AnimationEngine.OptimizeAnimation | client/src/lib/drawing/AnimationEngine.ts:106-114 | the first frame always survives, with its single-point strokes removed; the result is empty only for an empty input and never longer |
| AnimationEngine.OptimizeAnimationFrom | client/src/lib/drawing/AnimationEngine.ts:108-113 | every later frame of the result is the pruned form of a later input frame that had strokes |
| AnimationEngine.OptimizeAnimationKeeps | client/src/lib/drawing/AnimationEngine.ts:108-113 | every later input frame that had strokes appears, pruned, in the result |
| AnimationEngine.OptimizeAnimationOrder | client/src/lib/drawing/AnimationEngine.ts:108-113 | after the first frame the result is the pruning of each frame of `Filter(frames[1..], HasStrokes)`, so the order and the one-to-one correspondence are those `Seqs.Filter` guarantees |
| AnimationEngine.OptimizeAnimationDrawable | client/src/lib/drawing/AnimationEngine.ts:110-113 | every stroke in the result has at least two points |
| AnimationEngine.OptimizeAnimationCanLeaveEmptyFrames | client/src/lib/drawing/AnimationEngine.ts:108-113 | the frame filter runs before stroke pruning, so a frame holding only a tap survives with no strokes, and a second pass drops it: the operation is not idempotent |
| AnimationEngine.TotalDuration | client/src/lib/drawing/AnimationEngine.ts:116-118 | with no negative duration the total is non-negative and at least every single frame's duration |
| AnimationEngine.TotalDurationConcat | client/src/lib/drawing/AnimationEngine.ts:116-118 | the duration of two joined frame lists is the sum of their durations |
| AnimationEngine.TotalDurationUniform | client/src/lib/drawing/AnimationEngine.ts:116-118 | frames of equal duration d last their count times d |
| AnimationEngine.TweenDuration | client/src/lib/drawing/AnimationEngine.ts:23-45 | the tween frames of a run together last (steps - 1) times 100 ms |
| AnimationPlayback.Tick | client/src/hooks/useAnimation.ts:23-31 | one firing advances to the next frame while there is one; past the last frame it stops playback and rewinds to frame 0 |
| AnimationPlayback.TickInRange | client/src/hooks/useAnimation.ts:24-30 | a tick keeps the current frame inside the frame list |
| AnimationPlayback.RunTicks | client/src/hooks/useAnimation.ts:20-35 | over any number of firings the frame stays in range, playback once stopped stays stopped, and while it is on each firing has advanced the frame by one |
| AnimationPlayback.PlayThrough | client/src/hooks/useAnimation.ts:20-35 | playing from frame c reaches the last frame after n - 1 - c ticks and is still playing; one more tick stops on frame 0 and the timer no longer runs |
| AnimationPlayback.TickAction | client/src/hooks/useAnimation.ts:23-31 | the store's frame and playing flag become `Tick` of the old ones |
| AnimationPlayback.PlayAnimation | client/src/hooks/useAnimation.ts:37-41 | playback starts only when there are at least two frames |
| AnimationPlayback.PauseAnimation | client/src/hooks/useAnimation.ts:43-45 | playback stops and the frame is kept |
| AnimationPlayback.StopAnimation | client/src/hooks/useAnimation.ts:47-50 | playback stops and the view rewinds to frame 0 |
| AnimationPlayback.GoToFrame | client/src/hooks/useAnimation.ts:52-56 | an index inside the frame list becomes current; any other index is ignored |
| AnimationPlayback.AddFrame | client/src/hooks/useAnimation.ts:58-63 | a new empty frame is appended and shown, and the current index is in range |
| AnimationPlayback.FramesWithout | client/src/hooks/useAnimation.ts:68 | removing a position in range drops exactly that frame and shifts the later ones down; a position out of range removes nothing |
| AnimationPlayback.CurrentAfterDelete | client/src/hooks/useAnimation.ts:72-74 | the current index is kept unless it is past the new end, when it becomes the new last index |
| AnimationPlayback.DeleteFrame | client/src/hooks/useAnimation.ts:65-75 | at most one frame: nothing changes; otherwise the position is removed and the index adjusted; a valid view stays valid |
| AnimationPlayback.DeleteKeepsFramesValid | client/src/hooks/useAnimation.ts:65-75 | after a delete the frame list is non-empty and the current index points into it |
| AnimationPlayback.DeleteBelowCurrentShiftsView | client/src/hooks/useAnimation.ts:72-74 | deleting a frame before the current one, which is not the last, is not adjusted for, so the view moves on to the frame that followed |
| AnimationPlayback.FramesWithCopy | client/src/hooks/useAnimation.ts:81-85 | the copy sits right after its original, and the frames before and after it are unchanged |
| AnimationPlayback.DuplicateFrameAction | client/src/hooks/useAnimation.ts:77-88 | an index with a frame gets its duplicate inserted after it; any other index changes nothing |
| DrawingStore.InitialHistory | client/src/lib/stores/useDrawingStore.ts:96-99 | the history starts as one empty snapshot with the cursor on it and both flags off, which satisfies the invariant |
| DrawingStore.Evict | client/src/lib/stores/useDrawingStore.ts:153-156 | at most 50 entries are kept, the newest ones, in order |
| DrawingStore.AfterSave | client/src/lib/stores/useDrawingStore.ts:147-165 | the redo branch is cut, the live strokes become the newest entry, the oldest entries beyond 50 are dropped, the cursor moves to the newest entry, undo is possible with two or more entries, and redo is off |
| DrawingStore.AfterSaveParts | client/src/lib/stores/useDrawingStore.ts:149-163 | the saved state is built from the sliced list, the pushed snapshot and the eviction, in that order |
| DrawingStore.AfterUndo | client/src/lib/stores/useDrawingStore.ts:167-180 | on the first entry nothing changes; otherwise the cursor steps back, the strokes become that snapshot, redo is possible and undo is possible while entries remain behind |
| DrawingStore.AfterRedo | client/src/lib/stores/useDrawingStore.ts:182-195 | on the last entry nothing changes; otherwise the cursor steps forward, the strokes become that snapshot, undo is possible and redo is possible while entries remain ahead |
| DrawingStore.SaveEstablishesInvariant | client/src/lib/stores/useDrawingStore.ts:147-165 | from any cursor inside a bounded history, a save makes the history consistent again: the strokes equal the current snapshot and both flags match the cursor |
| DrawingStore.UndoKeepsInvariant | client/src/lib/stores/useDrawingStore.ts:167-180 | undo keeps the history consistent |
| DrawingStore.RedoKeepsInvariant | client/src/lib/stores/useDrawingStore.ts:182-195 | redo keeps the history consistent |
| DrawingStore.UndoThenRedo | client/src/lib/stores/useDrawingStore.ts:167-195 | when undo is possible, undo then redo restores the whole history state |
| DrawingStore.RedoThenUndo | client/src/lib/stores/useDrawingStore.ts:167-195 | when redo is possible, redo then undo restores the whole history state |
| DrawingStore.UndoRevertsMutation | client/src/lib/stores/useDrawingStore.ts:112-180 | after any stroke mutation and its snapshot, one undo brings back the strokes from before the mutation, even when the history is full |
| DrawingStore.Clamp | client/src/lib/stores/useDrawingStore.ts:108-109 | `Math.max(lo, Math.min(hi, x))`: the result is in [lo, hi], equals x inside it and the nearer bound outside it |
| DrawingStore.DrawingState.constructor | client/src/lib/stores/useDrawingStore.ts:62-99 | the initial store: brush tool, black 5-pixel opaque brush, one visible empty default layer made active, one empty 100 ms frame at 12 frames per second, not playing, and the initial history |
| DrawingStore.DrawingState.SetCurrentTool | client/src/lib/stores/useDrawingStore.ts:102 | the tool becomes the given one and no other field changes |
| DrawingStore.DrawingState.SetIsDrawing | client/src/lib/stores/useDrawingStore.ts:103 | the drawing flag becomes the given value and no other field changes |
| DrawingStore.DrawingState.SetCurrentStroke | client/src/lib/stores/useDrawingStore.ts:104 | the live stroke becomes the given one, or none, and no other field changes |
| DrawingStore.DrawingState.ClearCurrentStroke | client/src/lib/stores/useDrawingStore.ts:132 | the live stroke becomes none and no other field changes |
| DrawingStore.DrawingState.SetBrushColor | client/src/lib/stores/useDrawingStore.ts:107 | the brush colour is stored as given, unchecked |
| DrawingStore.DrawingState.SetLayers | client/src/lib/stores/useDrawingStore.ts:135 | the layer list is replaced and no other field changes |
| DrawingStore.DrawingState.SetActiveLayer | client/src/lib/stores/useDrawingStore.ts:136 | the active layer id is stored as given, whether or not a layer has it |
| DrawingStore.DrawingState.SetFrames | client/src/lib/stores/useDrawingStore.ts:139 | the frame list is replaced and no other field changes |
| DrawingStore.DrawingState.SetCurrentFrame | client/src/lib/stores/useDrawingStore.ts:140-142 | the current frame index is stored as given, unchecked against the frame list |
| DrawingStore.DrawingState.SetIsPlaying | client/src/lib/stores/useDrawingStore.ts:143 | the playing flag becomes the given value and no other field changes |
| DrawingStore.DrawingState.SetBrushSize | client/src/lib/stores/useDrawingStore.ts:108 | the brush size is clamped into [1, 50] |
| DrawingStore.DrawingState.SetBrushOpacity | client/src/lib/stores/useDrawingStore.ts:109 | the brush opacity is clamped into [0, 1] |
| DrawingStore.DrawingState.SetFrameRate | client/src/lib/stores/useDrawingStore.ts:144 | the frame rate is clamped into [1, 60] |
| DrawingStore.DrawingState.SaveToHistory | client/src/lib/stores/useDrawingStore.ts:147-165 | the store's history fields become `AfterSave` of the old ones and the history is consistent |
| DrawingStore.DrawingState.PushSnapshot | client/src/lib/stores/useDrawingStore.ts:150-156 | the push followed by the splice gives the evicted list |
| DrawingStore.DrawingState.AddStroke | client/src/lib/stores/useDrawingStore.ts:112-118 | the stroke is appended and exactly one snapshot of the new list is taken |
| DrawingStore.DrawingState.RemoveStroke | client/src/lib/stores/useDrawingStore.ts:120-125 | every stroke with the id is removed and exactly one snapshot is taken |
| DrawingStore.DrawingState.ClearStrokes | client/src/lib/stores/useDrawingStore.ts:127-130 | the strokes are emptied and exactly one snapshot is taken |
| DrawingStore.DrawingState.Undo | client/src/lib/stores/useDrawingStore.ts:167-180 | the store's history fields become `AfterUndo` of the old ones |
| DrawingStore.DrawingState.Redo | client/src/lib/stores/useDrawingStore.ts:182-195 | the store's history fields become `AfterRedo` of the old ones |
| DrawingStore.UndoRedoRoundTrip | client/src/lib/stores/useDrawingStore.ts:167-195 | on the store itself, undo followed by redo leaves the strokes, the history and the flags as they were |
| DrawingCapture.StartedStroke | client/src/hooks/useDrawing.ts:29-37 | the new stroke is `createStroke` of the brush settings at the stroke's own clock reading, followed by `addPoint2D` of the first sample at full pressure at a second, separate clock reading |
| DrawingCapture.StartDrawing | client/src/hooks/useDrawing.ts:26-40 | ignored while drawing; otherwise drawing starts with a new stroke in the current brush settings holding the first sample; the stroke's timestamp and the first point's timestamp are separate clock readings |
| DrawingCapture.UpdateDrawing | client/src/hooks/useDrawing.ts:42-47 | ignored unless a stroke is being drawn; otherwise the sample goes through the gate and smoothing of `AppendSample` |
| DrawingCapture.StopDrawing | client/src/hooks/useDrawing.ts:49-56 | ignored unless a stroke is being drawn; otherwise the stroke is appended to the store's strokes with one snapshot, and the live stroke and the drawing flag are cleared |
| DrawingCapture.CommitStroke | client/src/hooks/useDrawing.ts:53-55 | committing the live stroke appends it, takes one snapshot and clears the drawing state, keeping the history consistent |
| DrawingCapture.FeedSamples | client/src/hooks/useDrawing.ts:42-47 | feeding samples in turn keeps the earlier points as a prefix and adds at most one point per sample |
| DrawingCapture.GestureStroke | client/src/hooks/useDrawing.ts:26-47 | the stroke of a whole gesture has the brush settings and the creation clock reading as its timestamp, the first sample at its own clock reading exactly as its first point, and no more points than samples |
| DrawingCapture.FollowSamples | client/src/hooks/useDrawing.ts:42-47 | a run of updates gives the live stroke `FeedSamples` of its points |
| DrawingCapture.TraceGesture | client/src/hooks/useDrawing.ts:26-47 | starting and then following all samples leaves `GestureStroke` as the live stroke, with the creation reading and each sample's own reading kept apart |
| DrawingCapture.DrawGesture | client/src/hooks/useDrawing.ts:26-56 | a complete gesture from an idle store adds exactly its `GestureStroke` (creation reading and per-sample readings separate) to the strokes, with one snapshot, and ends idle |
| ExportManager.LayerStrokes | client/src/lib/drawing/ExportManager.ts:128 | exactly the strokes carrying the layer's id |
| ExportManager.DrawContext.constructor | client/src/lib/drawing/ExportManager.ts:12-13 | a fresh 2D context: alpha 1, black stroke style, width 1, butt caps, miter joins, no calls made |
| ExportManager.DrawStroke | client/src/lib/drawing/ExportManager.ts:133-146 | the calls for one stroke are begin, move to the first point, a line to each later point, and a stroke in its colour and size with round caps and joins, at layer opacity times stroke opacity |
| ExportManager.RenderLayerToCanvas | client/src/lib/drawing/ExportManager.ts:121-150 | the calls are those of the layer's strokes with at least two points, in order, and the alpha is reset to 1 afterwards |
| ExportManager.DrawIfDrawable | client/src/lib/drawing/ExportManager.ts:131-146 | a stroke with fewer than two points makes no call and leaves the style as it was; any other stroke is drawn as `DrawStroke` draws it |
| ExportManager.RenderStrokes | client/src/lib/drawing/ExportManager.ts:130-147 | the stroke loop makes exactly the calls of the drawable strokes in order, skipping strokes with fewer than two points, and leaves the style of the last one drawn |
| ExportManager.RenderLayers | client/src/lib/drawing/ExportManager.ts:19-22 | the layer loop makes the calls of each layer's rendering in turn |
| ExportManager.ExportAsPng | client/src/lib/drawing/ExportManager.ts:11-32 | a 1920x1080 raster: a clear, then each visible layer rendered in order, named `drawing_<date>.png`, type image/png |
| ExportManager.PngExport | client/src/lib/drawing/ExportManager.ts:11-32 | a 1920x1080 raster whose first call clears the whole canvas, and that is its only call when no layer is visible; named `drawing_<date>.png`, type image/png |
| ExportManager.ExportAsGif | client/src/lib/drawing/ExportManager.ts:71-77 | the GIF export returns exactly the PNG export |
| ExportManager.ExportAsMp4 | client/src/lib/drawing/ExportManager.ts:79-85 | the MP4 export returns exactly the PNG export |
| ExportManager.LayerCallSource | client/src/lib/drawing/ExportManager.ts:130-146 | every stroke call of a layer's rendering comes from one of its strokes with at least two points, in that stroke's colour and size, at layer opacity times stroke opacity |
| ExportManager.DocumentCallSource | client/src/lib/drawing/ExportManager.ts:19-22 | every stroke call across the layers comes from a stroke on one of those layers |
| ExportManager.PngDrawsVisibleStrokes | client/src/lib/drawing/ExportManager.ts:11-32 | every stroke drawn into the PNG belongs to a visible layer and has at least two points |
| ExportManager.LayerCallsDrawEach | client/src/lib/drawing/ExportManager.ts:130-146 | every stroke of a layer's list with at least two points is stroked, at layer opacity times its own |
| ExportManager.DocumentCallsDrawEach | client/src/lib/drawing/ExportManager.ts:19-22 | every stroke with at least two points on a listed layer is stroked |
| ExportManager.PngDrawsEveryVisibleStroke | client/src/lib/drawing/ExportManager.ts:11-32 | the converse of PngDrawsVisibleStrokes: every stroke with at least two points on a visible layer is stroked into the PNG in its colour and size, at its layer's opacity times its own |
| ExportManager.LayerPaths | client/src/lib/drawing/ExportManager.ts:45-46 | every path written for a layer has at least two points |
| ExportManager.LayerPathsAreDrawable | client/src/lib/drawing/ExportManager.ts:44-54 | a layer's paths are exactly its strokes with at least two points, in order |
| ExportManager.VisibleLayers | client/src/lib/drawing/ExportManager.ts:19 | with no visible layer nothing is rendered |
| ExportManager.SvgTreeGroups | client/src/lib/drawing/ExportManager.ts:40-57 | the SVG has one group per visible layer, in order, carrying the layer's opacity |
| ExportManager.SvgGroupPaths | client/src/lib/drawing/ExportManager.ts:42-56 | a visible layer's group holds exactly the paths of its drawable strokes |
| ExportManager.BuildPathData | client/src/lib/drawing/ExportManager.ts:48-51 | the path string built by the loop is `M` at the first point followed by one ` L` segment per later point |
| ExportManager.AppendLayerPaths | client/src/lib/drawing/ExportManager.ts:45-54 | the inner loop appends exactly the path elements of the layer's drawable strokes, in order |
| ExportManager.AppendGroups | client/src/lib/drawing/ExportManager.ts:41-57 | the outer loop appends one group element per visible layer, in order |
| ExportManager.PathElement | client/src/lib/drawing/ExportManager.ts:48-53 | the element built by the loop is the path text: M at the first point, L to each later point, then the stroke's colour, width and opacity with no fill and round caps and joins |
| ExportManager.GroupElement | client/src/lib/drawing/ExportManager.ts:42-56 | the group text built for one layer is its opening tag with the opacity, its paths and the closing tag |
| ExportManager.SvgText | client/src/lib/drawing/ExportManager.ts:34-59 | the text opens with the 1920x1080 `svg` tag and closes with `</svg>`, and is just those two tags when no layer is visible |
| ExportManager.ExportAsSvg | client/src/lib/drawing/ExportManager.ts:34-69 | the text is the 1920x1080 `svg` element enclosing the groups, named `drawing_<date>.svg`, type image/svg+xml |
| ExportManager.Round3 | client/src/lib/drawing/ExportManager.ts:94-96 | the rounded value is a multiple of 0.001 and never has the opposite sign of the input (small values round to zero) |
| ExportManager.RoundUp3 | client/src/lib/drawing/ExportManager.ts:94-96 | on a non-negative value the rounding gives a non-negative multiple of 0.001 |
| ExportManager.Round3Error | client/src/lib/drawing/ExportManager.ts:94-96 | `parseFloat(x.toFixed(3))` moves a value by at most half a thousandth |
| ExportManager.RoundUp3Fixed | client/src/lib/drawing/ExportManager.ts:94-96 | a multiple of 0.001 survives the rounding unchanged |
| ExportManager.Round3Ties | client/src/lib/drawing/ExportManager.ts:94-96 | a value exactly halfway between two multiples of 0.001 rounds away from zero, for either sign |
| ExportManager.Round3Idempotent | client/src/lib/drawing/ExportManager.ts:94-96 | rounding twice is rounding once, for negative values as well |
| ExportManager.RoundedStroke | client/src/lib/drawing/ExportManager.ts:91-98 | an exported stroke keeps every field but its points, and each point is rounded with its timestamp kept |
| ExportManager.ExportAsJson | client/src/lib/drawing/ExportManager.ts:87-112 | the document has version "1.0", the clock reading, the layers as they are, and each stroke with every other field kept and each point replaced by `RoundedPoint` of the original (x, y and pressure through `Round3`, so within half a thousandth, the timestamp kept); named `drawing_<date>.json`, type application/json |
| ExportManager.JsonReexportStable | client/src/lib/drawing/ExportManager.ts:91-98 | exporting the strokes of an exported document gives the same strokes |
| ColorCodec.HexToRgb | client/src/components/ColorPicker.tsx:18-25 | a colour parses exactly when it is an optional `#` followed by six hex digits of either case, and each component is then in 0..255 |
| ColorCodec.CurrentRgb | client/src/components/ColorPicker.tsx:34 | the sliders show the parsed brush colour, or black when it does not parse |
| ColorCodec.NatToHex | client/src/components/ColorPicker.tsx:29 | `toString(16)` on a non-negative integer: hex digits, one digit below 16 and two below 256 |
| ColorCodec.IntToHex | client/src/components/ColorPicker.tsx:29 | `toString(16)` on any integer: a minus sign exactly for negatives, then hex digits; one character exactly for 0..15 |
| ColorCodec.Component | client/src/components/ColorPicker.tsx:29-30 | each component takes at least two characters: hex digits for a non-negative one, exactly two in 0..255, three or more from 256, and a leading minus for a negative one |
| ColorCodec.RgbToHex | client/src/components/ColorPicker.tsx:27-32 | the colour string starts with `#` and has at least seven characters, more when a component exceeds 255 |
| ColorCodec.RgbToHexFormat | client/src/components/ColorPicker.tsx:27-32 | components in 0..255 are written as `#` and six lowercase hex digits |
| ColorCodec.RgbRoundTrip | client/src/components/ColorPicker.tsx:18-32 | formatting then parsing gives back the components, for components in 0..255 |
| ColorCodec.HexRoundTrip | client/src/components/ColorPicker.tsx:18-32 | parsing then formatting gives back the accepted string in lowercase with one leading `#` |
| ColorCodec.ShorthandShowsBlack | client/src/components/ColorPicker.tsx:19-34 | the three-digit form `#fff` is not accepted, so the sliders show black for it |
| ColorCodec.OutOfRangeComponents | client/src/components/ColorPicker.tsx:28-31 | outside 0..255 a component is not two digits: -1 is written "-1" and 256 is written "100" |

## Left out

- The brush texture (`createBrushTexture` in BrushEngine.ts) draws a radial gradient on a canvas. It has no state and no result beyond pixels, so it is not modelled.
- The canvas element, `toBlob`, the Blob and the object URL are not modelled. The PNG payload is the list of calls made on the 2D context, and the `url` field of an export result is left out.
- The callback's rejection path ("Failed to create blob from canvas") is not modelled because the canvas encoder is not modelled.
- JSON text: `JSON.stringify` is not modelled. The JSON export is the document value before serialisation.
- Number-to-text conversion in SVG attributes and tween ids is a parameter `num`. JavaScript's shortest round-trip number formatting is not modelled.
- Numbers are exact reals, not IEEE doubles. Rounding in the smoothing step, the distance test, the opacity products and the fade factors is not modelled. The distance gate compares squared distances, which agrees with comparing square roots on reals.
- Round3: models `toFixed(3)` for all reals. JavaScript switches to exponent notation at 1e21 and above, which is not modelled. The model works on exact reals, while `toFixed` rounds the exact value of a binary double, so a decimal that looks like a tie (`Round3Ties`) may round the other way in the source.
- Interval timers: one call of `Tick` stands for one firing of the timer. Its period of 1000 / frameRate ms and the effect's clean-up are not modelled.
- Generated ids, `Date.now()` and the ISO date are parameters. Each `Date.now()` call is a parameter of its own: a stroke's creation time and the time of each of its points are separate readings, and no order between them is assumed. Their format is not modelled, so neither is their uniqueness: id uniqueness is a precondition wherever a property needs it.
- Aliasing: `DuplicateLayer` and the store's shared arrays are values in the model. The source copies the stroke array shallowly, so two layers share stroke objects; a later in-place change through one would show through the other. That is not modelled.
- The live stroke that `updateDrawing` mutates in place is the one the store holds. The model updates the store's stroke value directly.
- Stale closures: the hooks read the store through React closures, which can be one render old. The model always reads the store's current state.
- OptimizeAnimation: the first frame is identified by position. The source uses `indexOf(frame) === 0`, which compares object identity; with the same frame object at several positions, every copy would count as the first. Frames are values here, so this case cannot be expressed.
- The "would render animation frames" console messages of the GIF and MP4 exports are not modelled.
- The asynchronous ordering of the export methods is not modelled. The awaits run one after another with nothing interleaved, so the model is sequential.
- The React components and the UI wiring are not part of this model: panels, toolbars, canvases, the colour picker's preset palette and its sliders.
- DrawContext: the style setters store what they are given. A real 2D context ignores a `globalAlpha` outside [0, 1], a zero or negative `lineWidth` and a `strokeStyle` it cannot parse, and keeps the previous value. A layer opacity above 1 or an unparseable brush colour can reach the export, so `DrawStroke`, `LayerCallSource` and `PngDrawsVisibleStrokes` record the requested alpha and colour, which then differ from what the canvas draws.
- InterpolateFrames, GenerateOnionSkin: `steps` and the onion-skin range are integers here, while the source accepts any number. A fractional step count such as 2.5 (two tweens at t = 0.4 and 0.8) or a fractional range is not modelled; no caller in the source passes one.
- UpdateLayerOpacityAction: the opacity is stored as given, as in the source. The UI slider keeps it in [0, 1], but nothing in the hook does, so no range is claimed.
- The `DrawingProject`, `Tool` and `ViewportSettings` types are declared in types/drawing.ts but used by none of the core operations, so they are not modelled.
- `setCurrentFrame` also accepts an updater function. The model takes the computed value, as `TickAction` does.

## Findings

| source | as written | input that shows it | evidently intended | confidence | as-written member | corrected member |
|---|---|---|---|---|---|---|
| client/src/hooks/useLayers.ts:52-60 | `findIndex` returns -1 for an unknown id. The guard `currentIndex < layers.length - 1` accepts it, so the swap writes the first layer to the array's `-1` property and `undefined` to slot 0. | `moveLayerUp("missing")` with the layers `[A, B]` gives `[undefined, B]` | An unknown id changes nothing, as `moveLayerDown` behaves through its `currentIndex > 0` guard | high, not executed | LayerActions.RaiseAsWritten, LayerActions.RaiseAsWrittenLosesFirstLayer | LayerActions.Raise, LayerActions.MoveLayerUpAction |
