/** The animation hook: the playback tick, play/pause/stop, jumping to a frame, and adding,
    deleting and duplicating frames in the store's frame list. The interval timer is not modelled;
    one tick stands for one firing of it. */
module AnimationPlayback {
  import opened DrawingTypes
  import opened AnimationEngine
  import opened DrawingStore

  /** The playback part of the store. */
  datatype Playback = Playback(currentFrame: int, isPlaying: bool)

  /** The timer runs only while playing with more than one frame. */
  predicate TimerRunning(p: Playback, n: int)
  {
    p.isPlaying && n > 1
  }

  /** One firing of the playback timer over `n` frames: advance while a next frame exists,
      otherwise stop and rewind to the first frame. There is no looping. */
  function Tick(p: Playback, n: int): (r: Playback)
    ensures p.currentFrame + 1 < n ==> r.currentFrame == p.currentFrame + 1 && r.isPlaying == p.isPlaying
    ensures p.currentFrame + 1 >= n ==> r.currentFrame == 0 && !r.isPlaying
  {
    var next := p.currentFrame + 1;
    if next >= n then Playback(0, false) else p.(currentFrame := next)
  }

  /** `k` firings in a row. A current frame inside [0, n) stays inside; once playback has stopped
      it stays stopped; and while it is still on, each firing has advanced the frame by one. */
  function RunTicks(p: Playback, n: int, k: nat): (r: Playback)
    ensures 0 <= p.currentFrame < n ==> 0 <= r.currentFrame < n
    ensures !p.isPlaying ==> !r.isPlaying
    ensures r.isPlaying ==> p.isPlaying && r.currentFrame == p.currentFrame + k
    decreases k
  {
    if k == 0 then p else RunTicks(Tick(p, n), n, k - 1)
  }

  /** A tick keeps the current frame inside [0, n). */
  lemma TickInRange(p: Playback, n: int)
    requires 0 <= p.currentFrame < n
    ensures 0 <= Tick(p, n).currentFrame < n
  {
  }

  /** Playing from frame `c` shows every later frame once: after n - 1 - c ticks the last frame is
      on screen and playback is still on; one more tick stops it on the first frame, and the timer
      then no longer runs. */
  lemma {:induction false} PlayThrough(c: int, n: int)
    requires 0 <= c < n
    ensures RunTicks(Playback(c, true), n, n - 1 - c) == Playback(n - 1, true)
    ensures RunTicks(Playback(c, true), n, n - c) == Playback(0, false)
    ensures !TimerRunning(RunTicks(Playback(c, true), n, n - c), n)
    decreases n - c
  {
    if c < n - 1 {
      assert Tick(Playback(c, true), n) == Playback(c + 1, true);
      PlayThrough(c + 1, n);
    }
  }

  /** An index in range: the frame list is non-empty and the current frame points into it. */
  predicate FramesValid(frames: seq<AnimationFrame>, currentFrame: int)
  {
    |frames| >= 1 && 0 <= currentFrame < |frames|
  }

  /** The frame list without position `index`; an index out of range removes nothing. */
  function FramesWithout(frames: seq<AnimationFrame>, index: int): (r: seq<AnimationFrame>)
    ensures 0 <= index < |frames| ==> |r| == |frames| - 1
    ensures !(0 <= index < |frames|) ==> r == frames
    ensures 0 <= index < |frames| ==>
      && (forall j :: 0 <= j < index ==> r[j] == frames[j])
      && (forall j :: index <= j < |r| ==> r[j] == frames[j + 1])
  {
    if 0 <= index < |frames| then frames[..index] + frames[index + 1..] else frames
  }

  /** The frame list with `copy` inserted right after position `index`. */
  function FramesWithCopy(frames: seq<AnimationFrame>, index: int, copy: AnimationFrame): (r: seq<AnimationFrame>)
    requires 0 <= index < |frames|
    ensures |r| == |frames| + 1 && r[index + 1] == copy
    ensures forall j :: 0 <= j <= index ==> r[j] == frames[j]
    ensures forall j :: index + 1 < j < |r| ==> r[j] == frames[j - 1]
  {
    frames[..index + 1] + [copy] + frames[index + 1..]
  }

  /** The current frame after a delete: clamped to the new last index only when it is past it. */
  function CurrentAfterDelete(remaining: int, currentFrame: int): (r: int)
    ensures currentFrame < remaining ==> r == currentFrame
    ensures currentFrame >= remaining ==> r == remaining - 1
  {
    if currentFrame >= remaining then remaining - 1 else currentFrame
  }

  /** A delete keeps the frame list non-empty and the current frame in range. */
  lemma DeleteKeepsFramesValid(frames: seq<AnimationFrame>, currentFrame: int, index: int)
    requires FramesValid(frames, currentFrame) && |frames| > 1
    ensures var remaining := FramesWithout(frames, index);
      FramesValid(remaining, CurrentAfterDelete(|remaining|, currentFrame))
  {
  }

  /** The current index is not adjusted for a delete below it, so the frame on screen becomes
      the one that followed it. */
  lemma DeleteBelowCurrentShiftsView(frames: seq<AnimationFrame>, currentFrame: int, index: int)
    requires FramesValid(frames, currentFrame) && 0 <= index < currentFrame < |frames| - 1
    ensures var remaining := FramesWithout(frames, index);
      remaining[CurrentAfterDelete(|remaining|, currentFrame)] == frames[currentFrame + 1]
  {
  }

  /** The playback timer firing once. */
  method TickAction(store: DrawingState)
    modifies store`currentFrame, store`isPlaying
    ensures Playback(store.currentFrame, store.isPlaying)
      == Tick(Playback(old(store.currentFrame), old(store.isPlaying)), |store.frames|)
  {
    var next := store.currentFrame + 1;
    if next >= |store.frames| {
      store.SetIsPlaying(false);
      store.SetCurrentFrame(0);
    } else {
      store.SetCurrentFrame(next);
    }
  }

  /** `playAnimation`: starts playback only when there is more than one frame. */
  method PlayAnimation(store: DrawingState)
    modifies store`isPlaying
    ensures |store.frames| > 1 ==> store.isPlaying
    ensures |store.frames| <= 1 ==> store.isPlaying == old(store.isPlaying)
  {
    if |store.frames| > 1 {
      store.SetIsPlaying(true);
    }
  }

  /** `pauseAnimation`: stops playback where it is. */
  method PauseAnimation(store: DrawingState)
    modifies store`isPlaying
    ensures !store.isPlaying
  {
    store.SetIsPlaying(false);
  }

  /** `stopAnimation`: stops playback and rewinds to the first frame. */
  method StopAnimation(store: DrawingState)
    modifies store`isPlaying, store`currentFrame
    ensures !store.isPlaying && store.currentFrame == 0
  {
    store.SetIsPlaying(false);
    store.SetCurrentFrame(0);
  }

  /** `goToFrame`: moves to an index in [0, n); any other index is ignored. */
  method GoToFrame(store: DrawingState, index: int)
    modifies store`currentFrame
    ensures 0 <= index < |store.frames| ==> store.currentFrame == index
    ensures !(0 <= index < |store.frames|) ==> store.currentFrame == old(store.currentFrame)
  {
    if index >= 0 && index < |store.frames| {
      store.SetCurrentFrame(index);
    }
  }

  /** `addFrame`: appends an empty default-length frame under the generated id `id` and shows it. */
  method AddFrame(store: DrawingState, id: string)
    modifies store`frames, store`currentFrame
    ensures store.frames == old(store.frames) + [CreateFrame(id)]
    ensures store.currentFrame == |store.frames| - 1
    ensures FramesValid(store.frames, store.currentFrame)
  {
    var updated := store.frames + [CreateFrame(id)];
    store.SetFrames(updated);
    store.SetCurrentFrame(|updated| - 1);
  }

  /** `deleteFrame`: refused while at most one frame exists; otherwise drops position `index` and
      pulls the current frame back if it fell off the end. */
  method DeleteFrame(store: DrawingState, index: int)
    modifies store`frames, store`currentFrame
    ensures |old(store.frames)| <= 1 ==>
      store.frames == old(store.frames) && store.currentFrame == old(store.currentFrame)
    ensures |old(store.frames)| > 1 ==>
      && store.frames == FramesWithout(old(store.frames), index)
      && store.currentFrame == CurrentAfterDelete(|store.frames|, old(store.currentFrame))
    ensures FramesValid(old(store.frames), old(store.currentFrame)) ==> FramesValid(store.frames, store.currentFrame)
  {
    if |store.frames| <= 1 {
      return;
    }
    ghost var oldFrames, oldCurrent := store.frames, store.currentFrame;
    var updated := FramesWithout(store.frames, index);
    store.SetFrames(updated);
    if store.currentFrame >= |updated| {
      store.SetCurrentFrame(|updated| - 1);
    }
    if FramesValid(oldFrames, oldCurrent) {
      DeleteKeepsFramesValid(oldFrames, oldCurrent, index);
    }
  }

  /** `duplicateFrame`: inserts a copy of the frame at `index` (new ids `frameId` and `strokeIds`)
      right after it; an index with no frame is ignored. The current frame is not moved. */
  method DuplicateFrameAction(store: DrawingState, index: int, frameId: string, strokeIds: seq<string>)
    requires 0 <= index < |store.frames| ==> |strokeIds| == |store.frames[index].strokes|
    modifies store`frames
    ensures !(0 <= index < |old(store.frames)|) ==> store.frames == old(store.frames)
    ensures 0 <= index < |old(store.frames)| ==>
      store.frames == FramesWithCopy(old(store.frames), index, DuplicateFrame(old(store.frames)[index], frameId, strokeIds))
    ensures FramesValid(old(store.frames), store.currentFrame) ==> FramesValid(store.frames, store.currentFrame)
  {
    if 0 <= index < |store.frames| {
      var copy := DuplicateFrame(store.frames[index], frameId, strokeIds);
      store.SetFrames(FramesWithCopy(store.frames, index, copy));
    }
  }
}
