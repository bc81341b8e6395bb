/** The animation engine: frame creation and duplication, cross-fade interpolation between frames,
    onion-skin ghosts around the current frame, frame pruning and total duration. Frame and stroke
    ids, which the application draws from the clock and a random source, are parameters, and so is
    the number-to-text conversion used inside interpolation ids. */
module AnimationEngine {
  import opened Seqs
  import opened DrawingTypes

  const DefaultFrameDuration: int := 100
  const PastTint: string := "#ff6b6b"
  const FutureTint: string := "#4ecdc4"
  const DefaultOnionSkinRange: int := 3

  /** `createFrame`: an empty frame of the default duration under the generated id `id`. */
  function CreateFrame(id: string): (f: AnimationFrame)
    ensures f.id == id && f.duration == DefaultFrameDuration && f.strokes == []
  {
    AnimationFrame(id, DefaultFrameDuration, [])
  }

  /** `duplicateFrame`: the same duration and strokes under new ids; each copied stroke differs from
      its source in the id alone. */
  function DuplicateFrame(frame: AnimationFrame, frameId: string, strokeIds: seq<string>): (f: AnimationFrame)
    requires |strokeIds| == |frame.strokes|
    ensures f.id == frameId && f.duration == frame.duration && |f.strokes| == |frame.strokes|
    ensures forall k :: 0 <= k < |f.strokes| ==>
      f.strokes[k].id == strokeIds[k] && f.strokes[k].(id := frame.strokes[k].id) == frame.strokes[k]
  {
    AnimationFrame(frameId, frame.duration,
      seq(|frame.strokes|, k requires 0 <= k < |frame.strokes| => frame.strokes[k].(id := strokeIds[k])))
  }

  /** One cross-fade copy: the id tagged with `"interp_"` and the text of the parameter, the opacity
      scaled by `factor`, everything else kept. */
  function Faded(s: Stroke, factor: real, tag: string): Stroke
  {
    s.(id := "interp_" + s.id + "_" + tag, opacity := s.opacity * factor)
  }

  function FadedAll(strokes: seq<Stroke>, factor: real, tag: string): (r: seq<Stroke>)
    ensures |r| == |strokes| && forall k :: 0 <= k < |r| ==> r[k] == Faded(strokes[k], factor, tag)
  {
    seq(|strokes|, k requires 0 <= k < |strokes| => Faded(strokes[k], factor, tag))
  }

  /** The strokes of the frame at parameter `t`: the outgoing strokes fading out, then the incoming
      ones fading in. `num` is the number-to-text conversion the ids use. */
  function CrossFade(fromStrokes: seq<Stroke>, toStrokes: seq<Stroke>, t: real, num: real -> string): (r: seq<Stroke>)
    ensures |r| == |fromStrokes| + |toStrokes|
  {
    FadedAll(fromStrokes, 1.0 - t, num(t)) + FadedAll(toStrokes, t, num(t))
  }

  /** Two strokes that agree on points, colour, size, layer and timestamp. */
  predicate SameButIdAndOpacity(a: Stroke, b: Stroke)
  {
    a.points == b.points && a.color == b.color && a.size == b.size && a.layerId == b.layerId
    && a.timestamp == b.timestamp
  }

  /** A cross-fade holds one copy of every outgoing stroke, then one of every incoming stroke, each
      differing from its source only in id and opacity; each id is the source id tagged with
      `interp_` and the text of `t`. */
  lemma CrossFadeShape(fromStrokes: seq<Stroke>, toStrokes: seq<Stroke>, t: real, num: real -> string)
    ensures var r := CrossFade(fromStrokes, toStrokes, t, num);
      && |r| == |fromStrokes| + |toStrokes|
      && (forall k :: 0 <= k < |fromStrokes| ==>
            SameButIdAndOpacity(r[k], fromStrokes[k]) && r[k].opacity == fromStrokes[k].opacity * (1.0 - t)
            && r[k].id == "interp_" + fromStrokes[k].id + "_" + num(t))
      && (forall k :: 0 <= k < |toStrokes| ==>
            SameButIdAndOpacity(r[|fromStrokes| + k], toStrokes[k]) && r[|fromStrokes| + k].opacity == toStrokes[k].opacity * t
            && r[|fromStrokes| + k].id == "interp_" + toStrokes[k].id + "_" + num(t))
  {
    var r := CrossFade(fromStrokes, toStrokes, t, num);
    var tag := num(t);
    var a, b := FadedAll(fromStrokes, 1.0 - t, tag), FadedAll(toStrokes, t, tag);
    assert r == a + b;
    forall k | 0 <= k < |fromStrokes|
      ensures SameButIdAndOpacity(r[k], fromStrokes[k]) && r[k].opacity == fromStrokes[k].opacity * (1.0 - t)
              && r[k].id == "interp_" + fromStrokes[k].id + "_" + tag
    {
      assert r[k] == a[k];
    }
    forall k | 0 <= k < |toStrokes|
      ensures SameButIdAndOpacity(r[|fromStrokes| + k], toStrokes[k]) && r[|fromStrokes| + k].opacity == toStrokes[k].opacity * t
              && r[|fromStrokes| + k].id == "interp_" + toStrokes[k].id + "_" + tag
    {
      assert r[|fromStrokes| + k] == b[k];
    }
  }

  /** Cross-fading a frame into itself conserves opacity: the two copies of a stroke add up to it. */
  lemma CrossFadeConservesOpacity(strokes: seq<Stroke>, t: real, num: real -> string, k: int)
    requires 0 <= k < |strokes|
    ensures var r := CrossFade(strokes, strokes, t, num);
      r[k].opacity + r[|strokes| + k].opacity == strokes[k].opacity
  {
    var r := CrossFade(strokes, strokes, t, num);
    assert r[k].opacity == strokes[k].opacity * (1.0 - t);
    assert r[|strokes| + k].opacity == strokes[k].opacity * t;
  }

  /** For t in [0, 1], opacities in [0, 1] stay in [0, 1]. */
  lemma CrossFadeOpacityInRange(fromStrokes: seq<Stroke>, toStrokes: seq<Stroke>, t: real, num: real -> string)
    requires 0.0 <= t <= 1.0
    requires forall k :: 0 <= k < |fromStrokes| ==> 0.0 <= fromStrokes[k].opacity <= 1.0
    requires forall k :: 0 <= k < |toStrokes| ==> 0.0 <= toStrokes[k].opacity <= 1.0
    ensures var r := CrossFade(fromStrokes, toStrokes, t, num);
      forall k :: 0 <= k < |r| ==> 0.0 <= r[k].opacity <= 1.0
  {
    var r := CrossFade(fromStrokes, toStrokes, t, num);
    CrossFadeShape(fromStrokes, toStrokes, t, num);
    forall k | 0 <= k < |r|
      ensures 0.0 <= r[k].opacity <= 1.0
    {
      if k < |fromStrokes| {
        ScaledInRange(fromStrokes[k].opacity, 1.0 - t);
        assert r[k].opacity == fromStrokes[k].opacity * (1.0 - t);
      } else {
        var j := k - |fromStrokes|;
        ScaledInRange(toStrokes[j].opacity, t);
        assert r[|fromStrokes| + j].opacity == toStrokes[j].opacity * t;
      }
    }
  }

  lemma ScaledInRange(a: real, b: real)
    requires 0.0 <= a <= 1.0 && 0.0 <= b <= 1.0
    ensures 0.0 <= a * b <= 1.0
  {
    assert 0.0 <= a * b;
    assert a * b <= b;
  }

  /** `interpolateStrokes`: two passes that push the faded copies. */
  method InterpolateStrokes(fromStrokes: seq<Stroke>, toStrokes: seq<Stroke>, t: real, num: real -> string)
    returns (r: seq<Stroke>)
    ensures r == CrossFade(fromStrokes, toStrokes, t, num)
  {
    r := [];
    var k := 0;
    while k < |fromStrokes|
      invariant 0 <= k <= |fromStrokes|
      invariant r == FadedAll(fromStrokes[..k], 1.0 - t, num(t))
    {
      r := r + [Faded(fromStrokes[k], 1.0 - t, num(t))];
      k := k + 1;
    }
    assert fromStrokes[..k] == fromStrokes;
    ghost var fading := r;
    k := 0;
    while k < |toStrokes|
      invariant 0 <= k <= |toStrokes|
      invariant r == fading + FadedAll(toStrokes[..k], t, num(t))
    {
      r := r + [Faded(toStrokes[k], t, num(t))];
      k := k + 1;
    }
    assert toStrokes[..k] == toStrokes;
  }

  /** The number of in-between frames `steps` asks for. */
  function TweenCount(steps: int): nat
  {
    if steps > 1 then steps - 1 else 0
  }

  /** `interpolateFrames`: for i = 1 .. steps - 1 a fresh frame (id `frameIds[i - 1]`, default
      duration) holding the cross-fade at t = i / steps. */
  method InterpolateFrames(fromFrame: AnimationFrame, toFrame: AnimationFrame, steps: int,
                           frameIds: seq<string>, num: real -> string)
    returns (r: seq<AnimationFrame>)
    requires |frameIds| == TweenCount(steps)
    ensures |r| == TweenCount(steps)
    ensures forall i :: 0 <= i < |r| ==>
      r[i] == AnimationFrame(frameIds[i], DefaultFrameDuration,
                             CrossFade(fromFrame.strokes, toFrame.strokes, (i + 1) as real / steps as real, num))
  {
    r := [];
    var i := 1;
    while i < steps
      invariant 1 <= i && |r| == i - 1 && (steps > 1 ==> i <= steps) && |r| <= TweenCount(steps)
      invariant forall j :: 0 <= j < |r| ==>
        r[j] == AnimationFrame(frameIds[j], DefaultFrameDuration,
                               CrossFade(fromFrame.strokes, toFrame.strokes, (j + 1) as real / steps as real, num))
    {
      var t := i as real / steps as real;
      var frame := CreateFrame(frameIds[i - 1]);
      var strokes := InterpolateStrokes(fromFrame.strokes, toFrame.strokes, t, num);
      frame := frame.(strokes := strokes);
      r := r + [frame];
      i := i + 1;
    }
  }

  /** Decimal digits of a natural number. */
  function NatToDecimal(n: nat): string
    decreases n
  {
    var digit := "0123456789"[n % 10];
    if n < 10 then [digit] else NatToDecimal(n / 10) + [digit]
  }

  function Dist(i: int, c: int): nat
  {
    if i < c then c - i else i - c
  }

  /** The first frame index the onion skin looks at. */
  function WindowStart(c: int, range: int): int
  {
    if c - range > 0 then c - range else 0
  }

  /** One past the last frame index the onion skin looks at. */
  function WindowEnd(n: int, c: int, range: int): int
  {
    if n < c + range + 1 then n else c + range + 1
  }

  /** The ghost opacity factor at distance `d` from the current frame. Since the distance never
      exceeds the range, the linear ramp stays at or above 0.2 and the 0.1 floor never applies. */
  function OnionFactor(d: int, range: int): (r: real)
    requires 1 <= d <= range
    ensures r == 1.0 - (d as real / range as real) * 0.8
    ensures 0.2 <= r < 1.0
  {
    var ramp := 1.0 - (d as real / range as real) * 0.8;
    assert d as real / range as real <= 1.0;
    if ramp > 0.1 then ramp else 0.1
  }

  /** The ghost of a stroke of frame `i`: id tagged with that index, opacity scaled by the distance
      factor, and the past or future tint. */
  function Ghost(s: Stroke, i: int, c: int, range: int): Stroke
    requires 0 <= i && 1 <= Dist(i, c) <= range
  {
    s.(id := "onion_" + s.id + "_" + NatToDecimal(i),
       opacity := s.opacity * OnionFactor(Dist(i, c), range),
       color := if i < c then PastTint else FutureTint)
  }

  function Ghosts(strokes: seq<Stroke>, i: int, c: int, range: int): (r: seq<Stroke>)
    requires 0 <= i && 1 <= Dist(i, c) <= range
    ensures |r| == |strokes| && forall k :: 0 <= k < |r| ==> r[k] == Ghost(strokes[k], i, c, range)
  {
    seq(|strokes|, k requires 0 <= k < |strokes| => Ghost(strokes[k], i, c, range))
  }

  /** The ghosts contributed by frame `i` of the window: none for the current frame itself. */
  function Contribution(frames: seq<AnimationFrame>, c: int, range: int, i: int): seq<Stroke>
    requires WindowStart(c, range) <= i < WindowEnd(|frames|, c, range)
  {
    if i == c then [] else Ghosts(frames[i].strokes, i, c, range)
  }

  /** The ghosts of the window frames before index `i`, in frame order. */
  function OnionUpTo(frames: seq<AnimationFrame>, c: int, range: int, i: int): seq<Stroke>
    requires WindowStart(c, range) <= i <= WindowEnd(|frames|, c, range)
    decreases i
  {
    if i == WindowStart(c, range) then []
    else OnionUpTo(frames, c, range, i - 1) + Contribution(frames, c, range, i - 1)
  }

  /** The onion skin of frame `c`: the ghosts of every frame within `range` of it, in order. */
  function OnionSkin(frames: seq<AnimationFrame>, c: int, range: int): (r: seq<Stroke>)
    ensures |frames| == 0 ==> r == []
    ensures range <= 0 ==> r == []
  {
    if WindowStart(c, range) >= WindowEnd(|frames|, c, range) then []
    else
      var end := WindowEnd(|frames|, c, range);
      assert range <= 0 ==> OnionUpTo(frames, c, range, end) == [] by {
        if range <= 0 {
          assert WindowStart(c, range) == c && end == c + 1;
          assert OnionUpTo(frames, c, range, c) == [];
        }
      }
      OnionUpTo(frames, c, range, end)
  }

  /** The inner pass of `generateOnionSkin`: one ghost per stroke of frame `i`, pushed in order. */
  method PushGhosts(acc: seq<Stroke>, strokes: seq<Stroke>, i: int, c: int, range: int) returns (r: seq<Stroke>)
    requires 0 <= i && 1 <= Dist(i, c) <= range
    ensures r == acc + Ghosts(strokes, i, c, range)
  {
    r := acc;
    var k := 0;
    while k < |strokes|
      invariant 0 <= k <= |strokes|
      invariant r == acc + Ghosts(strokes[..k], i, c, range)
    {
      assert Ghosts(strokes[..k + 1], i, c, range) == Ghosts(strokes[..k], i, c, range) + [Ghost(strokes[k], i, c, range)];
      r := r + [Ghost(strokes[k], i, c, range)];
      k := k + 1;
    }
    assert strokes[..k] == strokes;
  }

  /** `generateOnionSkin`: a pass over the window that skips the current frame and pushes one ghost
      per stroke of every other frame. The range defaults to three frames on each side. */
  method GenerateOnionSkin(frames: seq<AnimationFrame>, c: int, range: int := DefaultOnionSkinRange)
    returns (r: seq<Stroke>)
    ensures r == OnionSkin(frames, c, range)
  {
    r := [];
    var start := WindowStart(c, range);
    var end := WindowEnd(|frames|, c, range);
    if start >= end {
      return;
    }
    var i := start;
    while i < end
      invariant start <= i <= end
      invariant r == OnionUpTo(frames, c, range, i)
    {
      if i != c {
        r := PushGhosts(r, frames[i].strokes, i, c, range);
      }
      assert r == OnionUpTo(frames, c, range, i + 1);
      i := i + 1;
    }
  }

  /** Every ghost comes from a stroke of a window frame before `i` other than the current one:
      the lemma names the frame `f` and the stroke `j`. */
  lemma {:induction false} OnionUpToSource(frames: seq<AnimationFrame>, c: int, range: int, i: int, k: int)
    returns (f: int, j: int)
    requires WindowStart(c, range) <= i <= WindowEnd(|frames|, c, range)
    requires 0 <= k < |OnionUpTo(frames, c, range, i)|
    ensures WindowStart(c, range) <= f < i && f != c && 0 <= j < |frames[f].strokes|
    ensures 1 <= Dist(f, c) <= range
    ensures OnionUpTo(frames, c, range, i)[k] == Ghost(frames[f].strokes[j], f, c, range)
    decreases i
  {
    var prefix := OnionUpTo(frames, c, range, i - 1);
    if k < |prefix| {
      f, j := OnionUpToSource(frames, c, range, i - 1, k);
    } else {
      f, j := i - 1, k - |prefix|;
    }
  }

  /** The onion skin draws only on frames inside [max(0, c - range), min(n, c + range + 1)) other
      than `c`; each ghost is a stroke of such a frame, tinted by its side and faded by its distance. */
  lemma OnionSkinSource(frames: seq<AnimationFrame>, c: int, range: int, k: int) returns (f: int, j: int)
    requires 0 <= k < |OnionSkin(frames, c, range)|
    ensures WindowStart(c, range) <= f < WindowEnd(|frames|, c, range) && f != c
    ensures 0 <= j < |frames[f].strokes| && 1 <= Dist(f, c) <= range
    ensures OnionSkin(frames, c, range)[k] == Ghost(frames[f].strokes[j], f, c, range)
  {
    f, j := OnionUpToSource(frames, c, range, WindowEnd(|frames|, c, range), k);
  }

  /** Conversely, every stroke of every window frame before `i` other than the current one appears
      among the ghosts, re-tagged, faded by its distance and tinted by its side. */
  lemma {:induction false} OnionUpToKeeps(frames: seq<AnimationFrame>, c: int, range: int, i: int, f: int, j: int)
    requires WindowStart(c, range) <= f < i <= WindowEnd(|frames|, c, range) && f != c
    requires 0 <= j < |frames[f].strokes|
    ensures Ghost(frames[f].strokes[j], f, c, range) in OnionUpTo(frames, c, range, i)
    decreases i
  {
    var prefix := OnionUpTo(frames, c, range, i - 1);
    if f == i - 1 {
      var g := Ghosts(frames[f].strokes, f, c, range);
      assert OnionUpTo(frames, c, range, i) == prefix + g;
      assert (prefix + g)[|prefix| + j] == g[j];
    } else {
      OnionUpToKeeps(frames, c, range, i - 1, f, j);
      assert OnionUpTo(frames, c, range, i) == prefix + Contribution(frames, c, range, i - 1);
    }
  }

  /** Every stroke of every frame inside [max(0, c - range), min(n, c + range + 1)) other than `c`
      appears in the onion skin as its ghost; with OnionSkinSource, the skin is exactly the ghosts
      of the window. */
  lemma OnionSkinKeeps(frames: seq<AnimationFrame>, c: int, range: int, f: int, j: int)
    requires WindowStart(c, range) <= f < WindowEnd(|frames|, c, range) && f != c
    requires 0 <= j < |frames[f].strokes|
    ensures Ghost(frames[f].strokes[j], f, c, range) in OnionSkin(frames, c, range)
  {
    OnionUpToKeeps(frames, c, range, WindowEnd(|frames|, c, range), f, j);
  }

  /** Four one-stroke frames, current frame 2, range 1: the ghosts of frames 1 and 3 only, both at
      a fifth of the opacity, the first tinted as past and the second as future. */
  lemma OnionSkinNeighbours(s0: Stroke, s1: Stroke, s2: Stroke, s3: Stroke)
    ensures var frames := [AnimationFrame("f0", 100, [s0]), AnimationFrame("f1", 100, [s1]),
                           AnimationFrame("f2", 100, [s2]), AnimationFrame("f3", 100, [s3])];
      OnionSkin(frames, 2, 1) ==
        [s1.(id := "onion_" + s1.id + "_1", opacity := s1.opacity * 0.2, color := PastTint),
         s3.(id := "onion_" + s3.id + "_3", opacity := s3.opacity * 0.2, color := FutureTint)]
  {
    var frames := [AnimationFrame("f0", 100, [s0]), AnimationFrame("f1", 100, [s1]),
                   AnimationFrame("f2", 100, [s2]), AnimationFrame("f3", 100, [s3])];
    assert NatToDecimal(1) == "1" && NatToDecimal(3) == "3";
    assert OnionFactor(1, 1) == 0.2;
    assert WindowStart(2, 1) == 1 && WindowEnd(4, 2, 1) == 4;
    assert OnionUpTo(frames, 2, 1, 1) == [];
    assert OnionUpTo(frames, 2, 1, 2) == [Ghost(s1, 1, 2, 1)];
    assert OnionUpTo(frames, 2, 1, 3) == [Ghost(s1, 1, 2, 1)];
    assert OnionUpTo(frames, 2, 1, 4) == [Ghost(s1, 1, 2, 1), Ghost(s3, 3, 2, 1)];
    assert OnionSkin(frames, 2, 1) == OnionUpTo(frames, 2, 1, 4);
    assert "onion_" + s1.id + "_" + "1" == "onion_" + s1.id + "_1";
    assert "onion_" + s3.id + "_" + "3" == "onion_" + s3.id + "_3";
  }

  predicate HasStrokes(f: AnimationFrame)
  {
    |f.strokes| > 0
  }

  function Pruned(f: AnimationFrame): AnimationFrame
  {
    f.(strokes := DrawableStrokes(f.strokes))
  }

  function PrunedAll(frames: seq<AnimationFrame>): (r: seq<AnimationFrame>)
    ensures |r| == |frames| && forall i :: 0 <= i < |r| ==> r[i] == Pruned(frames[i])
  {
    seq(|frames|, i requires 0 <= i < |frames| => Pruned(frames[i]))
  }

  /** `optimizeAnimation`: the first frame and every later frame that had strokes, in order, each
      without its degenerate strokes. The first frame is kept by position. What the later frames
      become is stated by OptimizeAnimationFrom and OptimizeAnimationKeeps. */
  function OptimizeAnimation(frames: seq<AnimationFrame>): (r: seq<AnimationFrame>)
    ensures |frames| == 0 <==> |r| == 0
    ensures |frames| > 0 ==> r[0] == Pruned(frames[0]) && |r| <= |frames|
  {
    if |frames| == 0 then [] else [Pruned(frames[0])] + PrunedLater(frames[1..])
  }

  /** The later frames that had strokes, in order, each pruned. */
  function PrunedLater(later: seq<AnimationFrame>): (r: seq<AnimationFrame>)
    ensures |r| <= |later|
  {
    PrunedAll(Filter(later, HasStrokes))
  }

  /** Each later frame of the result is a pruned later frame of the input that had strokes. */
  lemma PrunedLaterFrom(later: seq<AnimationFrame>, i: int) returns (j: int)
    requires 0 <= i < |PrunedLater(later)|
    ensures 0 <= j < |later| && HasStrokes(later[j]) && PrunedLater(later)[i] == Pruned(later[j])
  {
    var rest := Filter(later, HasStrokes);
    j :| 0 <= j < |later| && later[j] == rest[i];
  }

  /** Every later frame that had strokes appears, pruned, among the later frames of the result. */
  lemma PrunedLaterKeeps(later: seq<AnimationFrame>, j: int)
    requires 0 <= j < |later| && HasStrokes(later[j])
    ensures Pruned(later[j]) in PrunedLater(later)
  {
    var rest := Filter(later, HasStrokes);
    var m :| 0 <= m < |rest| && rest[m] == later[j];
    assert PrunedLater(later)[m] == Pruned(later[j]);
  }

  /** Each frame after the first in the result is a pruned later frame of the input that had
      strokes. */
  lemma OptimizeAnimationFrom(frames: seq<AnimationFrame>)
    ensures var r := OptimizeAnimation(frames);
      forall i :: 0 < i < |r| ==> exists j :: 0 < j < |frames| && HasStrokes(frames[j]) && r[i] == Pruned(frames[j])
  {
    var r := OptimizeAnimation(frames);
    forall i | 0 < i < |r|
      ensures exists j :: 0 < j < |frames| && HasStrokes(frames[j]) && r[i] == Pruned(frames[j])
    {
      var j := PrunedLaterFrom(frames[1..], i - 1);
      assert frames[1..][j] == frames[j + 1];
    }
  }

  /** Every later input frame that had strokes survives, pruned. */
  lemma OptimizeAnimationKeeps(frames: seq<AnimationFrame>)
    ensures var r := OptimizeAnimation(frames);
      forall j :: 0 < j < |frames| && HasStrokes(frames[j]) ==> Pruned(frames[j]) in r
  {
    forall j | 0 < j < |frames| && HasStrokes(frames[j])
      ensures Pruned(frames[j]) in OptimizeAnimation(frames)
    {
      assert frames[1..][j - 1] == frames[j];
      PrunedLaterKeeps(frames[1..], j - 1);
    }
  }

  /** Order and count: after the first frame, the result is the subsequence of later frames that
      had strokes, one result frame per such frame, in input order, each pruned. */
  lemma OptimizeAnimationOrder(frames: seq<AnimationFrame>)
    requires |frames| > 0
    ensures var r := OptimizeAnimation(frames);
      var kept := Filter(frames[1..], HasStrokes);
      IsSubsequence(kept, frames[1..]) && |r| == 1 + |kept| && r[1..] == PrunedAll(kept)
  {
    var r := OptimizeAnimation(frames);
    assert r[1..] == PrunedLater(frames[1..]);
  }

  /** Every frame `optimizeAnimation` returns holds only drawable strokes. */
  lemma OptimizeAnimationDrawable(frames: seq<AnimationFrame>)
    ensures var r := OptimizeAnimation(frames);
      forall i, k :: 0 <= i < |r| && 0 <= k < |r[i].strokes| ==> IsDrawable(r[i].strokes[k])
  {
    var r := OptimizeAnimation(frames);
    OptimizeAnimationFrom(frames);
    forall i | 0 < i < |r|
      ensures forall k :: 0 <= k < |r[i].strokes| ==> IsDrawable(r[i].strokes[k])
    {
      var j :| 0 < j < |frames| && HasStrokes(frames[j]) && r[i] == Pruned(frames[j]);
    }
  }

  /** Pruning can empty a later frame without removing it: a frame whose only stroke is a single
      point survives as an empty frame, and a second pass then drops it. */
  lemma OptimizeAnimationCanLeaveEmptyFrames(f0: AnimationFrame, tap: Stroke)
    requires |tap.points| == 1
    ensures var frames := [f0, AnimationFrame("f1", 100, [tap])];
      && OptimizeAnimation(frames) == [Pruned(f0), AnimationFrame("f1", 100, [])]
      && OptimizeAnimation(OptimizeAnimation(frames)) == [Pruned(Pruned(f0))]
  {
    FirstPassEmptiesFrame(f0, AnimationFrame("f1", 100, [tap]));
    SecondPassDropsEmptyFrame(Pruned(f0), AnimationFrame("f1", 100, []));
  }

  /** A later frame holding one single-point stroke is kept, emptied. */
  lemma FirstPassEmptiesFrame(f0: AnimationFrame, f1: AnimationFrame)
    requires |f1.strokes| == 1 && |f1.strokes[0].points| == 1
    ensures OptimizeAnimation([f0, f1]) == [Pruned(f0), f1.(strokes := [])]
  {
    OptimizePair(f0, f1);
    PrunedLaterSingle(f1);
    assert f1.strokes == [f1.strokes[0]];
    assert DrawableStrokes(f1.strokes) == [] by {
      assert !IsDrawable(f1.strokes[0]);
    }
  }

  /** A later frame with no strokes is dropped. */
  lemma SecondPassDropsEmptyFrame(f0: AnimationFrame, empty: AnimationFrame)
    requires !HasStrokes(empty)
    ensures OptimizeAnimation([f0, empty]) == [Pruned(f0)]
  {
    OptimizePair(f0, empty);
    PrunedLaterSingle(empty);
  }

  /** A two-frame list: the first frame pruned, then the second if it had strokes. */
  lemma OptimizePair(f0: AnimationFrame, f1: AnimationFrame)
    ensures OptimizeAnimation([f0, f1]) == [Pruned(f0)] + PrunedLater([f1])
  {
    assert [f0, f1][1..] == [f1];
  }

  /** One later frame survives exactly when it had strokes. */
  lemma PrunedLaterSingle(f: AnimationFrame)
    ensures HasStrokes(f) ==> PrunedLater([f]) == [Pruned(f)]
    ensures !HasStrokes(f) ==> PrunedLater([f]) == []
  {
    if HasStrokes(f) {
      FilterAll([f], HasStrokes);
    } else {
      assert Filter([f], HasStrokes) == [];
    }
  }

  /** `calculateAnimationDuration`: the sum of the frame durations. */
  function TotalDuration(frames: seq<AnimationFrame>): (r: int)
    ensures (forall i :: 0 <= i < |frames| ==> frames[i].duration >= 0) ==>
      r >= 0 && forall i :: 0 <= i < |frames| ==> frames[i].duration <= r
  {
    if |frames| == 0 then 0 else TotalDuration(frames[..|frames| - 1]) + frames[|frames| - 1].duration
  }

  /** The duration of a concatenation is the sum of the durations. */
  lemma {:induction false} TotalDurationConcat(a: seq<AnimationFrame>, b: seq<AnimationFrame>)
    ensures TotalDuration(a + b) == TotalDuration(a) + TotalDuration(b)
    decreases |b|
  {
    if |b| > 0 {
      assert (a + b)[..|a + b| - 1] == a + b[..|b| - 1];
      TotalDurationConcat(a, b[..|b| - 1]);
    } else {
      assert a + b == a;
    }
  }

  /** Frames that all last `d` add up to `d` per frame. */
  lemma {:induction false} TotalDurationUniform(frames: seq<AnimationFrame>, d: int)
    requires forall i :: 0 <= i < |frames| ==> frames[i].duration == d
    ensures TotalDuration(frames) == |frames| * d
  {
    if |frames| > 0 {
      var n := |frames| - 1;
      TotalDurationUniform(frames[..n], d);
      assert TotalDuration(frames) == TotalDuration(frames[..n]) + d;
      assert n * d + d == |frames| * d;
    }
  }

  /** The in-between frames of `steps` steps last 100 ms each. */
  method TweenDuration(fromFrame: AnimationFrame, toFrame: AnimationFrame, steps: int,
                       frameIds: seq<string>, num: real -> string)
    returns (total: int)
    requires |frameIds| == TweenCount(steps)
    ensures total == TweenCount(steps) * DefaultFrameDuration
  {
    var tweens := InterpolateFrames(fromFrame, toFrame, steps, frameIds, num);
    TotalDurationUniform(tweens, DefaultFrameDuration);
    total := TotalDuration(tweens);
  }
}
