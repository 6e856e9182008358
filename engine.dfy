/** `sortFrames` as the sketch runs it: every frame is a 4-slot integer
    buffer [x, y, w, h] changed in place, the list of frames is an array the
    shuffle reorders, and a snapshot buffer restores a frame whose move
    collides. Each method is proved to compute the functions of module
    Relaxation, so the lemmas proved there hold of the sketch. */
module Engine {
  import opened Geometry
  import opened RandomSource
  import opened Relaxation

  /** `copyArrayFromTo(from, to)`: to[k] := from[k] for every index of from. */
  method CopyArrayFromTo(from: array<int>, to: array<int>)
    requires from.Length <= to.Length
    modifies to
    ensures to[..from.Length] == old(from[..])
    ensures to[from.Length..] == old(to[from.Length..])
  {
    for k := 0 to from.Length
      invariant forall m :: 0 <= m < k ==> to[m] == old(from[m])
      invariant forall m :: k <= m < from.Length ==> from[m] == old(from[m])
      invariant forall m :: k <= m < to.Length ==> to[m] == old(to[m])
    {
      to[k] := from[k];
    }
  }

  /** The rectangle a frame buffer holds. */
  function RectOf(a: array<int>): Rect
    reads a
    requires a.Length == 4
  {
    Rect(a[0], a[1], a[2], a[3])
  }

  /** Every listed frame is a 4-slot buffer. */
  ghost predicate Shaped(fs: seq<array<int>>)
  {
    forall a :: a in fs ==> a.Length == 4
  }

  /** The shape `generateFramesCords` produces: 4-slot buffers, none listed
      twice, so that `frame !== currFrame` singles out the other frames. */
  ghost predicate Framed(fs: seq<array<int>>)
  {
    Shaped(fs) && Distinct(fs)
  }

  /** The frames of a list, counted with their repetitions. */
  ghost function Bag(fs: seq<array<int>>): multiset<array<int>>
  {
    multiset(fs)
  }

  /** The rectangles of the frames, in list order. */
  function Rects(fs: seq<array<int>>): (rs: seq<Rect>)
    reads fs
    requires Shaped(fs)
    ensures |rs| == |fs| && forall k :: 0 <= k < |fs| ==> rs[k] == RectOf(fs[k])
  {
    seq(|fs|, k requires 0 <= k < |fs| reads fs => assert fs[k] in fs; RectOf(fs[k]))
  }

  /** No two different frames overlap. Stated by reference, so a reordering
      of the list does not change it. */
  ghost predicate SeparatedFrames(fs: seq<array<int>>)
    reads fs
    requires Shaped(fs)
  {
    forall a, b :: a in fs && b in fs && a != b ==> !Overlaps(RectOf(a), RectOf(b))
  }

  /** For a list without repeated buffers, separation by reference is
      separation of the rectangle list. */
  lemma SeparatedFramesIsSeparated(fs: seq<array<int>>)
    requires Framed(fs)
    ensures SeparatedFrames(fs) <==> Separated(Rects(fs))
  {
    var rs := Rects(fs);
    if SeparatedFrames(fs) {
      forall j, k | 0 <= j < |rs| && 0 <= k < |rs| && j != k
        ensures !Overlaps(rs[j], rs[k])
      {
        assert fs[j] in fs && fs[k] in fs && fs[j] != fs[k];
      }
    }
    if Separated(rs) {
      forall a, b | a in fs && b in fs && a != b
        ensures !Overlaps(RectOf(a), RectOf(b))
      {
        var j :| 0 <= j < |fs| && fs[j] == a;
        var k :| 0 <= k < |fs| && fs[k] == b;
        assert rs[j] == RectOf(a) && rs[k] == RectOf(b);
      }
    }
  }

  /** A deterministic displacement rule applied in place: on each axis, step
      up when the frame's coordinate is below the target's, down otherwise. */
  method NudgeInPlace(frame: array<int>, t: Point, xUp: int, xDown: int, yUp: int, yDown: int)
    requires frame.Length == 4
    modifies frame
    ensures RectOf(frame) == Nudge(old(RectOf(frame)), t, xUp, xDown, yUp, yDown)
  {
    if (frame[0] as real) < t.x {
      frame[0] := frame[0] + xUp;
    } else {
      frame[0] := frame[0] - xDown;
    }
    if (frame[1] as real) < t.y {
      frame[1] := frame[1] + yUp;
    } else {
      frame[1] := frame[1] - yDown;
    }
  }

  /** The three rules of a sub-step (lines 68-85), applied in place to one
      frame: draw p; below 0.3 step by a `between(1, 3)` draw on each axis,
      x first; above 0.5 step by 1; above 0.7 step by +2 / -3 on x and +4 / -1
      on y. */
  method ApplyRules(frame: array<int>, t: Point, rng: Random) returns (probability: Unit)
    requires frame.Length == 4
    modifies frame, rng
    ensures probability == rng.source(old(rng.used))
    ensures rng.used == old(rng.used) + StepDraws(probability)
    ensures RectOf(frame) == Displace(old(RectOf(frame)), t, probability,
      BetweenOf(rng.source(old(rng.used) + 1), 1, 3), BetweenOf(rng.source(old(rng.used) + 2), 1, 3))
  {
    probability := rng.Next();
    if probability < 0.3 {
      if (frame[0] as real) < t.x {
        var bump := rng.Between(1, 3);
        frame[0] := frame[0] + bump;
      } else {
        var bump := rng.Between(1, 3);
        frame[0] := frame[0] - bump;
      }
      if (frame[1] as real) < t.y {
        var bump := rng.Between(1, 3);
        frame[1] := frame[1] + bump;
      } else {
        var bump := rng.Between(1, 3);
        frame[1] := frame[1] - bump;
      }
    }
    if probability > 0.5 {
      NudgeInPlace(frame, t, 1, 1, 1, 1);
    }
    if probability > 0.7 {
      NudgeInPlace(frame, t, 2, 3, 4, 1);
    }
  }

  /** The scan that ends a sub-step (lines 87-97): the first other frame
      that overlaps frame i makes it take back the snapshot in prevFrame and
      ends the scan; with no such frame, frame i keeps its move. */
  method RestoreIfColliding(frames: seq<array<int>>, i: nat, prevFrame: array<int>)
    requires i < |frames| && Framed(frames)
    requires prevFrame.Length == 4 && prevFrame !in frames
    modifies frames[i]
    ensures Rects(frames) ==
      Settle(old(Rects(frames))[i := old(RectOf(prevFrame))], i, old(RectOf(frames[i])))
  {
    ghost var moved := Rects(frames);
    ghost var before := moved[i := RectOf(prevFrame)];
    assert before[i := moved[i]] == moved;
    var currFrame := frames[i];
    for j := 0 to |frames|
      invariant Rects(frames) == moved
      invariant forall k :: 0 <= k < j && k != i ==> !Overlaps(moved[i], moved[k])
    {
      var frame := frames[j];
      if frame != currFrame && Overlaps(RectOf(currFrame), RectOf(frame)) {
        assert j != i && Overlaps(moved[i], moved[j]);
        ghost var snapshot := RectOf(prevFrame);
        CopyArrayFromTo(prevFrame, currFrame);
        forall k | 0 <= k < |frames|
          ensures RectOf(frames[k]) == moved[i := snapshot][k]
        {
          assert frames[k] in frames;
        }
        return;
      }
      assert RectOf(frame) == moved[j] && RectOf(currFrame) == moved[i];
      assert j != i ==> frame != currFrame;
    }
  }

  /** The rules of lines 65-85 applied to frame i of the list: frame i
      takes the displaced rectangle and every other frame stays as it was. */
  method ApplyRulesAt(frames: seq<array<int>>, i: nat, attractionPoint: Point, rng: Random)
    returns (probability: Unit)
    requires i < |frames| && Framed(frames)
    modifies frames[i], rng
    ensures probability == rng.source(old(rng.used))
    ensures rng.used == old(rng.used) + StepDraws(probability)
    ensures Rects(frames) == old(Rects(frames))[i :=
      Displace(old(RectOf(frames[i])), attractionPoint, probability,
               BetweenOf(rng.source(old(rng.used) + 1), 1, 3),
               BetweenOf(rng.source(old(rng.used) + 2), 1, 3))]
  {
    ghost var rs := Rects(frames);
    var currFrame := frames[i];
    assert currFrame in frames;
    probability := ApplyRules(currFrame, attractionPoint, rng);
    ghost var r := RectOf(currFrame);
    forall k | 0 <= k < |frames|
      ensures RectOf(frames[k]) == rs[i := r][k]
    {
      assert frames[k] in frames;
    }
  }

  /** One sub-step of frame i, the `forEach` callback of lines 63-98:
      snapshot the frame, apply the rules in place, then take the move back
      if the frame now overlaps another. Only this sub-step ends early. */
  method SubStep(frames: seq<array<int>>, i: nat, prevFrame: array<int>, attractionPoint: Point,
                 rng: Random)
    requires i < |frames| && Framed(frames)
    requires prevFrame.Length == 4 && prevFrame !in frames
    modifies frames[i], prevFrame, rng
    ensures (Rects(frames), rng.used) ==
      StepAt(old(Rects(frames)), i, attractionPoint, rng.source, old(rng.used))
  {
    ghost var rs := Rects(frames);
    ghost var pos := rng.used;
    assert frames[i] in frames;
    CopyArrayFromTo(frames[i], prevFrame);
    assert Rects(frames) == rs;
    var probability := ApplyRulesAt(frames, i, attractionPoint, rng);
    ghost var r := RectOf(frames[i]);
    assert StepAt(rs, i, attractionPoint, rng.source, pos) == (Settle(rs, i, r), rng.used);
    RestoreIfColliding(frames, i, prevFrame);
    assert rs[i := r][i := rs[i]] == rs;
  }

  /** `array(n).forEach(...)` (lines 63-98): n sub-steps of frame i toward
      t, each one snapshotting into the same buffer. All n run, whether or
      not a sub-step collided: that is the equality with `Sweep`, which runs
      exactly n sub-steps and takes at least n draws. `attempts` only counts
      the callback runs. */
  method Approach(frames: seq<array<int>>, i: nat, prevFrame: array<int>, t: Point, rng: Random, n: nat)
    returns (ghost attempts: nat)
    requires i < |frames| && Framed(frames)
    requires prevFrame.Length == 4 && prevFrame !in frames
    modifies frames[i], prevFrame, rng
    ensures (Rects(frames), rng.used) == Sweep(old(Rects(frames)), i, t, rng.source, old(rng.used), n)
    ensures attempts == n
  {
    ghost var start := Rects(frames);
    ghost var pos := rng.used;
    attempts := 0;
    for step := 0 to n
      invariant (Rects(frames), rng.used) == Sweep(start, i, t, rng.source, pos, step)
      invariant attempts == step
    {
      SubStep(frames, i, prevFrame, t, rng);
      attempts := attempts + 1;
    }
  }

  /** Frame i's turn (lines 56-98): pick its target, then take the fifty
      sub-steps toward it with a fresh snapshot buffer. */
  method RelaxFrame(frames: seq<array<int>>, i: nat, attractionPoints: seq<Point>, centroid: Point,
                    rng: Random)
    returns (ghost attempts: nat)
    requires i < |frames| && Framed(frames)
    modifies frames[i], rng
    ensures (Rects(frames), rng.used) ==
      Visit(SubSteps, old(Rects(frames)), i, attractionPoints, centroid, rng.source, old(rng.used))
    ensures attempts == SubSteps
  {
    ghost var start := Rects(frames);
    var attractionPoint := PickTarget(attractionPoints, centroid, rng);
    assert Rects(frames) == start;
    var prevFrame := new int[4];
    attempts := Approach(frames, i, prevFrame, attractionPoint, rng, SubSteps);
  }

  /** The inner `for` of one outer iteration (lines 56-99): every frame in
      list order picks its target (a drawn attraction point, or the centroid
      when there are none) and takes its fifty sub-steps. */
  method RelaxAll(frames: seq<array<int>>, attractionPoints: seq<Point>, centroid: Point, rng: Random)
    returns (ghost attempts: nat)
    requires Framed(frames)
    modifies frames, rng
    ensures (Rects(frames), rng.used) ==
      PassOf(SubSteps, old(Rects(frames)), attractionPoints, centroid, rng.source, old(rng.used),
             |frames|)
    ensures attempts == |frames| * SubSteps
  {
    attempts := 0;
    ghost var start := Rects(frames);
    ghost var pos := rng.used;
    for i := 0 to |frames|
      invariant (Rects(frames), rng.used) ==
        PassOf(SubSteps, start, attractionPoints, centroid, rng.source, pos, i)
      invariant attempts == i * SubSteps
    {
      assert frames[i] in frames;
      var n := RelaxFrame(frames, i, attractionPoints, centroid, rng);
      attempts := attempts + n;
    }
  }

  /** The target of one frame (lines 57-60): a drawn attraction point, or
      the centroid, without a draw, when there are no attraction points. */
  method PickTarget(attractionPoints: seq<Point>, centroid: Point, rng: Random) returns (attractionPoint: Point)
    modifies rng
    ensures (attractionPoint, rng.used) == Target(attractionPoints, centroid, rng.source, old(rng.used))
  {
    attractionPoint := centroid;
    if |attractionPoints| > 0 {
      var u := rng.Next();
      attractionPoint := attractionPoints[PickIndex(u, |attractionPoints|)];
    }
  }

  /** What one pass over the list keeps, read off the pass function of
      `Relaxation` by its lemmas: every buffer keeps its size, and a list
      without overlaps keeps none. */
  method RelaxPass(list: seq<array<int>>, attractionPoints: seq<Point>, centroid: Point, rng: Random)
    returns (ghost attempts: nat)
    requires Framed(list)
    modifies list, rng
    ensures forall k :: 0 <= k < |list| ==> list[k][2] == old(list[k][2]) && list[k][3] == old(list[k][3])
    ensures old(SeparatedFrames(list)) ==> SeparatedFrames(list)
    ensures attempts == |list| * SubSteps
  {
    ghost var start := Rects(list);
    ghost var pos := rng.used;
    ghost var wasSeparated := SeparatedFrames(list);
    SeparatedFramesIsSeparated(list);
    attempts := RelaxAll(list, attractionPoints, centroid, rng);
    PassKeepsSizes(SubSteps, start, attractionPoints, centroid, rng.source, pos, |list|);
    if wasSeparated {
      PassKeepsSeparated(SubSteps, start, attractionPoints, centroid, rng.source, pos, |list|);
      SeparatedFramesIsSeparated(list);
    }
  }

  /** One outer iteration of `sortFrames` (lines 45-99): shuffle the list,
      take the centroid of the shuffled list as the default target, then
      give every frame its turn of fifty sub-steps. The list stays a
      permutation of the same buffers, no buffer changes size, and a list
      without overlaps keeps none. */
  method Iterate(frames: array<array<int>>, attractionPoints: seq<Point>, rng: Random)
    returns (ghost attempts: nat)
    requires Framed(frames[..])
    modifies frames, frames[..], rng
    ensures Bag(frames[..]) == old(Bag(frames[..])) && Framed(frames[..])
    ensures forall a :: a in old(frames[..]) ==> a[2] == old(a[2]) && a[3] == old(a[3])
    ensures old(SeparatedFrames(frames[..])) ==> SeparatedFrames(frames[..])
    ensures attempts == frames.Length * SubSteps
  {
    ghost var before := frames[..];
    rng.Shuffle(frames);
    var list := frames[..];
    assert forall a :: a in list <==> a in before by {
      forall a ensures a in list <==> a in Bag(list) {}
      forall a ensures a in before <==> a in Bag(before) {}
    }
    assert old(SeparatedFrames(frames[..])) ==> SeparatedFrames(list);
    var attractionPoint := Centroid(Rects(list));
    forall k | 0 <= k < |list|
      ensures list[k] in before
    {
      assert list[k] in list;
    }
    attempts := RelaxPass(list, attractionPoints, attractionPoint, rng);
    assert frames[..] == list;
    forall a | a in before
      ensures a[2] == old(a[2]) && a[3] == old(a[3])
    {
      var k :| 0 <= k < |list| && list[k] == a;
    }
  }

  /** `sortFrames` (lines 43-101): iterationsCount outer iterations over the
      same list. The list stays a permutation of the same buffers, no buffer
      changes size, a list without overlaps keeps none, and `attempts`
      counts the sub-steps: fifty per frame per iteration, collisions or
      not. */
  method SortFrames(frames: array<array<int>>, attractionPoints: seq<Point>, iterationsCount: nat,
                    rng: Random)
    returns (ghost attempts: nat)
    requires Framed(frames[..])
    modifies frames, frames[..], rng
    ensures Bag(frames[..]) == old(Bag(frames[..])) && Framed(frames[..])
    ensures forall a :: a in old(frames[..]) ==> a[2] == old(a[2]) && a[3] == old(a[3])
    ensures old(SeparatedFrames(frames[..])) ==> SeparatedFrames(frames[..])
    ensures attempts == iterationsCount * frames.Length * SubSteps
  {
    attempts := 0;
    for iteration := 0 to iterationsCount
      invariant Bag(frames[..]) == old(Bag(frames[..])) && Framed(frames[..])
      invariant forall a :: a in old(frames[..]) ==> a[2] == old(a[2]) && a[3] == old(a[3])
      invariant old(SeparatedFrames(frames[..])) ==> SeparatedFrames(frames[..])
      invariant attempts == iteration * frames.Length * SubSteps
    {
      ghost var before := frames[..];
      assert forall a :: a in old(frames[..]) ==> a in before by {
        forall a | a in old(frames[..]) ensures a in before {
          assert a in old(Bag(frames[..]));
        }
      }
      forall k | 0 <= k < frames.Length
        ensures frames[k] in old(frames[..])
      {
        assert before[k] in Bag(before);
      }
      var n := Iterate(frames, attractionPoints, rng);
      attempts := attempts + n;
      assert attempts == (iteration + 1) * frames.Length * SubSteps;
    }
  }
}
