/** The relaxation of `sortFrames` as functions over the list of frame
    rectangles: the three displacement rules, one sub-step with overlap
    rejection, a frame's fifty sub-steps, one pass over the list, and the
    centroid target. The methods of module Engine are proved to compute them. */
module Relaxation {
  import opened Geometry
  import opened RandomSource

  /** Sub-steps per frame in every outer iteration. */
  const SubSteps: nat := 50

  /** A `between(1, 3)` draw. */
  type Bump = n: int | 1 <= n <= 3 witness 1

  /** One displacement rule: on each axis, step up when the frame's
      coordinate is below the target's and down otherwise. */
  function Nudge(r: Rect, t: Point, xUp: int, xDown: int, yUp: int, yDown: int): Rect
  {
    r.(x := if (r.x as real) < t.x then r.x + xUp else r.x - xDown,
       y := if (r.y as real) < t.y then r.y + yUp else r.y - yDown)
  }

  /** The three rules of a sub-step for the draw p, each applied to the
      frame the previous one left: below 0.3 a step of bumpX / bumpY; above 0.5 a
      unit step; above 0.7 another step of +2 / -3 on x and +4 / -1 on y. */
  function Displace(r: Rect, t: Point, p: real, bumpX: Bump, bumpY: Bump): (s: Rect)
    ensures s.w == r.w && s.h == r.h
    ensures s == r <==> 0.3 <= p <= 0.5
    ensures -4 <= s.x - r.x <= 4 && -5 <= s.y - r.y <= 5
  {
    var r1 := if p < 0.3 then Nudge(r, t, bumpX, bumpX, bumpY, bumpY) else r;
    var r2 := if p > 0.5 then Nudge(r1, t, 1, 1, 1, 1) else r1;
    if p > 0.7 then Nudge(r2, t, 2, 3, 4, 1) else r2
  }

  /** Some frame other than rs[i] overlaps rs[i]. */
  predicate Collides(rs: seq<Rect>, i: nat)
    requires i < |rs|
  {
    exists j :: 0 <= j < |rs| && j != i && Overlaps(rs[i], rs[j])
  }

  /** No two frames of rs overlap. */
  predicate Separated(rs: seq<Rect>)
  {
    forall j, k :: 0 <= j < |rs| && 0 <= k < |rs| && j != k ==> !Overlaps(rs[j], rs[k])
  }

  /** Frame i tried at r: it keeps r unless r overlaps another frame, in
      which case the list stays as it was. */
  function Settle(rs: seq<Rect>, i: nat, r: Rect): (rs': seq<Rect>)
    requires i < |rs|
    ensures |rs'| == |rs|
    ensures forall j :: 0 <= j < |rs| && j != i ==> rs'[j] == rs[j]
    ensures rs'[i] == r <==> !Collides(rs[i := r], i) || r == rs[i]
    ensures rs'[i] == rs[i] || !Collides(rs', i)
  {
    var moved := rs[i := r];
    if Collides(moved, i) then rs else moved
  }

  /** One sub-step of frame i: displace it, then put it back as it was if
      it now overlaps any other frame. */
  function Step(rs: seq<Rect>, i: nat, t: Point, p: real, bumpX: Bump, bumpY: Bump): (rs': seq<Rect>)
    requires i < |rs|
    ensures |rs'| == |rs|
    ensures forall j :: 0 <= j < |rs| && j != i ==> rs'[j] == rs[j]
    ensures rs'[i].w == rs[i].w && rs'[i].h == rs[i].h
    ensures rs'[i] == rs[i] || !Collides(rs', i)
  {
    Settle(rs, i, Displace(rs[i], t, p, bumpX, bumpY))
  }

  /** Settling a frame keeps a list without overlaps free of overlaps,
      wherever the frame was tried. */
  lemma SettleKeepsSeparated(rs: seq<Rect>, i: nat, r: Rect)
    requires i < |rs| && Separated(rs)
    ensures Separated(Settle(rs, i, r))
  {
    var rs' := Settle(rs, i, r);
    forall j, k | 0 <= j < |rs'| && 0 <= k < |rs'| && j != k
      ensures !Overlaps(rs'[j], rs'[k])
    {
      if rs'[i] != rs[i] {
        if j == i {
          assert !Overlaps(rs'[i], rs'[k]);
        } else if k == i {
          assert !Overlaps(rs'[i], rs'[j]);
          OverlapsSymmetric(rs'[i], rs'[j]);
        }
      }
    }
  }

  /** How many draws a sub-step takes: p, then the x and y bumps when p < 0.3. */
  function StepDraws(p: real): nat
  {
    if p < 0.3 then 3 else 1
  }

  /** One sub-step of frame i drawing from the stream at position pos:
      the frames and the position afterwards. */
  function StepAt(rs: seq<Rect>, i: nat, t: Point, source: nat -> Unit, pos: nat)
    : (res: (seq<Rect>, nat))
    requires i < |rs|
  {
    var p := source(pos);
    (Step(rs, i, t, p, BetweenOf(source(pos + 1), 1, 3), BetweenOf(source(pos + 2), 1, 3)),
     pos + StepDraws(p))
  }

  /** The first n sub-steps of frame i toward t, drawing from position pos:
      the frames and the position afterwards. Each sub-step takes one draw,
      or three. (The measure names i beside n so that a literal n, such as
      SubSteps, does not by itself make the verifier unfold all n steps.) */
  function Sweep(rs: seq<Rect>, i: nat, t: Point, source: nat -> Unit, pos: nat, n: nat)
    : (res: (seq<Rect>, nat))
    requires i < |rs|
    ensures |res.0| == |rs|
    ensures pos + n <= res.1 <= pos + 3 * n
    decreases n, i
  {
    if n == 0 then (rs, pos)
    else
      var before := Sweep(rs, i, t, source, pos, n - 1);
      StepAt(before.0, i, t, source, before.1)
  }

  /** A sweep of frame i changes no other frame and no frame's size. */
  lemma {:induction false} SweepMovesOnlyItsFrame(rs: seq<Rect>, i: nat, t: Point, source: nat -> Unit,
                                                  pos: nat, n: nat)
    requires i < |rs|
    ensures forall j :: 0 <= j < |rs| && j != i ==> Sweep(rs, i, t, source, pos, n).0[j] == rs[j]
    ensures forall j :: 0 <= j < |rs| ==>
      Sweep(rs, i, t, source, pos, n).0[j].w == rs[j].w && Sweep(rs, i, t, source, pos, n).0[j].h == rs[j].h
  {
    if n > 0 {
      SweepMovesOnlyItsFrame(rs, i, t, source, pos, n - 1);
    }
  }

  /** A sweep keeps a list without overlaps free of overlaps. */
  lemma {:induction false} SweepKeepsSeparated(rs: seq<Rect>, i: nat, t: Point, source: nat -> Unit,
                                               pos: nat, n: nat)
    requires i < |rs| && Separated(rs)
    ensures Separated(Sweep(rs, i, t, source, pos, n).0)
  {
    if n > 0 {
      SweepKeepsSeparated(rs, i, t, source, pos, n - 1);
      var before := Sweep(rs, i, t, source, pos, n - 1);
      var p := source(before.1);
      SettleKeepsSeparated(before.0, i, Displace(before.0[i], t, p, BetweenOf(source(before.1 + 1), 1, 3),
                                                 BetweenOf(source(before.1 + 2), 1, 3)));
    }
  }

  /** The target of a frame: with attraction points, the one a draw picks;
      without, the centroid, and no draw is taken. */
  function Target(points: seq<Point>, centroid: Point, source: nat -> Unit, pos: nat)
    : (res: (Point, nat))
    ensures |points| > 0 ==> res.0 in points && res.1 == pos + 1
    ensures |points| == 0 ==> res == (centroid, pos)
  {
    if |points| > 0 then (points[PickIndex(source(pos), |points|)], pos + 1) else (centroid, pos)
  }

  /** Frame i's turn in a pass: pick its target, then run `steps` sub-steps
      toward it. The relaxation runs SubSteps of them. */
  function Visit(steps: nat, rs: seq<Rect>, i: nat, points: seq<Point>, centroid: Point,
                 source: nat -> Unit, pos: nat): (res: (seq<Rect>, nat))
    requires i < |rs|
    ensures |res.0| == |rs|
  {
    var target := Target(points, centroid, source, pos);
    Sweep(rs, i, target.0, source, target.1, steps)
  }

  /** The first n frames' turns of one pass, in list order. */
  function PassOf(steps: nat, rs: seq<Rect>, points: seq<Point>, centroid: Point, source: nat -> Unit,
                  pos: nat, n: nat): (res: (seq<Rect>, nat))
    requires n <= |rs|
    ensures |res.0| == |rs|
    decreases n
  {
    if n == 0 then (rs, pos)
    else
      var before := PassOf(steps, rs, points, centroid, source, pos, n - 1);
      Visit(steps, before.0, n - 1, points, centroid, source, before.1)
  }

  /** A pass changes no frame's size. */
  lemma {:induction false} PassKeepsSizes(steps: nat, rs: seq<Rect>, points: seq<Point>, centroid: Point,
                                          source: nat -> Unit, pos: nat, n: nat)
    requires n <= |rs|
    ensures forall j :: 0 <= j < |rs| ==>
      PassOf(steps, rs, points, centroid, source, pos, n).0[j].w == rs[j].w &&
      PassOf(steps, rs, points, centroid, source, pos, n).0[j].h == rs[j].h
  {
    if n > 0 {
      PassKeepsSizes(steps, rs, points, centroid, source, pos, n - 1);
      var before := PassOf(steps, rs, points, centroid, source, pos, n - 1);
      var target := Target(points, centroid, source, before.1);
      SweepMovesOnlyItsFrame(before.0, n - 1, target.0, source, target.1, steps);
    }
  }

  /** A pass keeps a list without overlaps free of overlaps. */
  lemma {:induction false} PassKeepsSeparated(steps: nat, rs: seq<Rect>, points: seq<Point>, centroid: Point,
                                              source: nat -> Unit, pos: nat, n: nat)
    requires n <= |rs| && Separated(rs)
    ensures Separated(PassOf(steps, rs, points, centroid, source, pos, n).0)
  {
    if n > 0 {
      PassKeepsSeparated(steps, rs, points, centroid, source, pos, n - 1);
      var before := PassOf(steps, rs, points, centroid, source, pos, n - 1);
      var target := Target(points, centroid, source, before.1);
      SweepKeepsSeparated(before.0, n - 1, target.0, source, target.1, steps);
    }
  }

  /** The centre `(x + w / 2, y + h / 2)` of a frame. */
  function Center(r: Rect): Point
  {
    Point(r.x as real + r.w as real / 2.0, r.y as real + r.h as real / 2.0)
  }

  /** The sum of the centres of the frames. */
  function SumOfCenters(rs: seq<Rect>): Point
  {
    if rs == [] then Point(0.0, 0.0)
    else Point(Center(rs[0]).x + SumOfCenters(rs[1..]).x, Center(rs[0]).y + SumOfCenters(rs[1..]).y)
  }

  /** The `reduce` of `sortFrames`: from acc, add each frame's centre divided
      by len (the length of the whole list), in list order. */
  function CentroidFold(rs: seq<Rect>, len: nat, acc: Point): Point
    requires |rs| <= len
  {
    if rs == [] then acc
    else CentroidFold(rs[1..], len, Point(acc.x + Center(rs[0]).x / len as real,
                                          acc.y + Center(rs[0]).y / len as real))
  }

  /** The default target of an outer iteration: the fold from (0, 0). */
  function Centroid(rs: seq<Rect>): Point
  {
    CentroidFold(rs, |rs|, Point(0.0, 0.0))
  }

  /** The fold adds the sum of the centres, divided by len, to acc. */
  lemma {:induction false} CentroidFoldAddsMean(rs: seq<Rect>, len: nat, acc: Point)
    requires 0 < len && |rs| <= len
    ensures CentroidFold(rs, len, acc) ==
      Point(acc.x + SumOfCenters(rs).x / len as real, acc.y + SumOfCenters(rs).y / len as real)
  {
    if rs != [] {
      var c := Center(rs[0]);
      var acc' := Point(acc.x + c.x / len as real, acc.y + c.y / len as real);
      CentroidFoldAddsMean(rs[1..], len, acc');
      var rest := SumOfCenters(rs[1..]);
      DivideSum(c.x, rest.x, len as real);
      DivideSum(c.y, rest.y, len as real);
    }
  }

  /** Dividing a sum is summing the quotients. */
  lemma DivideSum(a: real, b: real, d: real)
    requires d != 0.0
    ensures a / d + b / d == (a + b) / d
  {
  }

  /** The centroid is the mean of the frames' centres; for no frames it is
      (0, 0), reached without dividing. */
  lemma CentroidIsMean(rs: seq<Rect>)
    ensures rs == [] ==> Centroid(rs) == Point(0.0, 0.0)
    ensures rs != [] ==>
      Centroid(rs) == Point(SumOfCenters(rs).x / |rs| as real, SumOfCenters(rs).y / |rs| as real)
  {
    if rs != [] {
      CentroidFoldAddsMean(rs, |rs|, Point(0.0, 0.0));
    }
  }
}
