# Frame relaxation of the unpuzzle art generator

The sketch in `src/script.js` draws a set of rectangular "frames". The
layout comes first:

- It seeds the frames on a square grid centred at the origin
  (`generateFramesCords`) and draws a few attraction points
  (`generateFramesAttractionPoints`).
- `sortFrames` then relaxes the layout. Each outer iteration shuffles the
  list of frames and computes the centroid of the frame centres. Every frame
  in list order then picks a target: a randomly chosen attraction point, or
  the centroid when there are none.
- The frame then takes fifty sub-steps toward the target. A sub-step
  snapshots the frame into `prevFrame` and moves it by three probabilistic
  rules. If the moved frame overlaps any other frame, it takes the snapshot
  back.

This project models that core in Dafny and proves what the relaxation
guarantees:

- the overlap test is symmetric and closed;
- after a sub-step, a frame either stands where it stood or overlaps nothing;
- a layout without overlaps keeps none;
- no frame ever changes size;
- the list stays a permutation of the same frame buffers;
- a sub-step moves a frame by at most 4 on x and 5 on y, and does not move it at all when the draw is in [0.3, 0.5];
- every frame takes exactly fifty sub-steps per iteration;
- the centroid is the mean of the centres;
- the seeding puts frames in distinct cells of a large enough grid, with bounded sizes and coordinates.

Modules:

- `Geometry` (geometry.dfy): rectangles, points and the overlap test.
- `RandomSource` (random.dfy): the seeded generator, as an oracle stream `source: nat -> Unit` of draws in [0, 1) with a count of the draws already taken. `next`, `between` and an in-place Fisher–Yates `shuffle` are written over it.
- `Layout` (layout.dfy): `array`, the grid seeding and the attraction points, as functions.
- `Relaxation` (relaxation.dfy): the relaxation as functions over `seq<Rect>`:
  - `Displace`: the three rules of one sub-step;
  - `Settle` / `Step`: a sub-step with overlap rejection;
  - `Sweep`: n sub-steps of one frame;
  - `Visit`: one frame's turn;
  - `PassOf`: one pass over the list;
  - `Centroid`: the `reduce`.

  The lemmas about these functions live here too.
- `Engine` (engine.dfy): the sketch's own imperative form. Frames are 4-slot `array<int>` buffers changed in place, and the list is an `array` of them, shuffled in place. `NudgeInPlace`, `ApplyRules`, `ApplyRulesAt`, `RestoreIfColliding`, `SubStep`, `Approach`, `PickTarget`, `RelaxFrame` and `RelaxAll` are each proved to compute the matching function of `Relaxation` (`Nudge`, `Displace`, `Settle`, `StepAt`, `Sweep`, `Target`, `Visit`, `PassOf`), on the frames and, where they draw, on the stream position. `RelaxPass`, `Iterate` and `SortFrames` state only what follows from those functions: a permutation of the same buffers, unchanged sizes and kept separation. They state these by buffer reference, so the facts survive the shuffle.

## Model

| member | source | states |
|---|---|---|
| Geometry.OverlapsSymmetric | src/script.js:92 | the collision test gives the same answer whichever frame is the moving one |
| Geometry.OverlapsIffSharedPoint | src/script.js:92 | for frames of non-negative size the test holds exactly when some grid point lies in both closed rectangles |
| Geometry.TouchingFramesOverlap | src/script.js:92 | bounds are inclusive: frames whose edges or corners only touch collide, one unit of gap separates them |
| RandomSource.PickIndex | src/script.js:58 | `Math.floor(next() * n)` is an index below n |
| RandomSource.BetweenOf | src/script.js:70-73 | a `between(lo, hi)` draw lies in [lo, hi] |
| RandomSource.Random.Next | src/script.js:66 | `next()` returns the next draw of the stream and advances it by one |
| RandomSource.Random.Between | src/script.js:70-73 | `between(lo, hi)` takes one draw and returns a value in [lo, hi] |
| RandomSource.Random.Shuffle | src/script.js:45 | the shuffle leaves a permutation of the list in place, keeps it free of repetitions and takes one draw per position from the last down to 1 |
| RandomSource.SwapKeepsDistinct | src/script.js:45 | exchanging two entries keeps a list free of repetitions |
| Layout.Range | src/script.js:156-158 | `array(n)` is 0, 1, ..., n - 1 in order |
| Layout.GridSize | src/script.js:31 | `Math.ceil(Math.sqrt(num))` is the least g with g * g >= num |
| Layout.GridFrom | src/script.js:31 | the upward search for the grid size ends at the least g' >= g with g' * g' >= num |
| Layout.Cell | src/script.js:35-36 | the cell (i % grid, (i / grid) \| 0) has a column below grid and determines i |
| Layout.RowInGrid | src/script.js:36 | the row of frame i is below grid when i < grid * grid |
| Layout.SeedCells | src/script.js:30-36 | frames 0 .. num - 1 get cells inside the grid, and distinct frames get distinct cells |
| Layout.Trunc | src/script.js:35-38 | `v \| 0` truncates toward zero: it is the integer part of v, below or above v by less than 1 |
| Layout.SizeDrawInRange | src/script.js:37-38 | the untruncated size lies in [minRectSize, maxRectSize) |
| Layout.SeedSize | src/script.js:37-38 | a seeded width or height lies in [minRectSize, maxRectSize) when 0 <= minRectSize < maxRectSize |
| Layout.CoordInSquare | src/script.js:32-36 | the untruncated corner coordinate of a cell lies in [-filled/2, filled/2) |
| Layout.SeedCoord | src/script.js:32-36 | a seeded corner coordinate lies in [-filled/2, filled/2) |
| Layout.SeedFrame | src/script.js:30-39 | one seeded frame has its corner in the filled square and its sizes in [minRectSize, maxRectSize) |
| Layout.GenerateFramesCords | src/script.js:30-40 | num frames, each with its corner in the square of side areaSize * 7/6 centred at the origin and sizes in [minRectSize, maxRectSize) |
| Layout.AttractionPoint | src/script.js:24-27 | a point lies in [-areaSize/2, areaSize/2) on both axes |
| Layout.GenerateFramesAttractionPoints | src/script.js:22-28 | num points, each in [-areaSize/2, areaSize/2) on both axes |
| Relaxation.Displace | src/script.js:66-85 | the rules keep the sizes; the frame stays put exactly when 0.3 <= p <= 0.5; it moves at most 4 on x and 5 on y |
| Relaxation.Settle | src/script.js:87-97 | only frame i can change; it takes the tried position exactly when that overlaps no other frame (or is where it was); afterwards it is where it was or overlaps nothing |
| Relaxation.Step | src/script.js:63-98 | a sub-step changes only frame i and not its size; afterwards the frame stands where it stood or overlaps no other frame |
| Relaxation.SettleKeepsSeparated | src/script.js:87-97 | a list without overlaps keeps none after a sub-step's rejection test |
| Relaxation.Sweep | src/script.js:63-98 | n sub-steps keep the list length and take between n and 3n draws |
| Relaxation.SweepMovesOnlyItsFrame | src/script.js:63-98 | a frame's sub-steps change no other frame and no size |
| Relaxation.SweepKeepsSeparated | src/script.js:63-98 | a frame's sub-steps keep a list without overlaps free of overlaps |
| Relaxation.Target | src/script.js:57-60 | with attraction points the target is one of them and takes one draw; without, it is the centroid and takes none |
| Relaxation.Visit | src/script.js:56-98 | a frame's turn keeps the list length |
| Relaxation.PassOf | src/script.js:56-99 | a pass keeps the list length |
| Relaxation.PassKeepsSizes | src/script.js:56-99 | a pass changes no frame's width or height |
| Relaxation.PassKeepsSeparated | src/script.js:56-99 | a pass keeps a list without overlaps free of overlaps |
| Relaxation.CentroidFoldAddsMean | src/script.js:47-54 | the `reduce` adds the sum of the centres divided by the list length to its start value |
| Relaxation.CentroidIsMean | src/script.js:47-54 | the default target is the mean of the frame centres, and (0, 0) for an empty list |
| Engine.CopyArrayFromTo | src/script.js:160-164 | `to` starts with the old contents of `from` and keeps the rest, also when both are the same buffer |
| Engine.SeparatedFramesIsSeparated | src/script.js:87-97 | no two different buffers overlapping is the same as no two list positions overlapping, for a list without repeated buffers |
| Engine.NudgeInPlace | src/script.js:74-84 | a fixed-step rule applied in place gives the rule's rectangle |
| Engine.ApplyRules | src/script.js:66-85 | the in-place rules yield the displaced rectangle of the drawn p and bumps, and take one draw, or three when p < 0.3 |
| Engine.ApplyRulesAt | src/script.js:66-85 | applied to frame i of a list, the rules change that frame to its displaced rectangle and no other |
| Engine.RestoreIfColliding | src/script.js:87-97 | the scan leaves the list as the rejection test of the moved frame against its snapshot says |
| Engine.SubStep | src/script.js:63-98 | one callback run computes exactly `Relaxation.StepAt`, on the frames and on the stream position |
| Engine.Approach | src/script.js:63-98 | `array(n).forEach` computes `Relaxation.Sweep` of n sub-steps, on the frames and on the stream position, so all n run whatever collides |
| Engine.RelaxFrame | src/script.js:56-98 | a frame's turn picks its target and runs fifty sub-steps: it computes `Relaxation.Visit` with SubSteps |
| Engine.RelaxAll | src/script.js:56-99 | the frame loop computes `Relaxation.PassOf` over the whole list with fifty sub-steps per frame |
| Engine.PickTarget | src/script.js:57-60 | the chosen target and the draws taken are those of `Relaxation.Target` |
| Engine.RelaxPass | src/script.js:56-99 | a pass over the buffers keeps every buffer's size and keeps a list without overlaps free of overlaps |
| Engine.Iterate | src/script.js:45-99 | one outer iteration leaves a permutation of the same buffers, keeps every size, keeps separation, and makes len * 50 sub-step attempts |
| Engine.SortFrames | src/script.js:43-101 | after iterationsCount iterations the list is a permutation of the same buffers with the same sizes, a layout without overlaps has none, and iterationsCount * len * 50 sub-steps were attempted |

## Left out

- Rendering, `setup`/`draw`, `calcShadowOf`, `calcFrameBorderSize` and the light source are not part of this model. They draw the layout and do not change it.
- The random configuration (`config`): frame counts, sizes and the iteration count are parameters here.
- The generator behind `$random` is not part of this model. Its draws are an arbitrary stream `source`, so every property holds for every seed.
  - `between(lo, hi)` is taken as `lo + floor(u * (hi - lo + 1))` of one draw.
  - `shuffle` is taken as a Fisher–Yates pass from the last position down, one draw per position.
  - Only the permutation property of the shuffle is relied on.
- Floating-point arithmetic is modelled with exact reals. This covers the centroid, the attraction points, the comparison of an integer coordinate with a real target, and the seeding formulas before `| 0`. Rounding is not modelled.
- `| 0` is modelled as truncation toward zero. Its 32-bit wrap-around is not modelled, because the sketch's values are a few hundred canvas units.
- `Math.ceil(Math.sqrt(num))` is modelled as the least g with g * g >= num. The floating-point square root is not modelled.
- Engine.CopyArrayFromTo: requires `to` to be at least as long as `from`. A JavaScript array would grow instead; the sketch only ever copies between 4-slot buffers.
- Engine.Iterate, Engine.SortFrames and the other engine methods state the attempt count as a ghost out-parameter. The sketch does not count attempts. The counter only counts loop rounds. What shows that every sub-step runs, collision or not, is the equality of `Engine.Approach` with `Relaxation.Sweep`: it runs exactly n sub-steps and takes at least n draws.
- Engine.RelaxPass: states only what a pass keeps: sizes and separation. It does not state the buffers' new positions or the stream position. `Engine.RelaxAll`, which it calls, states both as `Relaxation.PassOf`. Repeating that equality here puts it in the context of `Engine.Iterate`, where the proof becomes too expensive for the verifier.
- Engine.Iterate, Engine.SortFrames: the frames' positions after an iteration are not characterised. `Engine.RelaxAll` gives them as `Relaxation.PassOf` applied to the shuffled list. The outer methods state only the consequences: permutation, sizes, separation and the attempt count.
