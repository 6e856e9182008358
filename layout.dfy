/** Grid seeding of the frames and generation of the attraction points
    (`generateFramesCords`, `generateFramesAttractionPoints`, `array`). */
module Layout {
  import opened Geometry
  import opened RandomSource

  /** `array(n)`: the indices 0, 1, ..., n - 1 in order. */
  function Range(n: nat): (r: seq<nat>)
    ensures |r| == n
    ensures forall k :: 0 <= k < n ==> r[k] == k
  {
    if n == 0 then [] else Range(n - 1) + [n - 1]
  }

  /** `Math.ceil(Math.sqrt(num))`: the least g with g * g >= num. */
  function GridSize(num: nat): (g: nat)
    ensures g * g >= num
    ensures g > 0 ==> (g - 1) * (g - 1) < num
  {
    GridFrom(num, 0)
  }

  /** The least g' >= g with g' * g' >= num, searching upward from g. */
  function GridFrom(num: nat, g: nat): (g': nat)
    requires g > 0 ==> (g - 1) * (g - 1) < num
    ensures g' >= g && g' * g' >= num
    ensures g' > 0 ==> (g' - 1) * (g' - 1) < num
    decreases num - g
  {
    if g * g >= num then g
    else
      MulMonotone(1, g, g);
      GridFrom(num, g + 1)
  }

  /** The grid cell of frame i: column `i % grid`, row `(i / grid) | 0`.
      Together they determine i. */
  function Cell(i: nat, grid: nat): (c: (nat, nat))
    requires grid > 0
    ensures c.0 < grid && c.1 * grid + c.0 == i
  {
    (i % grid, i / grid)
  }

  /** Multiplying by a natural number keeps the order of two integers. */
  lemma {:induction false} MulMonotone(a: int, b: int, c: nat)
    ensures a <= b ==> a * c <= b * c
  {
    if c > 0 {
      MulMonotone(a, b, c - 1);
      assert a * c == a * (c - 1) + a && b * c == b * (c - 1) + b;
    }
  }

  /** The row of frame i stays inside a grid that has room for i. */
  lemma RowInGrid(i: nat, grid: nat)
    requires grid > 0 && i < grid * grid
    ensures Cell(i, grid).1 < grid
  {
    var row := Cell(i, grid).1;
    MulMonotone(grid, row, grid);
  }

  /** Seeding puts the frames 0 .. num - 1 in distinct cells of the grid. */
  lemma SeedCells(num: nat, i: nat, j: nat)
    requires i < num && j < num
    ensures GridSize(num) > 0
    ensures Cell(i, GridSize(num)).0 < GridSize(num) && Cell(i, GridSize(num)).1 < GridSize(num)
    ensures i != j ==> Cell(i, GridSize(num)) != Cell(j, GridSize(num))
  {
    RowInGrid(i, GridSize(num));
  }

  /** `v | 0` applied to a value of the layout: truncation toward zero. */
  function Trunc(v: real): (n: int)
    ensures v >= 0.0 ==> 0 <= n && n as real <= v < n as real + 1.0
    ensures v < 0.0 ==> n <= 0 && n as real - 1.0 < v <= n as real
  {
    if v >= 0.0 then v.Floor else -((-v).Floor)
  }

  /** The untruncated size `minRectSize + u * (maxRectSize - minRectSize)`
      lies in [minRectSize, maxRectSize). */
  lemma SizeDrawInRange(minRectSize: int, maxRectSize: int, u: Unit)
    requires minRectSize < maxRectSize
    ensures minRectSize as real <= minRectSize as real + u * (maxRectSize - minRectSize) as real
    ensures minRectSize as real + u * (maxRectSize - minRectSize) as real < maxRectSize as real
  {
    ScaleBelow(u, (maxRectSize - minRectSize) as real);
  }

  /** `minRectSize + next() * (maxRectSize - minRectSize)`, truncated. */
  function SeedSize(minRectSize: int, maxRectSize: int, u: Unit): (s: int)
    ensures 0 <= minRectSize < maxRectSize ==> minRectSize <= s < maxRectSize
  {
    var v := minRectSize as real + u * (maxRectSize - minRectSize) as real;
    if 0 <= minRectSize < maxRectSize then
      SizeDrawInRange(minRectSize, maxRectSize, u);
      Trunc(v)
    else
      Trunc(v)
  }

  /** Multiplying by a non-negative real keeps the order of two reals. */
  lemma RealMulMonotone(a: real, b: real, s: real)
    ensures 0.0 <= s && a <= b ==> a * s <= b * s
  {
  }

  /** The untruncated corner coordinate of a cell lies in [-filled/2, filled/2). */
  lemma CoordInSquare(cell: nat, grid: nat, filled: real)
    requires cell < grid && filled > 0.0
    ensures -filled / 2.0 <= -(filled / 2.0) + cell as real * (filled / grid as real) < filled / 2.0
  {
    var step := filled / grid as real;
    assert grid as real * step == filled;
    assert step > 0.0;
    RealMulMonotone(0.0, cell as real, step);
    RealMulMonotone(cell as real, (grid - 1) as real, step);
    assert (grid - 1) as real * step == grid as real * step - step;
  }

  /** One grid coordinate: `-(filled / 2) + cell * (filled / grid)`, truncated. */
  function SeedCoord(cell: nat, grid: nat, filled: real): (c: int)
    requires grid > 0
    ensures cell < grid && filled > 0.0 ==> -filled / 2.0 <= c as real < filled / 2.0
  {
    var v := -(filled / 2.0) + cell as real * (filled / grid as real);
    if cell < grid && filled > 0.0 then
      CoordInSquare(cell, grid, filled);
      Trunc(v)
    else
      Trunc(v)
  }

  /** Frame i of a seeding into a grid x grid square of side filled: the
      corner of its cell, and a width and a height drawn from u and v. */
  function SeedFrame(i: nat, grid: nat, filled: real, minRectSize: int, maxRectSize: int, u: Unit, v: Unit)
    : (r: Rect)
    requires i < grid * grid
    ensures filled > 0.0 ==>
      -filled / 2.0 <= r.x as real < filled / 2.0 && -filled / 2.0 <= r.y as real < filled / 2.0
    ensures 0 <= minRectSize < maxRectSize ==>
      minRectSize <= r.w < maxRectSize && minRectSize <= r.h < maxRectSize
  {
    RowInGrid(i, grid);
    var cell := Cell(i, grid);
    Rect(SeedCoord(cell.0, grid, filled), SeedCoord(cell.1, grid, filled),
         SeedSize(minRectSize, maxRectSize, u), SeedSize(minRectSize, maxRectSize, v))
  }

  /** `generateFramesCords`: frame i sits at the corner of grid cell
      `(i % grid, i / grid)` of the square of side `areaSize * 7 / 6` centred at
      the origin, and takes two draws (width, then height) at positions
      pos + 2i and pos + 2i + 1 of the stream. */
  function GenerateFramesCords(num: nat, areaSize: real, minRectSize: int, maxRectSize: int,
                               source: nat -> Unit, pos: nat): (frames: seq<Rect>)
    ensures |frames| == num
    ensures areaSize > 0.0 ==> forall i :: 0 <= i < num ==>
      var filled := areaSize + areaSize / 6.0;
      -filled / 2.0 <= frames[i].x as real < filled / 2.0 &&
      -filled / 2.0 <= frames[i].y as real < filled / 2.0
    ensures 0 <= minRectSize < maxRectSize ==> forall i :: 0 <= i < num ==>
      minRectSize <= frames[i].w < maxRectSize && minRectSize <= frames[i].h < maxRectSize
  {
    var grid := GridSize(num);
    var filled := areaSize + areaSize / 6.0;
    var indices := Range(num);
    seq(|indices|, k requires 0 <= k < |indices| =>
      SeedFrame(indices[k], grid, filled, minRectSize, maxRectSize,
                source(pos + 2 * indices[k]), source(pos + 2 * indices[k] + 1)))
  }

  /** `-(areaSize / 2) + next() * areaSize` on each axis: a point of the
      square of side areaSize centred at the origin. */
  function AttractionPoint(areaSize: real, u: Unit, v: Unit): (p: Point)
    ensures areaSize > 0.0 ==>
      -(areaSize / 2.0) <= p.x < areaSize / 2.0 && -(areaSize / 2.0) <= p.y < areaSize / 2.0
  {
    if areaSize > 0.0 then
      ScaleBelow(u, areaSize);
      ScaleBelow(v, areaSize);
      Point(-(areaSize / 2.0) + u * areaSize, -(areaSize / 2.0) + v * areaSize)
    else
      Point(-(areaSize / 2.0) + u * areaSize, -(areaSize / 2.0) + v * areaSize)
  }

  /** `generateFramesAttractionPoints`: num points of the square of side
      areaSize centred at the origin, two draws (x, then y) per point at
      positions pos + 2k and pos + 2k + 1 of the stream. */
  function GenerateFramesAttractionPoints(num: nat, areaSize: real, source: nat -> Unit, pos: nat)
    : (points: seq<Point>)
    ensures |points| == num
    ensures areaSize > 0.0 ==> forall k :: 0 <= k < num ==>
      -(areaSize / 2.0) <= points[k].x < areaSize / 2.0 &&
      -(areaSize / 2.0) <= points[k].y < areaSize / 2.0
  {
    var indices := Range(num);
    seq(|indices|, k requires 0 <= k < |indices| =>
      AttractionPoint(areaSize, source(pos + 2 * indices[k]), source(pos + 2 * indices[k] + 1)))
  }
}
