/**
 The braille line chart of the terminal UI: values are interpolated over twice
 as many dot columns as characters, neighbouring columns are joined by vertical
 runs, and 2 x 4 dots share one character of the Unicode Braille Patterns block
 (section 21.1 of The Unicode Standard). Numbers are reals; a null or NaN value
 is a gap.
 */
module BrailleChart {
  import opened Common

  const BRAILLE_BASE := 0x2800

  // ------------------------------------------------------- Dots in a cell

  function Bit(row: nat, col: nat): bv8
    requires row < 4 && col < 2
  {
    if col == 0 then (if row == 0 then 0x01 else if row == 1 then 0x02 else if row == 2 then 0x04 else 0x40)
    else (if row == 0 then 0x08 else if row == 1 then 0x10 else if row == 2 then 0x20 else 0x80)
  }

  predicate Lit(mask: bv8, row: nat, col: nat)
    requires row < 4 && col < 2
  {
    mask & Bit(row, col) != 0
  }

  lemma LightingOneDot(mask: bv8, row: nat, col: nat, r: nat, c: nat)
    requires row < 4 && col < 2 && r < 4 && c < 2
    ensures Lit(mask | Bit(row, col), r, c) <==> Lit(mask, r, c) || (r == row && c == col)
  {
  }

  function CellChar(mask: bv8): char {
    if mask == 0 then ' ' else (BRAILLE_BASE + mask as int) as char
  }

  function CellMask(c: char): bv8 {
    if BRAILLE_BASE <= c as int < BRAILLE_BASE + 256 then (c as int - BRAILLE_BASE) as bv8 else 0
  }

  lemma CellRoundTrip(mask: bv8)
    ensures CellMask(CellChar(mask)) == mask
  {
    if mask != 0 {
      assert (BRAILLE_BASE + mask as int) as char as int == BRAILLE_BASE + mask as int;
    }
  }

  // Is dot (x, y) of the rendered rows set?
  predicate DotAt(rows: seq<string>, x: nat, y: nat) {
    y / 4 < |rows| && x / 2 < |rows[y / 4]| && Lit(CellMask(rows[y / 4][x / 2]), y % 4, x % 2)
  }

  // ------------------------------------------------------------ The line

  function Present(nums: seq<Option<real>>): seq<real> {
    if nums == [] then []
    else if nums[0].Some? then [nums[0].value] + Present(nums[1..]) else Present(nums[1..])
  }

  function Lowest(vs: seq<real>): (r: real)
    requires vs != []
    ensures forall i :: 0 <= i < |vs| ==> r <= vs[i]
    ensures r in vs
  {
    if |vs| == 1 || vs[0] < Lowest(vs[1..]) then vs[0] else Lowest(vs[1..])
  }

  function Highest(vs: seq<real>): (r: real)
    requires vs != []
    ensures forall i :: 0 <= i < |vs| ==> r >= vs[i]
    ensures r in vs
  {
    if |vs| == 1 || vs[0] > Highest(vs[1..]) then vs[0] else Highest(vs[1..])
  }

  function At(nums: seq<Option<real>>, i: int): Option<real> {
    if 0 <= i < |nums| then nums[i] else None
  }

  function Columns(width: nat): nat { Max(1, width) * 2 }

  function DotRows(height: nat): nat { Max(1, height) * 4 }

  // The fractional sample index under dot column x.
  function SampleIndex(count: nat, cols: nat, x: nat): real
    requires count >= 1 && cols >= 2
  {
    if count == 1 then 0.0 else x as real / (cols - 1) as real * (count - 1) as real
  }

  function Blend(a: real, b: real, f: real): real { a + (b - a) * f }

  function Interpolate(nums: seq<Option<real>>, t: real): Option<real> {
    var i0 := t.Floor;
    var v0, v1 := At(nums, i0), At(nums, Min(|nums| - 1, i0 + 1));
    if v0.None? then v1
    else if v1.None? then v0
    else Some(Blend(v0.value, v1.value, t - i0 as real))
  }

  function SampleAt(nums: seq<Option<real>>, cols: nat, x: nat): Option<real>
    requires nums != [] && cols >= 2
  {
    Interpolate(nums, SampleIndex(|nums|, cols, x))
  }

  function Span(nums: seq<Option<real>>): real
    requires Present(nums) != []
    ensures Span(nums) > 0.0
  {
    var d := Highest(Present(nums)) - Lowest(Present(nums));
    if d == 0.0 then 1.0 else d
  }

  // Math.round
  function Round(r: real): int { (r + 0.5).Floor }

  // Row 0 is the top: high values get low rows.
  function Scaled(lo: real, span: real, dotRows: nat, v: real): int
    requires span > 0.0
  {
    Round((1.0 - (v - lo) / span) * (dotRows - 1) as real)
  }

  function DotYOf(nums: seq<Option<real>>, dotRows: nat, v: real): int
    requires Present(nums) != []
  {
    Scaled(Lowest(Present(nums)), Span(nums), dotRows, v)
  }

  // The dot row of the line in column x, if the column is not a gap.
  function LineY(nums: seq<Option<real>>, width: nat, height: nat, x: nat): Option<int> {
    if Present(nums) == [] then None
    else
      var v := SampleAt(nums, Columns(width), x);
      if v.None? then None else Some(DotYOf(nums, DotRows(height), v.value))
  }

  // The vertical run drawn in column x: from the previous column's row to its own.
  predicate InRun(nums: seq<Option<real>>, width: nat, height: nat, x: nat, y: int) {
    var own := LineY(nums, width, height, x);
    var previous := if x == 0 then None else LineY(nums, width, height, x - 1);
    own.Some? &&
    var start := if previous.None? then own.value else previous.value;
    Min(start, own.value) <= y <= Max(start, own.value)
  }

  // ----------------------------------------------------------- Rendering

  predicate Decodes(grid: array2<bv8>, x: nat, y: nat)
    reads grid
    requires x / 2 < grid.Length1 && y / 4 < grid.Length0
  {
    Lit(grid[y / 4, x / 2], y % 4, x % 2)
  }

  // One column, joined to the one before.
  method DrawColumn(grid: array2<bv8>, values: seq<Option<real>>, width: nat, height: nat, x: nat, prevY: Option<int>)
    returns (y: Option<int>)
    requires Present(values) != []
    requires prevY == if x == 0 then None else LineY(values, width, height, x - 1)
    modifies grid
    ensures y == LineY(values, width, height, x)
    ensures forall a: nat, b: nat :: a < 2 * grid.Length1 && b < 4 * grid.Length0 ==>
              (Decodes(grid, a, b) <==> old(Decodes(grid, a, b)) || (a == x && InRun(values, width, height, x, b)))
  {
    var v := SampleAt(values, Columns(width), x);
    if v.None? { return None; }
    var own := DotYOf(values, DotRows(height), v.value);
    var start := if prevY.None? then own else prevY.value;
    assert forall b :: InRun(values, width, height, x, b) <==> Min(start, own) <= b <= Max(start, own);
    PlotRun(grid, x, Min(start, own), Max(start, own));
    return Some(own);
  }

  method DrawLine(values: seq<Option<real>>, width: nat, height: nat) returns (grid: array2<bv8>)
    ensures fresh(grid) && grid.Length0 == height && grid.Length1 == width
    ensures forall a: nat, b: nat :: a < 2 * width && b < 4 * height ==>
              (Decodes(grid, a, b) <==> InRun(values, width, height, a, b))
  {
    grid := new bv8[height, width]((_, _) => 0);
    if Present(values) == [] { return; }
    var prevY: Option<int> := None;
    for x := 0 to Columns(width)
      invariant prevY == if x == 0 then None else LineY(values, width, height, x - 1)
      invariant forall a: nat, b: nat :: a < 2 * width && b < 4 * height ==>
                  (Decodes(grid, a, b) <==> a < x && InRun(values, width, height, a, b))
    {
      prevY := DrawColumn(grid, values, width, height, x, prevY);
    }
  }

  /** Decoding the rendered rows gives back exactly the union of the runs. */
  method Render(values: seq<Option<real>>, width: nat, height: nat) returns (rows: seq<string>)
    ensures |rows| == height && forall r :: 0 <= r < height ==> |rows[r]| == width
    ensures forall x: nat, y: nat :: x < 2 * width && y < 4 * height ==>
              (DotAt(rows, x, y) <==> InRun(values, width, height, x, y))
    ensures forall r, c :: 0 <= r < height && 0 <= c < width ==> rows[r][c] == CellChar(CellMask(rows[r][c]))
  {
    var grid := DrawLine(values, width, height);
    rows := ToRows(grid, width, height);
    forall x: nat, y: nat | x < 2 * width && y < 4 * height
      ensures DotAt(rows, x, y) <==> InRun(values, width, height, x, y)
    {
      CellRoundTrip(grid[y / 4, x / 2]);
      assert DotAt(rows, x, y) <==> Decodes(grid, x, y);
    }
    forall r, c | 0 <= r < height && 0 <= c < width
      ensures rows[r][c] == CellChar(CellMask(rows[r][c]))
    {
      CellRoundTrip(grid[r, c]);
    }
  }

  // The plot calls of one column; dots outside the grid are skipped.
  method PlotRun(grid: array2<bv8>, x: nat, top: int, bottom: int)
    requires top <= bottom
    modifies grid
    ensures forall a: nat, b: nat :: a < 2 * grid.Length1 && b < 4 * grid.Length0 ==>
              (Decodes(grid, a, b) <==> old(Decodes(grid, a, b)) || (a == x && top <= b <= bottom))
  {
    for yy := top to bottom + 1
      invariant forall a: nat, b: nat :: a < 2 * grid.Length1 && b < 4 * grid.Length0 ==>
                  (Decodes(grid, a, b) <==> old(Decodes(grid, a, b)) || (a == x && top <= b < yy))
    {
      Plot(grid, x, yy);
    }
  }

  method Plot(grid: array2<bv8>, x: nat, dotY: int)
    modifies grid
    ensures forall a: nat, b: nat :: a < 2 * grid.Length1 && b < 4 * grid.Length0 ==>
              (Decodes(grid, a, b) <==> old(Decodes(grid, a, b)) || (a == x && b == dotY))
  {
    var cellX, cellY := x / 2, dotY / 4;
    if cellX < grid.Length1 && cellY < grid.Length0 && dotY >= 0 {
      ghost var before := grid[cellY, cellX];
      grid[cellY, cellX] := grid[cellY, cellX] | Bit(dotY % 4, x % 2);
      forall a: nat, b: nat | a < 2 * grid.Length1 && b < 4 * grid.Length0
        ensures Decodes(grid, a, b) <==> old(Decodes(grid, a, b)) || (a == x && b == dotY)
      {
        LightingOneDot(before, dotY % 4, x % 2, b % 4, a % 2);
      }
    }
  }

  method ToRows(grid: array2<bv8>, width: nat, height: nat) returns (rows: seq<string>)
    requires grid.Length0 == height && grid.Length1 == width
    ensures |rows| == height && forall r :: 0 <= r < height ==> |rows[r]| == width
    ensures forall r, c :: 0 <= r < height && 0 <= c < width ==> rows[r][c] == CellChar(grid[r, c])
  {
    rows := [];
    for r := 0 to height
      invariant |rows| == r
      invariant forall k :: 0 <= k < r ==> |rows[k]| == width
      invariant forall k, c :: 0 <= k < r && 0 <= c < width ==> rows[k][c] == CellChar(grid[k, c])
    {
      var row := "";
      for c := 0 to width
        invariant |row| == c
        invariant forall k :: 0 <= k < c ==> row[k] == CellChar(grid[r, k])
      {
        row := row + [CellChar(grid[r, c])];
      }
      rows := rows + [row];
    }
  }

  // ------------------------------------------------- No dot is out of bounds

  lemma {:induction false} PresentHas(nums: seq<Option<real>>, i: nat)
    requires i < |nums| && nums[i].Some?
    ensures nums[i].value in Present(nums)
  {
    if i == 0 {
    } else {
      PresentHas(nums[1..], i - 1);
    }
  }

  predicate Between(nums: seq<Option<real>>, v: real)
    requires Present(nums) != []
  {
    Lowest(Present(nums)) <= v <= Highest(Present(nums))
  }

  lemma ValueBetween(nums: seq<Option<real>>, i: int)
    requires At(nums, i).Some?
    ensures Present(nums) != [] && Between(nums, At(nums, i).value)
  {
    PresentHas(nums, i);
    var k :| 0 <= k < |Present(nums)| && Present(nums)[k] == nums[i].value;
  }

  lemma Product(a: real, b: real)
    requires a >= 0.0 && b >= 0.0
    ensures a * b >= 0.0
    ensures a > 0.0 && b > 0.0 ==> a * b > 0.0
  {
  }

  lemma Mix(lo: real, hi: real, a: real, b: real, f: real)
    requires lo <= a <= hi && lo <= b <= hi && 0.0 <= f <= 1.0
    ensures lo <= Blend(a, b, f) <= hi
  {
    Product(a - lo, 1.0 - f);
    Product(b - lo, f);
    assert Blend(a, b, f) == lo + (a - lo) * (1.0 - f) + (b - lo) * f;
    Product(hi - a, 1.0 - f);
    Product(hi - b, f);
    assert Blend(a, b, f) == hi - (hi - a) * (1.0 - f) - (hi - b) * f;
  }

  lemma BlendBetween(nums: seq<Option<real>>, a: real, b: real, f: real)
    requires Present(nums) != [] && Between(nums, a) && Between(nums, b) && 0.0 <= f <= 1.0
    ensures Between(nums, Blend(a, b, f))
  {
    Mix(Lowest(Present(nums)), Highest(Present(nums)), a, b, f);
  }

  lemma InterpolatedBetween(nums: seq<Option<real>>, t: real)
    requires Interpolate(nums, t).Some?
    ensures Present(nums) != [] && Between(nums, Interpolate(nums, t).value)
  {
    var i0 := t.Floor;
    var v0, v1 := At(nums, i0), At(nums, Min(|nums| - 1, i0 + 1));
    if v0.Some? { ValueBetween(nums, i0); }
    if v1.Some? { ValueBetween(nums, Min(|nums| - 1, i0 + 1)); }
    if v0.Some? && v1.Some? {
      BlendBetween(nums, v0.value, v1.value, t - i0 as real);
    }
  }

  lemma Quotient(x: real, d: real)
    requires d > 0.0
    ensures x / d * d == x
  {
  }

  lemma OrderOfFactors(a: real, b: real, d: real)
    requires d > 0.0 && a * d <= b * d
    ensures a <= b
  {
    assert (a - b) * d == a * d - b * d;
    assert a > b ==> (a - b) * d > 0.0;
  }

  lemma ScaledOrder(lo: real, span: real, dotRows: nat, v: real, w: real)
    requires span > 0.0 && dotRows >= 1 && v <= w
    ensures Scaled(lo, span, dotRows, w) <= Scaled(lo, span, dotRows, v)
  {
    var a, b, n := (v - lo) / span, (w - lo) / span, (dotRows - 1) as real;
    Quotient(v - lo, span);
    Quotient(w - lo, span);
    OrderOfFactors(a, b, span);
    Product(b - a, n);
    assert (1.0 - a) * n - (1.0 - b) * n == (b - a) * n;
  }

  lemma ScaledEnds(lo: real, span: real, dotRows: nat)
    requires span > 0.0 && dotRows >= 1
    ensures Scaled(lo, span, dotRows, lo) == dotRows - 1
    ensures Scaled(lo, span, dotRows, lo + span) == 0
  {
    var n := (dotRows - 1) as real;
    Quotient(0.0, span);
    OrderOfFactors(0.0 / span, 0.0, span);
    OrderOfFactors(0.0, 0.0 / span, span);
    Quotient(span, span);
    OrderOfFactors(span / span, 1.0, span);
    OrderOfFactors(1.0, span / span, span);
    assert lo - lo == 0.0 && lo + span - lo == span;
    assert (1.0 - 0.0) * n == n && (1.0 - 1.0) * n == 0.0;
  }

  lemma ScaledExtremes(lo: real, hi: real, span: real, dotRows: nat)
    requires span == if hi - lo == 0.0 then 1.0 else hi - lo
    requires span > 0.0 && dotRows >= 1
    ensures Scaled(lo, span, dotRows, lo) == dotRows - 1
    ensures lo < hi ==> Scaled(lo, span, dotRows, hi) == 0
  {
    ScaledEnds(lo, span, dotRows);
    assert lo < hi ==> hi == lo + span;
  }

  /** Higher values are drawn higher up; the lowest value on the bottom row,
      and the highest on the top row unless all values are equal. */
  lemma HigherIsHigherUp(nums: seq<Option<real>>, dotRows: nat, v: real, w: real)
    requires Present(nums) != [] && dotRows >= 1 && v <= w
    ensures DotYOf(nums, dotRows, w) <= DotYOf(nums, dotRows, v)
    ensures DotYOf(nums, dotRows, Lowest(Present(nums))) == dotRows - 1
    ensures Lowest(Present(nums)) < Highest(Present(nums)) ==> DotYOf(nums, dotRows, Highest(Present(nums))) == 0
  {
    var lo, hi, span := Lowest(Present(nums)), Highest(Present(nums)), Span(nums);
    ScaledOrder(lo, span, dotRows, v, w);
    ScaledExtremes(lo, hi, span, dotRows);
  }

  lemma LineStaysInside(nums: seq<Option<real>>, width: nat, height: nat, x: nat)
    requires LineY(nums, width, height, x).Some?
    ensures 0 <= LineY(nums, width, height, x).value < DotRows(height)
  {
    var v := SampleAt(nums, Columns(width), x).value;
    InterpolatedBetween(nums, SampleIndex(|nums|, Columns(width), x));
    HigherIsHigherUp(nums, DotRows(height), Lowest(Present(nums)), v);
    HigherIsHigherUp(nums, DotRows(height), v, Highest(Present(nums)));
  }

  /** No dot of a run is dropped by the bounds guard of plot if and only if the
      chart has room for it at all: at least one row and one column. */
  lemma NoDotIsDropped(nums: seq<Option<real>>, width: nat, height: nat, x: nat, y: int)
    ensures x < Columns(width) && InRun(nums, width, height, x, y) ==>
              && 0 <= y < DotRows(height)
              && ((x < 2 * width && 0 <= y < 4 * height) <==> width >= 1 && height >= 1)
  {
    if InRun(nums, width, height, x, y) {
      LineStaysInside(nums, width, height, x);
      if x > 0 && LineY(nums, width, height, x - 1).Some? {
        LineStaysInside(nums, width, height, x - 1);
      }
    }
  }

  // ------------------------------------------------------------ Connected

  /** Neighbouring columns that are not gaps are joined: both runs contain the
      left column's row, and each run is an unbroken vertical line. */
  lemma NeighboursAreJoined(nums: seq<Option<real>>, width: nat, height: nat, x: nat)
    requires LineY(nums, width, height, x).Some? && LineY(nums, width, height, x + 1).Some?
    ensures var y := LineY(nums, width, height, x).value;
      && InRun(nums, width, height, x, y)
      && InRun(nums, width, height, x + 1, y)
      && InRun(nums, width, height, x + 1, LineY(nums, width, height, x + 1).value)
    ensures forall a, b, c :: a <= b <= c && InRun(nums, width, height, x, a) && InRun(nums, width, height, x, c) ==>
              InRun(nums, width, height, x, b)
  {
  }

  lemma SampleIndexEnds(count: nat, cols: nat)
    requires count >= 1 && cols >= 2
    ensures SampleIndex(count, cols, 0) == 0.0
    ensures SampleIndex(count, cols, cols - 1) == if count == 1 then 0.0 else (count - 1) as real
  {
    var n := (cols - 1) as real;
    Quotient(0.0, n);
    OrderOfFactors(0.0 / n, 0.0, n);
    OrderOfFactors(0.0, 0.0 / n, n);
    Quotient(n, n);
    OrderOfFactors(n / n, 1.0, n);
    OrderOfFactors(1.0, n / n, n);
    assert 0.0 * (count - 1) as real == 0.0 && 1.0 * (count - 1) as real == (count - 1) as real;
  }

  lemma InterpolateAtSample(nums: seq<Option<real>>, i: nat)
    requires i < |nums| && nums[i].Some?
    ensures Interpolate(nums, i as real) == nums[i]
  {
    var next := At(nums, Min(|nums| - 1, i + 1));
    assert (i as real).Floor == i;
    assert next.Some? ==> Blend(nums[i].value, next.value, 0.0) == nums[i].value;
  }

  /** The first and last dot columns show the first and last value. */
  lemma EndsShowEndValues(nums: seq<Option<real>>, cols: nat)
    requires nums != [] && cols >= 2 && nums[0].Some? && nums[|nums| - 1].Some?
    ensures SampleAt(nums, cols, 0) == nums[0]
    ensures SampleAt(nums, cols, cols - 1) == nums[|nums| - 1]
  {
    SampleIndexEnds(|nums|, cols);
    InterpolateAtSample(nums, 0);
    InterpolateAtSample(nums, |nums| - 1);
  }
}
