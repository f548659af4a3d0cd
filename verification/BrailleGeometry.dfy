/**
 Where the braille chart puts its dots: the cells are those of the Unicode Braille
 Patterns block (section 21.1 of The Unicode Standard), the line through the samples
 is the straight one, and a value is drawn on the dot row nearest to it.
 */
module BrailleGeometry {
  import opened Common
  import opened BrailleChart

  // Dots 1, 2, 3 and 7 are the left column from the top, 4, 5, 6 and 8 the right.
  predicate IsDot(row: nat, col: nat, dot: nat) {
    (row < 3 && col == 0 && dot == row + 1) || (row == 3 && col == 0 && dot == 7) ||
    (row < 3 && col == 1 && dot == row + 4) || (row == 3 && col == 1 && dot == 8)
  }

  /** Dot d of a pattern is bit d - 1 of its code point above U+2800; a cell without
      dots is a space. */
  lemma CellsAreUnicode(mask: bv8, row: nat, col: nat, dot: nat)
    requires IsDot(row, col, dot)
    ensures Lit(mask, row, col) <==> (mask >> (dot - 1)) & 1 == 1
    ensures mask != 0 ==> CellChar(mask) as int == 0x2800 + mask as int
    ensures mask == 0 ==> CellChar(mask) == ' '
  {
    if mask != 0 {
      assert (0x2800 + mask as int) as char as int == 0x2800 + mask as int;
    }
  }

  // ------------------------------------------------------------- The line

  lemma Multiple(a: real, b: real, n: real)
    requires 0.0 <= a <= b && n >= 0.0
    ensures 0.0 <= a * n <= b * n
  {
  }

  lemma IndexOf(count: nat, cols: nat, x: nat)
    requires count >= 1 && cols >= 2 && x < cols
    ensures 0.0 <= SampleIndex(count, cols, x) <= (count - 1) as real
    ensures SampleIndex(count, cols, x) * (cols - 1) as real == x as real * (count - 1) as real
  {
    if count > 1 {
      var n, c := (cols - 1) as real, (count - 1) as real;
      var q := x as real / n;
      Quotient(x as real, n);
      OrderOfFactors(0.0, q, n);
      OrderOfFactors(q, 1.0, n);
      Multiple(q, 1.0, c);
      assert q * c * n == q * n * c;
    }
  }

  function Line(p: real, q: real, t: real): real { p + q * t }

  predicate Straight(nums: seq<Option<real>>, p: real, q: real) {
    forall i :: 0 <= i < |nums| ==> nums[i] == Some(Line(p, q, i as real))
  }

  lemma BlendOnLine(p: real, q: real, i: int, t: real)
    ensures Blend(Line(p, q, i as real), Line(p, q, (i + 1) as real), t - i as real) == Line(p, q, t)
  {
    var f := t - i as real;
    assert Line(p, q, (i + 1) as real) - Line(p, q, i as real) == q;
    assert q * f == q * t - q * i as real;
  }

  lemma BlendOfEqual(a: real, f: real)
    ensures Blend(a, a, f) == a
  {
    assert a - a == 0.0;
  }

  lemma InterpolatesLine(nums: seq<Option<real>>, p: real, q: real, t: real)
    requires nums != [] && Straight(nums, p, q) && 0.0 <= t <= (|nums| - 1) as real
    ensures Interpolate(nums, t) == Some(Line(p, q, t))
  {
    var i := t.Floor;
    if i == |nums| - 1 {
      assert t == i as real;
      BlendOfEqual(Line(p, q, t), t - i as real);
    } else {
      BlendOnLine(p, q, i, t);
    }
  }

  /** Samples on a straight line are drawn on that line: dot column x shows it at the
      x / (columns - 1) part of the way from the first sample to the last. */
  lemma StraightStaysStraight(nums: seq<Option<real>>, p: real, q: real, cols: nat, x: nat)
    requires nums != [] && Straight(nums, p, q) && cols >= 2 && x < cols
    ensures var v := SampleAt(nums, cols, x);
            v.Some? && (v.value - p) * (cols - 1) as real == q * (x as real * (|nums| - 1) as real)
  {
    var t, n := SampleIndex(|nums|, cols, x), (cols - 1) as real;
    IndexOf(|nums|, cols, x);
    InterpolatesLine(nums, p, q, t);
    assert q * t * n == q * (t * n);
  }

  /** A dot column is a gap exactly if both samples next to it are missing; if one is,
      it shows the other. */
  lemma GapsAreShown(nums: seq<Option<real>>, cols: nat, x: nat, i: nat)
    requires cols >= 2 && x < cols && i < |nums|
    requires i as real <= SampleIndex(|nums|, cols, x) < (i + 1) as real
    ensures var v, next := SampleAt(nums, cols, x), if i + 1 < |nums| then nums[i + 1] else nums[i];
      && (v.None? <==> nums[i].None? && next.None?)
      && (nums[i].Some? && next.None? ==> v == nums[i])
      && (nums[i].None? && next.Some? ==> v == next)
  {
    assert SampleIndex(|nums|, cols, x).Floor == i;
  }

  // ------------------------------------------------------------- The rows

  /** A value is drawn on the row nearest to where it is between the highest value, at
      row 0, and the lowest, at the last row; a value half way goes down a row. */
  lemma NearestRow(lo: real, span: real, dotRows: nat, v: real)
    requires span > 0.0 && dotRows >= 1
    ensures var y, depth := Scaled(lo, span, dotRows, v) as real, (lo + span - v) * (dotRows - 1) as real;
            (y - 0.5) * span <= depth < (y + 0.5) * span
  {
    var f, n := (v - lo) / span, (dotRows - 1) as real;
    var exact := (1.0 - f) * n;
    var y := Scaled(lo, span, dotRows, v) as real;
    Quotient(v - lo, span);
    assert exact * span == (span - f * span) * n;
    assert y - 0.5 <= exact < y + 0.5;
    Ordered(y - 0.5, exact, span);
    Ordered(exact, y + 0.5, span);
  }

  lemma Ordered(a: real, b: real, d: real)
    requires d > 0.0
    ensures a <= b ==> a * d <= b * d
    ensures a < b ==> a * d < b * d
  {
    assert (b - a) * d == b * d - a * d;
    Product(if b >= a then b - a else 0.0, d);
  }

  lemma Extremes(vs: seq<real>, lo: real, hi: real)
    requires vs != [] && lo in vs && hi in vs && forall w :: w in vs ==> lo <= w <= hi
    ensures Lowest(vs) == lo && Highest(vs) == hi
  {
  }

  // Row y is the nearest to where v is between hi and lo, on dotRows rows.
  predicate IsNearest(y: int, lo: real, hi: real, dotRows: nat, v: real) {
    (y as real - 0.5) * (hi - lo) <= (hi - v) * (dotRows - 1) as real < (y as real + 0.5) * (hi - lo)
  }

  lemma NearestBetween(lo: real, hi: real, dotRows: nat, v: real)
    requires hi - lo > 0.0 && dotRows >= 1
    ensures IsNearest(Scaled(lo, hi - lo, dotRows, v), lo, hi, dotRows, v)
  {
    NearestRow(lo, hi - lo, dotRows, v);
    assert lo + (hi - lo) - v == hi - v;
  }

  lemma SpanIs(nums: seq<Option<real>>, lo: real, hi: real)
    requires Present(nums) != [] && Lowest(Present(nums)) == lo && Highest(Present(nums)) == hi && lo < hi
    ensures Span(nums) == hi - lo
  {
  }

  /** So a chart draws a value nearest to its place between the lowest and the
      highest sample. */
  lemma DrawnAtItsPlace(nums: seq<Option<real>>, dotRows: nat, v: real, lo: real, hi: real)
    requires dotRows >= 1 && Present(nums) != [] && lo in Present(nums) && hi in Present(nums) && lo < hi
    requires forall w :: w in Present(nums) ==> lo <= w <= hi
    ensures IsNearest(DotYOf(nums, dotRows, v), lo, hi, dotRows, v)
  {
    Extremes(Present(nums), lo, hi);
    SpanIs(nums, lo, hi);
    NearestBetween(lo, hi, dotRows, v);
  }
}
