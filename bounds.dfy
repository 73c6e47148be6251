/**
 The plot limits, computed once from the whole table before the animation
 starts: the column-wise extremes of x and y, padded on both axes by one
 margin, a tenth of the larger of the two spans, so that every position of
 every particle at every step stays in view.
 */
module Bounds {
  import opened Table

  function Lesser(a: real, b: real): real { if a <= b then a else b }

  function Larger(a: real, b: real): real { if a <= b then b else a }

  /** The smallest value of a column over a non-empty table: no row is
      below it and some row has it. */
  function Lowest(df: seq<Sample>, axis: Axis): (m: real)
    requires |df| > 0
    ensures forall k :: 0 <= k < |df| ==> m <= Coord(df[k], axis)
    ensures exists k :: 0 <= k < |df| && Coord(df[k], axis) == m
  {
    if |df| == 1 then Coord(df[0], axis)
    else
      var rest := Lowest(df[1..], axis);
      assert forall k :: 1 <= k < |df| ==> df[1..][k - 1] == df[k];
      Lesser(Coord(df[0], axis), rest)
  }

  /** The largest value of a column over a non-empty table: no row is
      above it and some row has it. */
  function Highest(df: seq<Sample>, axis: Axis): (m: real)
    requires |df| > 0
    ensures forall k :: 0 <= k < |df| ==> Coord(df[k], axis) <= m
    ensures exists k :: 0 <= k < |df| && Coord(df[k], axis) == m
  {
    if |df| == 1 then Coord(df[0], axis)
    else
      var rest := Highest(df[1..], axis);
      assert forall k :: 1 <= k < |df| ==> df[1..][k - 1] == df[k];
      Larger(Coord(df[0], axis), rest)
  }

  /** The extent of one column. */
  function Span(df: seq<Sample>, axis: Axis): real
    requires |df| > 0
  {
    Highest(df, axis) - Lowest(df, axis)
  }

  /** A tenth of the larger of the two spans. */
  function Margin(xMin: real, xMax: real, yMin: real, yMax: real): real
  {
    0.1 * Larger(xMax - xMin, yMax - yMin)
  }

  /** Axis limits: [xLo, xHi] horizontally, [yLo, yHi] vertically. */
  datatype Limits = Limits(xLo: real, xHi: real, yLo: real, yHi: real)

  /** Pads the box [xMin, xMax] x [yMin, yMax] by the margin. Both axes get
      the same padding on both sides; ten times it covers either span and
      equals one of them, so it is a tenth of the larger span, and it is
      never negative once either span is. */
  function PadBox(xMin: real, xMax: real, yMin: real, yMax: real): (l: Limits)
    ensures var pad := l.xHi - xMax;
      && xMin - l.xLo == pad && l.yHi - yMax == pad && yMin - l.yLo == pad
      && 10.0 * pad >= xMax - xMin && 10.0 * pad >= yMax - yMin
      && (10.0 * pad == xMax - xMin || 10.0 * pad == yMax - yMin)
      && (xMin <= xMax || yMin <= yMax ==> pad >= 0.0)
  {
    var margin := Margin(xMin, xMax, yMin, yMax);
    Limits(xMin - margin, xMax + margin, yMin - margin, yMax + margin)
  }

  /** The limits set on the axes: the column extremes over the whole table,
      padded by the margin. Every sample of every step lies inside them. */
  function PlotLimits(df: seq<Sample>): (l: Limits)
    requires |df| > 0
    ensures forall k :: 0 <= k < |df| ==> l.xLo <= df[k].x <= l.xHi && l.yLo <= df[k].y <= l.yHi
  {
    var l := PadBox(Lowest(df, X), Highest(df, X), Lowest(df, Y), Highest(df, Y));
    assert forall k :: 0 <= k < |df| ==> Coord(df[k], X) == df[k].x && Coord(df[k], Y) == df[k].y;
    l
  }

  /** A table whose rows all occur in another has its column extremes
      within the other's. */
  lemma ExtremesWithin(a: seq<Sample>, b: seq<Sample>, axis: Axis)
    requires |a| > 0 && |b| > 0 && multiset(a) <= multiset(b)
    ensures Lowest(b, axis) <= Lowest(a, axis) && Highest(a, axis) <= Highest(b, axis)
  {
    var k :| 0 <= k < |a| && Coord(a[k], axis) == Lowest(a, axis);
    assert a[k] in multiset(b);
    var k' :| 0 <= k' < |b| && b[k'] == a[k];
    var j :| 0 <= j < |a| && Coord(a[j], axis) == Highest(a, axis);
    assert a[j] in multiset(b);
    var j' :| 0 <= j' < |b| && b[j'] == a[j];
  }

  /** Reordering the rows of the table does not move the limits: they
      depend on the positions only, not on the frame order. */
  lemma LimitsIgnoreRowOrder(df: seq<Sample>, df': seq<Sample>)
    requires |df| > 0 && multiset(df) == multiset(df')
    ensures |df'| > 0
    ensures PlotLimits(df) == PlotLimits(df')
  {
    assert df[0] in multiset(df');
    assert |df'| > 0;
    assert Lowest(df, X) == Lowest(df', X) && Highest(df, X) == Highest(df', X) by {
      ExtremesWithin(df, df', X);
      ExtremesWithin(df', df, X);
    }
    assert Lowest(df, Y) == Lowest(df', Y) && Highest(df, Y) == Highest(df', Y) by {
      ExtremesWithin(df, df', Y);
      ExtremesWithin(df', df, Y);
    }
  }

  /** The computed x limits coincide exactly when every sample sits at the
      first sample's (x, y); the margin gives no guard against it. */
  lemma ZeroWidthIffOnePoint(df: seq<Sample>)
    requires |df| > 0
    ensures var l := PlotLimits(df);
      (l.xLo == l.xHi) <==> forall k :: 0 <= k < |df| ==> df[k].x == df[0].x && df[k].y == df[0].y
  {
    var l := PlotLimits(df);
    if l.xLo == l.xHi {
      assert Span(df, X) == 0.0 && Span(df, Y) == 0.0;
      forall k | 0 <= k < |df|
        ensures df[k].x == df[0].x && df[k].y == df[0].y
      {
        assert Coord(df[k], X) == df[k].x && Coord(df[0], X) == df[0].x;
        assert Coord(df[k], Y) == df[k].y && Coord(df[0], Y) == df[0].y;
      }
    }
    if forall k :: 0 <= k < |df| ==> df[k].x == df[0].x && df[k].y == df[0].y {
      var ix :| 0 <= ix < |df| && Coord(df[ix], X) == Lowest(df, X);
      var jx :| 0 <= jx < |df| && Coord(df[jx], X) == Highest(df, X);
      var iy :| 0 <= iy < |df| && Coord(df[iy], Y) == Lowest(df, Y);
      var jy :| 0 <= jy < |df| && Coord(df[jy], Y) == Highest(df, Y);
      assert Span(df, X) == 0.0 && Span(df, Y) == 0.0;
    }
  }
}
