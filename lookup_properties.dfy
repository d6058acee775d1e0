/**
 * Properties of the lookup engine: what the index scan selects, exactness at
 * grid vertices, boundedness inside the grid, agreement of neighbouring
 * cells on their shared edge, the zero-width guard, and extrapolation
 * beyond the axes.
 */
module LookupProperties {
  import opened CArith
  import opened BmsLookup

  /** The scan's result is the only index with its two defining properties. */
  lemma SegmentCharacterised(axis: seq<real>, size: int, v: real, i: int)
    requires 2 <= size <= |axis|
    requires 0 <= i <= size - 2
    requires i == size - 2 || v <= axis[i + 1]
    requires forall k :: 0 < k <= i ==> v > axis[k]
    ensures Segment(axis, size, v) == i
  {
  }

  /** Inputs at or below the second sample use the first segment, also below the axis. */
  lemma {:induction false} SegmentBelowAxis(axis: seq<real>, size: int, v: real)
    requires 2 <= size <= |axis|
    requires v <= axis[1]
    ensures Segment(axis, size, v) == 0
  {
    SegmentCharacterised(axis, size, v, 0);
  }

  /** Inputs beyond the last interior sample use the last segment, also above the axis. */
  lemma {:induction false} SegmentAboveAxis(axis: seq<real>, size: int, v: real)
    requires 2 <= size && StrictlyIncreasing(axis, size)
    requires v > axis[size - 2]
    ensures Segment(axis, size, v) == size - 2
  {
    forall k | 0 < k <= size - 2
      ensures v > axis[k]
    {
      if k < size - 2 {
        assert axis[k] < axis[size - 2];
      }
    }
    SegmentCharacterised(axis, size, v, size - 2);
  }

  /** At sample k the scan selects the segment that ends at k (the first one for k = 0). */
  lemma SegmentAtSample(axis: seq<real>, size: int, k: int)
    requires 2 <= size && StrictlyIncreasing(axis, size)
    requires 0 <= k < size
    ensures Segment(axis, size, axis[k]) == if k == 0 then 0 else k - 1
  {
    if k == 0 {
      SegmentBelowAxis(axis, size, axis[0]);
    } else {
      forall m | 0 < m <= k - 1
        ensures axis[k] > axis[m]
      {
      }
      SegmentCharacterised(axis, size, axis[k], k - 1);
    }
  }

  /** Inside the axis the selected segment brackets the input. */
  lemma SegmentBrackets(axis: seq<real>, size: int, v: real)
    requires 2 <= size && StrictlyIncreasing(axis, size)
    requires axis[0] <= v <= axis[size - 1]
    ensures var i := Segment(axis, size, v); axis[i] <= v <= axis[i + 1]
  {
    var i := Segment(axis, size, v);
    if i > 0 {
      assert v > axis[i];
    }
  }

  lemma LerpAtEnds(t1: real, t2: real, a: real, b: real)
    requires t1 != t2
    ensures Lerp(t1, t2, t1, a, b) == a
    ensures Lerp(t1, t2, t2, a, b) == b
  {
    var d := t2 - t1;
    assert (t2 - t1) / d == 1.0;
    assert (t1 - t1) / d == 0.0;
  }

  /** Linear interpolation is the first value moved by a fraction of the gap. */
  lemma LerpAsFraction(t1: real, t2: real, t: real, a: real, b: real)
    requires t1 != t2
    ensures Lerp(t1, t2, t, a, b) == a + ((t - t1) / (t2 - t1)) * (b - a)
  {
    var d := t2 - t1;
    assert (t2 - t) / d + (t - t1) / d == d / d;
    assert d / d == 1.0;
  }

  lemma FractionInUnit(t1: real, t2: real, t: real)
    requires t1 < t2 && t1 <= t <= t2
    ensures 0.0 <= (t - t1) / (t2 - t1) <= 1.0
  {
    var d := t2 - t1;
    var w := (t - t1) / d;
    assert w * d == t - t1;
    assert t - t1 <= d;
    assert (1.0 - w) * d == d - (t - t1) >= 0.0;
  }

  /** Between its two points a linear interpolation stays between their values. */
  lemma LerpBetween(t1: real, t2: real, t: real, a: real, b: real)
    requires t1 < t2 && t1 <= t <= t2
    ensures Min(a, b) <= Lerp(t1, t2, t, a, b) <= Max(a, b)
  {
    LerpAsFraction(t1, t2, t, a, b);
    FractionInUnit(t1, t2, t);
    PartOfGap(a, b, (t - t1) / (t2 - t1));
  }

  /** Evaluated at a grid vertex, the interpolation returns that table entry. */
  lemma BilinearAtVertex(xAxis: seq<real>, yAxis: seq<real>, table: seq<real>, xSize: int, ySize: int,
                         a: int, b: int)
    requires LookupShape(xAxis, yAxis, table, xSize, ySize)
    requires StrictlyIncreasing(xAxis, xSize) && StrictlyIncreasing(yAxis, ySize)
    requires 0 <= a < xSize && 0 <= b < ySize
    ensures Bilinear(xAxis[a], yAxis[b], xAxis, yAxis, table, xSize, ySize) == Q(table, xSize, ySize, a, b)
  {
    SegmentAtSample(xAxis, xSize, a);
    SegmentAtSample(yAxis, ySize, b);
    var i := Segment(xAxis, xSize, xAxis[a]);
    var j := Segment(yAxis, ySize, yAxis[b]);
    var y := yAxis[b];
    var y1, y2 := yAxis[j], yAxis[j + 1];
    LerpAtEnds(y1, y2, Q(table, xSize, ySize, i, j), Q(table, xSize, ySize, i, j + 1));
    LerpAtEnds(y1, y2, Q(table, xSize, ySize, i + 1, j), Q(table, xSize, ySize, i + 1, j + 1));
    var rowI := Lerp(y1, y2, y, Q(table, xSize, ySize, i, j), Q(table, xSize, ySize, i, j + 1));
    var rowI1 := Lerp(y1, y2, y, Q(table, xSize, ySize, i + 1, j), Q(table, xSize, ySize, i + 1, j + 1));
    LerpAtEnds(xAxis[i], xAxis[i + 1], rowI, rowI1);
  }

  function MinCorner(table: seq<real>, xSize: int, ySize: int, i: int, j: int): real
    requires 0 <= i < xSize - 1 && 0 <= j < ySize - 1 && xSize * ySize <= |table|
  {
    Min(Min(Q(table, xSize, ySize, i, j), Q(table, xSize, ySize, i, j + 1)),
        Min(Q(table, xSize, ySize, i + 1, j), Q(table, xSize, ySize, i + 1, j + 1)))
  }

  function MaxCorner(table: seq<real>, xSize: int, ySize: int, i: int, j: int): real
    requires 0 <= i < xSize - 1 && 0 <= j < ySize - 1 && xSize * ySize <= |table|
  {
    Max(Max(Q(table, xSize, ySize, i, j), Q(table, xSize, ySize, i, j + 1)),
        Max(Q(table, xSize, ySize, i + 1, j), Q(table, xSize, ySize, i + 1, j + 1)))
  }

  /** Inside the grid the result lies between the smallest and largest corner of its cell. */
  lemma BilinearWithinCorners(x: real, y: real, xAxis: seq<real>, yAxis: seq<real>, table: seq<real>,
                              xSize: int, ySize: int)
    requires LookupShape(xAxis, yAxis, table, xSize, ySize)
    requires StrictlyIncreasing(xAxis, xSize) && StrictlyIncreasing(yAxis, ySize)
    requires xAxis[0] <= x <= xAxis[xSize - 1] && yAxis[0] <= y <= yAxis[ySize - 1]
    ensures var i, j := Segment(xAxis, xSize, x), Segment(yAxis, ySize, y);
            MinCorner(table, xSize, ySize, i, j) <= Bilinear(x, y, xAxis, yAxis, table, xSize, ySize)
                                                 <= MaxCorner(table, xSize, ySize, i, j)
  {
    var i, j := Segment(xAxis, xSize, x), Segment(yAxis, ySize, y);
    SegmentBrackets(xAxis, xSize, x);
    SegmentBrackets(yAxis, ySize, y);
    var q11, q12 := Q(table, xSize, ySize, i, j), Q(table, xSize, ySize, i, j + 1);
    var q21, q22 := Q(table, xSize, ySize, i + 1, j), Q(table, xSize, ySize, i + 1, j + 1);
    var y1, y2 := yAxis[j], yAxis[j + 1];
    LerpBetween(y1, y2, y, q11, q12);
    LerpBetween(y1, y2, y, q21, q22);
    LerpBetween(xAxis[i], xAxis[i + 1], x, Lerp(y1, y2, y, q11, q12), Lerp(y1, y2, y, q21, q22));
  }

  /** Inside the grid the result stays within any bounds that hold for every table entry. */
  lemma BilinearWithinTableBounds(x: real, y: real, xAxis: seq<real>, yAxis: seq<real>, table: seq<real>,
                                  xSize: int, ySize: int, lo: real, hi: real)
    requires LookupShape(xAxis, yAxis, table, xSize, ySize)
    requires StrictlyIncreasing(xAxis, xSize) && StrictlyIncreasing(yAxis, ySize)
    requires xAxis[0] <= x <= xAxis[xSize - 1] && yAxis[0] <= y <= yAxis[ySize - 1]
    requires forall a, b :: 0 <= a < xSize && 0 <= b < ySize ==> lo <= Q(table, xSize, ySize, a, b) <= hi
    ensures lo <= Bilinear(x, y, xAxis, yAxis, table, xSize, ySize) <= hi
  {
    var i, j := Segment(xAxis, xSize, x), Segment(yAxis, ySize, y);
    BilinearWithinCorners(x, y, xAxis, yAxis, table, xSize, ySize);
    assert lo <= Q(table, xSize, ySize, i, j) <= hi;
    assert lo <= Q(table, xSize, ySize, i, j + 1) <= hi;
    assert lo <= Q(table, xSize, ySize, i + 1, j) <= hi;
    assert lo <= Q(table, xSize, ySize, i + 1, j + 1) <= hi;
  }

  /**
   * Neighbouring cells agree on the axis sample they share, so the
   * interpolated surface has no jump where x crosses a sample.
   */
  lemma CellsAgreeOnSharedEdge(y: real, xAxis: seq<real>, yAxis: seq<real>, table: seq<real>,
                               xSize: int, ySize: int, i: int, j: int)
    requires LookupShape(xAxis, yAxis, table, xSize, ySize)
    requires 1 <= i <= xSize - 2 && 0 <= j <= ySize - 2
    requires xAxis[i - 1] != xAxis[i] && xAxis[i] != xAxis[i + 1] && yAxis[j] != yAxis[j + 1]
    ensures CellValue(xAxis[i], y, xAxis, yAxis, table, xSize, ySize, i - 1, j)
         == CellValue(xAxis[i], y, xAxis, yAxis, table, xSize, ySize, i, j)
  {
    var y1, y2 := yAxis[j], yAxis[j + 1];
    var rowBefore := Lerp(y1, y2, y, Q(table, xSize, ySize, i - 1, j), Q(table, xSize, ySize, i - 1, j + 1));
    var rowAt := Lerp(y1, y2, y, Q(table, xSize, ySize, i, j), Q(table, xSize, ySize, i, j + 1));
    var rowAfter := Lerp(y1, y2, y, Q(table, xSize, ySize, i + 1, j), Q(table, xSize, ySize, i + 1, j + 1));
    LerpAtEnds(xAxis[i - 1], xAxis[i], rowBefore, rowAt);
    LerpAtEnds(xAxis[i], xAxis[i + 1], rowAt, rowAfter);
  }

  /**
   * The same along y: the two cells meeting on the shared temperature sample
   * yAxis[j] give the same value there, for every x. With the lemma above,
   * the surface has no jump on any interior sample line.
   */
  lemma CellsAgreeOnSharedEdgeAlongY(x: real, xAxis: seq<real>, yAxis: seq<real>, table: seq<real>,
                                     xSize: int, ySize: int, i: int, j: int)
    requires LookupShape(xAxis, yAxis, table, xSize, ySize)
    requires 0 <= i <= xSize - 2 && 1 <= j <= ySize - 2
    requires xAxis[i] != xAxis[i + 1] && yAxis[j - 1] != yAxis[j] && yAxis[j] != yAxis[j + 1]
    ensures CellValue(x, yAxis[j], xAxis, yAxis, table, xSize, ySize, i, j - 1)
         == CellValue(x, yAxis[j], xAxis, yAxis, table, xSize, ySize, i, j)
  {
    var y0, y1, y2 := yAxis[j - 1], yAxis[j], yAxis[j + 1];
    LerpAtEnds(y0, y1, Q(table, xSize, ySize, i, j - 1), Q(table, xSize, ySize, i, j));
    LerpAtEnds(y1, y2, Q(table, xSize, ySize, i, j), Q(table, xSize, ySize, i, j + 1));
    LerpAtEnds(y0, y1, Q(table, xSize, ySize, i + 1, j - 1), Q(table, xSize, ySize, i + 1, j));
    LerpAtEnds(y1, y2, Q(table, xSize, ySize, i + 1, j), Q(table, xSize, ySize, i + 1, j + 1));
  }

  /**
   * When the cell the scan selects has zero width along either axis, the
   * interpolation returns that cell's lower-left table entry, whatever x and y.
   */
  lemma BilinearOnZeroWidthCell(x: real, y: real, xAxis: seq<real>, yAxis: seq<real>, table: seq<real>,
                                xSize: int, ySize: int)
    requires LookupShape(xAxis, yAxis, table, xSize, ySize)
    requires var i := Segment(xAxis, xSize, x);
             var j := Segment(yAxis, ySize, y);
             xAxis[i] == xAxis[i + 1] || yAxis[j] == yAxis[j + 1]
    ensures Bilinear(x, y, xAxis, yAxis, table, xSize, ySize)
         == Q(table, xSize, ySize, Segment(xAxis, xSize, x), Segment(yAxis, ySize, y))
  {
  }

  /**
   * The zero-width guard: with a degenerate voltage axis every input yields
   * the lower-left corner, where the formula would divide by zero.
   */
  lemma ZeroWidthCellYieldsCorner(x: real, y: real)
    ensures Bilinear(x, y, [1.0, 1.0], [0.0, 10.0], [3.0, 5.0, 7.0, 9.0], 2, 2) == 3.0
  {
  }

  // ---------------------------------------------------------------------
  // The calibration lookups
  // ---------------------------------------------------------------------

  lemma CalibrationAxesIncrease()
    ensures StrictlyIncreasing(VLookupAxis(), 100)
    ensures StrictlyIncreasing(TLookupAxis(), 7)
    ensures StrictlyIncreasing(SocLookupAxis(), 10)
  {
  }

  /** Every SOC-table entry is a percentage. */
  lemma SocTableEntriesArePercentages()
    ensures forall a, b :: 0 <= a < 100 && 0 <= b < 7 ==> 0.0 <= Q(SocLookupTable(), 100, 7, a, b) <= 100.0
  {
    forall a, b | 0 <= a < 100 && 0 <= b < 7
      ensures 0.0 <= Q(SocLookupTable(), 100, 7, a, b) <= 100.0
    {
      assert (a * 7 + b) / 7 == a && (a * 7 + b) % 7 == b;
      if a < 99 {
        var scaled := 100.0 * (a as real) / 99.0 * 100.0 + 0.5;
        assert scaled <= 9899.5;
        assert scaled.Floor <= 9899;
      }
    }
  }

  /**
   * For a voltage and a temperature within the calibration axes, the
   * open-circuit-voltage SOC is a percentage.
   */
  lemma OcvSocInRangeWithinAxes(voltage: real, temperature: real)
    requires VLookupAxis()[0] <= voltage <= VLookupAxis()[99]
    requires 263.0 <= temperature <= 313.0
    ensures 0.0 <= OcvSoc(voltage, temperature) <= 100.0
  {
    CalibrationAxesIncrease();
    SocTableEntriesArePercentages();
    BilinearWithinTableBounds(voltage, temperature, VLookupAxis(), TLookupAxis(), SocLookupTable(), 100, 7, 0.0, 100.0);
  }

  /**
   * Inputs beyond the axes are extrapolated, not clamped: a Celsius
   * temperature passed against the kelvin axis at the lowest calibrated
   * voltage gives a negative SOC, below every table entry.
   */
  lemma OcvSocExtrapolatesBelowTemperatureAxis()
    ensures OcvSoc(12.0584, 25.0) == -4.76
  {
    SegmentBelowAxis(VLookupAxis(), 100, 12.0584);
    SegmentBelowAxis(TLookupAxis(), 7, 25.0);
    assert SocLookupTable()[0] == 0.0;
    assert SocLookupTable()[1] == 0.2;
    LerpAtEnds(12.0584, 12.0721, Lerp(263.0, 273.0, 25.0, 0.0, 0.2),
               Lerp(263.0, 273.0, 25.0, SocLookupTable()[7], SocLookupTable()[8]));
  }

  /**
   * The SOC lookup at a calibrated point (voltage sample 50, 296 K) returns
   * the table entry: row 50's rounded percentage plus the 0.4-point bias of
   * that temperature column.
   */
  lemma OcvSocAtCalibratedPoint()
    ensures OcvSoc(VLookupAxis()[50], 296.0) == 50.91
  {
    CalibrationAxesIncrease();
    assert TLookupAxis()[4] == 296.0;
    BilinearAtVertex(VLookupAxis(), TLookupAxis(), SocLookupTable(), 100, 7, 50, 4);
    assert 354 / 7 == 50 && 354 % 7 == 4;
    assert (100.0 * 50.0 / 99.0 * 100.0 + 0.5).Floor == 5051;
    assert SocTableEntry(50, 4) == 50.91;
  }

  /** The resistance lookup at a calibrated point (50 %, 296 K) returns the table entry. */
  lemma InternalResistanceAtSample()
    ensures InternalResistance(50.0, 296.0) == 0.008
  {
    CalibrationAxesIncrease();
    assert SocLookupAxis()[5] == 50.0 && TLookupAxis()[4] == 296.0;
    BilinearAtVertex(SocLookupAxis(), TLookupAxis(), RInternalLookupTable(), 10, 7, 5, 4);
  }
}
