/**
 * The lookup engine of bms_algo.c: bilinear interpolation over a flattened,
 * row-major table indexed by two axes, and the two calibration lookups built
 * on it (open-circuit-voltage SOC and internal resistance).
 *
 * An input outside an axis is not clamped: the scan settles on the first or
 * the last segment of that axis and the cell's formula is extended beyond it.
 */
module BmsLookup {
  import opened CArith

  /** The table and sizes a caller passes: at least two samples per axis, and
   *  arrays at least as long as the sizes claim. */
  predicate LookupShape(xAxis: seq<real>, yAxis: seq<real>, table: seq<real>, xSize: int, ySize: int) {
    && 2 <= xSize <= |xAxis|
    && 2 <= ySize <= |yAxis|
    && xSize * ySize <= |table|
  }

  /** The first `size` samples of an axis strictly increase. */
  predicate StrictlyIncreasing(axis: seq<real>, size: int) {
    && size <= |axis|
    && forall i, j :: 0 <= i < j < size ==> axis[i] < axis[j]
  }

  /** Row-major position of element (i, j) of a table with `ySize` columns. */
  lemma FlatIndexInBounds(i: int, j: int, xSize: int, ySize: int)
    requires 0 <= i < xSize && 0 <= j < ySize
    ensures 0 <= i * ySize + j < xSize * ySize
  {
    var k := xSize - (i + 1);
    assert xSize * ySize == i * ySize + ySize + k * ySize;
    assert 0 <= k * ySize && 0 <= i * ySize;
  }

  /** Element (i, j) of the flattened table, read at i * ySize + j. */
  function Q(table: seq<real>, xSize: int, ySize: int, i: int, j: int): real
    requires 0 <= i < xSize && 0 <= j < ySize && xSize * ySize <= |table|
  {
    FlatIndexInBounds(i, j, xSize, ySize);
    table[i * ySize + j]
  }

  /**
   * The segment the scan settles on when it starts at index `from`: the least
   * index i >= from that is the last segment or whose upper end is at least v.
   */
  function SegmentFrom(axis: seq<real>, size: int, v: real, from: int): (i: int)
    requires 2 <= size <= |axis| && 0 <= from <= size - 2
    ensures from <= i <= size - 2
    ensures i == size - 2 || v <= axis[i + 1]
    ensures forall k :: from < k <= i ==> v > axis[k]
    decreases size - from
  {
    if from == size - 2 || v <= axis[from + 1] then from
    else SegmentFrom(axis, size, v, from + 1)
  }

  /** The segment the scan of an axis settles on for input v. */
  function Segment(axis: seq<real>, size: int, v: real): (i: int)
    requires 2 <= size <= |axis|
  {
    SegmentFrom(axis, size, v, 0)
  }

  /** Linear interpolation (or extrapolation) through (t1, a) and (t2, b). */
  function Lerp(t1: real, t2: real, t: real, a: real, b: real): real
    requires t1 != t2
  {
    ((t2 - t) / (t2 - t1)) * a + ((t - t1) / (t2 - t1)) * b
  }

  /** The bilinear surface of cell (i, j), interpolating along y first and then x. */
  function CellValue(x: real, y: real, xAxis: seq<real>, yAxis: seq<real>, table: seq<real>,
                     xSize: int, ySize: int, i: int, j: int): real
    requires LookupShape(xAxis, yAxis, table, xSize, ySize)
    requires 0 <= i <= xSize - 2 && 0 <= j <= ySize - 2
    requires xAxis[i] != xAxis[i + 1] && yAxis[j] != yAxis[j + 1]
  {
    Lerp(xAxis[i], xAxis[i + 1], x,
         Lerp(yAxis[j], yAxis[j + 1], y, Q(table, xSize, ySize, i, j), Q(table, xSize, ySize, i, j + 1)),
         Lerp(yAxis[j], yAxis[j + 1], y, Q(table, xSize, ySize, i + 1, j), Q(table, xSize, ySize, i + 1, j + 1)))
  }

  /**
   * What the interpolation returns: the bilinear surface of the cell the two
   * scans select, or the cell's lower-left corner when either side of that
   * cell has zero width.
   */
  function Bilinear(x: real, y: real, xAxis: seq<real>, yAxis: seq<real>, table: seq<real>,
                    xSize: int, ySize: int): real
    requires LookupShape(xAxis, yAxis, table, xSize, ySize)
  {
    var i := Segment(xAxis, xSize, x);
    var j := Segment(yAxis, ySize, y);
    if xAxis[i + 1] - xAxis[i] == 0.0 || yAxis[j + 1] - yAxis[j] == 0.0 then Q(table, xSize, ySize, i, j)
    else CellValue(x, y, xAxis, yAxis, table, xSize, ySize, i, j)
  }

  /**
   * The index scan of BMS_BilinearInterpolate, run once per axis: starting
   * at segment 0, advance while another segment remains and v lies beyond
   * the current segment's upper end.
   */
  method FindSegment(axis: seq<real>, size: int, v: real) returns (idx: int)
    requires 2 <= size <= |axis|
    ensures 0 <= idx <= size - 2
    ensures idx == size - 2 || v <= axis[idx + 1]
    ensures forall k :: 0 < k <= idx ==> v > axis[k]
    ensures idx == Segment(axis, size, v)
  {
    idx := 0;
    while idx < size - 2 && v > axis[idx + 1]
      invariant 0 <= idx <= size - 2
      invariant forall k :: 0 < k <= idx ==> v > axis[k]
      invariant SegmentFrom(axis, size, v, idx) == Segment(axis, size, v)
    {
      idx := idx + 1;
    }
  }

  /** BMS_BilinearInterpolate */
  method BilinearInterpolate(x: real, y: real, xAxis: seq<real>, yAxis: seq<real>, table: seq<real>,
                             xSize: int, ySize: int) returns (r: real)
    requires LookupShape(xAxis, yAxis, table, xSize, ySize)
    ensures r == Bilinear(x, y, xAxis, yAxis, table, xSize, ySize)
  {
    var xIdx := FindSegment(xAxis, xSize, x);
    var yIdx := FindSegment(yAxis, ySize, y);

    var x1 := xAxis[xIdx];
    var x2 := xAxis[xIdx + 1];
    var y1 := yAxis[yIdx];
    var y2 := yAxis[yIdx + 1];

    FlatIndexInBounds(xIdx, yIdx, xSize, ySize);
    FlatIndexInBounds(xIdx, yIdx + 1, xSize, ySize);
    FlatIndexInBounds(xIdx + 1, yIdx, xSize, ySize);
    FlatIndexInBounds(xIdx + 1, yIdx + 1, xSize, ySize);
    var q11 := table[xIdx * ySize + yIdx];
    var q12 := table[xIdx * ySize + (yIdx + 1)];
    var q21 := table[(xIdx + 1) * ySize + yIdx];
    var q22 := table[(xIdx + 1) * ySize + (yIdx + 1)];

    assert q11 == Q(table, xSize, ySize, xIdx, yIdx) && q12 == Q(table, xSize, ySize, xIdx, yIdx + 1);
    assert q21 == Q(table, xSize, ySize, xIdx + 1, yIdx) && q22 == Q(table, xSize, ySize, xIdx + 1, yIdx + 1);

    if x2 - x1 == 0.0 || y2 - y1 == 0.0 {
      return q11;
    }

    var fX1Y := ((y2 - y) / (y2 - y1)) * q11 + ((y - y1) / (y2 - y1)) * q12;
    var fX2Y := ((y2 - y) / (y2 - y1)) * q21 + ((y - y1) / (y2 - y1)) * q22;
    assert fX1Y == Lerp(y1, y2, y, q11, q12) && fX2Y == Lerp(y1, y2, y, q21, q22);

    r := ((x2 - x) / (x2 - x1)) * fX1Y + ((x - x1) / (x2 - x1)) * fX2Y;
    assert r == Lerp(x1, x2, x, fX1Y, fX2Y);
  }

  // ---------------------------------------------------------------------
  // Calibration data, read-only and shared. The generated tables are written
  // in closed form; each form reproduces every literal of the corresponding
  // C array exactly. They are zero-argument functions rather than constants.
  // ---------------------------------------------------------------------

  /** Open-circuit voltage axis: 100 samples, 13.7 mV apart from 12.0584 V. */
  function VLookupAxis(): seq<real> {
    seq(100, i => 12.0584 + 0.0137 * (i as real))
  }

  /** Temperature axis in kelvin. */
  function TLookupAxis(): seq<real> {
    [263.0, 273.0, 283.0, 293.0, 296.0, 303.0, 313.0]
  }

  /** SOC axis of the resistance table: 0 %, 10 %, ..., 90 %. */
  function SocLookupAxis(): seq<real> {
    seq(10, i => 10.0 * (i as real))
  }

  /** Rounding half up to two decimals. */
  function RoundToCents(v: real): real {
    ((v * 100.0 + 0.5).Floor as real) / 100.0
  }

  /** Temperature bias of the SOC table: largest (0.5 points) at 293 K. */
  function TemperatureOffset(col: int): real {
    if col == 3 then 0.5
    else if col == 2 || col == 4 then 0.4
    else if col == 1 || col == 5 then 0.2
    else 0.0
  }

  /** Row `row` of the SOC table holds 100·row/99 % (to the cent) plus the
   *  temperature bias; the last row is 100 % throughout. */
  function SocTableEntry(row: int, col: int): real {
    if row == 99 then 100.0 else RoundToCents(100.0 * (row as real) / 99.0) + TemperatureOffset(col)
  }

  /** SOC table, 100 rows (voltage) by 7 columns (temperature), row-major. */
  function SocLookupTable(): seq<real> {
    seq(700, k => SocTableEntry(k / 7, k % 7))
  }

  /** Internal resistance table (ohms), 10 rows (SOC) by 7 columns (temperature). */
  function RInternalLookupTable(): seq<real> {
    [0.050, 0.045, 0.040, 0.035, 0.033, 0.030, 0.025,
     0.045, 0.040, 0.035, 0.030, 0.028, 0.025, 0.020,
     0.040, 0.035, 0.030, 0.025, 0.023, 0.020, 0.015,
     0.035, 0.030, 0.025, 0.020, 0.018, 0.015, 0.012,
     0.030, 0.025, 0.020, 0.015, 0.013, 0.010, 0.008,
     0.025, 0.020, 0.015, 0.010, 0.008, 0.005, 0.003,
     0.020, 0.015, 0.010, 0.005, 0.003, 0.002, 0.001,
     0.018, 0.013, 0.008, 0.003, 0.001, 0.000, 0.000,
     0.015, 0.010, 0.005, 0.000, 0.000, 0.000, 0.000,
     0.012, 0.007, 0.002, 0.000, 0.000, 0.000, 0.000]
  }

  /** SOC (%) read from the open-circuit-voltage table. */
  function OcvSoc(voltage: real, temperature: real): real {
    Bilinear(voltage, temperature, VLookupAxis(), TLookupAxis(), SocLookupTable(), 100, 7)
  }

  /** Internal resistance (ohms) read from the resistance table. */
  function InternalResistance(soc: real, temperature: real): real {
    Bilinear(soc, temperature, SocLookupAxis(), TLookupAxis(), RInternalLookupTable(), 10, 7)
  }

  /** BMS_GetOCVSOC */
  method GetOcvSoc(voltage: real, temperature: real) returns (soc: real)
    ensures soc == OcvSoc(voltage, temperature)
  {
    soc := BilinearInterpolate(voltage, temperature, VLookupAxis(), TLookupAxis(), SocLookupTable(), 100, 7);
  }

  /** BMS_GetInternalResistance */
  method GetInternalResistance(soc: real, temperature: real) returns (ohms: real)
    ensures ohms == InternalResistance(soc, temperature)
  {
    ohms := BilinearInterpolate(soc, temperature, SocLookupAxis(), TLookupAxis(), RInternalLookupTable(), 10, 7);
  }
}
