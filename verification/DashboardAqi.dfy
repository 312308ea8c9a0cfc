/**
 * The dashboard's own copy of the index (apps/dashboard/src/lib/aqi.ts), written from
 * its own tables, search and arithmetic, and its agreement with the server's.
 */
module DashboardAqi {
  import opened Aqi

  datatype Breakpoint = Breakpoint(cLow: real, cHigh: real, iLow: int, iHigh: int)

  const PM25_BREAKPOINTS: seq<Breakpoint> := [
    Breakpoint(0.0, 9.0, 0, 50),
    Breakpoint(9.1, 35.4, 51, 100),
    Breakpoint(35.5, 55.4, 101, 150),
    Breakpoint(55.5, 125.4, 151, 200),
    Breakpoint(125.5, 225.4, 201, 300),
    Breakpoint(225.5, 325.4, 301, 500)]

  const PM10_BREAKPOINTS: seq<Breakpoint> := [
    Breakpoint(0.0, 54.0, 0, 50),
    Breakpoint(55.0, 154.0, 51, 100),
    Breakpoint(155.0, 254.0, 101, 150),
    Breakpoint(255.0, 354.0, 151, 200),
    Breakpoint(355.0, 424.0, 201, 300),
    Breakpoint(425.0, 604.0, 301, 500)]

  // ------------------------ JavaScript's arithmetic ------------------------

  function MathMax(a: Num, b: Num): Num {
    if NumLeq(a, b) then b else a
  }

  function MathMin(a: Num, b: Num): Num {
    if NumLeq(a, b) then a else b
  }

  function MathFloor(a: Num): Num {
    if a.Finite? then Finite(a.r.Floor as real) else a
  }

  function Times(a: Num, k: real): Num
    requires k > 0.0
  {
    if a.Finite? then Finite(a.r * k) else a
  }

  function Over(a: Num, k: real): Num
    requires k > 0.0
  {
    if a.Finite? then Finite(a.r / k) else a
  }

  // ------------------------------ The indices ------------------------------

  /** `breakpoints.find(...) ?? breakpoints[breakpoints.length - 1]`, from row `k` on. */
  function Find(concentration: Num, breakpoints: seq<Breakpoint>, k: nat): (r: nat)
    requires k <= |breakpoints| && breakpoints != []
    ensures r < |breakpoints|
    decreases |breakpoints| - k
  {
    if k == |breakpoints| then |breakpoints| - 1
    else if NumLeq(concentration, Finite(breakpoints[k].cHigh)) then k
    else Find(concentration, breakpoints, k + 1)
  }

  predicate Rising(breakpoints: seq<Breakpoint>) {
    breakpoints != [] && forall k :: 0 <= k < |breakpoints| ==> breakpoints[k].cLow < breakpoints[k].cHigh
  }

  /** The concentration moved into the band: a finite number. */
  function IntoBand(concentration: Num, bp: Breakpoint): (c: Num)
    requires bp.cLow < bp.cHigh
    ensures c.Finite?
  {
    MathMin(MathMax(concentration, Finite(bp.cLow)), Finite(bp.cHigh))
  }

  /** Equation 1, before rounding. */
  function Exact(bp: Breakpoint, c: real): real
    requires bp.cLow < bp.cHigh
  {
    (bp.iHigh - bp.iLow) as real / (bp.cHigh - bp.cLow) * (c - bp.cLow) + bp.iLow as real
  }

  function DashboardSubIndex(concentration: Num, breakpoints: seq<Breakpoint>): int
    requires Rising(breakpoints)
  {
    var bp := breakpoints[Find(concentration, breakpoints, 0)];
    (Exact(bp, IntoBand(concentration, bp).r) + 0.5).Floor
  }

  function Pm25ToAqi(pm25: Num): int {
    DashboardSubIndex(Over(MathFloor(Times(MathMax(Finite(0.0), pm25), 10.0)), 10.0), PM25_BREAKPOINTS)
  }

  function Pm10ToAqi(pm10: Num): int {
    DashboardSubIndex(MathFloor(MathMax(Finite(0.0), pm10)), PM10_BREAKPOINTS)
  }

  function ParticlesToAqi(pm25: Num, pm10: Num): int {
    var (i, j) := (Pm25ToAqi(pm25), Pm10ToAqi(pm10));
    if i < j then j else i
  }

  // ------------------------------- Agreement -------------------------------

  predicate SameRow(bp: Breakpoint, b: Band) {
    bp.cLow == b.cLow && bp.cHigh == b.cHigh && bp.iLow == b.iLow && bp.iHigh == b.iHigh
  }

  /** The two tables hold the same rows. */
  predicate SameRows(breakpoints: seq<Breakpoint>, bands: seq<Band>) {
    |breakpoints| == |bands| && forall k :: 0 <= k < |bands| ==> SameRow(breakpoints[k], bands[k])
  }

  /** Searching by position and searching by suffix find the same row. */
  lemma {:induction false} SearchesAgree(c: Num, breakpoints: seq<Breakpoint>, bands: seq<Band>, k: nat)
    requires SameRows(breakpoints, bands) && k < |bands|
    ensures Find(c, breakpoints, k) == k + FindBand(c, bands[k..])
    decreases |bands| - k
  {
    var rest := bands[k..];
    assert rest[0] == bands[k];
    if k + 1 < |bands| {
      assert rest[1..] == bands[k + 1..];
      SearchesAgree(c, breakpoints, bands, k + 1);
    }
  }

  lemma ClampsAgree(c: Num, bp: Breakpoint, b: Band)
    requires SameRow(bp, b) && b.cLow < b.cHigh
    ensures IntoBand(c, bp).r == Clamped(c, b.cLow, b.cHigh)
  {
  }

  lemma EquationsAgree(c: real, bp: Breakpoint, b: Band)
    requires SameRow(bp, b) && b.cLow < b.cHigh
    ensures Exact(bp, c) == Interpolated(b, c)
  {
    assert bp == Breakpoint(b.cLow, b.cHigh, b.iLow, b.iHigh);
  }

  /** On any two tables with the same rows the two ways to interpolate give the same index. */
  lemma SubIndicesAgree(c: Num, breakpoints: seq<Breakpoint>, bands: seq<Band>)
    requires SameRows(breakpoints, bands) && Proper(bands)
    ensures Rising(breakpoints) && DashboardSubIndex(c, breakpoints) == IndexOf(c, bands)
  {
    SearchesAgree(c, breakpoints, bands, 0);
    assert bands[0..] == bands;
    assert Rising(breakpoints);
    hide Find, FindBand, IntoBand, Clamped, Exact, Interpolated;
    var k := FindBand(c, bands);
    ClampsAgree(c, breakpoints[k], bands[k]);
    EquationsAgree(Clamped(c, bands[k].cLow, bands[k].cHigh), breakpoints[k], bands[k]);
  }

  lemma TablesAgree()
    ensures SameRows(PM25_BREAKPOINTS, PM25_BANDS) && SameRows(PM10_BREAKPOINTS, PM10_BANDS)
  {
    assert |PM25_BREAKPOINTS| == |PM25_BANDS| == |PM10_BREAKPOINTS| == |PM10_BANDS| == 6;
  }

  /** Both round down to the reporting step in the same way. */
  lemma TruncationsAgree(c: Num)
    ensures Over(MathFloor(Times(MathMax(Finite(0.0), c), 10.0)), 10.0) == Truncated(NonNegative(c), 10.0)
    ensures MathFloor(MathMax(Finite(0.0), c)) == Truncated(NonNegative(c), 1.0)
  {
    var t := NonNegative(c);
    if t.Finite? {
      assert FloorTo(t.r, 1.0) == t.r.Floor as real;
    }
  }

  /** The dashboard's indices are the server's, for every pair of inputs. */
  lemma DashboardAgrees(pm25: Num, pm10: Num)
    ensures Pm25ToAqi(pm25) == Pm25Index(pm25)
    ensures Pm10ToAqi(pm10) == Pm10Index(pm10)
    ensures ParticlesToAqi(pm25, pm10) == Calculate(pm25, pm10).aqi
  {
    hide DashboardSubIndex, IndexOf, Over, MathFloor, Times, MathMax, Truncated, NonNegative;
    TablesAgree();
    TruncationsAgree(pm25);
    TruncationsAgree(pm10);
    SubIndicesAgree(Truncated(NonNegative(pm25), 10.0), PM25_BREAKPOINTS, PM25_BANDS);
    SubIndicesAgree(Truncated(NonNegative(pm10), 1.0), PM10_BREAKPOINTS, PM10_BANDS);
  }

  // ------------------------------- Categories -------------------------------

  datatype CategoryRow = CategoryRow(id: string, level: nat, min: int, max: int)

  const AQI_CATEGORIES: seq<CategoryRow> := [
    CategoryRow("good", 1, 0, 50),
    CategoryRow("moderate", 2, 51, 100),
    CategoryRow("sensitive", 3, 101, 150),
    CategoryRow("unhealthy", 4, 151, 200),
    CategoryRow("veryUnhealthy", 5, 201, 300),
    CategoryRow("hazardous", 6, 301, 500)]

  /** `aqiCategory`: the first row that reaches `aqi`, else the last. */
  method AqiCategory(aqi: int) returns (row: CategoryRow)
    ensures row == match CategoryOf(aqi)
      case Good => CategoryRow("good", 1, 0, 50)
      case Moderate => CategoryRow("moderate", 2, 51, 100)
      case UnhealthySensitive => CategoryRow("sensitive", 3, 101, 150)
      case Unhealthy => CategoryRow("unhealthy", 4, 151, 200)
      case VeryUnhealthy => CategoryRow("veryUnhealthy", 5, 201, 300)
      case Hazardous => CategoryRow("hazardous", 6, 301, 500)
    ensures row.level == CategoryOf(aqi).Level() && (0 <= aqi <= 500 ==> row.min <= aqi <= row.max)
  {
    for k := 0 to |AQI_CATEGORIES|
      invariant forall j :: 0 <= j < k ==> AQI_CATEGORIES[j].max < aqi
    {
      if aqi <= AQI_CATEGORIES[k].max {
        assert k > 0 ==> AQI_CATEGORIES[k - 1].max < aqi;
        return AQI_CATEGORIES[k];
      }
    }
    assert AQI_CATEGORIES[5].max < aqi;
    return AQI_CATEGORIES[|AQI_CATEGORIES| - 1];
  }
}
