/**
 * The US EPA air quality index as the server computes it (packages/domain/src/aqi.ts).
 * The reference is
 * Equation 1 and the breakpoint table of 40 CFR Part 58, Appendix G. Numbers are
 * exact; the two infinities are inputs, NaN is not.
 */
module Aqi {
  datatype Num = NegInfinity | Finite(r: real) | PosInfinity

  datatype Band = Band(cLow: real, cHigh: real, iLow: int, iHigh: int)

  const PM25_BANDS: seq<Band> := [
    Band(0.0, 9.0, 0, 50), Band(9.1, 35.4, 51, 100), Band(35.5, 55.4, 101, 150),
    Band(55.5, 125.4, 151, 200), Band(125.5, 225.4, 201, 300), Band(225.5, 325.4, 301, 500)]

  const PM10_BANDS: seq<Band> := [
    Band(0.0, 54.0, 0, 50), Band(55.0, 154.0, 51, 100), Band(155.0, 254.0, 101, 150),
    Band(255.0, 354.0, 151, 200), Band(355.0, 424.0, 201, 300), Band(425.0, 604.0, 301, 500)]

  /** `Math.max(0, c)` */
  function NonNegative(c: Num): Num {
    match c
    case NegInfinity => Finite(0.0)
    case Finite(r) => Finite(if r < 0.0 then 0.0 else r)
    case PosInfinity => PosInfinity
  }

  /** `Math.floor(r * perUnit) / perUnit` */
  function FloorTo(r: real, perUnit: real): real
    requires perUnit > 0.0
  {
    (r * perUnit).Floor as real / perUnit
  }

  function Truncated(c: Num, perUnit: real): Num
    requires perUnit > 0.0
  {
    if c.Finite? then Finite(FloorTo(c.r, perUnit)) else c
  }

  predicate AtMost(c: Num, bound: real) {
    c.NegInfinity? || (c.Finite? && c.r <= bound)
  }

  /** `Math.min(Math.max(c, low), high)` */
  function Clamped(c: Num, low: real, high: real): real {
    match c
    case NegInfinity => low
    case PosInfinity => high
    case Finite(r) => var m := if r < low then low else r; if m > high then high else m
  }

  /** `Math.round` */
  function Round(x: real): int {
    (x + 0.5).Floor
  }

  /** The index of the first band that ends at or above `c`, else of the last band. */
  function FindBand(c: Num, bands: seq<Band>): (k: nat)
    requires bands != []
    ensures k < |bands|
  {
    if |bands| == 1 || AtMost(c, bands[0].cHigh) then 0 else 1 + FindBand(c, bands[1..])
  }

  /** Equation 1 on one band, before rounding. */
  function Interpolated(b: Band, c: real): real
    requires b.cLow < b.cHigh
  {
    (b.iHigh - b.iLow) as real / (b.cHigh - b.cLow) * (c - b.cLow) + b.iLow as real
  }

  predicate Proper(bands: seq<Band>) {
    bands != [] && forall k :: 0 <= k < |bands| ==> bands[k].cLow < bands[k].cHigh
  }

  function IndexOf(c: Num, bands: seq<Band>): int
    requires Proper(bands)
  {
    var b := bands[FindBand(c, bands)];
    Round(Interpolated(b, Clamped(c, b.cLow, b.cHigh)))
  }

  function SubIndex(c: Num, bands: seq<Band>, perUnit: real): int
    requires Proper(bands) && perUnit > 0.0
  {
    IndexOf(Truncated(NonNegative(c), perUnit), bands)
  }

  datatype Category = Good | Moderate | UnhealthySensitive | Unhealthy | VeryUnhealthy | Hazardous {
    /** 1 (best) to 6 (worst). */
    function Level(): nat {
      match this
      case Good => 1
      case Moderate => 2
      case UnhealthySensitive => 3
      case Unhealthy => 4
      case VeryUnhealthy => 5
      case Hazardous => 6
    }
  }

  function CategoryOf(aqi: int): Category {
    if aqi <= 50 then Good
    else if aqi <= 100 then Moderate
    else if aqi <= 150 then UnhealthySensitive
    else if aqi <= 200 then Unhealthy
    else if aqi <= 300 then VeryUnhealthy
    else Hazardous
  }

  datatype Result = Result(aqi: int, category: Category, pm25Dominant: bool)

  function Max(a: int, b: int): int {
    if a >= b then a else b
  }

  function Pm25Index(c: Num): int {
    SubIndex(c, PM25_BANDS, 10.0)
  }

  function Pm10Index(c: Num): int {
    SubIndex(c, PM10_BANDS, 1.0)
  }

  function Calculate(pm25: Num, pm10: Num): Result {
    var (i, j) := (Pm25Index(pm25), Pm10Index(pm10));
    Result(Max(i, j), CategoryOf(Max(i, j)), i >= j)
  }

  // -------------------- What holds of every regular table --------------------

  /** The bands follow one another on both scales. */
  predicate Regular(bands: seq<Band>) {
    && Proper(bands)
    && (forall k :: 0 <= k < |bands| ==> bands[k].iLow < bands[k].iHigh)
    && (forall k :: 0 < k < |bands| ==> bands[k - 1].cHigh < bands[k].cLow && bands[k - 1].iHigh < bands[k].iLow)
  }

  lemma Pm25IsRegular()
    ensures Regular(PM25_BANDS)
  {
    assert |PM25_BANDS| == 6;
  }

  lemma Pm10IsRegular()
    ensures Regular(PM10_BANDS)
  {
    assert |PM10_BANDS| == 6;
  }

  predicate NumLeq(a: Num, b: Num) {
    a.NegInfinity? || b.PosInfinity? || (a.Finite? && b.Finite? && a.r <= b.r)
  }

  lemma SlopeBounds(b: Band, c: real, c': real)
    requires b.cLow < b.cHigh && b.iLow < b.iHigh && b.cLow <= c <= c' <= b.cHigh
    ensures b.iLow as real <= Interpolated(b, c) <= Interpolated(b, c') <= b.iHigh as real
  {
    var (w, h) := (b.cHigh - b.cLow, (b.iHigh - b.iLow) as real);
    var slope := h / w;
    assert slope > 0.0;
    assert slope * w == h;
    assert slope * (c - b.cLow) <= slope * (c' - b.cLow) <= slope * w;
    assert 0.0 <= slope * (c - b.cLow);
  }

  /** Rounding never leaves the band. */
  lemma IndexInBand(c: Num, bands: seq<Band>)
    requires Regular(bands)
    ensures
      var b := bands[FindBand(c, bands)];
      b.iLow <= IndexOf(c, bands) <= b.iHigh
  {
    var b := bands[FindBand(c, bands)];
    var cc := Clamped(c, b.cLow, b.cHigh);
    SlopeBounds(b, cc, cc);
  }

  lemma {:induction false} FindBandMonotone(c: Num, c': Num, bands: seq<Band>)
    requires bands != [] && NumLeq(c, c')
    requires forall k :: 0 < k < |bands| ==> bands[k - 1].cHigh < bands[k].cHigh
    ensures FindBand(c, bands) <= FindBand(c', bands)
  {
    if |bands| > 1 && !AtMost(c, bands[0].cHigh) {
      var rest := bands[1..];
      assert forall k :: 0 < k < |rest| ==> rest[k - 1] == bands[k] && rest[k] == bands[k + 1];
      FindBandMonotone(c, c', rest);
    }
  }

  lemma {:induction false} BandOrder(bands: seq<Band>, i: nat, j: nat)
    requires Regular(bands) && i < j < |bands|
    ensures bands[i].iHigh < bands[j].iLow
    decreases j
  {
    if i < j - 1 {
      BandOrder(bands, i, j - 1);
      assert bands[j - 1].iLow < bands[j - 1].iHigh < bands[j].iLow;
    }
  }

  lemma {:induction false} BandIsFound(c: real, bands: seq<Band>, k: nat)
    requires Regular(bands) && k < |bands| && bands[k].cLow <= c <= bands[k].cHigh
    ensures FindBand(Finite(c), bands) == k
  {
    if k > 0 {
      var rest := bands[1..];
      assert forall j :: 0 <= j < |rest| ==> rest[j] == bands[j + 1];
      EarlierBandsEndBelow(bands, 0, k);
      BandIsFound(c, rest, k - 1);
    }
  }

  lemma {:induction false} EarlierBandsEndBelow(bands: seq<Band>, i: nat, k: nat)
    requires Regular(bands) && i < k < |bands|
    ensures bands[i].cHigh < bands[k].cLow
    decreases k
  {
    if i < k - 1 {
      EarlierBandsEndBelow(bands, i, k - 1);
      assert bands[k - 1].cLow < bands[k - 1].cHigh < bands[k].cLow;
    }
  }

  /** On the table the index is Equation 1 of the band that holds the concentration, rounded. */
  lemma IndexIsEquationOne(c: real, bands: seq<Band>, k: nat)
    requires Regular(bands) && k < |bands| && bands[k].cLow <= c <= bands[k].cHigh
    ensures IndexOf(Finite(c), bands) == Round(Interpolated(bands[k], c))
  {
    BandIsFound(c, bands, k);
  }

  lemma BandEdges(b: Band)
    requires b.cLow < b.cHigh
    ensures Round(Interpolated(b, b.cLow)) == b.iLow && Round(Interpolated(b, b.cHigh)) == b.iHigh
  {
    var (w, h) := (b.cHigh - b.cLow, (b.iHigh - b.iLow) as real);
    assert h / w * w == h;
    assert h / w * (b.cLow - b.cLow) == 0.0;
    assert Interpolated(b, b.cLow) == b.iLow as real && Interpolated(b, b.cHigh) == b.iHigh as real;
  }

  /** A higher concentration never has a lower index. */
  lemma IndexMonotone(c: Num, c': Num, bands: seq<Band>)
    requires Regular(bands) && NumLeq(c, c')
    ensures IndexOf(c, bands) <= IndexOf(c', bands)
  {
    assert forall k :: 0 < k < |bands| ==> bands[k - 1].cHigh < bands[k].cLow < bands[k].cHigh;
    FindBandMonotone(c, c', bands);
    var (i, j) := (FindBand(c, bands), FindBand(c', bands));
    if i < j {
      IndexInBand(c, bands);
      IndexInBand(c', bands);
      BandOrder(bands, i, j);
    } else {
      var b := bands[i];
      SlopeBounds(b, Clamped(c, b.cLow, b.cHigh), Clamped(c', b.cLow, b.cHigh));
    }
  }

  lemma FloorMonotone(x: real, y: real)
    requires x <= y
    ensures x.Floor <= y.Floor
  {
  }

  lemma FloorToMonotone(x: real, y: real, k: real)
    requires x <= y && (k == 1.0 || k == 10.0)
    ensures FloorTo(x, k) <= FloorTo(y, k)
  {
    if k == 1.0 {
      FloorMonotone(x * 1.0, y * 1.0);
    } else {
      FloorMonotone(x * 10.0, y * 10.0);
    }
  }

  lemma TruncationMonotone(c: Num, c': Num, perUnit: real)
    requires NumLeq(c, c') && (perUnit == 1.0 || perUnit == 10.0)
    ensures NumLeq(Truncated(NonNegative(c), perUnit), Truncated(NonNegative(c'), perUnit))
  {
    hide FloorTo;
    var (a, a') := (NonNegative(c), NonNegative(c'));
    if a.Finite? && a'.Finite? {
      FloorToMonotone(a.r, a'.r, perUnit);
    }
  }

  lemma SubIndexMonotone(c: Num, c': Num)
    requires NumLeq(c, c')
    ensures Pm25Index(c) <= Pm25Index(c') && Pm10Index(c) <= Pm10Index(c')
  {
    Pm25IsRegular();
    Pm10IsRegular();
    TruncationMonotone(c, c', 10.0);
    TruncationMonotone(c, c', 1.0);
    IndexMonotone(Truncated(NonNegative(c), 10.0), Truncated(NonNegative(c'), 10.0), PM25_BANDS);
    IndexMonotone(Truncated(NonNegative(c), 1.0), Truncated(NonNegative(c'), 1.0), PM10_BANDS);
  }

  /** The category whose band a concentration is in. */
  function BandCategory(k: nat): Category
    requires k < 6
  {
    [Good, Moderate, UnhealthySensitive, Unhealthy, VeryUnhealthy, Hazardous][k]
  }

  lemma Pm25Categories(k: nat, i: int)
    requires k < 6 && PM25_BANDS[k].iLow <= i <= PM25_BANDS[k].iHigh
    ensures CategoryOf(i) == BandCategory(k) && 0 <= i <= 500
  {
  }

  lemma Pm10Categories(k: nat, i: int)
    requires k < 6 && PM10_BANDS[k].iLow <= i <= PM10_BANDS[k].iHigh
    ensures CategoryOf(i) == BandCategory(k) && 0 <= i <= 500
  {
  }

  lemma WorseCategory(i: int, j: int, k: nat, l: nat)
    requires k < 6 && l < 6 && CategoryOf(i) == BandCategory(k) && CategoryOf(j) == BandCategory(l)
    ensures CategoryOf(Max(i, j)) == BandCategory(Max(k, l))
  {
  }

  /** The bands that a pair of concentrations falls in. */
  function Pm25Band(c: Num): nat {
    FindBand(Truncated(NonNegative(c), 10.0), PM25_BANDS)
  }

  function Pm10Band(c: Num): nat {
    FindBand(Truncated(NonNegative(c), 1.0), PM10_BANDS)
  }

  lemma Pm25Category(c: Num)
    ensures Pm25Band(c) < 6 && CategoryOf(Pm25Index(c)) == BandCategory(Pm25Band(c)) && 0 <= Pm25Index(c) <= 500
  {
    Pm25IsRegular();
    IndexInBand(Truncated(NonNegative(c), 10.0), PM25_BANDS);
    Pm25Categories(Pm25Band(c), Pm25Index(c));
  }

  lemma Pm10Category(c: Num)
    ensures Pm10Band(c) < 6 && CategoryOf(Pm10Index(c)) == BandCategory(Pm10Band(c)) && 0 <= Pm10Index(c) <= 500
  {
    Pm10IsRegular();
    IndexInBand(Truncated(NonNegative(c), 1.0), PM10_BANDS);
    Pm10Categories(Pm10Band(c), Pm10Index(c));
  }

  /**
   * The overall index is 0..500, that of the pollutant named as dominant and no less
   * than the other's, and its category is the worse of the two bands'.
   */
  lemma OverallCategory(pm25: Num, pm10: Num)
    ensures
      var r := Calculate(pm25, pm10);
      if r.pm25Dominant then r.aqi == Pm25Index(pm25) >= Pm10Index(pm10) else r.aqi == Pm10Index(pm10) > Pm25Index(pm25)
    ensures 0 <= Calculate(pm25, pm10).aqi <= 500
    ensures Pm25Band(pm25) < 6 && Pm10Band(pm10) < 6
    ensures Calculate(pm25, pm10).category == BandCategory(Max(Pm25Band(pm25), Pm10Band(pm10)))
  {
    hide Pm25Index, Pm10Index, Pm25Band, Pm10Band, CategoryOf, BandCategory;
    Pm25Category(pm25);
    Pm10Category(pm10);
    WorseCategory(Pm25Index(pm25), Pm10Index(pm10), Pm25Band(pm25), Pm10Band(pm10));
  }

  /** Above its last breakpoint a table gives its highest index. */
  lemma TopOfTheTable(c: Num, bands: seq<Band>)
    requires Regular(bands) && NumLeq(Finite(bands[|bands| - 1].cHigh), c)
    ensures IndexOf(c, bands) == bands[|bands| - 1].iHigh
  {
    var n := |bands| - 1;
    BandIsFound(bands[n].cHigh, bands, n);
    assert forall k :: 0 < k < |bands| ==> bands[k - 1].cHigh < bands[k].cLow < bands[k].cHigh;
    FindBandMonotone(Finite(bands[n].cHigh), c, bands);
    BandEdges(bands[n]);
  }

  // --------------------- One reporting step at a time ---------------------

  /** The index at `t` tenths of a microgram. */
  function AtTenths(t: nat): int {
    Pm25Index(Finite(t as real / 10.0))
  }

  lemma TenthsAreExact(t: nat)
    ensures AtTenths(t) == IndexOf(Finite(t as real / 10.0), PM25_BANDS)
  {
    assert t as real / 10.0 * 10.0 == t as real;
    assert (t as real).Floor == t;
  }

  /** The band of `t` tenths, read off the table. */
  function TenthsBand(t: nat): nat {
    if t <= 90 then 0 else if t <= 354 then 1 else if t <= 554 then 2
    else if t <= 1254 then 3 else if t <= 2254 then 4 else 5
  }

  /** Every reportable PM2.5 concentration up to 325.4 is in a band, and Equation 1 gives its index. */
  lemma IndexInTenthsBand(t: nat)
    requires t <= 3254
    ensures
      var b := PM25_BANDS[TenthsBand(t)];
      b.cLow <= t as real / 10.0 <= b.cHigh && AtTenths(t) == Round(Interpolated(b, t as real / 10.0))
  {
    hide AtTenths, Interpolated, IndexOf, FindBand;
    TenthsAreExact(t);
    Pm25IsRegular();
    IndexIsEquationOne(t as real / 10.0, PM25_BANDS, TenthsBand(t));
  }

  /** The band of `u` whole micrograms of PM10, read off the table. */
  function UnitsBand(u: nat): nat {
    if u <= 54 then 0 else if u <= 154 then 1 else if u <= 254 then 2
    else if u <= 354 then 3 else if u <= 424 then 4 else 5
  }

  /** The same for PM10 up to 604. */
  lemma IndexInUnitsBand(u: nat)
    requires u <= 604
    ensures
      var b := PM10_BANDS[UnitsBand(u)];
      b.cLow <= u as real <= b.cHigh && Pm10Index(Finite(u as real)) == Round(Interpolated(b, u as real))
  {
    hide Interpolated, IndexOf, FindBand;
    Pm10IsRegular();
    assert FloorTo(u as real, 1.0) == u as real;
    IndexIsEquationOne(u as real, PM10_BANDS, UnitsBand(u));
  }

  /** On a band that rises by no more than 10 per unit, 0.1 moves the index by at most one. */
  lemma StepInBand(b: Band, c: real, c': real)
    requires b.cLow < b.cHigh && b.iLow < b.iHigh && (b.iHigh - b.iLow) as real <= 10.0 * (b.cHigh - b.cLow)
    requires c' - c == 0.1
    ensures Round(Interpolated(b, c')) <= Round(Interpolated(b, c)) + 1
  {
    var (w, h) := (b.cHigh - b.cLow, (b.iHigh - b.iLow) as real);
    var slope := h / w;
    assert slope <= 10.0 by {
      assert slope * w == h;
    }
    assert slope * (c' - b.cLow) == slope * (c - b.cLow) + slope * 0.1;
  }

  lemma TenthInTheTable(t: nat)
    requires t < 3254
    ensures AtTenths(t) <= AtTenths(t + 1) <= AtTenths(t) + 1
  {
    hide AtTenths, Interpolated, Round, SubIndex;
    IndexInTenthsBand(t);
    IndexInTenthsBand(t + 1);
    var b, b' := PM25_BANDS[TenthsBand(t)], PM25_BANDS[TenthsBand(t + 1)];
    TenthsMonotone(t);
    if TenthsBand(t) == TenthsBand(t + 1) {
      StepInBand(b, t as real / 10.0, (t + 1) as real / 10.0);
    } else {
      assert t as real / 10.0 == b.cHigh && (t + 1) as real / 10.0 == b'.cLow && b'.iLow == b.iHigh + 1;
      BandEdges(b);
      BandEdges(b');
    }
  }

  lemma TenthsMonotone(t: nat)
    ensures AtTenths(t) <= AtTenths(t + 1)
  {
    SubIndexMonotone(Finite(t as real / 10.0), Finite((t + 1) as real / 10.0));
  }

  lemma AboveTheTable(t: nat)
    requires t >= 3254
    ensures AtTenths(t) == 500
  {
    TenthsAreExact(t);
    Pm25IsRegular();
    TopOfTheTable(Finite(t as real / 10.0), PM25_BANDS);
  }

  lemma NextTenth(t: nat)
    ensures AtTenths(t) <= AtTenths(t + 1) <= AtTenths(t) + 1
  {
    if t < 3254 {
      TenthInTheTable(t);
    } else {
      AboveTheTable(t);
      AboveTheTable(t + 1);
    }
  }

  /** The whole tenths in a concentration; none in a negative one. */
  function TenthsIn(c: real): nat {
    if c < 0.0 then 0 else (c * 10.0).Floor
  }

  lemma OnlyWholeTenthsCount(c: real)
    ensures Pm25Index(Finite(c)) == AtTenths(TenthsIn(c))
  {
    hide IndexOf;
    TenthsAreExact(TenthsIn(c));
    assert FloorTo(0.0, 10.0) == 0.0;
  }

  lemma OneMoreTenth(c: real)
    ensures TenthsIn(c + 0.1) == TenthsIn(c) + if c < 0.0 then 0 else 1
  {
    var x := c * 10.0;
    assert (c + 0.1) * 10.0 == x + 1.0;
    assert (x + 1.0).Floor == x.Floor + 1;
  }

  /** A step of 0.1 from any concentration moves the PM2.5 index up by at most one. */
  lemma TenthMovesByAtMostOne(c: real)
    ensures Pm25Index(Finite(c)) <= Pm25Index(Finite(c + 0.1)) <= Pm25Index(Finite(c)) + 1
  {
    hide AtTenths, Pm25Index, TenthsIn;
    OnlyWholeTenthsCount(c);
    OnlyWholeTenthsCount(c + 0.1);
    OneMoreTenth(c);
    NextTenth(TenthsIn(c));
  }

  /** Hence every index from 0 to 500 is the index of some PM2.5 concentration. */
  lemma {:induction false} EveryIndexReached(i: nat, upTo: nat) returns (t: nat)
    requires i <= AtTenths(upTo) && upTo <= 3254
    ensures t <= upTo && AtTenths(t) == i
    decreases upTo
  {
    if i == AtTenths(upTo) {
      t := upTo;
    } else {
      if upTo == 0 {
        ZeroAndTop();
        assert false;
      }
      NextTenth(upTo - 1);
      t := EveryIndexReached(i, upTo - 1);
    }
  }

  lemma ZeroAndTop()
    ensures AtTenths(0) == 0 && AtTenths(3254) == 500
  {
    IndexInTenthsBand(0);
    BandEdges(PM25_BANDS[0]);
    AboveTheTable(3254);
  }

  lemma Pm25IndexIsOnto(i: nat)
    requires i <= 500
    ensures exists t: nat :: t <= 3254 && AtTenths(t) == i
  {
    ZeroAndTop();
    var t := EveryIndexReached(i, 3254);
  }
}
