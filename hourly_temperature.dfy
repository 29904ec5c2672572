/**
 * The hourly temperature chart: the first eight forecast entries become
 * chart points, and the y-axis domain is the lowest and highest plotted
 * value rounded outward to multiples of five, with five degrees of padding.
 */
module HourlyTemperature {

  /** One forecast entry as the chart sees it (temperatures already rounded to whole degrees). */
  datatype Reading = Reading(dt: int, temp: int, feelsLike: int)

  /** One chart point; `time` is the hour label of the entry's timestamp. */
  datatype ChartPoint = ChartPoint(time: string, temp: int, feelsLike: int)

  /** A y-axis bound: `Math.min()` of no values is `Infinity`, `Math.max()` is `-Infinity`. */
  datatype Bound = Finite(v: int) | PosInfinity | NegInfinity

  datatype Domain = Domain(lower: Bound, upper: Bound)

  const ChartLength: nat := 8
  const Padding: int := 5

  /** `data.list.slice(0, 8).map(...)`: the first eight entries, in order. */
  function ChartData(list: seq<Reading>, hourLabel: int -> string): (r: seq<ChartPoint>)
    ensures |r| == if |list| < ChartLength then |list| else ChartLength
    ensures forall i :: 0 <= i < |r| ==>
      r[i].temp == list[i].temp && r[i].feelsLike == list[i].feelsLike && r[i].time == hourLabel(list[i].dt)
  {
    var n := if |list| < ChartLength then |list| else ChartLength;
    seq(n, i requires 0 <= i < n => ChartPoint(hourLabel(list[i].dt), list[i].temp, list[i].feelsLike))
  }

  /** Every plotted value: each point's temperature, then its feels-like value, point by point. */
  function Plotted(points: seq<ChartPoint>): (r: seq<int>)
    ensures |r| == 2 * |points|
    ensures forall p :: p in points ==> p.temp in r && p.feelsLike in r
    ensures forall v :: v in r ==> exists p :: p in points && (v == p.temp || v == p.feelsLike)
  {
    if points == [] then []
    else
      var rest := Plotted(points[1..]);
      assert forall p :: p in points[1..] ==> p in points;
      [points[0].temp, points[0].feelsLike] + rest
  }

  /** `Math.min` of a non-empty list. */
  function MinOf(vs: seq<int>): (r: int)
    requires vs != []
    ensures forall v :: v in vs ==> r <= v
    ensures r in vs
  {
    if |vs| == 1 then vs[0]
    else
      var m := MinOf(vs[1..]);
      assert forall v :: v in vs[1..] ==> v in vs;
      assert forall v :: v in vs ==> v == vs[0] || v in vs[1..];
      if vs[0] <= m then vs[0] else m
  }

  /** `Math.max` of a non-empty list. */
  function MaxOf(vs: seq<int>): (r: int)
    requires vs != []
    ensures forall v :: v in vs ==> v <= r
    ensures r in vs
  {
    if |vs| == 1 then vs[0]
    else
      var m := MaxOf(vs[1..]);
      assert forall v :: v in vs[1..] ==> v in vs;
      assert forall v :: v in vs ==> v == vs[0] || v in vs[1..];
      if vs[0] >= m then vs[0] else m
  }

  /** `Math.floor(m / 5) * 5` (Dafny's division by a positive number already floors). */
  function FloorToFive(m: int): (r: int)
    ensures r % 5 == 0 && r <= m < r + 5
  {
    (m / 5) * 5
  }

  /** `Math.ceil(m / 5) * 5`, as the floor of the negation. */
  function CeilToFive(m: int): (r: int)
    ensures r % 5 == 0 && r - 5 < m <= r
  {
    -(((-m) / 5) * 5)
  }

  /** The padded lower end for a minimum `m`: a multiple of five, at least five and under ten below `m`. */
  lemma PaddedFloor(m: int)
    ensures (FloorToFive(m) - Padding) % 5 == 0
    ensures m - 10 < FloorToFive(m) - Padding <= m - 5
  {
    var q := m / 5;
    assert FloorToFive(m) - Padding == 5 * (q - 1);
  }

  /** The padded upper end for a maximum `m`: a multiple of five, at least five and under ten above `m`. */
  lemma PaddedCeil(m: int)
    ensures (CeilToFive(m) + Padding) % 5 == 0
    ensures m + 5 <= CeilToFive(m) + Padding < m + 10
  {
    var q := (-m) / 5;
    assert CeilToFive(m) + Padding == 5 * (1 - q);
  }

  /**
   * `yAxisDomain`: the extremes rounded outward to multiples of five and
   * padded by five; with no points both ends are infinite.
   */
  function YAxisDomain(points: seq<ChartPoint>): (r: Domain)
    ensures points == [] <==> r == Domain(PosInfinity, NegInfinity)
    ensures points != [] ==> r.lower.Finite? && r.upper.Finite?
  {
    var vs := Plotted(points);
    if vs == [] then Domain(PosInfinity, NegInfinity)
    else Domain(Finite(FloorToFive(MinOf(vs)) - Padding), Finite(CeilToFive(MaxOf(vs)) + Padding))
  }

  /** The lower end is a multiple of five strictly within ten degrees below the minimum, and at least five below it. */
  lemma LowerBoundShape(points: seq<ChartPoint>)
    requires points != []
    ensures var lower, m := YAxisDomain(points).lower.v, MinOf(Plotted(points));
      lower % 5 == 0 && m - 10 < lower <= m - 5
  {
    var m := MinOf(Plotted(points));
    PaddedFloor(m);
    assert YAxisDomain(points).lower.v == FloorToFive(m) - Padding;
  }

  /** The upper end is a multiple of five at least five and under ten degrees above the maximum. */
  lemma UpperBoundShape(points: seq<ChartPoint>)
    requires points != []
    ensures var upper, m := YAxisDomain(points).upper.v, MaxOf(Plotted(points));
      upper % 5 == 0 && m + 5 <= upper < m + 10
  {
    var m := MaxOf(Plotted(points));
    PaddedCeil(m);
    assert YAxisDomain(points).upper.v == CeilToFive(m) + Padding;
  }

  /** Every plotted temperature and feels-like value sits at least five degrees inside the domain. */
  lemma PointsInsideDomain(points: seq<ChartPoint>)
    requires points != []
    ensures var d := YAxisDomain(points);
      && d.lower.v < d.upper.v
      && forall p :: p in points ==>
           d.lower.v + 5 <= p.temp <= d.upper.v - 5 && d.lower.v + 5 <= p.feelsLike <= d.upper.v - 5
  {
    LowerBoundShape(points);
    UpperBoundShape(points);
  }

  /** The domain of the chart built from a forecast is finite exactly when the forecast has entries. */
  lemma ChartDomainFinite(list: seq<Reading>, hourLabel: int -> string)
    ensures var d := YAxisDomain(ChartData(list, hourLabel));
      (d.lower.Finite? && d.upper.Finite?) <==> list != []
  {
  }
}
