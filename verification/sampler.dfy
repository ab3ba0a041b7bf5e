/**
 * `LocationService.generate_random_location`: a weighted choice of a region
 * followed by a uniform point inside it, rounded to six decimals. The random
 * source is an input: `random.random()` yields `k / 2^53`, written here as the
 * integer `k`, and `random.choice` yields an index into the weighted list.
 */
module Sampler {
  import opened Regions

  /** Denominator of `random.random()`: its results are multiples of 2^-53. */
  const RandomScale: nat := 0x20_0000_0000_0000

  /**
   * A draw of `random.random()`, as the numerator over `RandomScale`. The
   * closed upper end stands for the float rounding that lets
   * `random.uniform(a, b)` return `b` itself.
   */
  type Fraction = k: int | 0 <= k <= RandomScale

  /** A position in micro-degrees; six decimal places of a degree. */
  datatype Coordinate = Coordinate(lat: int, lng: int)

  /** The random choices one call consumes: the `random.choice` index and two uniform draws. */
  datatype Draw = Draw(pick: nat, latFraction: Fraction, lngFraction: Fraction)

  /** A draw the source's own twelve-entry weighted list can produce. */
  type TableDraw = d: Draw | d.pick < WeightedLength witness Draw(0, 0, 0)

  predicate Between(x: int, a: int, b: int) {
    (a <= x <= b) || (b <= x <= a)
  }

  predicate InBox(c: Coordinate, b: Bounds) {
    Between(c.lat, b.latMin, b.latMax) && Between(c.lng, b.lngMin, b.lngMax)
  }

  /**
   * `round(random.uniform(lo, hi), 6)` in micro-degrees: `lo + (hi - lo) * u / 2^53`
   * rounded to the nearest integer (halves upwards). Rounding cannot leave
   * the interval, because its ends are themselves whole micro-degrees.
   */
  function Uniform(lo: int, hi: int, u: Fraction): (x: int)
    ensures Between(x, lo, hi)
    ensures u == 0 ==> x == lo
    ensures u == RandomScale ==> x == hi
    // x is the micro-degree nearest to lo + (hi - lo) * u / 2^53, halves rounding up
    ensures var s: int := RandomScale; -s < 2 * s * (x - lo) - 2 * (hi - lo) * u <= s
  {
    RoundedScaleBounds(hi - lo, u, RandomScale);
    var n := (hi - lo) * u * 2 + RandomScale;
    assert n == 2 * RandomScale * (n / (2 * RandomScale)) + n % (2 * RandomScale);
    lo + n / (2 * RandomScale)
  }

  /** `(d * u / s)` rounded to nearest lies between 0 and `d`, and hits both ends. */
  lemma RoundedScaleBounds(d: int, u: int, s: int)
    requires s > 0 && 0 <= u <= s
    ensures Between((d * u * 2 + s) / (2 * s), 0, d)
    ensures u == 0 ==> (d * u * 2 + s) / (2 * s) == 0
    ensures u == s ==> (d * u * 2 + s) / (2 * s) == d
  {
    var p := d * u;
    if d >= 0 {
      MulMonotone(d, 0, u);
      MulMonotone(d, u, s);
    } else {
      MulMonotone(-d, 0, u);
      MulMonotone(-d, u, s);
    }
    RoundedBounds(p, d, s);
    if u == 0 {
      DivExact(s, 2 * s, 0);
    }
    if u == s {
      assert p * 2 + s == 2 * s * d + s;
      DivExact(p * 2 + s, 2 * s, d);
    }
  }

  /** Rounding `p / s` to nearest, for `p` between 0 and `d * s`, stays between 0 and `d`. */
  lemma RoundedBounds(p: int, d: int, s: int)
    requires s > 0
    requires d >= 0 ==> 0 <= p <= d * s
    requires d < 0 ==> d * s <= p <= 0
    ensures Between((p * 2 + s) / (2 * s), 0, d)
  {
    var n := p * 2 + s;
    var m := 2 * s;
    if d >= 0 {
      DivLower(n, m, 0);
      assert n < m * (d + 1);
      DivUpper(n, m, d);
    } else {
      assert m * d <= n;
      DivLower(n, m, d);
      DivUpper(n, m, 0);
    }
  }

  lemma DivExact(n: int, m: int, q: int)
    requires m > 0 && m * q <= n < m * (q + 1)
    ensures n / m == q
  {
    DivLower(n, m, q);
    DivUpper(n, m, q);
  }

  lemma DivLower(n: int, m: int, lo: int)
    requires m > 0 && m * lo <= n
    ensures lo <= n / m
  {
    var q := n / m;
    assert n == m * q + n % m;
    if q < lo {
      MulMonotone(m, q, lo - 1);
    }
  }

  lemma DivUpper(n: int, m: int, hi: int)
    requires m > 0 && n < m * (hi + 1)
    ensures n / m <= hi
  {
    var q := n / m;
    assert n == m * q + n % m;
    if q > hi {
      MulMonotone(m, hi + 1, q);
    }
  }

  lemma MulMonotone(a: int, x: int, y: int)
    requires a >= 0 && x <= y
    ensures a * x <= a * y
  {
    assert a * y - a * x == a * (y - x);
  }

  /** `random.choice(weighted_regions)`: the entry of the weighted list the index selects. */
  function ChooseRegion(table: seq<Region>, pick: nat): (b: Bounds)
    requires pick < |Expand(table)|
    ensures exists i :: 0 <= i < |table| && Copies(table[i]) > 0 && table[i].bounds == b
  {
    ExpandEntryFromTable(table, pick);
    Expand(table)[pick]
  }

  /** A point drawn inside a region's box. */
  function PointIn(b: Bounds, d: Draw): (c: Coordinate)
    ensures InBox(c, b)
    ensures WellFormed(b) ==> b.latMin <= c.lat <= b.latMax && b.lngMin <= c.lng <= b.lngMax
  {
    Coordinate(Uniform(b.latMin, b.latMax, d.latFraction), Uniform(b.lngMin, b.lngMax, d.lngFraction))
  }

  /**
   * The sampler over an arbitrary table: the chosen region is a row of the
   * table with a positive weight, and the point lies inside that row's box.
   */
  function SampleFrom(table: seq<Region>, d: Draw): (c: Coordinate)
    requires d.pick < |Expand(table)|
    ensures exists i :: 0 <= i < |table| && Copies(table[i]) > 0 && InBox(c, table[i].bounds)
  {
    var b := ChooseRegion(table, d.pick);
    PointIn(b, d)
  }

  /** The point lies in the box of one of the rows of the source's table. */
  predicate InTable(c: Coordinate) {
    exists i :: 0 <= i < |Table| && InBox(c, Table[i].bounds)
  }

  /**
   * `generate_random_location` itself: the sampler over the source's table.
   * Every location lies inside one of its seven regions, bounds included
   * (`TableFacts` gives each box min <= max): drawing and rounding never
   * leave the box.
   */
  function GenerateRandomLocation(d: TableDraw): (c: Coordinate)
    ensures InTable(c)
  {
    TableFacts();
    SampleFrom(Table, d)
  }
}
