/**
 * The weighted region table of `LocationService.generate_random_location`
 * and its expansion into the flat list that `random.choice` draws from.
 * Bounds are integer micro-degrees (millionths of a degree).
 */
module Regions {
  import opened Wrappers

  /** The four bounds of a region, which is all an expanded entry keeps. */
  datatype Bounds = Bounds(latMin: int, latMax: int, lngMin: int, lngMax: int)

  /** A table row: its bounds and its optional `weight` key. */
  datatype Region = Region(bounds: Bounds, weight: Option<int>)

  predicate WellFormed(b: Bounds) {
    b.latMin <= b.latMax && b.lngMin <= b.lngMax
  }

  /** The popped weight, defaulting to 1 when the key is absent. */
  function WeightOf(r: Region): int {
    match r.weight
    case None => 1
    case Some(w) => w
  }

  /** How many copies `[region] * weight` produces: a weight of zero or below gives none. */
  function Copies(r: Region): nat {
    if WeightOf(r) > 0 then WeightOf(r) else 0
  }

  function Repeat<T>(x: T, n: nat): (s: seq<T>)
    ensures |s| == n
    ensures forall i :: 0 <= i < n ==> s[i] == x
  {
    if n == 0 then [] else [x] + Repeat(x, n - 1)
  }

  /**
   * The weighted list: each row's bounds, repeated by its weight, in table
   * order. It has as many entries as the weights add up to; where each
   * entry comes from is stated by `ExpandBlock` and `ExpandCount`.
   */
  function Expand(table: seq<Region>): (weighted: seq<Bounds>)
    ensures |weighted| == TotalWeight(table)
  {
    if |table| == 0 then []
    else Repeat(table[0].bounds, Copies(table[0])) + Expand(table[1..])
  }

  /** Sum of the copies of every row. */
  function TotalWeight(table: seq<Region>): nat {
    if |table| == 0 then 0 else Copies(table[0]) + TotalWeight(table[1..])
  }

  /** Sum of the copies of the rows whose bounds are `b`. */
  function WeightFor(table: seq<Region>, b: Bounds): nat {
    if |table| == 0 then 0
    else (if table[0].bounds == b then Copies(table[0]) else 0) + WeightFor(table[1..], b)
  }

  /** No two rows share their bounds. */
  predicate DistinctBounds(table: seq<Region>) {
    forall i, j :: 0 <= i < j < |table| ==> table[i].bounds != table[j].bounds
  }

  // ---------------------------------------------------------------------
  // The source's table (degrees times 1_000_000)
  // ---------------------------------------------------------------------

  const UrbanUS := Bounds(32_000_000, 42_000_000, -118_000_000, -71_000_000)
  const UrbanEurope := Bounds(45_000_000, 55_000_000, -5_000_000, 20_000_000)
  const Japan := Bounds(34_000_000, 38_000_000, 130_000_000, 141_000_000)
  const RestOfNorthAmerica := Bounds(25_000_000, 49_000_000, -125_000_000, -66_000_000)
  const SouthAmerica := Bounds(-34_000_000, -15_000_000, -70_000_000, -40_000_000)
  const Australia := Bounds(-38_000_000, -25_000_000, 144_000_000, 153_000_000)
  const SouthAfrica := Bounds(-34_000_000, -25_000_000, 18_000_000, 31_000_000)

  const Table: seq<Region> := [
    Region(UrbanUS, Some(3)),
    Region(UrbanEurope, Some(3)),
    Region(Japan, Some(2)),
    Region(RestOfNorthAmerica, Some(1)),
    Region(SouthAmerica, Some(1)),
    Region(Australia, Some(1)),
    Region(SouthAfrica, Some(1))
  ]

  /** Length of the source's weighted list. */
  const WeightedLength: nat := 12

  // ---------------------------------------------------------------------
  // Properties of the expansion
  // ---------------------------------------------------------------------

  /** Expanding two tables one after the other is expanding their concatenation. */
  lemma {:induction false} ExpandAppend(a: seq<Region>, b: seq<Region>)
    ensures Expand(a + b) == Expand(a) + Expand(b)
  {
    if |a| == 0 {
      assert a + b == b;
    } else {
      assert (a + b)[1..] == a[1..] + b;
      ExpandAppend(a[1..], b);
    }
  }

  /**
   * Table order: the weighted list is the expansion of the rows before `i`,
   * then exactly `Copies(table[i])` copies of row `i`'s bounds, then the rest.
   */
  lemma ExpandBlock(table: seq<Region>, i: nat)
    requires i < |table|
    ensures Expand(table)
         == Expand(table[..i]) + Repeat(table[i].bounds, Copies(table[i])) + Expand(table[i + 1..])
  {
    assert table == table[..i] + table[i..];
    ExpandAppend(table[..i], table[i..]);
    assert table[i..][1..] == table[i + 1..];
  }

  /** The entry at position `k` of the weighted list is the bounds of a row with a positive weight. */
  lemma {:induction false} ExpandEntryFromTable(table: seq<Region>, k: nat)
    requires k < |Expand(table)|
    ensures exists i :: 0 <= i < |table| && Copies(table[i]) > 0 && table[i].bounds == Expand(table)[k]
  {
    var head := Repeat(table[0].bounds, Copies(table[0]));
    if k < |head| {
      assert Copies(table[0]) > 0 && table[0].bounds == Expand(table)[k];
    } else {
      assert Expand(table)[k] == Expand(table[1..])[k - |head|];
      ExpandEntryFromTable(table[1..], k - |head|);
      var i :| 0 <= i < |table[1..]| && Copies(table[1..][i]) > 0
               && table[1..][i].bounds == Expand(table[1..])[k - |head|];
      assert table[i + 1] == table[1..][i];
    }
  }

  /** Bounds occur in the weighted list exactly when some row with a positive weight carries them. */
  lemma {:induction false} ExpandMembership(table: seq<Region>, b: Bounds)
    ensures b in Expand(table) <==> exists i :: 0 <= i < |table| && Copies(table[i]) > 0 && table[i].bounds == b
  {
    if b in Expand(table) {
      var k :| 0 <= k < |Expand(table)| && Expand(table)[k] == b;
      ExpandEntryFromTable(table, k);
    }
    if i :| 0 <= i < |table| && Copies(table[i]) > 0 && table[i].bounds == b {
      ExpandBlock(table, i);
      var pre := Expand(table[..i]);
      assert Expand(table)[|pre|] == Repeat(table[i].bounds, Copies(table[i]))[0];
    }
  }

  /** Every bounds value occurs in the weighted list exactly as often as the weights of its rows add up to. */
  lemma {:induction false} ExpandCount(table: seq<Region>, b: Bounds)
    ensures multiset(Expand(table))[b] == WeightFor(table, b)
  {
    if |table| > 0 {
      var r := table[0];
      RepeatCount(r.bounds, Copies(r), b);
      ExpandCount(table[1..], b);
      assert multiset(Expand(table))
          == multiset(Repeat(r.bounds, Copies(r))) + multiset(Expand(table[1..]));
    }
  }

  lemma {:induction false} RepeatCount(x: Bounds, n: nat, b: Bounds)
    ensures multiset(Repeat(x, n))[b] == if x == b then n else 0
  {
    if n > 0 {
      RepeatCount(x, n - 1, b);
      assert multiset(Repeat(x, n)) == multiset([x]) + multiset(Repeat(x, n - 1));
    }
  }

  /** With distinct bounds, all of a row's weight belongs to that row alone. */
  lemma {:induction false} WeightForDistinct(table: seq<Region>, i: nat)
    requires i < |table|
    requires DistinctBounds(table)
    ensures WeightFor(table, table[i].bounds) == Copies(table[i])
  {
    if i == 0 {
      WeightForAbsent(table[1..], table[0].bounds);
    } else {
      assert table[1..][i - 1] == table[i];
      WeightForDistinct(table[1..], i - 1);
    }
  }

  lemma {:induction false} WeightForAbsent(table: seq<Region>, b: Bounds)
    requires forall j :: 0 <= j < |table| ==> table[j].bounds != b
    ensures WeightFor(table, b) == 0
  {
    if |table| > 0 {
      WeightForAbsent(table[1..], b);
    }
  }

  /** In a table with distinct bounds, each row occurs exactly max(weight, 0) times (once when the key is missing). */
  lemma RowOccursWeightTimes(table: seq<Region>, i: nat)
    requires i < |table|
    requires DistinctBounds(table)
    ensures multiset(Expand(table))[table[i].bounds] == Copies(table[i])
    ensures table[i].weight == None ==> multiset(Expand(table))[table[i].bounds] == 1
  {
    ExpandCount(table, table[i].bounds);
    WeightForDistinct(table, i);
  }

  /**
   * The source's table: twelve weighted entries, every box well formed,
   * and each region occurring exactly its weight of times.
   */
  lemma TableFacts()
    ensures |Expand(Table)| == WeightedLength
    ensures forall i :: 0 <= i < |Table| ==> WellFormed(Table[i].bounds)
    ensures forall i :: 0 <= i < |Table| ==> multiset(Expand(Table))[Table[i].bounds] == WeightOf(Table[i])
  {
    TableTotalWeight();
    TableCounts();
  }

  lemma TableTotalWeight()
    ensures TotalWeight(Table) == WeightedLength
  {
    assert TotalWeight(Table[6..]) == 1;
    assert TotalWeight(Table[5..]) == 2;
    assert TotalWeight(Table[4..]) == 3;
    assert TotalWeight(Table[3..]) == 4;
    assert TotalWeight(Table[2..]) == 6;
    assert TotalWeight(Table[1..]) == 9;
  }

  lemma TableCounts()
    ensures forall i :: 0 <= i < |Table| ==> multiset(Expand(Table))[Table[i].bounds] == WeightOf(Table[i])
  {
    assert DistinctBounds(Table);
    forall i | 0 <= i < |Table|
      ensures multiset(Expand(Table))[Table[i].bounds] == WeightOf(Table[i])
    {
      RowOccursWeightTimes(Table, i);
    }
  }
}
