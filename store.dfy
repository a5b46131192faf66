/**
 * The weather tables (`forecast_weather`, `current_weather`) as in-memory
 * sequences of rows, and the five query shapes the rule engine sends to them.
 * Every query is scoped to one farm; time is in whole minutes.
 */
module WeatherStore {
  import opened Wrappers
  import StableSort

  /** The metric columns of the weather tables. */
  datatype Metric =
    | Temperature     // temperature_c
    | Humidity        // humidity_percent
    | WindSpeed       // wind_speed_mps
    | WindDirection   // wind_direction_deg
    | Rainfall        // rainfall_mm
    | ChanceOfRain    // chance_of_rain_percent
    | SolarRadiation  // solar_radiation_wm2

  /** One observation; a metric missing from `readings` is SQL NULL. */
  datatype Row = Row(farm: string, time: int, readings: map<Metric, real>)

  const MinutesPerDay: int := 1440

  /** The rows satisfying `p`, in table order. */
  function Where(rows: seq<Row>, p: Row -> bool): (r: seq<Row>)
    ensures |r| <= |rows|
    ensures forall x :: x in r <==> x in rows && p(x)
  {
    if rows == [] then []
    else (if p(rows[0]) then [rows[0]] else []) + Where(rows[1..], p)
  }

  /** `WHERE farm_id = %s`: the part of a table that belongs to one farm. */
  function FarmRows(rows: seq<Row>, farm: string): (r: seq<Row>)
    ensures forall x :: x in r <==> x in rows && x.farm == farm
  {
    Where(rows, (x: Row) => x.farm == farm)
  }

  lemma {:induction false} FarmRowsIdempotent(rows: seq<Row>, farm: string)
    ensures FarmRows(FarmRows(rows, farm), farm) == FarmRows(rows, farm)
  {
    if rows != [] {
      FarmRowsIdempotent(rows[1..], farm);
      var p := (x: Row) => x.farm == farm;
      var head := if p(rows[0]) then [rows[0]] else [];
      WhereAppend(head, Where(rows[1..], p), p);
    }
  }

  lemma {:induction false} WhereAppend(a: seq<Row>, b: seq<Row>, p: Row -> bool)
    ensures Where(a + b, p) == Where(a, p) + Where(b, p)
  {
    if a == [] {
      assert a + b == b;
    } else {
      var h := if p(a[0]) then [a[0]] else [];
      assert a + b == [a[0]] + (a[1..] + b);
      WhereAppend(a[1..], b, p);
      calc {
        Where(a + b, p);
        h + Where(a[1..] + b, p);
        h + (Where(a[1..], p) + Where(b, p));
        (h + Where(a[1..], p)) + Where(b, p);
      }
    }
  }

  /** A table with no row of the farm has an empty part for it. */
  lemma {:induction false} FarmRowsOfOthers(rows: seq<Row>, farm: string)
    requires forall x :: x in rows ==> x.farm != farm
    ensures FarmRows(rows, farm) == []
  {
    if rows != [] {
      assert rows[0] in rows;
      FarmRowsOfOthers(rows[1..], farm);
    }
  }

  /** The comparison operators the generated SQL accepts in `{metric} {operator} %s`. */
  predicate IsSqlComparison(op: string) {
    op in {">", "<", "=", ">=", "<=", "<>", "!="}
  }

  function SqlCompare(op: string, x: real, v: real): bool
    requires IsSqlComparison(op)
  {
    if op == ">" then x > v
    else if op == "<" then x < v
    else if op == "=" then x == v
    else if op == ">=" then x >= v
    else if op == "<=" then x <= v
    else x != v
  }

  /** `{metric} {op} value` for one row; a NULL reading never matches. */
  predicate SqlMatches(row: Row, metric: Metric, op: string, value: real)
    requires IsSqlComparison(op)
  {
    metric in row.readings && SqlCompare(op, row.readings[metric], value)
  }

  /** Newest first, ties in table order. */
  function NewestFirst(rows: seq<Row>): (r: seq<Row>)
    ensures |r| == |rows| && multiset(r) == multiset(rows)
    ensures forall i, j :: 0 <= i < j < |r| ==> r[i].time >= r[j].time
  {
    var sorted := StableSort.SortBy(rows, (x: Row) => -x.time);
    assert forall i, j :: 0 <= i < j < |sorted| ==> -sorted[i].time <= -sorted[j].time;
    sorted
  }

  /** A permutation has the same elements. */
  lemma SameElements(a: seq<Row>, b: seq<Row>)
    requires multiset(a) == multiset(b)
    ensures forall x :: x in a <==> x in b
  {
    forall x
      ensures x in a <==> x in b
    {
      assert x in a <==> x in multiset(a);
      assert x in b <==> x in multiset(b);
    }
  }

  /**
   * `WHERE time > after AND farm_id = farm ORDER BY time DESC LIMIT 1`:
   * the newest row of the farm in the window.
   */
  function Latest(rows: seq<Row>, farm: string, after: int): (r: Option<Row>)
    ensures r.None? <==> After(rows, farm, after) == []
    ensures r.Some? ==> r.value in After(rows, farm, after)
    ensures r.Some? ==> forall x :: x in After(rows, farm, after) ==> x.time <= r.value.time
  {
    var window := After(rows, farm, after);
    var ordered := NewestFirst(window);
    SameElements(window, ordered);
    if ordered == [] then None else Some(ordered[0])
  }

  /** The farm's rows after `after`, in table order. */
  function After(rows: seq<Row>, farm: string, after: int): (r: seq<Row>)
    ensures forall x :: x in r <==> x in rows && x.farm == farm && x.time > after
  {
    Where(FarmRows(rows, farm), (x: Row) => x.time > after)
  }

  /** The farm's rows at or before `upTo`, in table order. */
  function UpTo(rows: seq<Row>, farm: string, upTo: int): (r: seq<Row>)
    ensures forall x :: x in r <==> x in rows && x.farm == farm && x.time <= upTo
  {
    Where(FarmRows(rows, farm), (x: Row) => x.time <= upTo)
  }

  /**
   * `WHERE farm_id = farm AND time <= upTo ORDER BY time DESC LIMIT 2`:
   * the two newest rows of the farm at or before `upTo`, newest first.
   */
  function LatestTwo(rows: seq<Row>, farm: string, upTo: int): (r: seq<Row>)
    ensures |r| <= 2
    ensures forall x :: x in r ==> x in rows && x.farm == farm && x.time <= upTo
    ensures |r| == 2 ==> r[0].time >= r[1].time
    ensures |r| == (if |UpTo(rows, farm, upTo)| < 2 then |UpTo(rows, farm, upTo)| else 2)
    ensures multiset(r) <= multiset(UpTo(rows, farm, upTo))
    ensures |r| > 0 ==> forall x :: x in rows && x.farm == farm && x.time <= upTo ==> x.time <= r[0].time
    ensures |r| == 2 ==> forall x :: x in rows && x.farm == farm && x.time <= upTo && x != r[0]
                            ==> x.time <= r[1].time
  {
    var window := UpTo(rows, farm, upTo);
    var ordered := NewestFirst(window);
    var top := if |ordered| <= 2 then ordered else ordered[..2];
    SameElements(window, ordered);
    TopIsNewest(ordered, top);
    RestIsOlder(ordered, top);
    PrefixSubMultiset(ordered, |top|);
    top
  }

  /** A prefix of a sequence holds a sub-multiset of its elements. */
  lemma PrefixSubMultiset(s: seq<Row>, k: nat)
    requires k <= |s|
    ensures multiset(s[..k]) <= multiset(s)
  {
    assert s == s[..k] + s[k..];
  }

  lemma TopIsNewest(ordered: seq<Row>, top: seq<Row>)
    requires forall i, j :: 0 <= i < j < |ordered| ==> ordered[i].time >= ordered[j].time
    requires top == if |ordered| <= 2 then ordered else ordered[..2]
    ensures forall x :: x in top ==> x in ordered
    ensures |top| > 0 ==> forall x :: x in ordered ==> x.time <= top[0].time
  {
    forall x | x in ordered
      ensures x.time <= ordered[0].time
    {
      var i :| 0 <= i < |ordered| && ordered[i] == x;
    }
  }

  lemma RestIsOlder(ordered: seq<Row>, top: seq<Row>)
    requires forall i, j :: 0 <= i < j < |ordered| ==> ordered[i].time >= ordered[j].time
    requires top == if |ordered| <= 2 then ordered else ordered[..2]
    ensures |top| == 2 ==> forall x :: x in ordered && x != top[0] ==> x.time <= top[1].time
  {
    if |top| == 2 {
      forall x | x in ordered && x != top[0]
        ensures x.time <= top[1].time
      {
        var i :| 0 <= i < |ordered| && ordered[i] == x;
        assert i != 0;
      }
    }
  }

  /**
   * `SELECT COUNT(*) WHERE {metric} {op} value AND time > after AND farm_id = farm`.
   */
  function CountMatching(rows: seq<Row>, farm: string, metric: Metric, op: string, value: real, after: real): (n: nat)
    requires IsSqlComparison(op)
    ensures n > 0 <==> exists x :: x in rows && x.farm == farm && x.time as real > after && SqlMatches(x, metric, op, value)
  {
    var hits := Where(FarmRows(rows, farm), (x: Row) => x.time as real > after && SqlMatches(x, metric, op, value));
    assert |hits| > 0 ==> hits[0] in hits;
    |hits|
  }

  /**
   * `SELECT time WHERE {metric} {op} value AND farm_id = farm AND time > after
   * ORDER BY time ASC LIMIT 1`: the time of the earliest matching row.
   */
  function EarliestMatch(rows: seq<Row>, farm: string, metric: Metric, op: string, value: real, after: int): (r: Option<int>)
    requires IsSqlComparison(op)
    ensures r.None? <==> forall x :: x in rows && x.farm == farm && x.time > after ==> !SqlMatches(x, metric, op, value)
    ensures r.Some? ==> exists x :: x in rows && x.farm == farm && x.time > after && SqlMatches(x, metric, op, value) && x.time == r.value
    ensures r.Some? ==> forall x :: x in rows && x.farm == farm && x.time > after && SqlMatches(x, metric, op, value) ==> r.value <= x.time
  {
    EarliestTime(Where(FarmRows(rows, farm), (x: Row) => x.time > after && SqlMatches(x, metric, op, value)))
  }

  /** The smallest time in a sequence of rows. */
  function EarliestTime(rows: seq<Row>): (r: Option<int>)
    ensures r.None? <==> rows == []
    ensures r.Some? ==> exists x :: x in rows && x.time == r.value
    ensures r.Some? ==> forall x :: x in rows ==> r.value <= x.time
  {
    if rows == [] then None
    else
      match EarliestTime(rows[1..])
      case None => Some(rows[0].time)
      case Some(t) => Some(if rows[0].time <= t then rows[0].time else t)
  }

  /** The non-NULL readings of `metric` in rows of the farm with `lo <= time <= hi`. */
  function ReadingsBetween(rows: seq<Row>, metric: Metric, lo: int, hi: int): (vs: seq<real>)
    ensures |vs| <= |rows|
  {
    if rows == [] then []
    else
      var x := rows[0];
      (if lo <= x.time <= hi && metric in x.readings then [x.readings[metric]] else [])
      + ReadingsBetween(rows[1..], metric, lo, hi)
  }

  function Sum(vs: seq<real>): real {
    if vs == [] then 0.0 else vs[0] + Sum(vs[1..])
  }

  /**
   * `SELECT AVG({metric}) WHERE farm_id = farm AND time BETWEEN lo AND hi`:
   * NULL readings are ignored and the average of no readings is NULL.
   */
  function AverageBetween(rows: seq<Row>, farm: string, metric: Metric, lo: int, hi: int): (r: Option<real>)
    ensures r.None? <==> forall x :: x in rows && x.farm == farm && lo <= x.time <= hi ==> metric !in x.readings
  {
    var vs := ReadingsBetween(FarmRows(rows, farm), metric, lo, hi);
    ReadingsBetweenEmpty(FarmRows(rows, farm), metric, lo, hi);
    if vs == [] then None else Some(Mean(vs))
  }

  function Mean(vs: seq<real>): real
    requires vs != []
  {
    Sum(vs) / (|vs| as real)
  }

  lemma {:induction false} ReadingsBetweenEmpty(rows: seq<Row>, metric: Metric, lo: int, hi: int)
    ensures ReadingsBetween(rows, metric, lo, hi) == [] <==>
            forall x :: x in rows && lo <= x.time <= hi ==> metric !in x.readings
  {
    if rows != [] {
      ReadingsBetweenEmpty(rows[1..], metric, lo, hi);
      assert forall x :: x in rows ==> x == rows[0] || x in rows[1..];
    }
  }

  lemma {:induction false} ReadingsBetweenBounded(rows: seq<Row>, metric: Metric, lo: int, hi: int, low: real, high: real)
    requires forall x :: x in rows && lo <= x.time <= hi && metric in x.readings ==> low <= x.readings[metric] <= high
    ensures forall i :: 0 <= i < |ReadingsBetween(rows, metric, lo, hi)| ==>
              low <= ReadingsBetween(rows, metric, lo, hi)[i] <= high
  {
    if rows != [] {
      ReadingsBetweenBounded(rows[1..], metric, lo, hi, low, high);
    }
  }

  lemma {:induction false} SumBounded(vs: seq<real>, low: real, high: real)
    requires forall i :: 0 <= i < |vs| ==> low <= vs[i] <= high
    ensures (|vs| as real) * low <= Sum(vs) <= (|vs| as real) * high
  {
    if vs != [] {
      SumBounded(vs[1..], low, high);
    }
  }

  /** An average lies between any bounds on the readings it averages. */
  lemma AverageWithinBounds(rows: seq<Row>, farm: string, metric: Metric, lo: int, hi: int, low: real, high: real)
    requires forall x :: x in rows && x.farm == farm && lo <= x.time <= hi && metric in x.readings
               ==> low <= x.readings[metric] <= high
    ensures AverageBetween(rows, farm, metric, lo, hi).Some? ==>
              low <= AverageBetween(rows, farm, metric, lo, hi).value <= high
  {
    var own := FarmRows(rows, farm);
    var vs := ReadingsBetween(own, metric, lo, hi);
    if vs != [] {
      assert forall x :: x in own && lo <= x.time <= hi && metric in x.readings ==> low <= x.readings[metric] <= high;
      ReadingsBetweenBounded(own, metric, lo, hi, low, high);
      MeanBounded(vs, low, high);
    }
  }

  lemma MeanBounded(vs: seq<real>, low: real, high: real)
    requires vs != []
    requires forall i :: 0 <= i < |vs| ==> low <= vs[i] <= high
    ensures low <= Mean(vs) <= high
  {
    SumBounded(vs, low, high);
    QuotientBounds(Sum(vs), |vs| as real, low, high);
  }

  lemma QuotientBounds(s: real, n: real, low: real, high: real)
    requires n > 0.0 && n * low <= s <= n * high
    ensures low <= s / n <= high
  {
    var q := s / n;
    assert q * n == s;
    assert (q - high) * n <= 0.0;
    assert (q - low) * n >= 0.0;
  }
}
