/** Percentiles: interpolated ones for reports, and the nearest-rank one of the rehearsal. */
module Percentile {
  import opened Sorting
  import opened RealSums
  import opened Numbers

  predicate Leq(a: real, b: real)
  {
    a <= b
  }

  function Ordered(values: seq<real>): (r: seq<real>)
    ensures |r| == |values| && multiset(r) == multiset(values)
  {
    Sort(Leq, values)
  }

  lemma OrderedSorted(values: seq<real>)
    ensures Sorted(Leq, Ordered(values))
  {
    SortSorted(Leq, values);
  }

  /** `(len - 1) * fraction`, which may fall between two ranks. */
  function Position(n: nat, fraction: real): (p: real)
    requires 1 <= n && 0.0 <= fraction <= 1.0
    ensures 0.0 <= p <= (n - 1) as real
  {
    PositionInRange((n - 1) as real, fraction);
    (n - 1) as real * fraction
  }

  lemma PositionInRange(n: real, fraction: real)
    requires 0.0 <= n && 0.0 <= fraction <= 1.0
    ensures 0.0 <= n * fraction <= n
  {
    assert n - n * fraction == n * (1.0 - fraction);
  }

  /** The interpolated value of the benchmark runner. */
  function ValueAt(ordered: seq<real>, fraction: real): real
    requires ordered != [] && 0.0 <= fraction <= 1.0
  {
    var position := Position(|ordered|, fraction);
    var lower := position.Floor;
    var upper := Min(lower + 1, |ordered| - 1);
    ordered[lower] + (ordered[upper] - ordered[lower]) * (position - lower as real)
  }

  datatype Percentiles = Percentiles(p50: real, p95: real, p99: real)

  function PercentilesOf(values: seq<real>): Percentiles
  {
    var ordered := Ordered(values);
    if ordered == [] then Percentiles(0.0, 0.0, 0.0)
    else Percentiles(ValueAt(ordered, 0.50), ValueAt(ordered, 0.95), ValueAt(ordered, 0.99))
  }

  /** The form of the report checker's own module: a weighted sum of the two neighbours. */
  function WeightedAt(values: seq<real>, fraction: real): real
    requires 0.0 <= fraction <= 1.0
  {
    if values == [] then 0.0
    else
      var ordered := Ordered(values);
      var position := Position(|ordered|, fraction);
      var lower := position.Floor;
      var upper := Min(lower + 1, |ordered| - 1);
      var weight := position - lower as real;
      ordered[lower] * (1.0 - weight) + ordered[upper] * weight
  }

  /** Both forms compute the same number. */
  lemma FormsAgree(values: seq<real>, fraction: real)
    requires values != [] && 0.0 <= fraction <= 1.0
    ensures WeightedAt(values, fraction) == ValueAt(Ordered(values), fraction)
  {
    var ordered := Ordered(values);
    var lower := Position(|ordered|, fraction).Floor;
    var upper := Min(lower + 1, |ordered| - 1);
    SameBlend(ordered[lower], ordered[upper], Position(|ordered|, fraction) - lower as real);
  }

  lemma SameBlend(a: real, b: real, weight: real)
    ensures a * (1.0 - weight) + b * weight == a + (b - a) * weight
  {
  }

  lemma BlendBounds(a: real, b: real, weight: real)
    requires a <= b && 0.0 <= weight <= 1.0
    ensures a <= a + (b - a) * weight <= b
  {
    assert b - (a + (b - a) * weight) == (b - a) * (1.0 - weight);
  }

  /** The value at a fraction lies between its two neighbouring ranks. */
  lemma ValueBetweenNeighbours(ordered: seq<real>, fraction: real)
    requires ordered != [] && Sorted(Leq, ordered) && 0.0 <= fraction <= 1.0
    ensures var lower := Position(|ordered|, fraction).Floor;
      ordered[lower] <= ValueAt(ordered, fraction) <= ordered[Min(lower + 1, |ordered| - 1)]
  {
    var position := Position(|ordered|, fraction);
    var lower := position.Floor;
    var upper := Min(lower + 1, |ordered| - 1);
    assert lower == upper || Leq(ordered[lower], ordered[upper]);
    BlendBounds(ordered[lower], ordered[upper], position - lower as real);
  }

  lemma BlendMonotone(a: real, b: real, u: real, v: real)
    requires a <= b && u <= v
    ensures a + (b - a) * u <= a + (b - a) * v
  {
    assert (b - a) * v - (b - a) * u == (b - a) * (v - u);
  }

  lemma TimesMonotone(m: real, f: real, g: real)
    requires 0.0 <= m && f <= g
    ensures m * f <= m * g
  {
    assert m * g - m * f == m * (g - f);
  }

  lemma PositionMonotone(n: nat, f: real, g: real)
    requires 1 <= n && 0.0 <= f <= g <= 1.0
    ensures Position(n, f) <= Position(n, g)
  {
    TimesMonotone((n - 1) as real, f, g);
  }

  /** Interpolated percentiles grow with the fraction. */
  lemma ValueMonotone(ordered: seq<real>, f: real, g: real)
    requires ordered != [] && Sorted(Leq, ordered) && 0.0 <= f <= g <= 1.0
    ensures ValueAt(ordered, f) <= ValueAt(ordered, g)
  {
    var n := |ordered|;
    PositionMonotone(n, f, g);
    var p, q := Position(n, f), Position(n, g);
    if p.Floor == q.Floor {
      var upper := Min(p.Floor + 1, n - 1);
      assert p.Floor == upper || Leq(ordered[p.Floor], ordered[upper]);
      BlendMonotone(ordered[p.Floor], ordered[upper], p - p.Floor as real, q - q.Floor as real);
    } else {
      ValueBetweenNeighbours(ordered, f);
      ValueBetweenNeighbours(ordered, g);
      var upper := Min(p.Floor + 1, n - 1);
      assert upper <= q.Floor;
      assert upper == q.Floor || Leq(ordered[upper], ordered[q.Floor]);
    }
  }

  ghost predicate Within(values: seq<real>, low: real, high: real)
  {
    forall v :: v in values ==> low <= v <= high
  }

  /** p50 <= p95 <= p99, for every list. */
  lemma PercentilesOrdered(values: seq<real>)
    ensures var p := PercentilesOf(values); p.p50 <= p.p95 <= p.p99
  {
    if values != [] {
      var ordered := Ordered(values);
      OrderedSorted(values);
      ValueMonotone(ordered, 0.50, 0.95);
      ValueMonotone(ordered, 0.95, 0.99);
    }
  }

  /** They stay between any bounds of the values. */
  lemma PercentilesBounded(values: seq<real>, low: real, high: real)
    requires values != [] && Within(values, low, high)
    ensures var p := PercentilesOf(values); low <= p.p50 && p.p99 <= high
  {
    var ordered := Ordered(values);
    OrderedSorted(values);
    MembersOfSort(Leq, values);
    ValueBetweenNeighbours(ordered, 0.50);
    ValueBetweenNeighbours(ordered, 0.99);
    assert ordered[Position(|ordered|, 0.50).Floor] in values;
    assert ordered[Min(Position(|ordered|, 0.99).Floor + 1, |ordered| - 1)] in values;
  }

  lemma PercentilesNonnegative(values: seq<real>)
    requires forall v :: v in values ==> 0.0 <= v
    ensures 0.0 <= PercentilesOf(values).p50
  {
    if values != [] {
      var ordered := Ordered(values);
      OrderedSorted(values);
      MembersOfSort(Leq, values);
      ValueBetweenNeighbours(ordered, 0.50);
      assert ordered[Position(|ordered|, 0.50).Floor] in values;
    }
  }

  /** The order of the observations does not matter. */
  lemma PercentilesCanonical(a: seq<real>, b: seq<real>)
    requires multiset(a) == multiset(b)
    ensures PercentilesOf(a) == PercentilesOf(b)
  {
    SortCanonical(Leq, a, b);
  }

  // ---- The nearest-rank percentile of the rehearsal ----

  /** `max(0, ceil(0.95 n) - 1)`. */
  function NearestRank(n: nat): (k: nat)
    requires 1 <= n
    ensures k < n && 0.95 * n as real <= (k + 1) as real < 0.95 * n as real + 1.0
  {
    var x := 0.95 * n as real;
    var ceiling := if x == x.Floor as real then x.Floor else x.Floor + 1;
    ceiling - 1
  }

  function NearestRankP95(values: seq<real>): real
    requires values != []
  {
    Ordered(values)[NearestRank(|values|)]
  }

  /** How many of the values are at most `x`. */
  function CountAtMost(values: seq<real>, x: real): real
  {
    SumOf(v => if v <= x then 1.0 else 0.0, values)
  }

  lemma {:induction false} SumOfConstant(c: real, values: seq<real>)
    ensures SumOf(v => c, values) == c * |values| as real
    decreases |values|
  {
    if values != [] {
      SumOfConstant(c, values[1..]);
    }
  }

  lemma CountAll(values: seq<real>, x: real)
    requires forall i :: 0 <= i < |values| ==> values[i] <= x
    ensures CountAtMost(values, x) == |values| as real
  {
    SumOfConstant(1.0, values);
    SumOfSame(v => if v <= x then 1.0 else 0.0, v => 1.0, values);
  }

  lemma CountNone(values: seq<real>, x: real)
    requires forall i :: 0 <= i < |values| ==> x < values[i]
    ensures CountAtMost(values, x) == 0.0
  {
    SumOfConstant(0.0, values);
    SumOfSame(v => if v <= x then 1.0 else 0.0, v => 0.0, values);
  }

  /** Counting in the sorted list splits at any rank. */
  lemma CountSplit(values: seq<real>, k: nat, x: real)
    requires k <= |values|
    ensures var ordered := Ordered(values);
      CountAtMost(values, x) == CountAtMost(ordered[..k], x) + CountAtMost(ordered[k..], x)
  {
    var ordered := Ordered(values);
    var f := v => if v <= x then 1.0 else 0.0;
    assert ordered[..k] + ordered[k..] == ordered;
    SumOfPermutation(f, values, ordered);
    SumOfAppend(f, ordered[..k], ordered[k..]);
  }

  lemma CountAtMostBounds(values: seq<real>, x: real)
    ensures 0.0 <= CountAtMost(values, x) <= |values| as real
  {
    SumOfBounds(v => if v <= x then 1.0 else 0.0, values);
  }

  /** It is the least sample that at least 95 percent of the samples do not exceed. */
  lemma NearestRankIsLeast(values: seq<real>, y: real)
    requires values != []
    ensures NearestRankP95(values) in values
    ensures CountAtMost(values, NearestRankP95(values)) >= 0.95 * |values| as real
    ensures y < NearestRankP95(values) ==> CountAtMost(values, y) < 0.95 * |values| as real
  {
    var ordered, k := Ordered(values), NearestRank(|values|);
    var x := ordered[k];
    OrderedSorted(values);
    MembersOfSort(Leq, values);
    assert x in ordered;
    CountSplit(values, k + 1, x);
    var upTo := ordered[..k + 1];
    forall i | 0 <= i < |upTo| ensures upTo[i] <= x {
      assert i == k || Leq(ordered[i], ordered[k]);
    }
    CountAll(upTo, x);
    CountAtMostBounds(ordered[k + 1..], x);
    if y < x {
      CountSplit(values, k, y);
      var from := ordered[k..];
      forall i | 0 <= i < |from| ensures y < from[i] {
        assert i == 0 || Leq(ordered[k], ordered[k + i]);
      }
      CountNone(from, y);
      CountAtMostBounds(ordered[..k], y);
    }
  }
}
