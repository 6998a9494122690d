/** Discounted gain of the first ranks of relevant sources, and when it is ideal.  The discount is any
    positive, strictly decreasing function of the rank; the program uses 1 / log2(rank + 1). */
module RankGain {
  import opened RealSums
  import opened StringSets

  const CUTOFF: nat := 10

  ghost predicate Discounting(discount: nat -> real)
  {
    && (forall i :: 1 <= i ==> 0.0 < discount(i))
    && (forall i, j :: 1 <= i < j ==> discount(j) < discount(i))
  }

  /** The 1-based positions at which an expected source appears for the first time. */
  function RelevantRanks(retrieved: seq<string>, expected: set<string>): (ranks: seq<nat>)
  {
    if retrieved == [] then []
    else
      var n := |retrieved| - 1;
      var front := RelevantRanks(retrieved[..n], expected);
      if retrieved[n] in expected && retrieved[n] !in retrieved[..n] then front + [n + 1] else front
  }

  /** The loop of the scoring program that collects them. */
  method CollectRelevantRanks(retrieved: seq<string>, expected: set<string>) returns (ranks: seq<nat>)
    ensures ranks == RelevantRanks(retrieved, expected)
  {
    ranks := [];
    var seen: set<string> := {};
    for index := 0 to |retrieved|
      invariant ranks == RelevantRanks(retrieved[..index], expected)
      invariant seen == Elements(retrieved[..index]) * expected
    {
      assert retrieved[..index + 1][..index] == retrieved[..index];
      var source := retrieved[index];
      if source in expected && source !in seen {
        ranks := ranks + [index + 1];
        seen := seen + {source};
      }
      assert retrieved[..index + 1] == retrieved[..index] + [source];
    }
    assert retrieved[..|retrieved|] == retrieved;
  }

  ghost predicate IncreasingRanks(ranks: seq<nat>, n: nat)
  {
    && (forall i :: 0 <= i < |ranks| ==> i + 1 <= ranks[i] <= n)
    && (forall i, j :: 0 <= i < j < |ranks| ==> ranks[i] < ranks[j])
  }

  lemma RanksFit(ranks: seq<nat>, n: nat)
    requires IncreasingRanks(ranks, n)
    ensures |ranks| <= n
  {
    if ranks != [] {
      var last := ranks[|ranks| - 1];
    }
  }

  lemma {:induction false} RanksIncrease(retrieved: seq<string>, expected: set<string>)
    ensures IncreasingRanks(RelevantRanks(retrieved, expected), |retrieved|)
    decreases |retrieved|
  {
    if retrieved != [] {
      var n := |retrieved| - 1;
      RanksIncrease(retrieved[..n], expected);
      RanksFit(RelevantRanks(retrieved[..n], expected), n);
    }
  }

  /** There are as many of them as distinct expected sources retrieved. */
  lemma {:induction false} RanksCountHits(retrieved: seq<string>, expected: set<string>)
    ensures |RelevantRanks(retrieved, expected)| == |expected * Elements(retrieved)|
    decreases |retrieved|
  {
    if retrieved == [] {
      assert expected * Elements(retrieved) == {};
    } else {
      var n := |retrieved| - 1;
      var front, last := retrieved[..n], retrieved[n];
      RanksCountHits(front, expected);
      assert retrieved == front + [last];
      if last in expected && last !in front {
        assert expected * Elements(retrieved) == expected * Elements(front) + {last};
      } else {
        assert expected * Elements(retrieved) == expected * Elements(front);
      }
    }
  }

  /** A position is a relevant rank exactly when it holds an expected source not seen before. */
  lemma {:induction false} RankMeansFirstHit(retrieved: seq<string>, expected: set<string>, k: nat)
    requires k < |retrieved|
    ensures k + 1 in RelevantRanks(retrieved, expected)
            <==> retrieved[k] in expected && retrieved[k] !in retrieved[..k]
    decreases |retrieved|
  {
    var n := |retrieved| - 1;
    RanksIncrease(retrieved[..n], expected);
    if k < n {
      RankMeansFirstHit(retrieved[..n], expected, k);
      assert retrieved[..n][..k] == retrieved[..k];
    }
  }

  function RankTerm(discount: nat -> real): nat -> real
  {
    (rank: nat) => if rank <= CUTOFF then discount(rank) else 0.0
  }

  /** The gain of the ranks within the cutoff. */
  function Gain(discount: nat -> real, ranks: seq<nat>): real
  {
    SumOf(RankTerm(discount), ranks)
  }

  /** The gain of hits at ranks 1 to n. */
  function Ideal(discount: nat -> real, n: nat): real
  {
    if n == 0 then 0.0 else Ideal(discount, n - 1) + discount(n)
  }

  function Cut(n: nat): nat
  {
    if n < CUTOFF then n else CUTOFF
  }

  /** Ranks beyond the cutoff contribute nothing. */
  lemma {:induction false} GainOfPrefix(discount: nat -> real, retrieved: seq<string>, expected: set<string>)
    ensures Gain(discount, RelevantRanks(retrieved, expected))
            == Gain(discount, RelevantRanks(retrieved[..Cut(|retrieved|)], expected))
    decreases |retrieved|
  {
    var n := |retrieved| - 1;
    if |retrieved| <= CUTOFF {
      assert retrieved[..Cut(|retrieved|)] == retrieved;
    } else {
      GainOfPrefix(discount, retrieved[..n], expected);
      assert retrieved[..n][..Cut(n)] == retrieved[..CUTOFF];
      var f := RankTerm(discount);
      var last: nat := n + 1;
      SumOfAppend(f, RelevantRanks(retrieved[..n], expected), [last]);
      SumOfOne(f, last);
    }
  }

  lemma GainAppend(discount: nat -> real, front: seq<nat>, rank: nat)
    requires rank <= CUTOFF
    ensures Gain(discount, front + [rank]) == Gain(discount, front) + discount(rank)
  {
    var f := RankTerm(discount);
    SumOfAppend(f, front, [rank]);
    SumOfOne(f, rank);
  }

  /** Increasing ranks within the cutoff gain at most as much as the first ranks, and only the first
      ranks themselves gain as much: the i-th of them is at least i. */
  lemma {:induction false} RanksDominated(discount: nat -> real, ranks: seq<nat>)
    requires Discounting(discount) && IncreasingRanks(ranks, CUTOFF)
    ensures Gain(discount, ranks) <= Ideal(discount, |ranks|)
    ensures Gain(discount, ranks) == Ideal(discount, |ranks|) <==> (forall i :: 0 <= i < |ranks| ==> ranks[i] == i + 1)
    decreases |ranks|
  {
    if ranks != [] {
      var n := |ranks| - 1;
      RanksDominated(discount, ranks[..n]);
      assert ranks == ranks[..n] + [ranks[n]];
      GainAppend(discount, ranks[..n], ranks[n]);
      assert ranks[n] >= n + 1;
      assert ranks[n] == n + 1 || discount(ranks[n]) < discount(n + 1);
    }
  }

  lemma {:induction false} IdealMonotone(discount: nat -> real, m: nat, n: nat)
    requires Discounting(discount) && m <= n
    ensures Ideal(discount, m) <= Ideal(discount, n)
    ensures m < n ==> Ideal(discount, m) < Ideal(discount, n)
    decreases n
  {
    if m < n {
      IdealMonotone(discount, m, n - 1);
      assert 0.0 < discount(n);
    }
  }

  lemma {:induction false} GainNonnegative(discount: nat -> real, retrieved: seq<string>, expected: set<string>)
    requires Discounting(discount)
    ensures 0.0 <= Gain(discount, RelevantRanks(retrieved, expected))
  {
    RanksIncrease(retrieved, expected);
    var ranks := RelevantRanks(retrieved, expected);
    var f := RankTerm(discount);
    forall rank | rank in ranks ensures 0.0 <= f(rank) {
      var i :| 0 <= i < |ranks| && ranks[i] == rank;
    }
    SumOfNonnegative(f, ranks);
  }

  /** The first `n` positions exist and hold distinct expected sources. */
  ghost predicate PerfectTop(retrieved: seq<string>, expected: set<string>, n: nat)
  {
    n <= |retrieved| && forall k :: 0 <= k < n ==> retrieved[k] in expected && retrieved[k] !in retrieved[..k]
  }

  /** The gain never exceeds the ideal one, and reaches it exactly when the first
      min(|expected|, 10) positions hold distinct expected sources. */
  lemma GainIsIdealExactly(discount: nat -> real, retrieved: seq<string>, expected: set<string>)
    requires Discounting(discount)
    ensures var gain, ideal := Gain(discount, RelevantRanks(retrieved, expected)), Ideal(discount, Cut(|expected|));
      && 0.0 <= gain <= ideal
      && (gain == ideal <==> PerfectTop(retrieved, expected, Cut(|expected|)))
  {
    var top := retrieved[..Cut(|retrieved|)];
    var ranks := RelevantRanks(top, expected);
    GainOfPrefix(discount, retrieved, expected);
    GainNonnegative(discount, retrieved, expected);
    RanksIncrease(top, expected);
    RanksCountHits(top, expected);
    SubsetSize(expected * Elements(top), expected);
    RanksFit(ranks, |top|);
    RanksDominated(discount, ranks);
    IdealMonotone(discount, |ranks|, Cut(|expected|));
    if PerfectTop(retrieved, expected, Cut(|expected|)) {
      PerfectTopRanks(retrieved, expected, Cut(|expected|));
    } else if |ranks| == Cut(|expected|) {
      forall i | 0 <= i < |ranks| && !(exists j :: 0 <= j < |ranks| && ranks[j] != j + 1)
        ensures retrieved[i] in expected && retrieved[i] !in retrieved[..i]
      {
        assert ranks[i] == i + 1 && i + 1 in ranks;
        RankMeansFirstHit(top, expected, i);
        assert top[i] == retrieved[i] && top[..i] == retrieved[..i];
      }
    }
  }

  /** Distinct hits on top take the ranks 1, 2, 3, ... */
  lemma {:induction false} PerfectTopRanks(retrieved: seq<string>, expected: set<string>, n: nat)
    requires n == Cut(|expected|) && PerfectTop(retrieved, expected, n)
    ensures var ranks := RelevantRanks(retrieved[..Cut(|retrieved|)], expected);
      |ranks| == n && forall i :: 0 <= i < n ==> ranks[i] == i + 1
  {
    var top := retrieved[..Cut(|retrieved|)];
    var ranks := RelevantRanks(top, expected);
    RanksIncrease(top, expected);
    FirstRanks(top, expected, n);
    RanksCountHits(top, expected);
    SubsetSize(expected * Elements(top), expected);
    RanksFit(ranks, |top|);
  }

  lemma {:induction false} FirstRanks(retrieved: seq<string>, expected: set<string>, n: nat)
    requires n <= |retrieved|
    requires forall k :: 0 <= k < n ==> retrieved[k] in expected && retrieved[k] !in retrieved[..k]
    ensures var ranks := RelevantRanks(retrieved, expected);
      n <= |ranks| && forall i :: 0 <= i < n ==> ranks[i] == i + 1
    decreases |retrieved|
  {
    if retrieved != [] {
      var front := retrieved[..|retrieved| - 1];
      var m := if n == |retrieved| then n - 1 else n;
      forall k | 0 <= k < m ensures front[k] in expected && front[k] !in front[..k] {
        assert front[..k] == retrieved[..k];
      }
      FirstRanks(front, expected, m);
      RanksIncrease(front, expected);
      if n == |retrieved| {
        RanksFit(RelevantRanks(front, expected), m);
      }
    }
  }
}
