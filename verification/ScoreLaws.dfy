/** What the scores mean: their range, when a ranking is perfect, how recall grows, what the breakdown
    conserves, and that the order of the inputs is irrelevant. */
module ScoreLaws {
  import opened StringSets
  import opened RealSums
  import opened RankGain
  import opened Scoring

  // ---- Range ----

  lemma RatioInUnit(part: nat, whole: nat)
    requires part <= whole && 0 < whole
    ensures 0.0 <= Ratio(part, whole) <= 1.0
  {
    DivideBounds(part as real, whole as real);
  }

  /** Not more places than positions; as many exactly when every element is of the kind; none exactly when none is. */
  lemma {:induction false} PlacesFit(p: string -> bool, s: seq<string>)
    ensures |Places(p, s)| <= |s|
    ensures |Places(p, s)| == |s| <==> forall x :: x in s ==> p(x)
    ensures |Places(p, s)| == 0 <==> forall x :: x in s ==> !p(x)
    decreases |s|
  {
    hide Places;
    if s == [] {
      NoPlaces(p);
    } else {
      var n := |s| - 1;
      PlacesFit(p, s[..n]);
      PlacesSnoc(p, s);
      assert forall x :: x in s <==> x in s[..n] || x == s[n];
    }
  }

  lemma {:induction false} ElementsFit(s: seq<string>)
    ensures |Elements(s)| <= |s|
    decreases |s|
  {
    if s == [] {
      assert Elements(s) == {};
    } else {
      var front := s[..|s| - 1];
      ElementsFit(front);
      assert s == front + [s[|s| - 1]];
      assert Elements(s) == Elements(front) + {s[|s| - 1]};
    }
  }

  lemma FoundFits(expected: set<string>, sources: seq<string>)
    ensures Found(expected, sources) <= |expected| && Found(expected, sources) <= |sources|
  {
    SubsetSize(expected * Elements(sources), expected);
    SubsetSize(expected * Elements(sources), Elements(sources));
    ElementsFit(sources);
  }

  lemma SharesInUnit(row: Row)
    ensures forall k :: 0.0 <= RecallAt(row, k) <= 1.0
    ensures 0.0 <= PrecisionOfContext(row) <= 1.0
    ensures forall sources :: 0.0 <= RecallOf(row, sources) <= 1.0
    ensures 0.0 <= PrecisionOfCitations(row) <= 1.0
    ensures 0.0 <= InvalidShare(row) <= 1.0
  {
    hide Found, Elements, Expected, CorrectCitations, InvalidCitations;
    forall sources: seq<string>
      ensures 0.0 <= RecallOf(row, sources) <= 1.0
      ensures Expected(row) != {} ==> 0.0 <= Ratio(Found(Expected(row), sources), |Expected(row)|) <= 1.0
    {
      FoundFits(Expected(row), sources);
      if Expected(row) != {} {
        RatioInUnit(Found(Expected(row), sources), |Expected(row)|);
      }
    }
    FoundFits(Expected(row), row.item.retrieved);
    if row.item.retrieved != [] {
      RatioInUnit(Found(Expected(row), row.item.retrieved), |row.item.retrieved|);
    }
    CitationsFit(row);
    if row.item.cited != [] {
      RatioInUnit(CorrectCitations(row), |row.item.cited|);
      RatioInUnit(InvalidCitations(row), |row.item.cited|);
    }
  }

  lemma CitationsFit(row: Row)
    ensures CorrectCitations(row) <= |row.item.cited| && InvalidCitations(row) <= |row.item.cited|
  {
    PlacesFit(IsExpected(row), row.item.cited);
    PlacesFit(IsForeign(row), row.item.cited);
  }

  lemma AnswersInUnit(lib: Library, row: Row)
    requires row.item.supported <= row.item.claims
    ensures 0.0 <= UnsupportedShare(row) <= 1.0 && 0.0 <= Sufficiency(lib, row) <= 1.0
  {
    if row.item.claims != 0 {
      DivideBounds((row.item.claims - row.item.supported) as real, row.item.claims as real);
    }
    PlacesFit(IsStated(lib, row), row.gold.facts);
    if row.gold.facts != [] {
      RatioInUnit(FactsFound(lib, row), |row.gold.facts|);
    }
  }

  lemma QuotientIsOne(a: real, b: real)
    requires 0.0 < b
    ensures a / b == 1.0 <==> a == b
  {
    assert a == (a / b) * b;
  }

  /** The discounted gain lies in the unit interval and, when sources are expected, is 1 exactly when the
      first min(|expected|, 10) positions hold distinct expected sources. */
  lemma NdcgExactly(lib: Library, row: Row)
    requires Discounting(lib.discount)
    ensures 0.0 <= CaseRate(lib, Ndcg, row) <= 1.0
    ensures Expected(row) != {} ==>
              (CaseRate(lib, Ndcg, row) == 1.0
               <==> PerfectTop(row.item.retrieved, Expected(row), Cut(|Expected(row)|)))
  {
    var expected := Expected(row);
    var ideal, gain := Ideal(lib.discount, Cut(|expected|)), Gain(lib.discount, Ranks(row));
    GainIsIdealExactly(lib.discount, row.item.retrieved, expected);
    if expected != {} {
      IdealMonotone(lib.discount, 0, Cut(|expected|));
      hide Ideal, Gain, PerfectTop, Cut, Ranks, Expected;
      DivideBounds(gain, ideal);
      QuotientIsOne(gain, ideal);
    } else {
      assert ideal == 0.0;
    }
  }

  lemma ReciprocalInUnit(row: Row)
    ensures 0.0 <= ReciprocalRank(row) <= 1.0
  {
    if Ranks(row) != [] && 1 <= Ranks(row)[0] {
      DivideBounds(1.0, Ranks(row)[0] as real);
    }
  }

  /** Every rate of every case lies in the unit interval. */
  lemma RateInUnit(lib: Library, rate: Rate, row: Row)
    requires Discounting(lib.discount) && row.item.supported <= row.item.claims
    ensures 0.0 <= CaseRate(lib, rate, row) <= 1.0
  {
    hide RecallAt, ReciprocalRank, PrecisionOfContext, RecallOf, PrecisionOfCitations, UnsupportedShare,
         InvalidShare, Sufficiency, FalselyAnswered, FalselyDeclined, ForbiddenHit, Expected, Elements;
    match rate
    case Ndcg => NdcgExactly(lib, row);
    case Mrr => ReciprocalInUnit(row);
    case _ =>
      SharesInUnit(row);
      AnswersInUnit(lib, row);
  }

  // ---- Citations and facts ----

  lemma RatioIsOne(part: nat, whole: nat)
    requires 0 < whole
    ensures Ratio(part, whole) == 1.0 <==> part == whole
    ensures Ratio(part, whole) == 0.0 <==> part == 0
  {
    QuotientIsOne(part as real, whole as real);
    assert part as real == Ratio(part, whole) * whole as real;
  }

  lemma FoundAll(expected: set<string>, sources: seq<string>)
    ensures Found(expected, sources) == |expected| <==> expected <= Elements(sources)
  {
    if expected <= Elements(sources) {
      assert expected * Elements(sources) == expected;
    } else {
      var x :| x in expected && x !in Elements(sources);
      SubsetSize(expected * Elements(sources), expected - {x});
    }
  }

  /** What the four citation rates say of a case: precision is 1 exactly when every citation is expected, recall
      and coverage are 1 exactly when every expected source is cited, and invalidity is 0 exactly when every
      citation is a document of the case. */
  lemma CitationRatesMean(lib: Library, row: Row)
    ensures var cited := row.item.cited;
      && (CaseRate(lib, CitationPrecision, row) == 1.0
          <==> if cited == [] then Expected(row) == {} else forall source :: source in cited ==> source in Expected(row))
      && (CaseRate(lib, CitationRecall, row) == 1.0 <==> Expected(row) <= Elements(cited))
      && (CaseRate(lib, CitationCoverage, row) == 1.0 <==> CaseRate(lib, CitationRecall, row) == 1.0)
      && (CaseRate(lib, SourceInvalidity, row) == 0.0 <==> forall source :: source in cited ==> source in Documents(row))
  {
    var expected, cited := Expected(row), row.item.cited;
    PlacesFit(IsExpected(row), cited);
    PlacesFit(IsForeign(row), cited);
    FoundAll(expected, cited);
    hide Places, Found, Expected, Documents, Elements, Ratio;
    if cited != [] {
      RatioIsOne(CorrectCitations(row), |cited|);
      RatioIsOne(InvalidCitations(row), |cited|);
    }
    if expected != {} {
      RatioIsOne(Found(expected, cited), |expected|);
    }
  }

  /** With labels that expect only documents of the case, no citation is both correct and invalid. */
  lemma CorrectIsNotInvalid(lib: Library, row: Row)
    requires Expected(row) <= Documents(row) && row.item.cited != []
    ensures CaseRate(lib, CitationPrecision, row) + CaseRate(lib, SourceInvalidity, row) <= 1.0
  {
    var cited := row.item.cited;
    var correct, invalid := Places(IsExpected(row), cited), Places(IsForeign(row), cited);
    PlacesWithin(IsExpected(row), IsForeign(row), cited);
    var n := |cited| as real;
    hide Places, Expected, Documents;
    DivideBounds((|correct| + |invalid|) as real, n);
    assert |correct| as real / n + |invalid| as real / n == (|correct| + |invalid|) as real / n;
  }

  lemma {:induction false} PlacesWithin(p: string -> bool, q: string -> bool, s: seq<string>)
    requires forall x :: x in s ==> !(p(x) && q(x))
    ensures |Places(p, s)| + |Places(q, s)| <= |s|
    decreases |s|
  {
    hide Places;
    if s == [] {
      NoPlaces(p);
      NoPlaces(q);
    } else {
      var n := |s| - 1;
      PlacesWithin(p, q, s[..n]);
      PlacesSnoc(p, s);
      PlacesSnoc(q, s);
      assert s[n] in s;
    }
  }

  /** Sufficiency is 1 exactly when the answer states every expected fact, or declines where none is expected. */
  lemma SufficiencyMeans(lib: Library, row: Row)
    ensures CaseRate(lib, AnswerSufficiency, row) == 1.0
            <==> if row.gold.facts == [] then !row.gold.answerable
                 else forall fact :: fact in row.gold.facts ==> Contains(lib.fold(row.item.answer), lib.fold(fact))
  {
    PlacesFit(IsStated(lib, row), row.gold.facts);
    hide Places, Contains, Ratio;
    if row.gold.facts != [] {
      RatioIsOne(FactsFound(lib, row), |row.gold.facts|);
    }
  }

  // ---- Recall ----

  lemma FoundMonotone(expected: set<string>, a: seq<string>, b: seq<string>)
    requires forall x :: x in a ==> x in b
    ensures Found(expected, a) <= Found(expected, b)
  {
    SubsetSize(expected * Elements(a), expected * Elements(b));
  }

  lemma RatioMonotone(a: nat, b: nat, whole: nat)
    requires a <= b && 0 < whole
    ensures Ratio(a, whole) <= Ratio(b, whole)
  {
    assert a as real == Ratio(a, whole) * whole as real;
    assert b as real == Ratio(b, whole) * whole as real;
  }

  /** Recall grows with the number of positions looked at, and never exceeds the recall of the context. */
  lemma RecallMonotone(lib: Library, row: Row, j: nat, k: nat)
    requires 1 <= j <= k
    ensures CaseRate(lib, Recall(j), row) <= CaseRate(lib, Recall(k), row) <= CaseRate(lib, ContextRecall, row)
  {
    var retrieved, expected := row.item.retrieved, Expected(row);
    var first, more := Top(retrieved, j), Top(retrieved, k);
    FoundMonotone(expected, first, more);
    FoundMonotone(expected, more, retrieved);
    if expected != {} {
      RatioMonotone(Found(expected, first), Found(expected, more), |expected|);
      RatioMonotone(Found(expected, more), Found(expected, retrieved), |expected|);
    }
  }

  /** So do the means of the report. */
  lemma MeanRecallMonotone(lib: Library, rows: seq<Row>, j: nat, k: nat)
    requires 1 <= j <= k
    ensures MeanOf(RateOf(lib, Recall(j)), rows) <= MeanOf(RateOf(lib, Recall(k)), rows)
            <= MeanOf(RateOf(lib, ContextRecall), rows)
  {
    hide CaseRate;
    forall row: Row {
      RecallMonotone(lib, row, j, k);
    }
    MeanOfMonotone(RateOf(lib, Recall(j)), RateOf(lib, Recall(k)), rows);
    MeanOfMonotone(RateOf(lib, Recall(k)), RateOf(lib, ContextRecall), rows);
  }

  // ---- Conservation ----

  lemma MeanTimesCount<T>(f: T -> real, s: seq<T>)
    ensures |s| as real * MeanOf(f, s) == SumOf(f, s)
  {
  }

  /** Record count times the given rate, for each entry of a breakdown. */
  function RecordsTimes(breakdown: map<string, Bucket>, part: Bucket -> real): string -> real
  {
    name => if name in breakdown then breakdown[name].records as real * part(breakdown[name]) else 0.0
  }

  lemma WeightedBuckets(lib: Library, rows: seq<Row>, rate: Rate, part: Bucket -> real)
    requires forall bucket: seq<Row> {:trigger BucketOf(lib, bucket)} ::
               part(BucketOf(lib, bucket)) == MeanOf(RateOf(lib, rate), bucket)
    ensures SumOverNames(RecordsTimes(BreakdownOf(lib, rows), part), Types(rows))
            == |rows| as real * MeanOf(RateOf(lib, rate), rows)
  {
    hide CaseRate, Types, MeanOf, SumOf, InBucket, SumOverNames, Keep;
    var f, b := RateOf(lib, rate), BreakdownOf(lib, rows);
    var weighted, sums := RecordsTimes(b, part), BucketSum(f, QueryType, rows);
    forall name | name in Types(rows) ensures weighted(name) == sums(name) {
      var bucket := InBucket(QueryType, rows, name);
      assert b[name] == BucketOf(lib, bucket);
      MeanTimesCount(f, bucket);
    }
    SumOverSame(weighted, sums, Types(rows));
    TypesNameRows(rows);
    BucketsPartition(f, QueryType, rows, Types(rows));
    MeanTimesCount(f, rows);
  }

  lemma BreakdownKeys(lib: Library, rows: seq<Row>)
    ensures BreakdownOf(lib, rows).Keys == Types(rows)
  {
  }

  lemma TypesNameRows(rows: seq<Row>)
    ensures forall row :: row in rows ==> QueryType(row) in Types(rows)
  {
  }

  /** Over the query types of a report, record counts times rates add up to the number of cases times the
      rate of the report: no case is lost, none is counted twice. */
  lemma BreakdownConserves(lib: Library, rows: seq<Row>, items: seq<Observation>)
    ensures var metrics, breakdown, n := MetricsOf(lib, rows, items), BreakdownOf(lib, rows), |rows| as real;
      && SumOverNames(RecordsTimes(breakdown, (b: Bucket) => b.falsePositive), breakdown.Keys)
         == n * metrics.rates[FalsePositive]
      && SumOverNames(RecordsTimes(breakdown, (b: Bucket) => b.falseNegative), breakdown.Keys)
         == n * metrics.rates[FalseNegative]
      && SumOverNames(RecordsTimes(breakdown, (b: Bucket) => b.citationPrecision), breakdown.Keys)
         == n * metrics.rates[CitationPrecision]
      && SumOverNames(RecordsTimes(breakdown, (b: Bucket) => b.citationCoverage), breakdown.Keys)
         == n * metrics.rates[CitationCoverage]
  {
    hide CaseRate, MetricsOf, MeanOf, SumOf, RateNames, InBucket, SumOverNames, Types, RateOf;
    BreakdownKeys(lib, rows);
    NamedRates(lib, rows, items);
    WeightedBuckets(lib, rows, FalsePositive, (b: Bucket) => b.falsePositive);
    WeightedBuckets(lib, rows, FalseNegative, (b: Bucket) => b.falseNegative);
    WeightedBuckets(lib, rows, CitationPrecision, (b: Bucket) => b.citationPrecision);
    WeightedBuckets(lib, rows, CitationCoverage, (b: Bucket) => b.citationCoverage);
  }

  lemma NamedRates(lib: Library, rows: seq<Row>, items: seq<Observation>)
    ensures {FalsePositive, FalseNegative, CitationPrecision, CitationCoverage, SourceInvalidity} <= RateNames()
    ensures MetricsOf(lib, rows, items).rates.Keys == RateNames()
    ensures forall rate :: rate in RateNames() ==>
              MetricsOf(lib, rows, items).rates[rate] == MeanOf(RateOf(lib, rate), rows)
  {
    hide CaseRate;
  }

  lemma NamedCounters(lib: Library, rows: seq<Row>, items: seq<Observation>)
    ensures MetricsOf(lib, rows, items).fabricated == TotalOf(FabricatedIn, rows)
    ensures MetricsOf(lib, rows, items).invalidCitations == TotalOf(InvalidCitations, rows)
  {
    hide TotalOf, CaseRate, MeanOf, RateNames;
  }

  lemma FabricatedIsFalsePositive(lib: Library, row: Row)
    ensures FabricatedIn(row) as real == CaseRate(lib, FalsePositive, row)
  {
  }

  /** The counter of fabricated answers is the false positive rate times the number of cases. */
  lemma FabricatedAgrees(lib: Library, rows: seq<Row>, items: seq<Observation>)
    ensures var metrics := MetricsOf(lib, rows, items);
      metrics.fabricated as real == |rows| as real * metrics.rates[FalsePositive]
  {
    NamedCounters(lib, rows, items);
    NamedRates(lib, rows, items);
    hide CaseRate, FabricatedIn, RateNames, MeanOf, SumOf, TotalOf, MetricsOf;
    var counted := AsReal(FabricatedIn);
    forall row: Row {
      FabricatedIsFalsePositive(lib, row);
    }
    TotalAsSum(FabricatedIn, rows);
    SumOfSame(counted, RateOf(lib, FalsePositive), rows);
    MeanTimesCount(RateOf(lib, FalsePositive), rows);
  }

  lemma InvalidityVanishes(lib: Library, row: Row)
    ensures CaseRate(lib, SourceInvalidity, row) == 0.0 <==> InvalidCitations(row) == 0
  {
    CitationsFit(row);
    if row.item.cited != [] {
      assert InvalidCitations(row) as real == InvalidShare(row) * |row.item.cited| as real;
    }
  }

  /** The counter of invalid citations is 0 exactly when the rate of invalid citations is 0, so the two
      zero thresholds that the release gates put on them agree. */
  lemma InvalidityGatesAgree(lib: Library, rows: seq<Row>, items: seq<Observation>)
    ensures var metrics := MetricsOf(lib, rows, items);
      metrics.invalidCitations == 0 <==> metrics.rates[SourceInvalidity] == 0.0
  {
    NamedCounters(lib, rows, items);
    NamedRates(lib, rows, items);
    hide CaseRate, InvalidCitations, RateNames, MeanOf, SumOf, TotalOf, MetricsOf;
    var counted, share := AsReal(InvalidCitations), RateOf(lib, SourceInvalidity);
    forall row: Row ensures counted(row) == 0.0 <==> share(row) == 0.0 {
      InvalidityVanishes(lib, row);
    }
    forall row: Row ensures 0.0 <= share(row) {
      SharesInUnit(row);
      InvalidShareIs(lib, row);
    }
    TotalAsSum(InvalidCitations, rows);
    SumOfZero(counted, rows);
    SumOfZero(share, rows);
    MeanTimesCount(share, rows);
    MeanVanishes(share, rows);
  }

  lemma InvalidShareIs(lib: Library, row: Row)
    ensures CaseRate(lib, SourceInvalidity, row) == InvalidShare(row)
  {
  }

  lemma MeanVanishes<T>(f: T -> real, s: seq<T>)
    ensures MeanOf(f, s) == 0.0 <==> SumOf(f, s) == 0.0
  {
  }
}
