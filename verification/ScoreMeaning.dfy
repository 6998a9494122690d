/** What every rate, counter and time of a report means, in terms of the positions of the retrieved and cited lists
    and of the fields of the observations. */
module ScoreMeaning {
  import opened Outcomes
  import opened BenchmarkPack
  import opened StringSets
  import opened RealSums
  import opened RankGain
  import opened Percentile
  import opened Scoring
  import opened ScoreLaws

  lemma ExpectedIs(row: Row)
    ensures forall source :: source in Expected(row) <==> source in row.gold.sources
    ensures Expected(row) == {} <==> row.gold.sources == []
    ensures Expected(row) == ExpectedSources(row)
  {
    if row.gold.sources != [] {
      assert row.gold.sources[0] in Expected(row);
    }
  }

  // ---- The first hit ----

  /** Position `k` of the retrieved list holds an expected source. */
  predicate HitAt(row: Row, k: nat)
  {
    k < |row.item.retrieved| && row.item.retrieved[k] in row.gold.sources
  }

  ghost predicate FirstHit(row: Row, k: nat)
  {
    HitAt(row, k) && forall m: nat :: m < k ==> !HitAt(row, m)
  }

  /** The ranks of a case begin at its first hit, and there are none without a hit. */
  lemma FirstRankIs(row: Row)
    ensures forall k: nat :: FirstHit(row, k) ==> Ranks(row) != [] && Ranks(row)[0] == k + 1
    ensures Ranks(row) == [] <==> forall k: nat :: !HitAt(row, k)
    ensures Ranks(row) != [] ==> Ranks(row)[0] >= 1 && FirstHit(row, Ranks(row)[0] - 1)
  {
    var retrieved, expected := row.item.retrieved, Expected(row);
    ExpectedIs(row);
    RanksIncrease(retrieved, expected);
    hide Expected, RelevantRanks, Elements;
    forall k: nat | FirstHit(row, k) ensures Ranks(row) != [] && Ranks(row)[0] == k + 1 {
      FirstIsFirst(row, k);
    }
    if Ranks(row) != [] {
      var k := Ranks(row)[0] - 1;
      assert k + 1 in Ranks(row);
      RankMeansFirstHit(retrieved, expected, k);
      assert HitAt(row, k);
      forall m: nat | m < k ensures !HitAt(row, m) {
        if HitAt(row, m) {
          var f := SomeFirstHit(row, m);
          FirstIsFirst(row, f);
        }
      }
    }
    if k: nat :| HitAt(row, k) {
      var f := SomeFirstHit(row, k);
      FirstIsFirst(row, f);
    }
  }

  lemma SomeFirstHit(row: Row, k: nat) returns (f: nat)
    requires HitAt(row, k)
    ensures f <= k && FirstHit(row, f)
  {
    if m: nat :| m < k && HitAt(row, m) {
      f := SomeFirstHit(row, m);
    } else {
      f := k;
    }
  }

  lemma FirstIsFirst(row: Row, k: nat)
    requires FirstHit(row, k)
    ensures Ranks(row) != [] && Ranks(row)[0] == k + 1
  {
    var retrieved, expected := row.item.retrieved, Expected(row);
    ExpectedIs(row);
    hide Expected, RelevantRanks, Elements;
    forall m | 0 <= m < k ensures retrieved[m] !in expected {
      assert !HitAt(row, m);
    }
    assert retrieved[k] !in retrieved[..k];
    RankMeansFirstHit(retrieved, expected, k);
    RanksIncrease(retrieved, expected);
    var ranks := Ranks(row);
    var i :| 0 <= i < |ranks| && ranks[i] == k + 1;
    assert ranks[0] in ranks && 1 <= ranks[0] <= |retrieved|;
    RankMeansFirstHit(retrieved, expected, ranks[0] - 1);
  }

  /** The reciprocal rank is 1 / (k + 1) when position k < 10 is the first with an expected source, and 0 exactly when
      none of the first ten positions has one. */
  lemma ReciprocalRankMeans(lib: Library, row: Row)
    ensures forall k: nat :: k < 10 && FirstHit(row, k) ==> CaseRate(lib, Mrr, row) == 1.0 / (k + 1) as real
    ensures CaseRate(lib, Mrr, row) == 0.0 <==> forall k: nat :: k < 10 ==> !HitAt(row, k)
  {
    FirstRankIs(row);
    if Ranks(row) != [] {
      var f := Ranks(row)[0] - 1;
      if f < 10 {
        assert 1.0 / (f + 1) as real > 0.0;
      } else {
        assert forall k: nat :: k < 10 ==> !HitAt(row, k);
      }
    }
  }

  // ---- Recall, precision and gain ----

  /** The expected sources among the first `k` retrieved ones. */
  ghost function RetrievedWithin(row: Row, k: nat): set<string>
  {
    set source | source in row.gold.sources
                 && exists i :: 0 <= i < k && i < |row.item.retrieved| && row.item.retrieved[i] == source
  }

  ghost function ExpectedSources(row: Row): set<string>
  {
    set source | source in row.gold.sources
  }

  lemma RatioTimes(part: nat, whole: nat)
    requires 0 < whole
    ensures Ratio(part, whole) * whole as real == part as real
  {
  }

  lemma TopHas(row: Row, k: nat)
    ensures Expected(row) * Elements(Top(row.item.retrieved, k)) == RetrievedWithin(row, k)
  {
    var retrieved := row.item.retrieved;
    var top := Top(retrieved, k);
    forall source | source in RetrievedWithin(row, k) ensures source in top {
      var i :| 0 <= i < k && i < |retrieved| && retrieved[i] == source;
      assert top[i] == source;
    }
    forall source | source in Expected(row) && source in top ensures source in RetrievedWithin(row, k) {
      var i :| 0 <= i < |top| && top[i] == source;
      assert retrieved[i] == source;
    }
  }

  /** Recall at k times the number of expected sources is how many of them the first k positions hold. */
  lemma RecallMeans(lib: Library, row: Row, k: nat)
    requires 1 <= k
    ensures row.gold.sources != [] ==>
              CaseRate(lib, Recall(k), row) * |ExpectedSources(row)| as real == |RetrievedWithin(row, k)| as real
    ensures row.gold.sources == [] ==> CaseRate(lib, Recall(k), row) == if row.item.retrieved == [] then 1.0 else 0.0
  {
    ExpectedIs(row);
    TopHas(row, k);
    assert Expected(row) == ExpectedSources(row);
    hide Expected, Ratio, Elements;
    if row.gold.sources != [] {
      RatioTimes(|RetrievedWithin(row, k)|, |ExpectedSources(row)|);
    }
  }

  /** So is context recall, over the whole list; context precision relates the same number to the length of the
      list. */
  lemma ContextMeans(lib: Library, row: Row)
    ensures var hits := |RetrievedWithin(row, |row.item.retrieved|)| as real;
      && (row.gold.sources != [] ==> CaseRate(lib, ContextRecall, row) * |ExpectedSources(row)| as real == hits)
      && (row.gold.sources == [] ==> CaseRate(lib, ContextRecall, row) == 1.0)
      && (row.item.retrieved != [] ==> CaseRate(lib, ContextPrecision, row) * |row.item.retrieved| as real == hits)
      && (row.item.retrieved == [] ==>
            CaseRate(lib, ContextPrecision, row) == if row.gold.sources == [] then 1.0 else 0.0)
  {
    var retrieved := row.item.retrieved;
    ExpectedIs(row);
    TopHas(row, |retrieved|);
    assert Top(retrieved, |retrieved|) == retrieved && Expected(row) == ExpectedSources(row);
    ContextRatesAre(lib, row);
    assert Found(Expected(row), retrieved) == |RetrievedWithin(row, |retrieved|)|;
    hide CaseRate, Expected, ExpectedSources, Elements, Found, ShareOf, RetrievedWithin;
    ShareTimes(Found(Expected(row), retrieved), |retrieved|, if Expected(row) == {} then 1.0 else 0.0);
    ShareTimes(Found(Expected(row), retrieved), |Expected(row)|, 1.0);
    assert |Expected(row)| == 0 <==> Expected(row) == {};
  }

  lemma ContextRatesAre(lib: Library, row: Row)
    ensures var retrieved, expected := row.item.retrieved, Expected(row);
      && CaseRate(lib, ContextPrecision, row)
         == ShareOf(Found(expected, retrieved), |retrieved|, if expected == {} then 1.0 else 0.0)
      && CaseRate(lib, ContextRecall, row) == ShareOf(Found(expected, retrieved), |expected|, 1.0)
  {
    hide Expected, Elements, Found;
    assert |Expected(row)| == 0 <==> Expected(row) == {};
  }

  /** The sum of discount(i + 1) over the positions i < n that satisfy `p`. */
  ghost function DiscountSum(discount: nat -> real, p: nat -> bool, n: nat): real
  {
    if n == 0 then 0.0 else DiscountSum(discount, p, n - 1) + if p(n - 1) then discount(n) else 0.0
  }

  /** Position i holds an expected source that no earlier position holds. */
  predicate NewHit(retrieved: seq<string>, expected: set<string>, i: nat)
  {
    i < |retrieved| && retrieved[i] in expected && retrieved[i] !in retrieved[..i]
  }

  ghost function NewHits(retrieved: seq<string>, expected: set<string>): nat -> bool
  {
    (i: nat) => NewHit(retrieved, expected, i)
  }

  ghost function Always(): nat -> bool
  {
    (i: nat) => true
  }

  lemma {:induction false} SameDiscountSum(discount: nat -> real, p: nat -> bool, q: nat -> bool, n: nat)
    requires forall i: nat :: i < n ==> p(i) == q(i)
    ensures DiscountSum(discount, p, n) == DiscountSum(discount, q, n)
    decreases n
  {
    if n > 0 {
      SameDiscountSum(discount, p, q, n - 1);
    }
  }

  lemma {:induction false} NoMoreHits(discount: nat -> real, p: nat -> bool, m: nat, n: nat)
    requires m <= n && forall i: nat :: m <= i ==> !p(i)
    ensures DiscountSum(discount, p, n) == DiscountSum(discount, p, m)
    decreases n
  {
    if m < n {
      NoMoreHits(discount, p, m, n - 1);
    }
  }

  lemma {:induction false} IdealIsSum(discount: nat -> real, n: nat)
    ensures Ideal(discount, n) == DiscountSum(discount, Always(), n)
    decreases n
  {
    if n > 0 {
      IdealIsSum(discount, n - 1);
    }
  }

  lemma {:induction false} GainIsSum(discount: nat -> real, retrieved: seq<string>, expected: set<string>)
    requires |retrieved| <= CUTOFF
    ensures Gain(discount, RelevantRanks(retrieved, expected))
            == DiscountSum(discount, NewHits(retrieved, expected), |retrieved|)
    decreases |retrieved|
  {
    if retrieved != [] {
      var n := |retrieved| - 1;
      var front := retrieved[..n];
      GainIsSum(discount, front, expected);
      forall i: nat | i < n ensures NewHits(front, expected)(i) == NewHits(retrieved, expected)(i) {
        assert front[..i] == retrieved[..i];
      }
      SameDiscountSum(discount, NewHits(front, expected), NewHits(retrieved, expected), n);
      if NewHit(retrieved, expected, n) {
        GainAppend(discount, RelevantRanks(front, expected), n + 1);
      }
    }
  }

  /** The discounted gain relates the discounts of the first ten positions with a new expected source to those of the
      first min(expected, 10) positions. */
  lemma DiscountedGainMeans(lib: Library, row: Row)
    requires Discounting(lib.discount)
    ensures var best := if |ExpectedSources(row)| < 10 then |ExpectedSources(row)| else 10;
      row.gold.sources != [] ==>
        CaseRate(lib, Ndcg, row) * DiscountSum(lib.discount, Always(), best)
        == DiscountSum(lib.discount, NewHits(row.item.retrieved, ExpectedSources(row)), 10)
    ensures row.gold.sources == [] ==> CaseRate(lib, Ndcg, row) == if row.item.retrieved == [] then 1.0 else 0.0
  {
    hide Ideal, Gain, RelevantRanks, Expected, ExpectedSources, DiscountSum, Discounting, CaseRate, NewHits, Always;
    var expected := Expected(row);
    ExpectedIs(row);
    GainOfHits(lib.discount, row.item.retrieved, expected);
    IdealIsSum(lib.discount, Cut(|expected|));
    IdealPositive(lib.discount, Cut(|expected|));
    GainRateIs(lib, row);
    RateTimesIdeal(CaseRate(lib, Ndcg, row), Gain(lib.discount, Ranks(row)), Ideal(lib.discount, Cut(|expected|)));
  }

  lemma RateTimesIdeal(rate: real, gain: real, ideal: real)
    ensures ideal != 0.0 && rate == gain / ideal ==> rate * ideal == gain
  {
  }

  lemma GainRateIs(lib: Library, row: Row)
    ensures var ideal := Ideal(lib.discount, Cut(|Expected(row)|));
      CaseRate(lib, Ndcg, row)
      == if ideal != 0.0 then Gain(lib.discount, Ranks(row)) / ideal else if row.item.retrieved == [] then 1.0 else 0.0
  {
    hide Ideal, Gain, Ranks, Expected;
  }

  lemma IdealPositive(discount: nat -> real, n: nat)
    requires Discounting(discount)
    ensures Ideal(discount, n) == 0.0 <==> n == 0
  {
    IdealMonotone(discount, 0, n);
  }

  lemma GainOfHits(discount: nat -> real, retrieved: seq<string>, expected: set<string>)
    ensures Gain(discount, RelevantRanks(retrieved, expected)) == DiscountSum(discount, NewHits(retrieved, expected), 10)
  {
    var n := Cut(|retrieved|);
    GainOfPrefix(discount, retrieved, expected);
    GainIsSum(discount, retrieved[..n], expected);
    forall i: nat | i < n ensures NewHits(retrieved[..n], expected)(i) == NewHits(retrieved, expected)(i) {
      assert retrieved[..n][..i] == retrieved[..i];
    }
    hide Gain, RelevantRanks;
    SameDiscountSum(discount, NewHits(retrieved[..n], expected), NewHits(retrieved, expected), n);
    if n < 10 {
      NoMoreHits(discount, NewHits(retrieved, expected), n, 10);
    }
  }

  // ---- Citations, facts and answers ----

  /** The positions of citations of expected sources, and of citations of no document of the case. */
  ghost function ExpectedAt(row: Row): set<nat>
  {
    set i: nat | i < |row.item.cited| && row.item.cited[i] in row.gold.sources
  }

  ghost function ForeignAt(row: Row): set<nat>
  {
    set i: nat | i < |row.item.cited| && forall d :: d in row.c.documents ==> d.id != row.item.cited[i]
  }

  ghost function CitedSources(row: Row): set<string>
  {
    set source | source in row.gold.sources && source in row.item.cited
  }

  /** Citation precision, recall, coverage and invalidity, as numbers of citations and of expected sources. */
  lemma CitationsMean(lib: Library, row: Row)
    ensures var cited, n := row.item.cited, |row.item.cited| as real;
      && (cited != [] ==>
            && CaseRate(lib, CitationPrecision, row) * n == |ExpectedAt(row)| as real
            && CaseRate(lib, SourceInvalidity, row) * n == |ForeignAt(row)| as real)
      && (cited == [] ==>
            && CaseRate(lib, CitationPrecision, row) == (if row.gold.sources == [] then 1.0 else 0.0)
            && CaseRate(lib, SourceInvalidity, row) == 0.0)
      && InvalidCitations(row) == |ForeignAt(row)|
      && (row.gold.sources != [] ==>
            CaseRate(lib, CitationRecall, row) * |ExpectedSources(row)| as real == |CitedSources(row)| as real)
      && (row.gold.sources == [] ==> CaseRate(lib, CitationRecall, row) == 1.0)
      && CaseRate(lib, CitationCoverage, row)
         == if forall source :: source in row.gold.sources ==> source in row.item.cited then 1.0 else 0.0
  {
    ExpectedIs(row);
    CitationPlaces(row);
    CitationRatesAre(lib, row);
    hide CaseRate, Places, Expected, ExpectedSources, Elements, Documents, ExpectedAt, ForeignAt, CitedSources, Found,
         CorrectCitations, InvalidCitations, ShareOf;
    var cited := row.item.cited;
    ShareTimes(CorrectCitations(row), |cited|, if Expected(row) == {} then 1.0 else 0.0);
    ShareTimes(InvalidCitations(row), |cited|, 0.0);
    ShareTimes(Found(Expected(row), cited), |Expected(row)|, 1.0);
    assert |Expected(row)| == 0 <==> Expected(row) == {};
  }

  /** A share of nothing is `otherwise`. */
  function ShareOf(part: nat, whole: nat, otherwise: real): real
  {
    if whole == 0 then otherwise else part as real / whole as real
  }

  lemma ShareTimes(part: nat, whole: nat, otherwise: real)
    ensures whole > 0 ==> ShareOf(part, whole, otherwise) * whole as real == part as real
    ensures whole == 0 ==> ShareOf(part, whole, otherwise) == otherwise
  {
  }

  lemma CitationRatesAre(lib: Library, row: Row)
    ensures var cited, expected := row.item.cited, Expected(row);
      && CaseRate(lib, CitationPrecision, row)
         == ShareOf(CorrectCitations(row), |cited|, if expected == {} then 1.0 else 0.0)
      && CaseRate(lib, SourceInvalidity, row) == ShareOf(InvalidCitations(row), |cited|, 0.0)
      && CaseRate(lib, CitationRecall, row) == ShareOf(Found(expected, cited), |expected|, 1.0)
      && CaseRate(lib, CitationCoverage, row) == (if expected <= Elements(cited) then 1.0 else 0.0)
  {
    hide Expected, Elements, Found, CorrectCitations, InvalidCitations;
    assert |Expected(row)| == 0 <==> Expected(row) == {};
  }

  lemma CitationPlaces(row: Row)
    ensures CorrectCitations(row) == |ExpectedAt(row)| && InvalidCitations(row) == |ForeignAt(row)|
    ensures Found(Expected(row), row.item.cited) == |CitedSources(row)|
    ensures Expected(row) <= Elements(row.item.cited)
            <==> forall source :: source in row.gold.sources ==> source in row.item.cited
  {
    var cited := row.item.cited;
    ExpectedIs(row);
    DocumentsAre(row);
    hide Expected, Documents;
    assert Places(IsExpected(row), cited) == ExpectedAt(row);
    assert Places(IsForeign(row), cited) == ForeignAt(row);
    assert Expected(row) * Elements(cited) == CitedSources(row);
  }

  lemma DocumentsAre(row: Row)
    ensures Documents(row) == set d | d in row.c.documents :: d.id
  {
    var ids := DocumentIds(row.c.documents);
    forall x | x in Documents(row) ensures x in set d | d in row.c.documents :: d.id {
      var i :| 0 <= i < |ids| && ids[i] == x;
      assert row.c.documents[i] in row.c.documents;
    }
    forall d | d in row.c.documents ensures d.id in Documents(row) {
      var i :| 0 <= i < |row.c.documents| && row.c.documents[i] == d;
      assert ids[i] == d.id;
    }
  }

  /** The rates of the answer itself. */
  lemma AnswerMeans(lib: Library, row: Row)
    ensures var item, gold := row.item, row.gold;
      && CaseRate(lib, FalsePositive, row) == (if item.predictedAnswerable && !gold.answerable then 1.0 else 0.0)
      && CaseRate(lib, FalseNegative, row) == (if !item.predictedAnswerable && gold.answerable then 1.0 else 0.0)
      && (item.claims != 0 ==>
            CaseRate(lib, UnsupportedClaims, row) * item.claims as real == item.claims as real - item.supported as real)
      && (item.claims == 0 ==> CaseRate(lib, UnsupportedClaims, row) == 0.0)
  {
  }

  /** Sufficiency is the share of the expected facts that occur in the answer, both case-folded. */
  lemma SufficiencyCounts(lib: Library, row: Row)
    ensures var facts := row.gold.facts;
      && (facts != [] ==>
            CaseRate(lib, AnswerSufficiency, row) * |facts| as real
            == |set i: nat | i < |facts| && Within(lib.fold(facts[i]), lib.fold(row.item.answer))| as real)
      && (facts == [] ==> CaseRate(lib, AnswerSufficiency, row) == if row.gold.answerable then 0.0 else 1.0)
  {
    FactsAre(lib, row);
    hide FactsFound, Within;
    assert CaseRate(lib, AnswerSufficiency, row)
           == ShareOf(FactsFound(lib, row), |row.gold.facts|, if row.gold.answerable then 0.0 else 1.0);
    hide CaseRate, ShareOf;
    ShareTimes(FactsFound(lib, row), |row.gold.facts|, if row.gold.answerable then 0.0 else 1.0);
  }

  lemma FactsAre(lib: Library, row: Row)
    ensures var facts := row.gold.facts;
      FactsFound(lib, row)
      == |set i: nat | i < |facts| && Within(lib.fold(facts[i]), lib.fold(row.item.answer))|
  {
    hide Within, Contains;
    var facts := row.gold.facts;
    forall i: nat | i < |facts|
      ensures IsStated(lib, row)(facts[i]) <==> Within(lib.fold(facts[i]), lib.fold(row.item.answer))
    {
      ContainsMeans(lib.fold(row.item.answer), lib.fold(facts[i]));
    }
    assert Places(IsStated(lib, row), facts)
           == set i: nat | i < |facts| && Within(lib.fold(facts[i]), lib.fold(row.item.answer));
  }

  /** The text has `part` somewhere. */
  ghost predicate Within(part: string, text: string)
  {
    exists before: string, after: string :: text == before + part + after
  }

  lemma ContainsMeans(text: string, part: string)
    ensures Contains(text, part) <==> Within(part, text)
  {
    if Contains(text, part) {
      var i :| 0 <= i <= |text| - |part| && part <= text[i..];
      SplitAt(text, part, i);
    }
    if Within(part, text) {
      var before: string, after: string :| text == before + part + after;
      FoundAfter(before, part, after);
    }
  }

  lemma SplitAt(text: string, part: string, i: nat)
    requires i + |part| <= |text| && part <= text[i..]
    ensures text == text[..i] + part + text[i + |part|..]
  {
    assert text[i..][..|part|] == part;
    assert text[i..i + |part|] == part;
  }

  lemma FoundAfter(before: string, part: string, after: string)
    ensures part <= (before + part + after)[|before|..]
  {
    assert (before + part + after)[|before|..] == part + after;
  }

  /** A forbidden source that the answer surfaced, in what was retrieved or cited. */
  ghost predicate Surfaces(row: Row)
  {
    exists source :: source in row.gold.forbidden && (source in row.item.retrieved || source in row.item.cited)
  }

  /** Contradiction handling fails, and an injection of an adversarial case succeeds, exactly when a forbidden source
      was surfaced; an adversarial case that forbids nothing counts as an injection that succeeded. */
  lemma ForbiddenMeans(lib: Library, row: Row)
    ensures CaseRate(lib, ContradictionHandling, row) == if Surfaces(row) then 0.0 else 1.0
    ensures CaseRate(lib, PromptInjection, row)
            == if row.gold.adversarial && (Surfaces(row) || row.gold.forbidden == []) then 1.0 else 0.0
  {
    if ForbiddenHit(row) {
      var k :| 0 <= k < |row.gold.forbidden| && Surfaced(row, row.gold.forbidden[k]);
      assert row.gold.forbidden[k] in row.gold.forbidden;
    }
    if Surfaces(row) {
      var source :| source in row.gold.forbidden && (source in row.item.retrieved || source in row.item.cited);
      var k :| 0 <= k < |row.gold.forbidden| && row.gold.forbidden[k] == source;
      assert Surfaced(row, row.gold.forbidden[k]);
    }
  }

  // ---- The report ----

  /** The positions whose elements satisfy `p`. */
  ghost function Where<T>(p: T -> bool, s: seq<T>): set<nat>
  {
    set i: nat | i < |s| && p(s[i])
  }

  lemma WhereSnoc<T>(p: T -> bool, s: seq<T>, x: T)
    ensures |Where(p, s + [x])| == |Where(p, s)| + if p(x) then 1 else 0
  {
    assert Where(p, s + [x]) == if p(x) then Where(p, s) + {|s|} else Where(p, s);
  }

  lemma {:induction false} SumOfUnits<T>(f: T -> real, p: T -> bool, s: seq<T>)
    requires forall x: T :: f(x) == if p(x) then 1.0 else 0.0
    ensures SumOf(f, s) == |Where(p, s)| as real
    decreases |s|
  {
    if s == [] {
      assert Where(p, s) == {};
    } else {
      var n := |s| - 1;
      assert s == s[..n] + [s[n]];
      SumOfUnits(f, p, s[..n]);
      SumOfAppend(f, s[..n], [s[n]]);
      SumOfOne(f, s[n]);
      WhereSnoc(p, s[..n], s[n]);
    }
  }

  /** The mean of a yes-or-no measure times the number of elements is the number of elements with a yes. */
  lemma MeanOfUnits<T>(f: T -> real, p: T -> bool, s: seq<T>)
    requires forall x: T :: f(x) == if p(x) then 1.0 else 0.0
    ensures MeanOf(f, s) * |s| as real == |Where(p, s)| as real
  {
    SumOfUnits(f, p, s);
    MeanTimesCount(f, s);
  }

  ghost function Both<T>(p: T -> bool, q: T -> bool): T -> bool
  {
    x => p(x) && q(x)
  }

  lemma {:induction false} KeptAre<T>(p: T -> bool, q: T -> bool, s: seq<T>)
    ensures |Where(q, Keep(p, s))| == |Where(Both(p, q), s)|
    ensures |Keep(p, s)| == |Where(p, s)|
    decreases |s|
  {
    var both := Both(p, q);
    if s == [] {
      assert Where(both, s) == {} && Where(q, s) == {} && Where(p, s) == {};
    } else {
      var n := |s| - 1;
      assert s == s[..n] + [s[n]];
      KeptAre(p, q, s[..n]);
      KeepAppend(p, s[..n], [s[n]]);
      KeepOne(p, s[n]);
      WhereSnoc(both, s[..n], s[n]);
      WhereSnoc(p, s[..n], s[n]);
      if p(s[n]) {
        WhereSnoc(q, Keep(p, s[..n]), s[n]);
      } else {
        assert Keep(p, s) == Keep(p, s[..n]);
      }
    }
  }

  // Where the parts of a report come from.

  lemma MeansOfReport(lib: Library, rows: seq<Row>, items: seq<Observation>)
    ensures var m := MetricsOf(lib, rows, items);
      && m.versionLeakage == MeanOf(VersionLeaked, items) && m.profileLeakage == MeanOf(ProfileLeaked, items)
      && m.projectLeakage == MeanOf(ProjectLeaked, items) && m.workspaceLeakage == MeanOf(WorkspaceLeaked, items)
      && m.identifierExact == MeanOf(SourceSuccess, Keep(IsExact, rows))
      && m.identifierFuzzy == MeanOf(SourceSuccess, Keep(IsFuzzy, rows))
      && m.firstRank == MeanOf(Scoring.FirstRank, Keep(HasRank, rows))
  {
    hide MeanOf, TotalOf, DuplicateRate, Keep, CaseRate, RateNames, PercentilesOf, Applied, Stages, TimesOf, ErrorCounts;
  }

  lemma TotalsOfReport(lib: Library, rows: seq<Row>, items: seq<Observation>)
    ensures var m := MetricsOf(lib, rows, items);
      && m.permissionLeakage == TotalOf(PermissionLeaks, items) && m.critical == TotalOf(CriticalFindings, items)
      && m.retries == TotalOf(Retries, items) && m.duplicates == TotalOf(Duplicates, items)
      && m.orphans == TotalOf(Orphans, items) && m.duplicateRate == DuplicateRate(items)
  {
    hide MeanOf, TotalOf, DuplicateRate, Keep, CaseRate, RateNames, PercentilesOf, Applied, Stages, TimesOf, ErrorCounts;
  }

  lemma TimesOfReport(lib: Library, rows: seq<Row>, items: seq<Observation>)
    ensures var m := MetricsOf(lib, rows, items);
      && m.ingestion == PercentilesOf(Applied(IngestionMs, items))
      && m.retrieval == PercentilesOf(Applied(RetrievalMs, items))
      && m.endToEnd == PercentilesOf(Applied(EndToEndMs, items))
      && m.queueWait == PercentilesOf(Applied(QueueWaitMs, items))
  {
    hide MeanOf, TotalOf, DuplicateRate, Keep, CaseRate, RateNames, PercentilesOf, Applied, Stages, TimesOf, ErrorCounts;
  }

  /** A leak rate times the number of observations is the number of observations with a leak. */
  lemma LeaksMean(lib: Library, rows: seq<Row>, items: seq<Observation>)
    ensures var m, n := MetricsOf(lib, rows, items), |items| as real;
      && m.versionLeakage * n == |Where((x: Observation) => x.versionLeaks > 0, items)| as real
      && m.profileLeakage * n == |Where((x: Observation) => x.profileLeaks > 0, items)| as real
      && m.projectLeakage * n == |Where((x: Observation) => x.projectLeaks > 0, items)| as real
      && m.workspaceLeakage * n == |Where((x: Observation) => x.workspaceLeaks > 0, items)| as real
  {
    hide Where, MeanOf, MetricsOf;
    MeanOfUnits(VersionLeaked, (x: Observation) => x.versionLeaks > 0, items);
    MeanOfUnits(ProfileLeaked, (x: Observation) => x.profileLeaks > 0, items);
    MeanOfUnits(ProjectLeaked, (x: Observation) => x.projectLeaks > 0, items);
    MeanOfUnits(WorkspaceLeaked, (x: Observation) => x.workspaceLeaks > 0, items);
    MeansOfReport(lib, rows, items);
  }

  /** The counters add up: one more observation adds its own numbers, and there is nothing to begin with. */
  lemma CountersAdd(lib: Library, rows: seq<Row>, items: seq<Observation>, item: Observation)
    ensures var m, n := MetricsOf(lib, rows, items), MetricsOf(lib, rows, items + [item]);
      && n.permissionLeakage == m.permissionLeakage + item.permissionLeaks
      && n.critical == m.critical + item.critical && n.retries == m.retries + item.retries
      && n.duplicates == m.duplicates + item.duplicates && n.orphans == m.orphans + item.orphans
    ensures var m := MetricsOf(lib, rows, []);
      m.permissionLeakage == m.critical == m.retries == m.duplicates == m.orphans == 0
  {
    hide TotalOf, MetricsOf, DuplicateRate;
    TotalSnoc(PermissionLeaks, items, item);
    TotalSnoc(CriticalFindings, items, item);
    TotalSnoc(Retries, items, item);
    TotalSnoc(Duplicates, items, item);
    TotalSnoc(Orphans, items, item);
    NothingTotal(PermissionLeaks);
    NothingTotal(CriticalFindings);
    NothingTotal(Retries);
    NothingTotal(Duplicates);
    NothingTotal(Orphans);
    TotalsOfReport(lib, rows, items);
    TotalsOfReport(lib, rows, items + [item]);
    TotalsOfReport(lib, rows, []);
  }

  lemma TotalSnoc(f: Observation -> nat, s: seq<Observation>, x: Observation)
    ensures TotalOf(f, s + [x]) == TotalOf(f, s) + f(x)
  {
    TotalOfAppend(f, s, [x]);
    assert [x][1..] == [] && TotalOf(f, [x][1..]) == 0;
  }

  lemma NothingTotal(f: Observation -> nat)
    ensures TotalOf(f, []) == 0
  {
  }

  /** The duplicate rate relates the reported duplicates to the number of retrieved sources of all observations. */
  lemma DuplicatesMean(lib: Library, rows: seq<Row>, items: seq<Observation>, lengths: seq<nat>)
    requires |lengths| == |items| && forall i :: 0 <= i < |items| ==> lengths[i] == |items[i].retrieved|
    ensures var m, total := MetricsOf(lib, rows, items), Sum(lengths);
      && (total > 0 ==> m.duplicateRate * total as real == m.duplicates as real)
      && (total == 0 ==> m.duplicateRate == m.duplicates as real)
  {
    hide MetricsOf, TotalOf, Sum;
    TotalsOfReport(lib, rows, items);
    LengthsTotal(items, lengths);
    var total := Sum(lengths);
    if total > 0 {
      RateTimes(DuplicateRate(items), TotalOf(Duplicates, items), total);
    }
  }

  lemma RateTimes(rate: real, part: nat, total: nat)
    requires total > 0 && rate == part as real / total as real
    ensures rate * total as real == part as real
  {
  }

  ghost function Sum(values: seq<nat>): nat
  {
    if values == [] then 0 else values[0] + Sum(values[1..])
  }

  lemma {:induction false} LengthsTotal(items: seq<Observation>, lengths: seq<nat>)
    requires |lengths| == |items| && forall i :: 0 <= i < |items| ==> lengths[i] == |items[i].retrieved|
    ensures TotalOf(RetrievedCount, items) == Sum(lengths)
    decreases |items|
  {
    if items != [] {
      LengthsTotal(items[1..], lengths[1..]);
    }
  }

  /** The times of the report are percentiles of exactly the times observed. */
  lemma TimesMean(lib: Library, rows: seq<Row>, items: seq<Observation>, ingestion: seq<real>, retrieval: seq<real>,
                  endToEnd: seq<real>, queueWait: seq<real>)
    requires |ingestion| == |retrieval| == |endToEnd| == |queueWait| == |items|
    requires forall i :: 0 <= i < |items| ==>
               && ingestion[i] == items[i].ingestionMs && retrieval[i] == items[i].retrievalMs
               && endToEnd[i] == items[i].endToEndMs && queueWait[i] == items[i].queueWaitMs
    ensures var m := MetricsOf(lib, rows, items);
      && m.ingestion == PercentilesOf(ingestion) && m.retrieval == PercentilesOf(retrieval)
      && m.endToEnd == PercentilesOf(endToEnd) && m.queueWait == PercentilesOf(queueWait)
  {
    hide MetricsOf, PercentilesOf, Applied;
    TimesOfReport(lib, rows, items);
    AppliedIs(IngestionMs, items);
    AppliedIs(RetrievalMs, items);
    AppliedIs(EndToEndMs, items);
    AppliedIs(QueueWaitMs, items);
    assert Applied(IngestionMs, items) == ingestion;
    assert Applied(RetrievalMs, items) == retrieval;
    assert Applied(EndToEndMs, items) == endToEnd;
    assert Applied(QueueWaitMs, items) == queueWait;
  }

  lemma AppliedIs<T, U>(f: T -> U, s: seq<T>)
    ensures |Applied(f, s)| == |s| && forall i :: 0 <= i < |s| ==> Applied(f, s)[i] == f(s[i])
  {
    forall i | 0 <= i < |s| ensures Applied(f, s)[i] == f(s[i]) {
      AppliedAt(f, s, i);
    }
  }

  lemma MapsOfReport(lib: Library, rows: seq<Row>, items: seq<Observation>)
    ensures var m := MetricsOf(lib, rows, items);
      && m.stages.Keys == Stages(items) && m.errors.Keys == Codes(items)
      && (forall stage :: stage in Stages(items) ==> m.stages[stage] == PercentilesOf(TimesOf(stage, items)))
      && (forall code :: code in Codes(items) ==> m.errors[code] == CodeCount(code, items))
  {
    hide MeanOf, TotalOf, DuplicateRate, Keep, CaseRate, RateNames, PercentilesOf, Applied, Stages, TimesOf, Codes, CodeCount;
  }

  /** The stages are those that occur, each with the percentiles of its times in order. */
  lemma StagesMean(lib: Library, rows: seq<Row>, items: seq<Observation>, stage: string)
    ensures var m := MetricsOf(lib, rows, items);
      && (stage in m.stages <==> exists i :: 0 <= i < |items| && stage in items[i].stageMs)
      && (stage in m.stages ==> m.stages[stage] == PercentilesOf(StageTimes(stage, items)))
  {
    StageOccurs(stage, items);
    hide MetricsOf, PercentilesOf, TimesOf, StageTimes, Stages, Codes, CodeCount;
    MapsOfReport(lib, rows, items);
    StageTimesAre(stage, items);
  }

  lemma StageOccurs(stage: string, items: seq<Observation>)
    ensures stage in Stages(items) <==> exists i :: 0 <= i < |items| && stage in items[i].stageMs
  {
    if i :| 0 <= i < |items| && stage in items[i].stageMs {
      assert items[i] in items;
    }
  }

  /** The error codes are those that occur, each with the number of observations that have it. */
  lemma ErrorsMean(lib: Library, rows: seq<Row>, items: seq<Observation>, code: Code)
    ensures var m := MetricsOf(lib, rows, items);
      && (code in m.errors <==> exists i :: 0 <= i < |items| && items[i].errorCode == Some(code))
      && (code in m.errors ==> m.errors[code] == |Where((x: Observation) => x.errorCode == Some(code), items)|)
  {
    CodeOccurs(code, items);
    KeptAre(HasCode(code), HasCode(code), items);
    WhereSame(HasCode(code), (x: Observation) => x.errorCode == Some(code), items);
    hide MetricsOf, PercentilesOf, TimesOf, Stages, Codes, Where;
    MapsOfReport(lib, rows, items);
  }

  lemma CodeOccurs(code: Code, items: seq<Observation>)
    ensures code in Codes(items) <==> exists i :: 0 <= i < |items| && items[i].errorCode == Some(code)
  {
    if i :| 0 <= i < |items| && items[i].errorCode == Some(code) {
      assert items[i] in items;
    }
  }

  lemma WhereSame<T(!new)>(p: T -> bool, q: T -> bool, s: seq<T>)
    requires forall x: T :: p(x) == q(x)
    ensures Where(p, s) == Where(q, s)
  {
  }

  ghost function StageTimes(stage: string, items: seq<Observation>): seq<real>
  {
    if items == [] then []
    else
      (if stage in items[0].stageMs then [items[0].stageMs[stage]] else []) + StageTimes(stage, items[1..])
  }

  lemma {:induction false} StageTimesAre(stage: string, items: seq<Observation>)
    ensures TimesOf(stage, items) == StageTimes(stage, items)
    decreases |items|
  {
    var f, p := StageOf(stage), HasStage(stage);
    if items != [] {
      StageTimesAre(stage, items[1..]);
      assert items == [items[0]] + items[1..];
      KeepAppend(p, [items[0]], items[1..]);
      KeepOne(p, items[0]);
      AppliedAppend(f, Keep(p, [items[0]]), Keep(p, items[1..]));
      AppliedOne(f, items[0]);
    }
  }

  /** The identifier success rates: among the cases whose query type speaks of identifiers, exact and fuzzy ones apart,
      the share of those with an expected source among the first ten, or with none expected. */
  lemma IdentifiersMean(lib: Library, rows: seq<Row>, items: seq<Observation>)
    ensures var m := MetricsOf(lib, rows, items);
      && m.identifierExact * |Where(ExactQuery, rows)| as real
         == |Where(Both(ExactQuery, Succeeds), rows)| as real
      && m.identifierFuzzy * |Where(FuzzyQuery, rows)| as real
         == |Where(Both(FuzzyQuery, Succeeds), rows)| as real
  {
    hide MeanOf, MetricsOf, Keep, SourceSuccess, IsExact, IsFuzzy, ExactQuery, FuzzyQuery, Succeeds, Where, Both;
    MeansOfReport(lib, rows, items);
    SuccessUnits();
    QueriesAre(rows);
    MeanOfUnits(SourceSuccess, Succeeds, Keep(IsExact, rows));
    MeanOfUnits(SourceSuccess, Succeeds, Keep(IsFuzzy, rows));
    KeptAre(IsExact, Succeeds, rows);
    KeptAre(IsFuzzy, Succeeds, rows);
    SuccessesAre(rows);
  }

  lemma SuccessesAre(rows: seq<Row>)
    ensures Where(Both(IsExact, Succeeds), rows) == Where(Both(ExactQuery, Succeeds), rows)
    ensures Where(Both(IsFuzzy, Succeeds), rows) == Where(Both(FuzzyQuery, Succeeds), rows)
  {
    hide Contains, Succeeds;
    forall row: Row ensures Both(IsExact, Succeeds)(row) == Both(ExactQuery, Succeeds)(row)
                            && Both(IsFuzzy, Succeeds)(row) == Both(FuzzyQuery, Succeeds)(row) {
      assert IsExact(row) == ExactQuery(row) && IsFuzzy(row) == FuzzyQuery(row);
    }
    WhereSame(Both(IsExact, Succeeds), Both(ExactQuery, Succeeds), rows);
    WhereSame(Both(IsFuzzy, Succeeds), Both(FuzzyQuery, Succeeds), rows);
  }

  predicate ExactQuery(row: Row)
  {
    Contains(row.c.queryType, "identifier") && !Contains(row.c.queryType, "fuzzy")
  }

  predicate FuzzyQuery(row: Row)
  {
    Contains(row.c.queryType, "identifier") && Contains(row.c.queryType, "fuzzy")
  }

  predicate Succeeds(row: Row)
  {
    row.gold.sources == [] || exists k: nat :: k < 10 && HitAt(row, k)
  }

  lemma SuccessUnits()
    ensures forall row: Row :: SourceSuccess(row) == if Succeeds(row) then 1.0 else 0.0
  {
    forall row: Row ensures SourceSuccess(row) == if Succeeds(row) then 1.0 else 0.0 {
      ExpectedIs(row);
      TopHas(row, 10);
      TenHold(row);
    }
  }

  lemma TenHold(row: Row)
    ensures RetrievedWithin(row, 10) == {} <==> !exists k: nat :: k < 10 && HitAt(row, k)
  {
    if k: nat :| k < 10 && HitAt(row, k) {
      assert row.item.retrieved[k] in RetrievedWithin(row, 10);
    }
    if source :| source in RetrievedWithin(row, 10) {
      var i :| 0 <= i < 10 && i < |row.item.retrieved| && row.item.retrieved[i] == source;
      assert HitAt(row, i);
    }
  }

  lemma QueriesAre(rows: seq<Row>)
    ensures Where(IsExact, rows) == Where(ExactQuery, rows) && Where(IsFuzzy, rows) == Where(FuzzyQuery, rows)
  {
  }

  ghost predicate Hits(row: Row)
  {
    exists k: nat :: HitAt(row, k)
  }

  /** The mean first rank is taken over the cases with a hit, of which the first hit counts from 1. */
  lemma FirstRanksMean(lib: Library, rows: seq<Row>, items: seq<Observation>, firsts: seq<nat>)
    requires var kept := Keep(HasRank, rows);
      |firsts| == |kept| && forall i :: 0 <= i < |kept| ==> FirstHit(kept[i], firsts[i])
    ensures MetricsOf(lib, rows, items).firstRank * |firsts| as real == (Sum(firsts) + |firsts|) as real
  {
    hide MetricsOf, MeanOf, HasRank, Keep, SumOf, Sum, FirstHit;
    MeansOfReport(lib, rows, items);
    FirstsAdd(Keep(HasRank, rows), firsts);
    MeanTimesCount(Scoring.FirstRank, Keep(HasRank, rows));
  }

  lemma RankedMeansHit(row: Row)
    ensures HasRank(row) <==> Hits(row)
  {
    FirstRankIs(row);
  }

  lemma {:induction false} FirstsAdd(kept: seq<Row>, firsts: seq<nat>)
    requires |firsts| == |kept| && forall i :: 0 <= i < |kept| ==> FirstHit(kept[i], firsts[i])
    ensures SumOf(Scoring.FirstRank, kept) == (Sum(firsts) + |firsts|) as real
    decreases |kept|
  {
    hide FirstHit;
    if kept != [] {
      FirstRankIs(kept[0]);
      FirstsAdd(kept[1..], firsts[1..]);
    }
  }

  /** The rates in the report are averages and the counters of citations and answers are totals over the cases: what
      one more case changes. */
  lemma RowsAdd(lib: Library, rows: seq<Row>, row: Row, items: seq<Observation>, rate: Rate)
    requires rate in RateNames()
    ensures var m, n := MetricsOf(lib, rows, items), MetricsOf(lib, rows + [row], items);
      && n.rates[rate] * (|rows| + 1) as real == m.rates[rate] * |rows| as real + CaseRate(lib, rate, row)
      && n.invalidCitations == m.invalidCitations + |ForeignAt(row)|
      && n.fabricated == m.fabricated + if row.item.predictedAnswerable && !row.gold.answerable then 1 else 0
    ensures var m := MetricsOf(lib, [], items);
      m.rates[rate] == 0.0 && m.invalidCitations == 0 && m.fabricated == 0
  {
    hide MetricsOf, MeanOf, TotalOf, RateNames, CaseRate, InvalidCitations, ForeignAt;
    CasesOfReport(lib, rows, items, rate);
    CasesOfReport(lib, rows + [row], items, rate);
    CasesOfReport(lib, [], items, rate);
    MeanSnoc(RateOf(lib, rate), rows, row);
    TotalOfAppend(InvalidCitations, rows, [row]);
    TotalOfAppend(FabricatedIn, rows, [row]);
    TotalOne(InvalidCitations, row);
    TotalOne(FabricatedIn, row);
    CitationsMean(lib, row);
    EmptyMeans(RateOf(lib, rate));
  }

  lemma CasesOfReport(lib: Library, rows: seq<Row>, items: seq<Observation>, rate: Rate)
    requires rate in RateNames()
    ensures var m := MetricsOf(lib, rows, items);
      && rate in m.rates && m.rates[rate] == MeanOf(RateOf(lib, rate), rows)
      && m.invalidCitations == TotalOf(InvalidCitations, rows) && m.fabricated == TotalOf(FabricatedIn, rows)
  {
    hide MeanOf, TotalOf, DuplicateRate, Keep, CaseRate, RateNames, PercentilesOf, Applied, Stages, TimesOf, ErrorCounts;
  }

  lemma MeanSnoc(f: Row -> real, rows: seq<Row>, row: Row)
    ensures MeanOf(f, rows + [row]) * (|rows| + 1) as real == MeanOf(f, rows) * |rows| as real + f(row)
  {
    MeanTimesCount(f, rows);
    MeanTimesCount(f, rows + [row]);
    SumOfAppend(f, rows, [row]);
    SumOfOne(f, row);
    hide MeanOf, SumOf;
  }

  lemma TotalOne(f: Row -> nat, row: Row)
    ensures TotalOf(f, [row]) == f(row) && TotalOf(f, []) == 0
  {
    assert [row][1..] == [] && TotalOf(f, [row][1..]) == 0;
  }

  lemma EmptyMeans<T>(f: T -> real)
    ensures MeanOf(f, []) == 0.0
  {
  }

  /** A mean over nothing is 0: without observations, without queries of a kind, without any case with a hit. */
  lemma NothingMeans(lib: Library, rows: seq<Row>, items: seq<Observation>)
    ensures var m := MetricsOf(lib, rows, items);
      && ((forall i :: 0 <= i < |rows| ==> !ExactQuery(rows[i])) ==> m.identifierExact == 0.0)
      && ((forall i :: 0 <= i < |rows| ==> !FuzzyQuery(rows[i])) ==> m.identifierFuzzy == 0.0)
      && ((forall i :: 0 <= i < |rows| ==> !Hits(rows[i])) ==> m.firstRank == 0.0)
    ensures var m := MetricsOf(lib, rows, []);
      m.versionLeakage == m.profileLeakage == m.projectLeakage == m.workspaceLeakage == 0.0
  {
    hide MetricsOf, Keep, SourceSuccess, Contains, Hits, HasRank;
    MeansOfReport(lib, rows, items);
    MeansOfReport(lib, rows, []);
    if forall i :: 0 <= i < |rows| ==> !ExactQuery(rows[i]) {
      KeepsNone(IsExact, rows);
    }
    if forall i :: 0 <= i < |rows| ==> !FuzzyQuery(rows[i]) {
      KeepsNone(IsFuzzy, rows);
    }
    if forall i :: 0 <= i < |rows| ==> !Hits(rows[i]) {
      forall i | 0 <= i < |rows| ensures !HasRank(rows[i]) {
        RankedMeansHit(rows[i]);
      }
      KeepsNone(HasRank, rows);
    }
  }

  lemma {:induction false} KeepsNone(p: Row -> bool, rows: seq<Row>)
    requires forall i :: 0 <= i < |rows| ==> !p(rows[i])
    ensures Keep(p, rows) == []
    decreases |rows|
  {
    if rows != [] {
      KeepsNone(p, rows[1..]);
    }
  }

  /** Every query type that occurs has an entry, with the number of its cases and of those answered falsely and
      declined falsely. */
  lemma BreakdownMeans(lib: Library, rows: seq<Row>, name: string)
    ensures name in BreakdownOf(lib, rows) <==> exists i :: 0 <= i < |rows| && rows[i].c.queryType == name
    ensures name in BreakdownOf(lib, rows) ==>
              var entry := BreakdownOf(lib, rows)[name];
              && entry.records == |Where(Keyed(QueryType, name), rows)|
              && entry.falsePositive * entry.records as real
                 == |Where(Both(Keyed(QueryType, name), AnsweredFalsely), rows)| as real
              && entry.falseNegative * entry.records as real
                 == |Where(Both(Keyed(QueryType, name), DeclinedFalsely), rows)| as real
  {
    TypeOccurs(name, rows);
    BreakdownKeys(lib, rows);
    FalselyUnits(lib);
    var bucket := InBucket(QueryType, rows, name);
    KeptAre(Keyed(QueryType, name), AnsweredFalsely, rows);
    KeptAre(Keyed(QueryType, name), DeclinedFalsely, rows);
    hide CaseRate, MeanOf, Keep, Where, Both, Types;
    MeanOfUnits(RateOf(lib, FalsePositive), AnsweredFalsely, bucket);
    MeanOfUnits(RateOf(lib, FalseNegative), DeclinedFalsely, bucket);
  }

  predicate AnsweredFalsely(row: Row)
  {
    row.item.predictedAnswerable && !row.gold.answerable
  }

  predicate DeclinedFalsely(row: Row)
  {
    row.gold.answerable && !row.item.predictedAnswerable
  }

  lemma FalselyUnits(lib: Library)
    ensures forall row: Row :: RateOf(lib, FalsePositive)(row) == if AnsweredFalsely(row) then 1.0 else 0.0
    ensures forall row: Row :: RateOf(lib, FalseNegative)(row) == if DeclinedFalsely(row) then 1.0 else 0.0
  {
  }

  lemma TypeOccurs(name: string, rows: seq<Row>)
    ensures name in Types(rows) <==> exists i :: 0 <= i < |rows| && rows[i].c.queryType == name
  {
    if i :| 0 <= i < |rows| && rows[i].c.queryType == name {
      assert rows[i] in rows;
    }
  }

  // ---- Percentiles ----

  /** `q` lies r / den of the way from element l of an ordered list to the next one. */
  ghost predicate Between(ordered: seq<real>, q: real, l: nat, r: nat, den: nat)
  {
    var last := |ordered| - 1;
    && l <= last && r <= den
    && q * den as real == ordered[l] * (den - r) as real + ordered[if l < last then l + 1 else last] * r as real
  }

  /** `q` lies the fraction num / den of the way through an ordered list. */
  ghost predicate Interpolates(ordered: seq<real>, q: real, num: nat, den: nat)
    requires ordered != [] && 0 < num <= den
  {
    var last := |ordered| - 1;
    Between(ordered, q, num * last / den, num * last % den, den)
  }

  /** The three percentiles: one half, nineteen twentieths and ninety-nine hundredths of the way. */
  lemma PercentilesAre(values: seq<real>)
    ensures values == [] ==> PercentilesOf(values) == Percentiles(0.0, 0.0, 0.0)
    ensures values != [] ==>
              var p := PercentilesOf(values);
              && Interpolates(Ordered(values), p.p50, 1, 2) && Interpolates(Ordered(values), p.p95, 19, 20)
              && Interpolates(Ordered(values), p.p99, 99, 100)
  {
    if values != [] {
      var ordered := Ordered(values);
      hide Ordered, ValueAt, Interpolates;
      ValueInterpolates(ordered, 0.50, 1, 2);
      ValueInterpolates(ordered, 0.95, 19, 20);
      ValueInterpolates(ordered, 0.99, 99, 100);
    }
  }

  lemma ValueInterpolates(ordered: seq<real>, fraction: real, num: nat, den: nat)
    requires ordered != [] && 0 < num <= den && fraction == num as real / den as real && 0.0 <= fraction <= 1.0
    ensures Interpolates(ordered, ValueAt(ordered, fraction), num, den)
  {
    hide ValueAt, Between;
    var last := |ordered| - 1;
    PositionSplits(last, fraction, num, den);
    ValueBetween(ordered, fraction, num * last / den, num * last % den, den);
  }

  lemma ValueBetween(ordered: seq<real>, fraction: real, l: nat, r: nat, den: nat)
    requires ordered != [] && 0.0 <= fraction <= 1.0 && l <= |ordered| - 1 && r <= den
    requires var last := |ordered| - 1;
      (last as real * fraction).Floor == l && (last as real * fraction - l as real) * den as real == r as real
    ensures Between(ordered, ValueAt(ordered, fraction), l, r, den)
  {
    var last := |ordered| - 1;
    ValueFrom(ordered, fraction, l);
    hide ValueAt;
    var upper := if l < last then l + 1 else last;
    Blend(ordered[l], ordered[upper], last as real * fraction - l as real, den, r);
  }

  lemma ValueFrom(ordered: seq<real>, fraction: real, l: nat)
    requires ordered != [] && 0.0 <= fraction <= 1.0
    requires var last := |ordered| - 1; l <= last && (last as real * fraction).Floor == l
    ensures var last := |ordered| - 1;
      var upper := if l < last then l + 1 else last;
      ValueAt(ordered, fraction) == ordered[l] + (ordered[upper] - ordered[l]) * (last as real * fraction - l as real)
  {
  }

  lemma PositionSplits(last: nat, fraction: real, num: nat, den: nat)
    requires 0 < num <= den && fraction == num as real / den as real
    ensures var l, r := num * last / den, num * last % den;
      && l <= last && (last as real * fraction).Floor == l
      && (last as real * fraction - l as real) * den as real == r as real
  {
    var product := num * last;
    var l, r := product / den, product % den;
    var position := last as real * fraction;
    ScaledPosition(last, fraction, num, den);
    EuclidOf(product, den);
    RestOf(position, den, product, l, r);
    FractionOf(position - l as real, den as real, r as real);
    QuotientFits(num, last, den);
  }

  lemma QuotientFits(num: nat, last: nat, den: nat)
    requires 0 < den && num <= den
    ensures num * last / den <= last
  {
    var l := num * last / den;
    EuclidOf(num * last, den);
    TimesOrdered(num, den, last);
    if l > last {
      TimesOrdered(last + 1, l, den);
    }
  }

  lemma ScaledPosition(last: nat, fraction: real, num: nat, den: nat)
    requires 0 < den && fraction == num as real / den as real
    ensures last as real * fraction * den as real == (num * last) as real
  {
    assert fraction * den as real == num as real;
    assert last as real * fraction * den as real == last as real * (fraction * den as real);
    assert last as real * num as real == (num * last) as real;
  }

  lemma EuclidOf(product: nat, den: nat)
    requires 0 < den
    ensures product == product / den * den + product % den
  {
  }

  lemma RestOf(position: real, den: nat, product: nat, l: nat, r: nat)
    requires position * den as real == product as real && product == l * den + r
    ensures (position - l as real) * den as real == r as real
  {
    assert (l * den) as real == l as real * den as real;
    assert (position - l as real) * den as real == position * den as real - l as real * den as real;
  }

  lemma TimesOrdered(a: nat, b: nat, c: nat)
    requires a <= b
    ensures a * c <= b * c
  {
  }

  lemma FractionOf(x: real, d: real, r: real)
    requires 0.0 <= r < d && x * d == r
    ensures 0.0 <= x < 1.0
  {
    if x < 0.0 {
      NegativeTimes(x, d);
    }
    if x >= 1.0 {
      NegativeTimes(1.0 - x, d);
    }
  }

  lemma NegativeTimes(x: real, d: real)
    requires x <= 0.0 && 0.0 < d
    ensures x * d <= 0.0 && (x < 0.0 ==> x * d < 0.0)
  {
  }

  lemma Blend(a: real, b: real, weight: real, den: nat, r: nat)
    requires weight * den as real == r as real && r <= den
    ensures (a + (b - a) * weight) * den as real == a * (den - r) as real + b * r as real
  {
    assert (a + (b - a) * weight) * den as real == a * den as real + (b - a) * (weight * den as real);
  }
}
