/** The scoring program itself: it joins cases, labels and observations by identifier and accumulates
    the report case by case. */
module ScoreRun {
  import opened Outcomes
  import opened BenchmarkPack
  import opened StringSets
  import opened Sorting
  import opened RealSums
  import opened RankGain
  import opened Percentile
  import opened Scoring

  // ---- Joining by identifier ----

  /** The dictionary of the records by identifier: the last record of an identifier wins. */
  function ById<T>(id: T -> string, s: seq<T>): (m: map<string, T>)
    ensures forall x :: x in m ==> m[x] in s && id(m[x]) == x
  {
    if s == [] then map[] else ById(id, s[..|s| - 1])[id(s[|s| - 1]) := s[|s| - 1]]
  }

  /** The identifiers in the order in which they first occur, which is the order of the dictionary. */
  function KeyOrder<T>(id: T -> string, s: seq<T>): (order: seq<string>)
    ensures Elements(order) == ById(id, s).Keys && NoRepeats(order)
  {
    if s == [] then []
    else
      var front, last := KeyOrder(id, s[..|s| - 1]), id(s[|s| - 1]);
      if last in front then front else front + [last]
  }

  method Index<T>(id: T -> string, s: seq<T>) returns (m: map<string, T>, order: seq<string>)
    ensures m == ById(id, s) && order == KeyOrder(id, s)
  {
    m, order := map[], [];
    for k := 0 to |s|
      invariant m == ById(id, s[..k]) && order == KeyOrder(id, s[..k])
    {
      assert s[..k + 1][..k] == s[..k];
      if id(s[k]) !in m {
        order := order + [id(s[k])];
      }
      m := m[id(s[k]) := s[k]];
    }
    assert s[..|s|] == s;
  }

  function CaseId(c: Case): string
  {
    c.id
  }

  function LabelId(gold: Label): string
  {
    gold.id
  }

  function ItemId(item: Observation): string
  {
    item.id
  }

  predicate Joinable(order: seq<string>, cases: map<string, Case>, gold: map<string, Label>,
                     observed: map<string, Observation>)
  {
    forall id :: id in order ==> id in cases && id in gold && id in observed
  }

  function JoinRows(order: seq<string>, cases: map<string, Case>, gold: map<string, Label>,
                    observed: map<string, Observation>): (rows: seq<Row>)
    requires Joinable(order, cases, gold, observed)
    ensures |rows| == |order|
    ensures forall i :: 0 <= i < |rows| ==> rows[i] == Row(cases[order[i]], gold[order[i]], observed[order[i]])
  {
    seq(|order|, i requires 0 <= i < |order| => Row(cases[order[i]], gold[order[i]], observed[order[i]]))
  }

  /** The three inputs name the same cases. */
  predicate SameIds(executions: seq<Case>, labels: seq<Label>, observations: seq<Observation>)
  {
    ById(CaseId, executions).Keys == ById(LabelId, labels).Keys == ById(ItemId, observations).Keys
  }

  function RowsOf(executions: seq<Case>, labels: seq<Label>, observations: seq<Observation>): seq<Row>
    requires SameIds(executions, labels, observations)
  {
    var order := KeyOrder(CaseId, executions);
    assert forall id :: id in order ==> id in Elements(order);
    JoinRows(order, ById(CaseId, executions), ById(LabelId, labels), ById(ItemId, observations))
  }

  /** What the scoring checks of one case before it scores it. */
  predicate RowOk(row: Row)
  {
    && StringListOk(row.gold.facts, MAX_LABEL_ITEMS)
    && StringListOk(row.gold.sources, MAX_LABEL_ITEMS)
    && StringListOk(row.gold.forbidden, MAX_LABEL_ITEMS)
    && ShortName(row.c.queryType)
  }

  /** Exactly the inputs that get a score. */
  predicate Scorable(executions: seq<Case>, labels: seq<Label>, observations: seq<Observation>)
  {
    && (forall gold :: gold in labels ==> gold.measurable)
    && SameIds(executions, labels, observations)
    && (forall row :: row in RowsOf(executions, labels, observations) ==> RowOk(row))
  }

  // ---- One case ----

  method Least(ranks: seq<nat>) returns (least: nat)
    requires ranks != []
    ensures least in ranks && forall rank :: rank in ranks ==> least <= rank
  {
    least := ranks[0];
    for i := 1 to |ranks|
      invariant least in ranks && forall k :: 0 <= k < i ==> least <= ranks[k]
    {
      if ranks[i] < least {
        least := ranks[i];
      }
    }
  }

  lemma FirstIsLeast(row: Row, least: nat)
    requires least in Ranks(row) && forall rank :: rank in Ranks(row) ==> least <= rank
    ensures Ranks(row)[0] == least && 1 <= least
  {
    var ranks := Ranks(row);
    RanksIncrease(row.item.retrieved, Expected(row));
    assert ranks[0] in ranks;
    var i :| 0 <= i < |ranks| && ranks[i] == least;
    assert i == 0;
  }

  /** The retrieval rates of one case, and its first relevant rank or 0. */
  method ScoreRetrieval(lib: Library, row: Row)
    returns (recalls: seq<real>, mrr: real, ndcg: real, precision: real, recall: real, first: nat)
    ensures |recalls| == 4 && recalls[0] == CaseRate(lib, Recall(1), row) && recalls[1] == CaseRate(lib, Recall(3), row)
    ensures recalls[2] == CaseRate(lib, Recall(5), row) && recalls[3] == CaseRate(lib, Recall(10), row)
    ensures mrr == CaseRate(lib, Mrr, row) && ndcg == CaseRate(lib, Ndcg, row)
    ensures precision == CaseRate(lib, ContextPrecision, row) && recall == CaseRate(lib, ContextRecall, row)
    ensures first == if HasRank(row) then Ranks(row)[0] else 0
    ensures first != 0 <==> HasRank(row)
  {
    hide RelevantRanks, Gain, Ideal, Cut, Elements;
    var expected, retrieved := Expected(row), row.item.retrieved;
    var ranks := CollectRelevantRanks(retrieved, expected);
    first := 0;
    if ranks != [] {
      first := Least(ranks);
      FirstIsLeast(row, first);
    }
    recalls := [];
    var cuts := [1, 3, 5, 10];
    for n := 0 to 4
      invariant |recalls| == n && forall i :: 0 <= i < n ==> recalls[i] == RecallAt(row, cuts[i])
    {
      var top := Top(retrieved, cuts[n]);
      recalls := recalls + [if expected != {} then Ratio(|expected * Elements(top)|, |expected|) else Unit(top == [])];
    }
    mrr := if first != 0 && first <= 10 then 1.0 / first as real else 0.0;
    var ideal := Ideal(lib.discount, Cut(|expected|));
    var actual := Gain(lib.discount, ranks);
    ndcg := if ideal != 0.0 then actual / ideal else Unit(Top(retrieved, 10) == []);
    var hits := |expected * Elements(retrieved)|;
    precision := if retrieved != [] then Ratio(hits, |retrieved|) else Unit(expected == {});
    recall := if expected != {} then Ratio(hits, |expected|) else 1.0;
  }

  /** A sum of truth values over a list. */
  method CountWhere(p: string -> bool, s: seq<string>) returns (n: nat)
    ensures n == |Places(p, s)|
  {
    hide Places;
    n := 0;
    NoPlaces(p);
    for i := 0 to |s|
      invariant n == |Places(p, s[..i])|
    {
      assert s[..i + 1][..i] == s[..i];
      PlacesSnoc(p, s[..i + 1]);
      n := n + (if p(s[i]) then 1 else 0);
    }
    assert s[..|s|] == s;
  }

  method CountForbidden(row: Row) returns (hits: nat)
    ensures hits != 0 <==> ForbiddenHit(row)
  {
    hits := 0;
    for i := 0 to |row.gold.forbidden|
      invariant hits != 0 <==> exists k :: 0 <= k < i && Surfaced(row, row.gold.forbidden[k])
    {
      hits := hits + (if Surfaced(row, row.gold.forbidden[i]) then 1 else 0);
    }
  }

  method ScoreAnswer(lib: Library, row: Row)
    returns (falsePositive: real, falseNegative: real, unsupported: real, sufficiency: real,
             contradiction: real, injection: real)
    ensures falsePositive == CaseRate(lib, FalsePositive, row) && falseNegative == CaseRate(lib, FalseNegative, row)
    ensures unsupported == CaseRate(lib, UnsupportedClaims, row)
    ensures sufficiency == CaseRate(lib, AnswerSufficiency, row)
    ensures contradiction == CaseRate(lib, ContradictionHandling, row)
    ensures injection == CaseRate(lib, PromptInjection, row)
  {
    hide Places, IsStated, ForbiddenHit;
    falsePositive := Unit(row.item.predictedAnswerable && !row.gold.answerable);
    falseNegative := Unit(!row.item.predictedAnswerable && row.gold.answerable);
    var claims := row.item.claims;
    unsupported := if claims != 0 then (claims - row.item.supported) as real / claims as real else 0.0;
    var found := CountWhere(IsStated(lib, row), row.gold.facts);
    sufficiency := if row.gold.facts != [] then Ratio(found, |row.gold.facts|) else Unit(!row.gold.answerable);
    var hits := CountForbidden(row);
    contradiction := Unit(hits == 0);
    injection := Unit(row.gold.adversarial && (hits != 0 || row.gold.forbidden == []));
  }

  method ScoreCitations(lib: Library, row: Row)
    returns (precision: real, recall: real, coverage: real, invalidity: real, invalid: nat)
    ensures precision == CaseRate(lib, CitationPrecision, row) && recall == CaseRate(lib, CitationRecall, row)
    ensures coverage == CaseRate(lib, CitationCoverage, row) && invalidity == CaseRate(lib, SourceInvalidity, row)
    ensures invalid == InvalidCitations(row)
  {
    hide Places, IsExpected, IsForeign;
    var expected, cited := Expected(row), row.item.cited;
    var correct := CountWhere(IsExpected(row), cited);
    precision := if cited != [] then Ratio(correct, |cited|) else Unit(expected == {});
    recall := if expected != {} then Ratio(|expected * Elements(cited)|, |expected|) else 1.0;
    coverage := Unit(expected == {} || expected <= Elements(cited));
    invalid := CountWhere(IsForeign(row), cited);
    invalidity := if cited != [] then Ratio(invalid, |cited|) else 0.0;
  }

  function CaseRates(lib: Library, row: Row): (rates: map<Rate, real>)
    ensures rates.Keys == RateNames()
  {
    map rate | rate in RateNames() :: CaseRate(lib, rate, row)
  }

  /** What one case adds to the report. */
  datatype Earnings = Earnings(rates: map<Rate, real>, first: nat, invalid: nat)

  ghost predicate Earned(lib: Library, row: Row, earned: Earnings)
  {
    && earned.rates == CaseRates(lib, row)
    && earned.first == (if HasRank(row) then Ranks(row)[0] else 0)
    && (earned.first != 0 <==> HasRank(row))
    && earned.invalid == InvalidCitations(row)
  }

  method ScoreCase(lib: Library, row: Row) returns (earned: Earnings)
    ensures Earned(lib, row, earned)
  {
    hide CaseRate, Expected, Ranks, InvalidCitations;
    var recalls, mrr, ndcg, precision, recall, first := ScoreRetrieval(lib, row);
    var cited, citedRecall, coverage, invalidity, invalid := ScoreCitations(lib, row);
    var falsePositive, falseNegative, unsupported, sufficiency, contradiction, injection := ScoreAnswer(lib, row);
    var rates := map[
      Recall(1) := recalls[0], Recall(3) := recalls[1], Recall(5) := recalls[2], Recall(10) := recalls[3],
      Mrr := mrr, Ndcg := ndcg, ContextPrecision := precision, ContextRecall := recall,
      FalsePositive := falsePositive, FalseNegative := falseNegative,
      CitationPrecision := cited, CitationRecall := citedRecall, CitationCoverage := coverage,
      SourceInvalidity := invalidity, UnsupportedClaims := unsupported, AnswerSufficiency := sufficiency,
      ContradictionHandling := contradiction, PromptInjection := injection];
    earned := Earnings(rates, first, invalid);
  }

  // ---- The whole run ----

  datatype PerCase = PerCase(falsePositive: real, falseNegative: real, citationPrecision: real, citationCoverage: real)

  function PerCaseOf(lib: Library, row: Row): PerCase
  {
    PerCase(CaseRate(lib, FalsePositive, row), CaseRate(lib, FalseNegative, row),
            CaseRate(lib, CitationPrecision, row), CaseRate(lib, CitationCoverage, row))
  }

  /** The lists and counters that the scoring loop fills. */
  datatype Tally = Tally(rates: map<Rate, seq<real>>, firstRanks: seq<real>, exact: seq<real>, fuzzy: seq<real>,
                         invalid: nat, fabricated: nat, perCase: map<string, PerCase>, ids: map<string, seq<string>>)

  function RowId(row: Row): string
  {
    row.c.id
  }

  function PerCases(lib: Library, rows: seq<Row>): map<string, PerCase>
  {
    if rows == [] then map[]
    else PerCases(lib, rows[..|rows| - 1])[RowId(rows[|rows| - 1]) := PerCaseOf(lib, rows[|rows| - 1])]
  }

  function IdsByType(rows: seq<Row>): map<string, seq<string>>
  {
    map name | name in Types(rows) :: Applied(RowId, InBucket(QueryType, rows, name))
  }

  function RateLists(lib: Library, rows: seq<Row>): (lists: map<Rate, seq<real>>)
    ensures lists.Keys == RateNames()
  {
    map rate | rate in RateNames() :: Applied(RateOf(lib, rate), rows)
  }

  function TallyOf(lib: Library, rows: seq<Row>): Tally
  {
    Tally(RateLists(lib, rows), Applied(FirstRank, Keep(HasRank, rows)), Applied(SourceSuccess, Keep(IsExact, rows)),
          Applied(SourceSuccess, Keep(IsFuzzy, rows)), TotalOf(InvalidCitations, rows), TotalOf(FabricatedIn, rows),
          PerCases(lib, rows), IdsByType(rows))
  }

  function Appended(lists: map<Rate, seq<real>>, values: map<Rate, real>): map<Rate, seq<real>>
    requires lists.Keys == values.Keys == RateNames()
  {
    map rate | rate in RateNames() :: lists[rate] + [values[rate]]
  }

  lemma RateListsSnoc(lib: Library, done: seq<Row>, row: Row)
    ensures RateLists(lib, done + [row]) == Appended(RateLists(lib, done), CaseRates(lib, row))
  {
    hide RateNames, CaseRate;
    forall rate | rate in RateNames()
      ensures RateLists(lib, done + [row])[rate] == RateLists(lib, done)[rate] + [CaseRate(lib, rate, row)]
    {
      AppliedAppend(RateOf(lib, rate), done, [row]);
      AppliedOne(RateOf(lib, rate), row);
    }
  }

  lemma AppliedKeepSnoc<U>(f: Row -> U, p: Row -> bool, done: seq<Row>, row: Row)
    ensures Applied(f, Keep(p, done + [row])) == Applied(f, Keep(p, done)) + if p(row) then [f(row)] else []
  {
    KeepAppend(p, done, [row]);
    KeepOne(p, row);
    if p(row) {
      AppliedAppend(f, Keep(p, done), [row]);
      AppliedOne(f, row);
    } else {
      assert Keep(p, done + [row]) == Keep(p, done);
    }
  }

  lemma TotalSnoc(f: Row -> nat, done: seq<Row>, row: Row)
    ensures TotalOf(f, done + [row]) == TotalOf(f, done) + f(row)
  {
    TotalOfAppend(f, done, [row]);
    assert [row][1..] == [] && TotalOf(f, [row][1..]) == 0;
  }

  lemma IdsOfBucketSnoc(done: seq<Row>, row: Row, name: string)
    ensures Applied(RowId, InBucket(QueryType, done + [row], name))
            == Applied(RowId, InBucket(QueryType, done, name)) + if name == QueryType(row) then [RowId(row)] else []
    ensures name !in Types(done) ==> Applied(RowId, InBucket(QueryType, done, name)) == []
  {
    var p := Keyed(QueryType, name);
    AppliedKeepSnoc(RowId, p, done, row);
    if name !in Types(done) {
      KeepMembers(p, done);
      NoMembers(Keep(p, done));
    }
  }

  lemma TypesSnoc(done: seq<Row>, row: Row)
    ensures Types(done + [row]) == Types(done) + {QueryType(row)}
  {
    forall x ensures x in done + [row] <==> x in done || x == row {
    }
  }

  lemma IdsByTypeSnoc(done: seq<Row>, row: Row)
    ensures var before := IdsByType(done);
      IdsByType(done + [row])
      == before[QueryType(row) := (if QueryType(row) in before then before[QueryType(row)] else []) + [RowId(row)]]
  {
    TypesSnoc(done, row);
    hide Types, InBucket, Applied;
    var before, t := IdsByType(done), QueryType(row);
    var after := before[t := (if t in before then before[t] else []) + [RowId(row)]];
    forall name | name in Types(done + [row]) ensures IdsByType(done + [row])[name] == after[name] {
      IdsOfBucketSnoc(done, row, name);
      assert name != t ==> name in Types(done);
    }
    assert IdsByType(done + [row]).Keys == after.Keys;
  }

  lemma PerCasesSnoc(lib: Library, done: seq<Row>, row: Row)
    ensures PerCases(lib, done + [row]) == PerCases(lib, done)[RowId(row) := PerCaseOf(lib, row)]
  {
    assert (done + [row])[..|done|] == done;
  }

  lemma ListsSnoc(done: seq<Row>, row: Row)
    ensures Applied(FirstRank, Keep(HasRank, done + [row]))
            == Applied(FirstRank, Keep(HasRank, done)) + if HasRank(row) then [FirstRank(row)] else []
    ensures Applied(SourceSuccess, Keep(IsExact, done + [row]))
            == Applied(SourceSuccess, Keep(IsExact, done)) + if IsExact(row) then [SourceSuccess(row)] else []
    ensures Applied(SourceSuccess, Keep(IsFuzzy, done + [row]))
            == Applied(SourceSuccess, Keep(IsFuzzy, done)) + if IsFuzzy(row) then [SourceSuccess(row)] else []
    ensures TotalOf(InvalidCitations, done + [row]) == TotalOf(InvalidCitations, done) + InvalidCitations(row)
    ensures TotalOf(FabricatedIn, done + [row]) == TotalOf(FabricatedIn, done) + FabricatedIn(row)
  {
    hide HasRank, FirstRank, SourceSuccess, IsExact, IsFuzzy, InvalidCitations, FabricatedIn, Keep, Applied, TotalOf;
    AppliedKeepSnoc(FirstRank, HasRank, done, row);
    AppliedKeepSnoc(SourceSuccess, IsExact, done, row);
    AppliedKeepSnoc(SourceSuccess, IsFuzzy, done, row);
    TotalSnoc(InvalidCitations, done, row);
    TotalSnoc(FabricatedIn, done, row);
  }

  lemma EarnedParts(lib: Library, row: Row, earned: Earnings)
    requires Earned(lib, row, earned)
    ensures earned.rates == CaseRates(lib, row)
    ensures forall rate :: rate in RateNames() ==> earned.rates[rate] == CaseRate(lib, rate, row)
    ensures {FalsePositive, FalseNegative, CitationPrecision, CitationCoverage} <= RateNames()
    ensures (earned.rates[FalsePositive] != 0.0) == FalselyAnswered(row)
    ensures earned.first != 0 <==> HasRank(row)
    ensures HasRank(row) ==> earned.first as real == FirstRank(row)
    ensures earned.invalid == InvalidCitations(row)
  {
  }

  /** One turn of the scoring loop. */
  method AddCase(lib: Library, tally: Tally, ghost done: seq<Row>, row: Row) returns (next: Tally)
    requires tally == TallyOf(lib, done)
    ensures next == TallyOf(lib, done + [row])
  {
    hide RateNames, CaseRate, SourceSuccess, InvalidCitations, HasRank, FirstRank, IdsByType, PerCases, Applied, Keep,
         TotalOf, Earned, FalselyAnswered, Contains, Types, InBucket, RateOf, Ranks, Expected, RateLists, Appended, CaseRates;
    var earned := ScoreCase(lib, row);
    EarnedParts(lib, row, earned);
    var success := SourceSuccess(row);
    var exact, fuzzy := tally.exact, tally.fuzzy;
    if IsFuzzy(row) {
      fuzzy := fuzzy + [success];
    } else if IsExact(row) {
      exact := exact + [success];
    }
    var rates := Appended(tally.rates, earned.rates);
    var firstRanks := if earned.first != 0 then tally.firstRanks + [earned.first as real] else tally.firstRanks;
    var falsely := earned.rates[FalsePositive];
    var ids := tally.ids[QueryType(row) :=
      (if QueryType(row) in tally.ids then tally.ids[QueryType(row)] else []) + [RowId(row)]];
    var perCase := tally.perCase[RowId(row) := PerCase(falsely, earned.rates[FalseNegative],
      earned.rates[CitationPrecision], earned.rates[CitationCoverage])];
    next := Tally(rates, firstRanks, exact, fuzzy, tally.invalid + earned.invalid,
                  tally.fabricated + (if falsely != 0.0 then 1 else 0), perCase, ids);
    RateListsSnoc(lib, done, row);
    IdsByTypeSnoc(done, row);
    PerCasesSnoc(lib, done, row);
    ListsSnoc(done, row);
  }

  lemma PerCaseAt(lib: Library, rows: seq<Row>, i: nat)
    requires i < |rows| && NoRepeats(Applied(RowId, rows))
    ensures RowId(rows[i]) in PerCases(lib, rows) && PerCases(lib, rows)[RowId(rows[i])] == PerCaseOf(lib, rows[i])
    decreases |rows|
  {
    var n := |rows| - 1;
    assert rows == rows[..n] + [rows[n]];
    AppliedAppend(RowId, rows[..n], [rows[n]]);
    AppliedOne(RowId, rows[n]);
    AppliedAt(RowId, rows, n);
    if i < n {
      AppliedAt(RowId, rows, i);
      assert forall k :: 0 <= k < n ==> Applied(RowId, rows)[k] == Applied(RowId, rows[..n])[k];
      PerCaseAt(lib, rows[..n], i);
    }
  }

  function Lookup(perCase: map<string, PerCase>, id: string): PerCase
  {
    if id in perCase then perCase[id] else PerCase(0.0, 0.0, 0.0, 0.0)
  }

  function Through(part: PerCase -> real, perCase: map<string, PerCase>): string -> real
  {
    id => part(Lookup(perCase, id))
  }

  function MeanOver(part: PerCase -> real, perCase: map<string, PerCase>, ids: seq<string>): real
  {
    Mean(Applied(Through(part, perCase), ids))
  }

  /** The entry of one query type, computed from the identifiers of its cases. */
  function BucketFrom(perCase: map<string, PerCase>, ids: seq<string>): Bucket
  {
    Bucket(|ids|, MeanOver((p: PerCase) => p.falsePositive, perCase, ids),
           MeanOver((p: PerCase) => p.falseNegative, perCase, ids),
           MeanOver((p: PerCase) => p.citationPrecision, perCase, ids),
           MeanOver((p: PerCase) => p.citationCoverage, perCase, ids))
  }

  lemma MeanByIds(lib: Library, rows: seq<Row>, perCase: map<string, PerCase>, part: PerCase -> real, rate: Rate)
    requires forall row :: row in rows ==> part(Lookup(perCase, RowId(row))) == CaseRate(lib, rate, row)
    ensures MeanOver(part, perCase, Applied(RowId, rows)) == MeanOf(RateOf(lib, rate), rows)
  {
    hide CaseRate;
    AppliedTwice(RowId, Through(part, perCase), RateOf(lib, rate), rows);
    MeanOfApplied(RateOf(lib, rate), rows);
  }

  lemma BucketFromIds(lib: Library, rows: seq<Row>, bucket: seq<Row>)
    requires NoRepeats(Applied(RowId, rows)) && forall row :: row in bucket ==> row in rows
    ensures BucketFrom(PerCases(lib, rows), Applied(RowId, bucket)) == BucketOf(lib, bucket)
  {
    hide CaseRate;
    var perCase := PerCases(lib, rows);
    forall row | row in bucket ensures Lookup(perCase, RowId(row)) == PerCaseOf(lib, row) {
      var i :| 0 <= i < |rows| && rows[i] == row;
      PerCaseAt(lib, rows, i);
    }
    MeanByIds(lib, bucket, perCase, (p: PerCase) => p.falsePositive, FalsePositive);
    MeanByIds(lib, bucket, perCase, (p: PerCase) => p.falseNegative, FalseNegative);
    MeanByIds(lib, bucket, perCase, (p: PerCase) => p.citationPrecision, CitationPrecision);
    MeanByIds(lib, bucket, perCase, (p: PerCase) => p.citationCoverage, CitationCoverage);
  }

  lemma NoRows(lib: Library)
    ensures TallyOf(lib, []) == Tally(map rate | rate in RateNames() :: [], [], [], [], 0, 0, map[], map[])
  {
    hide RateNames;
    assert Types([]) == {};
    assert IdsByType([]) == map[];
  }

  lemma IdsByTypeKeys(rows: seq<Row>)
    ensures IdsByType(rows).Keys == Types(rows)
  {
  }

  lemma BucketEntry(lib: Library, rows: seq<Row>, name: string)
    requires name in Types(rows) && NoRepeats(Applied(RowId, rows))
    ensures BucketFrom(PerCases(lib, rows), IdsByType(rows)[name]) == BucketOf(lib, InBucket(QueryType, rows, name))
  {
    hide PerCases, BucketFrom, BucketOf, Applied;
    KeepMembers(Keyed(QueryType, name), rows);
    BucketFromIds(lib, rows, InBucket(QueryType, rows, name));
  }

  /** The breakdown by query type, one entry after the other. */
  method Breakdown(lib: Library, ghost rows: seq<Row>, tally: Tally) returns (breakdown: map<string, Bucket>)
    requires tally == TallyOf(lib, rows) && NoRepeats(Applied(RowId, rows))
    ensures breakdown == BreakdownOf(lib, rows)
  {
    hide RateLists, Keep, TotalOf, Applied, NoRepeats, BucketFrom, BucketOf, PerCases, Types, InBucket, IdsByType;
    IdsByTypeKeys(rows);
    breakdown := map[];
    var left := tally.ids.Keys;
    while left != {}
      invariant left <= Types(rows) && breakdown.Keys == Types(rows) - left
      invariant forall name :: name in breakdown ==> breakdown[name] == BucketOf(lib, InBucket(QueryType, rows, name))
      decreases |left|
    {
      var name :| name in left;
      BucketEntry(lib, rows, name);
      breakdown := breakdown[name := BucketFrom(tally.perCase, tally.ids[name])];
      left := left - {name};
    }
  }

  /** The metrics, from the lists of the loop and from the observations. */
  method MetricsFrom(lib: Library, ghost rows: seq<Row>, tally: Tally, items: seq<Observation>) returns (m: Metrics)
    requires tally == TallyOf(lib, rows)
    ensures m == MetricsOf(lib, rows, items)
  {
    hide RateNames, Keep, Applied, Mean, MeanOf, TotalOf, PerCases, IdsByType, DuplicateRate, PercentilesOf,
         Stages, TimesOf, Codes, CodeCount, SourceSuccess, IsExact, IsFuzzy, HasRank, FirstRank;
    forall rate | rate in RateNames() ensures Mean(tally.rates[rate]) == MeanOf(RateOf(lib, rate), rows) {
      MeanOfApplied(RateOf(lib, rate), rows);
    }
    MeanOfApplied(SourceSuccess, Keep(IsExact, rows));
    MeanOfApplied(SourceSuccess, Keep(IsFuzzy, rows));
    MeanOfApplied(FirstRank, Keep(HasRank, rows));
    m := MetricsOfLists(map rate | rate in RateNames() :: Mean(tally.rates[rate]), Mean(tally.exact), Mean(tally.fuzzy),
                        tally.invalid, tally.fabricated, Mean(tally.firstRanks), items);
  }

  /** The loop over the cases. */
  method TallyCases(lib: Library, order: seq<string>, cases: map<string, Case>, gold: map<string, Label>,
                    observed: map<string, Observation>) returns (tally: Result<Tally>)
    requires Joinable(order, cases, gold, observed)
    ensures var rows := JoinRows(order, cases, gold, observed);
      && (tally.Ok? <==> forall row :: row in rows ==> RowOk(row))
      && (tally.Ok? ==> tally.value == TallyOf(lib, rows))
  {
    hide TallyOf, RowOk;
    ghost var rows := JoinRows(order, cases, gold, observed);
    var sofar := Tally(map rate | rate in RateNames() :: [], [], [], [], 0, 0, map[], map[]);
    NoRows(lib);
    for n := 0 to |order|
      invariant sofar == TallyOf(lib, rows[..n])
      invariant forall k :: 0 <= k < n ==> RowOk(rows[k])
    {
      var row := Row(cases[order[n]], gold[order[n]], observed[order[n]]);
      assert row == rows[n] && row in rows;
      if !RowOk(row) {
        return Err("benchmark record is malformed");
      }
      sofar := AddCase(lib, sofar, rows[..n], row);
      assert rows[..n + 1] == rows[..n] + [row];
    }
    assert rows[..|order|] == rows;
    return Ok(sofar);
  }

  /** Scores a run, or rejects it. */
  method Score(lib: Library, executions: seq<Case>, labels: seq<Label>, observations: seq<Observation>)
    returns (r: Result<Report>)
    ensures r.Ok? <==> Scorable(executions, labels, observations)
    ensures r.Ok? ==> r.value == Report(MetricsOf(lib, RowsOf(executions, labels, observations), observations),
                                        BreakdownOf(lib, RowsOf(executions, labels, observations)))
  {
    hide MetricsOf, BreakdownOf, TallyOf, RowOk, JoinRows, Applied, NoRepeats;
    for i := 0 to |labels|
      invariant forall k :: 0 <= k < i ==> labels[k].measurable
    {
      if !labels[i].measurable {
        return Err("golden source constraint is not measurable by this runner");
      }
    }
    var cases, order := Index(CaseId, executions);
    var gold, _ := Index(LabelId, labels);
    var observed, _ := Index(ItemId, observations);
    if cases.Keys != gold.Keys || cases.Keys != observed.Keys {
      return Err("execution, label, and observation IDs differ");
    }
    RowIdsAreOrder(executions, labels, observations);
    var tally :- TallyCases(lib, order, cases, gold, observed);
    ghost var rows := RowsOf(executions, labels, observations);
    var breakdown := Breakdown(lib, rows, tally);
    var metrics := MetricsFrom(lib, rows, tally, observations);
    return Ok(Report(metrics, breakdown));
  }

  lemma RowIdsAreOrder(executions: seq<Case>, labels: seq<Label>, observations: seq<Observation>)
    requires SameIds(executions, labels, observations)
    ensures Applied(RowId, RowsOf(executions, labels, observations)) == KeyOrder(CaseId, executions)
  {
    var rows, order := RowsOf(executions, labels, observations), KeyOrder(CaseId, executions);
    forall i | 0 <= i < |rows| ensures Applied(RowId, rows)[i] == order[i] {
      AppliedAt(RowId, rows, i);
      assert order[i] in Elements(order);
    }
  }
}
