/** The independent report checker, and the theorem that every report the scoring program produces from
    admitted inputs passes it. */
module ReportCheck {
  import opened BenchmarkPack
  import opened StringSets
  import opened Sorting
  import opened RealSums
  import opened Numbers
  import opened RankGain
  import opened Percentile
  import opened Scoring
  import opened ScoreRun
  import opened ScoreLaws

  const MAX_BREAKDOWN := 100

  predicate UnitOk(x: real)
  {
    0.0 <= x <= 1.0
  }

  predicate SpreadOk(p: Percentiles)
  {
    0.0 <= p.p50 && 0.0 <= p.p95 && 0.0 <= p.p99 && p.p50 <= p.p95 <= p.p99
  }

  predicate CountersOk(m: Metrics)
  {
    && 0 <= m.permissionLeakage && 0 <= m.invalidCitations && 0 <= m.fabricated && 0 <= m.critical
    && 0 <= m.retries && 0 <= m.duplicates && 0 <= m.orphans
  }

  predicate RatesOk(m: Metrics)
  {
    && (forall rate :: rate in RateNames() ==> rate in m.rates && UnitOk(m.rates[rate]))
    && UnitOk(m.duplicateRate) && UnitOk(m.identifierExact) && UnitOk(m.identifierFuzzy)
    && UnitOk(m.versionLeakage) && UnitOk(m.profileLeakage) && UnitOk(m.projectLeakage) && UnitOk(m.workspaceLeakage)
  }

  predicate TimesOk(m: Metrics)
  {
    && 0.0 <= m.firstRank
    && SpreadOk(m.ingestion) && SpreadOk(m.retrieval) && SpreadOk(m.endToEnd) && SpreadOk(m.queueWait)
    && m.stages != map[]
    && (forall stage :: stage in m.stages ==> ShortName(stage) && SpreadOk(m.stages[stage]))
  }

  predicate ErrorOk(code: Code, count: int)
  {
    code.Known? && 0 <= count
  }

  predicate BucketOk(name: string, b: Bucket)
  {
    && ShortName(name) && 1 <= b.records
    && UnitOk(b.falsePositive) && UnitOk(b.falseNegative) && UnitOk(b.citationPrecision) && UnitOk(b.citationCoverage)
  }

  function CountOf(errors: map<Code, int>): Code -> real
  {
    code => if code in errors then errors[code] as real else 0.0
  }

  function RecordsOf(breakdown: map<string, Bucket>): string -> real
  {
    name => if name in breakdown then breakdown[name].records as real else 0.0
  }

  ghost predicate ReportOk(report: Report)
  {
    var m, breakdown := report.metrics, report.breakdown;
    && CountersOk(m) && RatesOk(m) && TimesOk(m)
    && (forall code :: code in m.errors ==> ErrorOk(code, m.errors[code]))
    && breakdown != map[] && |breakdown| <= MAX_BREAKDOWN
    && (forall name :: name in breakdown ==> BucketOk(name, breakdown[name]))
    && SumOverNames(CountOf(m.errors), m.errors.Keys) <= SumOverNames(RecordsOf(breakdown), breakdown.Keys)
  }

  /** The comparison with the private dataset that follows: its query types and its record count. */
  ghost predicate MatchesDataset(report: Report, queryTypes: set<string>, records: nat)
  {
    && report.breakdown.Keys == queryTypes
    && SumOverNames(RecordsOf(report.breakdown), report.breakdown.Keys) == records as real
  }

  // ---- The checking program ----

  method CheckErrors(errors: map<Code, int>) returns (ok: bool, total: int)
    ensures ok <==> forall code :: code in errors ==> ErrorOk(code, errors[code])
    ensures ok ==> total as real == SumOverNames(CountOf(errors), errors.Keys)
  {
    total := 0;
    assert errors.Keys - errors.Keys == {};
    assert SumOverNames(CountOf(errors), {}) == 0.0;
    hide SumOverNames;
    var left := errors.Keys;
    while left != {}
      invariant left <= errors.Keys && forall code :: code in errors.Keys - left ==> ErrorOk(code, errors[code])
      invariant total as real == SumOverNames(CountOf(errors), errors.Keys - left)
      decreases |left|
    {
      var code :| code in left;
      if !ErrorOk(code, errors[code]) {
        return false, total;
      }
      SumOverAdd(CountOf(errors), errors.Keys - left, code);
      assert errors.Keys - left + {code} == errors.Keys - (left - {code});
      total := total + errors[code];
      left := left - {code};
    }
    assert errors.Keys - left == errors.Keys;
    return true, total;
  }

  method CheckBreakdown(breakdown: map<string, Bucket>) returns (ok: bool, total: int)
    ensures ok <==> breakdown != map[] && |breakdown| <= MAX_BREAKDOWN
                    && forall name :: name in breakdown ==> BucketOk(name, breakdown[name])
    ensures ok ==> total as real == SumOverNames(RecordsOf(breakdown), breakdown.Keys)
  {
    total := 0;
    if breakdown == map[] || |breakdown| > MAX_BREAKDOWN {
      return false, total;
    }
    assert breakdown.Keys - breakdown.Keys == {};
    assert SumOverNames(RecordsOf(breakdown), {}) == 0.0;
    hide SumOverNames, BucketOk;
    var left := breakdown.Keys;
    while left != {}
      invariant left <= breakdown.Keys && forall name :: name in breakdown.Keys - left ==> BucketOk(name, breakdown[name])
      invariant total as real == SumOverNames(RecordsOf(breakdown), breakdown.Keys - left)
      decreases |left|
    {
      var name :| name in left;
      if !BucketOk(name, breakdown[name]) {
        return false, total;
      }
      SumOverAdd(RecordsOf(breakdown), breakdown.Keys - left, name);
      assert breakdown.Keys - left + {name} == breakdown.Keys - (left - {name});
      total := total + breakdown[name].records;
      left := left - {name};
    }
    assert breakdown.Keys - left == breakdown.Keys;
    return true, total;
  }

  /** Accepts or rejects a report. */
  method CheckReport(report: Report) returns (ok: bool)
    ensures ok <==> ReportOk(report)
  {
    var m := report.metrics;
    if !CountersOk(m) || !RatesOk(m) || !TimesOk(m) {
      return false;
    }
    var errorsOk, errors := CheckErrors(m.errors);
    if !errorsOk {
      return false;
    }
    var breakdownOk, records := CheckBreakdown(report.breakdown);
    if !breakdownOk {
      return false;
    }
    return errors <= records;
  }

  // ---- What the producer guarantees ----

  /** The observations of a run: one for each case, each validated. */
  ghost predicate Observed(executions: seq<Case>, items: seq<Observation>)
  {
    && NoRepeats(Applied(ItemId, items))
    && Elements(Applied(ItemId, items)) == Elements(CaseIds(executions))
    && (forall item :: item in items ==> ObservationOk(item))
  }

  lemma {:induction false} KeysOfDistinct<T>(id: T -> string, s: seq<T>)
    requires NoRepeats(Applied(id, s))
    ensures KeyOrder(id, s) == Applied(id, s)
    decreases |s|
  {
    if s != [] {
      var n := |s| - 1;
      var front := s[..n];
      assert s == front + [s[n]];
      AppliedAppend(id, front, [s[n]]);
      AppliedOne(id, s[n]);
      var ids := Applied(id, s);
      assert forall k :: 0 <= k < n ==> Applied(id, front)[k] == ids[k];
      KeysOfDistinct(id, front);
      assert ids[n] == id(s[n]);
      assert id(s[n]) !in Applied(id, front);
    }
  }

  lemma CaseIdsApplied(executions: seq<Case>)
    ensures Applied(CaseId, executions) == CaseIds(executions)
  {
    forall i | 0 <= i < |executions| ensures Applied(CaseId, executions)[i] == CaseIds(executions)[i] {
      AppliedAt(CaseId, executions, i);
    }
  }

  lemma LabelIdsApplied(labels: seq<Label>)
    ensures Applied(LabelId, labels) == LabelIds(labels)
  {
    forall i | 0 <= i < |labels| ensures Applied(LabelId, labels)[i] == LabelIds(labels)[i] {
      AppliedAt(LabelId, labels, i);
    }
  }

  lemma AdmittedIds(executions: seq<Case>, labels: seq<Label>, items: seq<Observation>)
    requires CasesOk(executions) && LabelsBound(executions, labels) && Observed(executions, items)
    ensures SameIds(executions, labels, items) && |items| == |executions|
    ensures KeyOrder(CaseId, executions) == CaseIds(executions)
  {
    hide DocumentsOk, ObservationOk, LabelOk, SourcesBound, ShortName, ById, KeyOrder, Applied, QueryTypes, NoRepeats;
    CaseIdsApplied(executions);
    LabelIdsApplied(labels);
    LabelsMatchCases(executions, labels);
    KeysOfDistinct(CaseId, executions);
    KeysOfDistinct(LabelId, labels);
    KeysOfDistinct(ItemId, items);
    DistinctSize(Applied(ItemId, items));
    DistinctSize(CaseIds(executions));
  }

  /** Admitted inputs name the same cases, and are scored case by case in their order. */
  lemma AdmittedRows(executions: seq<Case>, labels: seq<Label>, items: seq<Observation>)
    requires CasesOk(executions) && LabelsBound(executions, labels) && Observed(executions, items)
    ensures SameIds(executions, labels, items) && |items| == |executions|
    ensures var rows := RowsOf(executions, labels, items);
      && |rows| == |executions|
      && (forall i :: 0 <= i < |rows| ==> rows[i].c == executions[i])
      && (forall row :: row in rows ==> row.gold in labels && row.item in items)
  {
    hide LabelsBound, Observed, DocumentsOk, ShortName, ById, KeyOrder, QueryTypes, NoRepeats;
    AdmittedIds(executions, labels, items);
    var order := KeyOrder(CaseId, executions);
    assert forall id :: id in order ==> id in Elements(order);
    var rows := RowsOf(executions, labels, items);
    forall i | 0 <= i < |rows| ensures rows[i].c == executions[i] {
      OwnRecord(executions, i);
    }
  }

  lemma OwnRecord(executions: seq<Case>, i: nat)
    requires NoRepeats(CaseIds(executions)) && i < |executions|
    ensures CaseIds(executions)[i] in ById(CaseId, executions)
    ensures ById(CaseId, executions)[CaseIds(executions)[i]] == executions[i]
  {
    hide ById, KeyOrder, Applied, NoRepeats;
    var ids, m := CaseIds(executions), ById(CaseId, executions);
    CaseIdsApplied(executions);
    KeysOfDistinct(CaseId, executions);
    assert ids[i] in Elements(KeyOrder(CaseId, executions));
    var c := m[ids[i]];
    var j :| 0 <= j < |executions| && executions[j] == c;
    DistinctIndex(ids, j, i);
  }

  lemma DuplicateRatePasses(items: seq<Observation>)
    requires forall item :: item in items ==> item.duplicates <= |item.retrieved|
    ensures UnitOk(DuplicateRate(items))
  {
    TotalOfMonotone(Duplicates, RetrievedCount, items);
    DivideBounds(TotalOf(Duplicates, items) as real, Max(1, TotalOf(RetrievedCount, items)) as real);
  }

  lemma SuccessInUnit(p: Row -> bool, rows: seq<Row>)
    ensures UnitOk(MeanOf(SourceSuccess, Keep(p, rows)))
  {
    MeanOfBounds(SourceSuccess, Keep(p, rows));
  }

  lemma MeanRateInUnit(lib: Library, rate: Rate, rows: seq<Row>)
    requires Discounting(lib.discount) && forall row :: row in rows ==> row.item.supported <= row.item.claims
    ensures UnitOk(MeanOf(RateOf(lib, rate), rows))
  {
    hide CaseRate, Discounting;
    forall row | row in rows ensures 0.0 <= RateOf(lib, rate)(row) <= 1.0 {
      RateInUnit(lib, rate, row);
    }
    MeanOfBounds(RateOf(lib, rate), rows);
  }

  lemma RatesPass(lib: Library, rows: seq<Row>, items: seq<Observation>)
    requires Discounting(lib.discount) && forall row :: row in rows ==> row.item.supported <= row.item.claims
    requires forall item :: item in items ==> item.duplicates <= |item.retrieved|
    ensures RatesOk(MetricsOf(lib, rows, items)) && CountersOk(MetricsOf(lib, rows, items))
  {
    hide RateNames, CaseRate, Keep, MeanOf, TotalOf, DuplicateRate, PercentilesOf, TimesOf, Discounting, SourceSuccess,
         Stages, Codes, CodeCount;
    forall rate | rate in RateNames() ensures UnitOk(MeanOf(RateOf(lib, rate), rows)) {
      MeanRateInUnit(lib, rate, rows);
    }
    SuccessInUnit(IsExact, rows);
    SuccessInUnit(IsFuzzy, rows);
    DuplicateRatePasses(items);
    MeanOfBounds(VersionLeaked, items);
    MeanOfBounds(ProfileLeaked, items);
    MeanOfBounds(ProjectLeaked, items);
    MeanOfBounds(WorkspaceLeaked, items);
  }

  lemma SpreadPasses<T(!new)>(f: T -> real, s: seq<T>)
    requires forall x :: x in s ==> 0.0 <= f(x)
    ensures SpreadOk(PercentilesOf(Applied(f, s)))
  {
    var values := Applied(f, s);
    forall v | v in values ensures 0.0 <= v {
      var i :| 0 <= i < |values| && values[i] == v;
      AppliedAt(f, s, i);
      assert s[i] in s;
    }
    PercentilesNonnegative(values);
    PercentilesOrdered(values);
  }

  lemma StagePasses(stage: string, items: seq<Observation>)
    requires forall item :: item in items ==> ObservationOk(item)
    ensures SpreadOk(PercentilesOf(TimesOf(stage, items)))
  {
    KeepMembers(HasStage(stage), items);
    SpreadPasses(StageOf(stage), Keep(HasStage(stage), items));
  }

  lemma FirstRankNonnegative(rows: seq<Row>)
    ensures 0.0 <= MeanOf(FirstRank, Keep(HasRank, rows))
  {
    MeanOfNonnegative(FirstRank, Keep(HasRank, rows));
  }

  lemma TimesOfObservations(items: seq<Observation>)
    requires items != [] && forall item :: item in items ==> ObservationOk(item)
    ensures forall item :: item in items ==>
              0.0 <= IngestionMs(item) && 0.0 <= RetrievalMs(item) && 0.0 <= EndToEndMs(item) && 0.0 <= QueueWaitMs(item)
    ensures Stages(items) != {} && forall stage :: stage in Stages(items) ==> ShortName(stage)
  {
    hide StringListOk, ShortName;
    var first := items[0];
    assert first in items && first.stageMs.Keys != {};
    var stage :| stage in first.stageMs.Keys;
    assert stage in Stages(items);
  }

  lemma TimesPass(lib: Library, rows: seq<Row>, items: seq<Observation>)
    requires items != [] && forall item :: item in items ==> ObservationOk(item)
    ensures TimesOk(MetricsOf(lib, rows, items))
  {
    hide RateNames, CaseRate, Keep, MeanOf, TotalOf, DuplicateRate, PercentilesOf, TimesOf, Applied, SpreadOk, ShortName,
         Codes, CodeCount, ObservationOk, Stages, IngestionMs, RetrievalMs, EndToEndMs, QueueWaitMs;
    TimesOfObservations(items);
    FirstRankNonnegative(rows);
    SpreadPasses(IngestionMs, items);
    SpreadPasses(RetrievalMs, items);
    SpreadPasses(EndToEndMs, items);
    SpreadPasses(QueueWaitMs, items);
    forall stage | stage in Stages(items) ensures ShortName(stage) && SpreadOk(PercentilesOf(TimesOf(stage, items))) {
      StagePasses(stage, items);
    }
    var stage :| stage in Stages(items);
    assert stage in MetricsOf(lib, rows, items).stages;
  }

  lemma {:induction false} TypesOfCases(executions: seq<Case>, rows: seq<Row>)
    requires |rows| == |executions| && forall i :: 0 <= i < |rows| ==> rows[i].c == executions[i]
    ensures Types(rows) == QueryTypes(executions)
  {
    forall name ensures name in Types(rows) <==> name in QueryTypes(executions) {
      if row :| row in rows && QueryType(row) == name {
        var i :| 0 <= i < |rows| && rows[i] == row;
        assert executions[i].queryType == name;
      }
      if i :| 0 <= i < |executions| && executions[i].queryType == name {
        assert rows[i] in rows;
      }
    }
  }

  /** The record counts of a breakdown add up to the number of cases. */
  lemma RecordsAddUp(lib: Library, rows: seq<Row>)
    ensures SumOverNames(RecordsOf(BreakdownOf(lib, rows)), Types(rows)) == |rows| as real
  {
    hide CaseRate, MeanOf;
    var one: Row -> real := row => 1.0;
    var records, sums := RecordsOf(BreakdownOf(lib, rows)), BucketSum(one, QueryType, rows);
    forall name | name in Types(rows) ensures records(name) == sums(name) {
      SumOfOnes(one, InBucket(QueryType, rows, name));
    }
    SumOverSame(records, sums, Types(rows));
    BucketsPartition(one, QueryType, rows, Types(rows));
    SumOfOnes(one, rows);
  }

  function CodeKey(item: Observation): Code
  {
    if item.errorCode.Some? then item.errorCode.value else Unknown("")
  }

  /** The error counts add up to at most the number of observations. */
  lemma ErrorsAddUp(items: seq<Observation>)
    requires forall code :: code in Codes(items) ==> code.Known?
    ensures SumOverNames(CountOf(ErrorCounts(items)), ErrorCounts(items).Keys) <= |items| as real
  {
    var one: Observation -> real := item => 1.0;
    var counts := ErrorCounts(items);
    assert counts.Keys == Codes(items);
    var sums, none := BucketSum(one, CodeKey, items), Unknown("");
    forall code | code in Codes(items) ensures CountOf(counts)(code) == sums(code) {
      KeepSame(HasCode(code), Keyed(CodeKey, code), items);
      SumOfOnes(one, InBucket(CodeKey, items, code));
    }
    SumOverSame(CountOf(counts), sums, Codes(items));
    SumOverAdd(sums, Codes(items), none);
    BucketsPartition(one, CodeKey, items, Codes(items) + {none});
    SumOfOnes(one, items);
    SumOfNonnegative(one, InBucket(CodeKey, items, none));
  }

  lemma BreakdownPasses(lib: Library, rows: seq<Row>)
    requires Discounting(lib.discount)
    requires forall row :: row in rows ==> row.item.supported <= row.item.claims && ShortName(row.c.queryType)
    ensures forall name :: name in Types(rows) ==> BucketOk(name, BreakdownOf(lib, rows)[name])
  {
    hide CaseRate, Discounting, MeanOf, ShortName, Keep;
    forall name | name in Types(rows) ensures BucketOk(name, BreakdownOf(lib, rows)[name]) {
      var bucket := InBucket(QueryType, rows, name);
      KeepMembers(Keyed(QueryType, name), rows);
      var row :| row in rows && QueryType(row) == name;
      assert row in bucket;
      MeanRateInUnit(lib, FalsePositive, bucket);
      MeanRateInUnit(lib, FalseNegative, bucket);
      MeanRateInUnit(lib, CitationPrecision, bucket);
      MeanRateInUnit(lib, CitationCoverage, bucket);
    }
  }

  lemma ErrorsPass(items: seq<Observation>)
    requires forall item :: item in items ==> ObservationOk(item)
    ensures forall code :: code in Codes(items) ==> code.Known?
  {
    hide StringListOk, ShortName;
  }

  lemma ErrorsOfRun(lib: Library, rows: seq<Row>, items: seq<Observation>)
    requires forall item :: item in items ==> ObservationOk(item)
    ensures var errors := MetricsOf(lib, rows, items).errors;
      && (forall code :: code in errors ==> ErrorOk(code, errors[code]))
      && SumOverNames(CountOf(errors), errors.Keys) <= |items| as real
  {
    hide TotalOf, MeanOf, Keep, PercentilesOf, Applied, DuplicateRate, Stages, TimesOf, ObservationOk, RateNames;
    ErrorsPass(items);
    ErrorsAddUp(items);
    assert MetricsOf(lib, rows, items).errors == ErrorCounts(items);
  }

  lemma BreakdownOfRun(lib: Library, rows: seq<Row>)
    requires Discounting(lib.discount) && rows != [] && |Types(rows)| <= MAX_BREAKDOWN
    requires forall row :: row in rows ==> row.item.supported <= row.item.claims && ShortName(row.c.queryType)
    ensures var breakdown := BreakdownOf(lib, rows);
      && breakdown != map[] && |breakdown| <= MAX_BREAKDOWN
      && (forall name :: name in breakdown ==> BucketOk(name, breakdown[name]))
      && breakdown.Keys == Types(rows)
      && SumOverNames(RecordsOf(breakdown), breakdown.Keys) == |rows| as real
  {
    var breakdown := BreakdownOf(lib, rows);
    BreakdownKeys(lib, rows);
    assert rows[0] in rows && QueryType(rows[0]) in Types(rows);
    assert QueryType(rows[0]) in breakdown;
    hide BreakdownOf, Types, Discounting, ShortName, BucketOk, SumOverNames;
    BreakdownPasses(lib, rows);
    RecordsAddUp(lib, rows);
    assert |breakdown| == |breakdown.Keys|;
  }

  lemma RunPasses(lib: Library, rows: seq<Row>, items: seq<Observation>)
    requires Discounting(lib.discount) && rows != [] && |rows| == |items| && |Types(rows)| <= MAX_BREAKDOWN
    requires forall row :: row in rows ==> row.item.supported <= row.item.claims && ShortName(row.c.queryType)
    requires forall item :: item in items ==> ObservationOk(item) && item.duplicates <= |item.retrieved|
    ensures ReportOk(Report(MetricsOf(lib, rows, items), BreakdownOf(lib, rows)))
  {
    hide MetricsOf, BreakdownOf, Types, SumOverNames, RatesOk, TimesOk, CountersOk, BucketOk, ErrorOk,
         ObservationOk, ShortName, Discounting;
    ErrorsOfRun(lib, rows, items);
    BreakdownOfRun(lib, rows);
    RatesPass(lib, rows, items);
    TimesPass(lib, rows, items);
  }

  /** Producer refines checker: admitted cases and labels with one validated observation for each case are
      scored, and the report passes every check of the checker and the comparison with the dataset. */
  lemma ProducerPasses(lib: Library, executions: seq<Case>, labels: seq<Label>, items: seq<Observation>)
    requires Discounting(lib.discount)
    requires CasesOk(executions) && LabelsBound(executions, labels) && Observed(executions, items)
    requires forall gold :: gold in labels ==> gold.measurable
    ensures Scorable(executions, labels, items)
    ensures var rows := RowsOf(executions, labels, items);
      var report := Report(MetricsOf(lib, rows, items), BreakdownOf(lib, rows));
      ReportOk(report) && MatchesDataset(report, QueryTypes(executions), |executions|)
  {
    hide CasesOk, LabelsBound, Observed, RowOk, QueryTypes, SameIds, ObservationOk, ShortName, ReportOk, MatchesDataset,
         MetricsOf, BreakdownOf, Discounting, RowsOf;
    AdmittedRows(executions, labels, items);
    var rows := RowsOf(executions, labels, items);
    RowsPass(executions, labels, items);
    ProducedReport(lib, executions, rows, items);
  }

  lemma ProducedReport(lib: Library, executions: seq<Case>, rows: seq<Row>, items: seq<Observation>)
    requires Discounting(lib.discount) && rows != [] && |rows| == |items| == |executions|
    requires forall i :: 0 <= i < |rows| ==> rows[i].c == executions[i]
    requires |QueryTypes(executions)| <= MAX_BREAKDOWN
    requires forall row :: row in rows ==> row.item.supported <= row.item.claims && ShortName(row.c.queryType)
    requires forall item :: item in items ==> ObservationOk(item) && item.duplicates <= |item.retrieved|
    ensures var report := Report(MetricsOf(lib, rows, items), BreakdownOf(lib, rows));
      ReportOk(report) && MatchesDataset(report, QueryTypes(executions), |executions|)
  {
    hide CaseRate, Discounting, ReportOk, MetricsOf, BreakdownOf, ObservationOk, SumOverNames, QueryTypes, Types, ShortName;
    TypesOfCases(executions, rows);
    BreakdownOfRun(lib, rows);
    RunPasses(lib, rows, items);
  }

  /** What the checks need of each row. */
  lemma RowsPass(executions: seq<Case>, labels: seq<Label>, items: seq<Observation>)
    requires CasesOk(executions) && LabelsBound(executions, labels) && Observed(executions, items)
    requires SameIds(executions, labels, items)
    requires |RowsOf(executions, labels, items)| == |executions| == |items|
    requires var rows := RowsOf(executions, labels, items);
      && (forall i :: 0 <= i < |rows| ==> rows[i].c == executions[i])
      && (forall row :: row in rows ==> row.gold in labels && row.item in items)
    ensures forall row :: row in RowsOf(executions, labels, items) ==>
              RowOk(row) && row.item.supported <= row.item.claims && ShortName(row.c.queryType)
    ensures executions != [] && |QueryTypes(executions)| <= MAX_BREAKDOWN
    ensures forall item :: item in items ==> ObservationOk(item) && item.duplicates <= |item.retrieved|
  {
    hide RowsOf, SameIds, StringListOk, ShortName, DocumentsOk, SourcesBound;
    var rows := RowsOf(executions, labels, items);
    forall row | row in rows
      ensures RowOk(row) && row.item.supported <= row.item.claims && ShortName(row.c.queryType)
    {
      var i :| 0 <= i < |rows| && rows[i] == row;
      var k :| 0 <= k < |labels| && labels[k] == row.gold;
      assert ObservationOk(row.item) && LabelOk(labels[k]);
    }
  }
}
