/** What the report checker and the validation of observations accept, in the fields of a report, with every
    limit written out. */
module ReportLaws {
  import opened CaptureFrames
  import opened Sorting
  import opened StringSets
  import opened RealSums
  import opened Percentile
  import opened BenchmarkPack
  import opened Scoring
  import opened ScoreRun
  import opened ReportCheck
  import opened PackLaws

  ghost predicate AtMostOne(x: real)
  {
    0.0 <= x && x <= 1.0
  }

  ghost predicate InOrder(p: Percentiles)
  {
    0.0 <= p.p50 && p.p50 <= p.p95 && p.p95 <= p.p99
  }

  /** The eighteen rates that every report has to give. */
  ghost function Rates(): set<Rate>
  {
    {Mrr, Ndcg, Recall(1), Recall(3), Recall(5), Recall(10), ContextPrecision, ContextRecall, FalsePositive,
     FalseNegative, CitationPrecision, CitationRecall, CitationCoverage, UnsupportedClaims, SourceInvalidity,
     AnswerSufficiency, ContradictionHandling, PromptInjection}
  }

  ghost predicate Sensible(m: Metrics)
  {
    && (forall rate <- Rates() :: rate in m.rates && AtMostOne(m.rates[rate]))
    && AtMostOne(m.duplicateRate) && AtMostOne(m.identifierExact) && AtMostOne(m.identifierFuzzy)
    && AtMostOne(m.versionLeakage) && AtMostOne(m.profileLeakage) && AtMostOne(m.projectLeakage)
    && AtMostOne(m.workspaceLeakage)
    && m.permissionLeakage >= 0 && m.invalidCitations >= 0 && m.fabricated >= 0 && m.critical >= 0
    && m.retries >= 0 && m.duplicates >= 0 && m.orphans >= 0 && m.firstRank >= 0.0
    && InOrder(m.ingestion) && InOrder(m.retrieval) && InOrder(m.endToEnd) && InOrder(m.queueWait)
    && m.stages != map[] && (forall stage <- m.stages :: StableName(stage) && InOrder(m.stages[stage]))
    && (forall code <- m.errors :: code.Known? && m.errors[code] >= 0)
  }

  ghost predicate SensibleBucket(b: Bucket)
  {
    && b.records >= 1 && AtMostOne(b.falsePositive) && AtMostOne(b.falseNegative)
    && AtMostOne(b.citationPrecision) && AtMostOne(b.citationCoverage)
  }

  /** The keys of a map, each once. */
  ghost predicate Lists<K(!new), V>(keys: seq<K>, m: map<K, V>)
  {
    NoRepeats(keys) && forall key :: key in keys <==> key in m
  }

  ghost function ErrorTotal(errors: map<Code, int>, codes: seq<Code>): int
  {
    if codes == [] then 0 else (if codes[0] in errors then errors[codes[0]] else 0) + ErrorTotal(errors, codes[1..])
  }

  ghost function RecordTotal(breakdown: map<string, Bucket>, names: seq<string>): int
  {
    if names == [] then 0
    else (if names[0] in breakdown then breakdown[names[0]].records else 0) + RecordTotal(breakdown, names[1..])
  }

  lemma {:induction false} ErrorsTotal(errors: map<Code, int>, codes: seq<Code>)
    requires NoRepeats(codes)
    ensures SumOverNames(CountOf(errors), set code | code in codes) == ErrorTotal(errors, codes) as real
    decreases |codes|
  {
    var all := set code | code in codes;
    if codes == [] {
      assert all == {};
    } else {
      ErrorsTotal(errors, codes[1..]);
      var rest := set code | code in codes[1..];
      assert codes == [codes[0]] + codes[1..];
      assert all == rest + {codes[0]};
      SumOverAdd(CountOf(errors), rest, codes[0]);
    }
  }

  lemma {:induction false} RecordsTotal(breakdown: map<string, Bucket>, names: seq<string>)
    requires NoRepeats(names)
    ensures SumOverNames(RecordsOf(breakdown), set name | name in names) == RecordTotal(breakdown, names) as real
    decreases |names|
  {
    var all := set name | name in names;
    if names == [] {
      assert all == {};
    } else {
      RecordsTotal(breakdown, names[1..]);
      var rest := set name | name in names[1..];
      assert names == [names[0]] + names[1..];
      assert all == rest + {names[0]};
      SumOverAdd(RecordsOf(breakdown), rest, names[0]);
    }
  }

  /** Exactly the reports that are accepted: sensible numbers, between 1 and 100 well-named query types of at least
      one record each, and no more errors in all than records in all. */
  lemma ChecksExactly(report: Report, codes: seq<Code>, names: seq<string>)
    requires Lists(codes, report.metrics.errors) && Lists(names, report.breakdown)
    ensures ReportOk(report) <==>
              && Sensible(report.metrics)
              && 1 <= |names| <= 100
              && (forall name <- report.breakdown :: StableName(name) && SensibleBucket(report.breakdown[name]))
              && ErrorTotal(report.metrics.errors, codes) <= RecordTotal(report.breakdown, names)
  {
    var m, breakdown := report.metrics, report.breakdown;
    NamesMean(m, breakdown);
    ErrorsTotal(m.errors, codes);
    RecordsTotal(breakdown, names);
    assert m.errors.Keys == set code | code in codes;
    assert breakdown.Keys == set name | name in names;
    NumbersMean(m);
    ListSize(names);
    hide SumOverNames, ErrorTotal, RecordTotal, CountersOk, RatesOk, TimesOk, ShortName, StableName;
    assert |breakdown| == |breakdown.Keys|;
  }

  lemma NamesMean(m: Metrics, breakdown: map<string, Bucket>)
    ensures forall name <- breakdown :: ShortName(name) <==> StableName(name)
    ensures forall stage <- m.stages :: ShortName(stage) <==> StableName(stage)
  {
    hide ShortName, StableName;
    forall name: string ensures ShortName(name) <==> StableName(name) {
      NameMeans(name);
    }
  }

  lemma NumbersMean(m: Metrics)
    ensures Sensible(m) <==> CountersOk(m) && RatesOk(m) && TimesOk(m)
                             && forall code :: code in m.errors ==> ErrorOk(code, m.errors[code])
  {
    NamesMean(m, map[]);
    hide ShortName, StableName;
    assert Rates() == RateNames();
    hide Rates, RateNames;
  }

  lemma {:induction false} ListSize(names: seq<string>)
    requires NoRepeats(names)
    ensures |set name | name in names| == |names|
    decreases |names|
  {
    var all := set name | name in names;
    if names == [] {
      assert all == {};
    } else {
      var rest := set name | name in names[1..];
      ListSize(names[1..]);
      assert names == [names[0]] + names[1..];
      assert all == rest + {names[0]};
    }
  }

  /** The comparison with the dataset: its query types, and one record for each of its cases. */
  lemma MatchesExactly(report: Report, queryTypes: set<string>, records: nat, names: seq<string>)
    requires Lists(names, report.breakdown)
    ensures MatchesDataset(report, queryTypes, records) <==>
              (forall name :: name in queryTypes <==> name in names) && RecordTotal(report.breakdown, names) == records
  {
    RecordsTotal(report.breakdown, names);
    assert report.breakdown.Keys == set name | name in names;
  }

  /** The rates that the scoring program writes are the eighteen that are asked for. */
  lemma RatesWritten(lib: Library, rows: seq<Row>, items: seq<Observation>)
    ensures MetricsOf(lib, rows, items).rates.Keys == Rates()
  {
  }

  // ---- Observations ----

  ghost predicate SourcesListed(items: seq<string>)
  {
    |items| <= 1_000 && forall i :: 0 <= i < |items| ==> 0 < Utf8Length(items[i]) <= 8_192
  }

  /** Exactly the observations that are scored. */
  lemma ObservesExactly(item: Observation)
    ensures ObservationOk(item) <==>
              && SourcesListed(item.retrieved) && SourcesListed(item.cited) && Utf8Length(item.answer) <= 1_000_000
              && item.supported <= item.claims && item.duplicates <= |item.retrieved|
              && item.ingestionMs >= 0.0 && item.retrievalMs >= 0.0 && item.endToEndMs >= 0.0 && item.queueWaitMs >= 0.0
              && 1 <= |item.stageMs| <= 64
              && (forall stage <- item.stageMs :: StableName(stage) && item.stageMs[stage] >= 0.0)
              && (item.errorCode.Some? ==> item.errorCode.value.Known?)
  {
    hide ShortName, StableName, Utf8Length;
    forall stage: string ensures ShortName(stage) <==> StableName(stage) {
      NameMeans(stage);
    }
    assert |item.stageMs| == 0 <==> item.stageMs.Keys == {};
  }

  // ---- What is scored together ----

  lemma {:induction false} ByIdHolds<T(!new)>(id: T -> string, s: seq<T>, name: string)
    ensures name in ById(id, s) <==> exists k :: 0 <= k < |s| && id(s[k]) == name
    ensures forall k :: 0 <= k < |s| && id(s[k]) == name && (forall m :: k < m < |s| ==> id(s[m]) != name) ==>
              ById(id, s)[name] == s[k]
    decreases |s|
  {
    if s != [] {
      var n := |s| - 1;
      ByIdHolds(id, s[..n], name);
      if k :| 0 <= k < n && id(s[k]) == name {
        assert s[..n][k] == s[k];
      }
      if k :| 0 <= k < n && id(s[..n][k]) == name {
        assert s[k] == s[..n][k];
      }
    }
  }

  ghost predicate NamesCase(executions: seq<Case>, name: string)
  {
    exists k :: 0 <= k < |executions| && executions[k].id == name
  }

  ghost predicate NamesLabel(labels: seq<Label>, name: string)
  {
    exists k :: 0 <= k < |labels| && labels[k].id == name
  }

  ghost predicate NamesObservation(observations: seq<Observation>, name: string)
  {
    exists k :: 0 <= k < |observations| && observations[k].id == name
  }

  /** The three lists are scored together exactly when they name the same cases. */
  lemma JoinsExactly(executions: seq<Case>, labels: seq<Label>, observations: seq<Observation>)
    ensures SameIds(executions, labels, observations) <==>
              forall name :: (NamesCase(executions, name) <==> NamesLabel(labels, name))
                             && (NamesCase(executions, name) <==> NamesObservation(observations, name))
  {
    forall name
      ensures name in ById(CaseId, executions) <==> NamesCase(executions, name)
      ensures name in ById(LabelId, labels) <==> NamesLabel(labels, name)
      ensures name in ById(ItemId, observations) <==> NamesObservation(observations, name)
    {
      ByIdHolds(CaseId, executions, name);
      ByIdHolds(LabelId, labels, name);
      ByIdHolds(ItemId, observations, name);
    }
    hide ById, NamesCase, NamesLabel, NamesObservation;
  }

  /** Exactly what gets a score: measurable labels, three lists that name the same cases, and of every case a label
      and a query type within the limits. */
  lemma ScoresExactly(executions: seq<Case>, labels: seq<Label>, observations: seq<Observation>)
    ensures Scorable(executions, labels, observations) <==>
              && (forall gold <- labels :: gold.measurable)
              && SameIds(executions, labels, observations)
              && forall row <- RowsOf(executions, labels, observations) ::
                   StableName(row.c.queryType) && Strings(row.gold.facts) && Strings(row.gold.sources)
                   && Strings(row.gold.forbidden)
  {
    hide SameIds, RowsOf, StableName, ShortName, Strings, StringListOk;
    forall row: Row ensures RowOk(row) <==> StableName(row.c.queryType) && Strings(row.gold.facts)
                                            && Strings(row.gold.sources) && Strings(row.gold.forbidden) {
      NameMeans(row.c.queryType);
      StringsMean(row.gold.facts);
      StringsMean(row.gold.sources);
      StringsMean(row.gold.forbidden);
    }
    hide RowOk;
  }

  lemma StringsMean(items: seq<string>)
    ensures StringListOk(items, MAX_LABEL_ITEMS) <==> Strings(items)
  {
  }

  /** Of inputs that name each case once: one row for each case, in the order of the cases, with a label and an
      observation of this very case. */
  lemma RowsJoinExactly(executions: seq<Case>, labels: seq<Label>, observations: seq<Observation>)
    requires SameIds(executions, labels, observations)
    requires forall i, j :: 0 <= i < j < |executions| ==> executions[i].id != executions[j].id
    ensures var rows := RowsOf(executions, labels, observations);
      && |rows| == |executions|
      && forall i :: 0 <= i < |rows| ==>
           && rows[i].c == executions[i]
           && rows[i].gold in labels && rows[i].gold.id == executions[i].id
           && rows[i].item in observations && rows[i].item.id == executions[i].id
  {
    hide ById, KeyOrder, Applied;
    CaseIdsApplied(executions);
    KeysOfDistinct(CaseId, executions);
    var order := KeyOrder(CaseId, executions);
    assert order == CaseIds(executions);
    assert forall id :: id in order ==> id in Elements(order);
    forall i | 0 <= i < |order| ensures ById(CaseId, executions)[order[i]] == executions[i] {
      OwnRecord(executions, i);
    }
  }
}
