/** The report does not depend on the order of cases, labels or observations. */
module ScoreOrder {
  import opened BenchmarkPack
  import opened StringSets
  import opened Sorting
  import opened RealSums
  import opened Percentile
  import opened Scoring
  import opened ScoreRun

  ghost predicate Reordered<T>(a: seq<T>, b: seq<T>)
  {
    multiset(a) == multiset(b)
  }

  lemma SameMembers<T>(a: seq<T>, b: seq<T>)
    requires Reordered(a, b)
    ensures forall x :: x in a <==> x in b
  {
    forall x ensures x in a <==> x in b {
      assert x in multiset(a) <==> x in multiset(b);
    }
  }

  lemma MeanOfKept<T>(f: T -> real, p: T -> bool, a: seq<T>, b: seq<T>)
    requires Reordered(a, b)
    ensures MeanOf(f, Keep(p, a)) == MeanOf(f, Keep(p, b))
  {
    KeepPermutation(p, a, b);
    MeanOfPermutation(f, Keep(p, a), Keep(p, b));
  }

  lemma SpreadOfList<T>(f: T -> real, a: seq<T>, b: seq<T>)
    requires Reordered(a, b)
    ensures PercentilesOf(Applied(f, a)) == PercentilesOf(Applied(f, b))
  {
    AppliedPermutation(f, a, b);
    PercentilesCanonical(Applied(f, a), Applied(f, b));
  }

  lemma StagesReordered(a: seq<Observation>, b: seq<Observation>)
    requires Reordered(a, b)
    ensures Stages(a) == Stages(b) && Codes(a) == Codes(b)
  {
    SameMembers(a, b);
  }

  lemma StageReordered(stage: string, a: seq<Observation>, b: seq<Observation>)
    requires Reordered(a, b)
    ensures PercentilesOf(TimesOf(stage, a)) == PercentilesOf(TimesOf(stage, b))
  {
    var p := HasStage(stage);
    KeepPermutation(p, a, b);
    SpreadOfList(StageOf(stage), Keep(p, a), Keep(p, b));
  }

  lemma CodeReordered(code: Code, a: seq<Observation>, b: seq<Observation>)
    requires Reordered(a, b)
    ensures CodeCount(code, a) == CodeCount(code, b)
  {
    var p := HasCode(code);
    KeepPermutation(p, a, b);
    assert |multiset(Keep(p, a))| == |multiset(Keep(p, b))|;
  }

  lemma DuplicatesReordered(a: seq<Observation>, b: seq<Observation>)
    requires Reordered(a, b)
    ensures DuplicateRate(a) == DuplicateRate(b)
  {
    TotalOfPermutation(Duplicates, a, b);
    TotalOfPermutation(RetrievedCount, a, b);
  }

  lemma ObservationMetricsReordered(rates: map<Rate, real>, exact: real, fuzzy: real, invalid: nat, fabricated: nat,
                                    firstRank: real, a: seq<Observation>, b: seq<Observation>)
    requires Reordered(a, b)
    ensures MetricsOfLists(rates, exact, fuzzy, invalid, fabricated, firstRank, a)
            == MetricsOfLists(rates, exact, fuzzy, invalid, fabricated, firstRank, b)
  {
    hide TotalOf, MeanOf, PercentilesOf, Applied, DuplicateRate, Stages, Codes, TimesOf, CodeCount;
    TotalOfPermutation(PermissionLeaks, a, b);
    TotalOfPermutation(CriticalFindings, a, b);
    TotalOfPermutation(Retries, a, b);
    TotalOfPermutation(Duplicates, a, b);
    TotalOfPermutation(Orphans, a, b);
    MeanOfPermutation(VersionLeaked, a, b);
    MeanOfPermutation(ProfileLeaked, a, b);
    MeanOfPermutation(ProjectLeaked, a, b);
    MeanOfPermutation(WorkspaceLeaked, a, b);
    DuplicatesReordered(a, b);
    SpreadOfList(IngestionMs, a, b);
    SpreadOfList(RetrievalMs, a, b);
    SpreadOfList(EndToEndMs, a, b);
    SpreadOfList(QueueWaitMs, a, b);
    StagesReordered(a, b);
    forall stage | stage in Stages(a) ensures PercentilesOf(TimesOf(stage, a)) == PercentilesOf(TimesOf(stage, b)) {
      StageReordered(stage, a, b);
    }
    forall code | code in Codes(a) ensures CodeCount(code, a) == CodeCount(code, b) {
      CodeReordered(code, a, b);
    }
  }

  lemma RatesReordered(lib: Library, a: seq<Row>, b: seq<Row>)
    requires Reordered(a, b)
    ensures (map rate | rate in RateNames() :: MeanOf(RateOf(lib, rate), a))
            == (map rate | rate in RateNames() :: MeanOf(RateOf(lib, rate), b))
  {
    hide RateNames, CaseRate, MeanOf;
    forall rate | rate in RateNames() ensures MeanOf(RateOf(lib, rate), a) == MeanOf(RateOf(lib, rate), b) {
      MeanOfPermutation(RateOf(lib, rate), a, b);
    }
  }

  lemma MetricsReordered(lib: Library, a: seq<Row>, b: seq<Row>, items: seq<Observation>, others: seq<Observation>)
    requires Reordered(a, b) && Reordered(items, others)
    ensures MetricsOf(lib, a, items) == MetricsOf(lib, b, others)
  {
    hide MetricsOfLists, RateNames, CaseRate, MeanOf, Keep, TotalOf;
    RatesReordered(lib, a, b);
    MeanOfKept(SourceSuccess, IsExact, a, b);
    MeanOfKept(SourceSuccess, IsFuzzy, a, b);
    MeanOfKept(FirstRank, HasRank, a, b);
    TotalOfPermutation(InvalidCitations, a, b);
    TotalOfPermutation(FabricatedIn, a, b);
    ObservationMetricsReordered(map rate | rate in RateNames() :: MeanOf(RateOf(lib, rate), b),
      MeanOf(SourceSuccess, Keep(IsExact, b)), MeanOf(SourceSuccess, Keep(IsFuzzy, b)), TotalOf(InvalidCitations, b),
      TotalOf(FabricatedIn, b), MeanOf(FirstRank, Keep(HasRank, b)), items, others);
  }

  lemma BucketReordered(lib: Library, a: seq<Row>, b: seq<Row>)
    requires Reordered(a, b)
    ensures BucketOf(lib, a) == BucketOf(lib, b)
  {
    hide CaseRate, MeanOf;
    assert |multiset(a)| == |multiset(b)|;
    MeanOfPermutation(RateOf(lib, FalsePositive), a, b);
    MeanOfPermutation(RateOf(lib, FalseNegative), a, b);
    MeanOfPermutation(RateOf(lib, CitationPrecision), a, b);
    MeanOfPermutation(RateOf(lib, CitationCoverage), a, b);
  }

  lemma BreakdownReordered(lib: Library, a: seq<Row>, b: seq<Row>)
    requires Reordered(a, b)
    ensures BreakdownOf(lib, a) == BreakdownOf(lib, b)
  {
    hide BucketOf, Keep;
    SameMembers(a, b);
    assert Types(a) == Types(b);
    forall name | name in Types(a)
      ensures BucketOf(lib, InBucket(QueryType, a, name)) == BucketOf(lib, InBucket(QueryType, b, name))
    {
      KeepPermutation(Keyed(QueryType, name), a, b);
      BucketReordered(lib, InBucket(QueryType, a, name), InBucket(QueryType, b, name));
    }
  }

  // ---- The inputs ----

  /** No identifier names two different records. */
  ghost predicate Unambiguous<T(!new)>(id: T -> string, s: seq<T>)
  {
    forall x, y :: x in s && y in s && id(x) == id(y) ==> x == y
  }

  lemma {:induction false} ByIdHasAll<T(!new)>(id: T -> string, s: seq<T>)
    ensures forall x :: x in s ==> id(x) in ById(id, s)
    decreases |s|
  {
    if s != [] {
      var front := s[..|s| - 1];
      assert s == front + [s[|s| - 1]];
      ByIdHasAll(id, front);
    }
  }

  lemma ByIdReordered<T(!new)>(id: T -> string, a: seq<T>, b: seq<T>)
    requires Reordered(a, b) && Unambiguous(id, a)
    ensures ById(id, a) == ById(id, b)
  {
    SameMembers(a, b);
    ByIdHasAll(id, a);
    ByIdHasAll(id, b);
    var m, n := ById(id, a), ById(id, b);
    forall k ensures k in m <==> k in n {
      assert k in m ==> id(m[k]) in n;
      assert k in n ==> id(n[k]) in m;
    }
    assert m.Keys == n.Keys;
  }

  lemma JoinReordered(order: seq<string>, other: seq<string>, cases: map<string, Case>, gold: map<string, Label>,
                      observed: map<string, Observation>)
    requires Joinable(order, cases, gold, observed) && Joinable(other, cases, gold, observed)
    requires NoRepeats(order) && NoRepeats(other) && Elements(order) == Elements(other)
    requires forall id :: id in cases ==> cases[id].id == id
    ensures Reordered(JoinRows(order, cases, gold, observed), JoinRows(other, cases, gold, observed))
  {
    var a, b := JoinRows(order, cases, gold, observed), JoinRows(other, cases, gold, observed);
    RowsDistinct(order, cases, gold, observed);
    RowsDistinct(other, cases, gold, observed);
    RowsCarried(order, other, cases, gold, observed);
    RowsCarried(other, order, cases, gold, observed);
    SameDistinctMembers(a, b);
  }

  lemma RowsDistinct(order: seq<string>, cases: map<string, Case>, gold: map<string, Label>,
                     observed: map<string, Observation>)
    requires Joinable(order, cases, gold, observed) && NoRepeats(order)
    requires forall id :: id in cases ==> cases[id].id == id
    ensures NoRepeats(JoinRows(order, cases, gold, observed))
  {
    var rows := JoinRows(order, cases, gold, observed);
    forall i, j | 0 <= i < j < |rows| ensures rows[i] != rows[j] {
      assert order[i] in order && order[j] in order;
      assert rows[i].c.id == order[i] && rows[j].c.id == order[j];
    }
  }

  lemma RowsCarried(order: seq<string>, other: seq<string>, cases: map<string, Case>, gold: map<string, Label>,
                    observed: map<string, Observation>)
    requires Joinable(order, cases, gold, observed) && Joinable(other, cases, gold, observed)
    requires Elements(order) <= Elements(other)
    ensures forall row :: row in JoinRows(order, cases, gold, observed) ==> row in JoinRows(other, cases, gold, observed)
  {
    var a, b := JoinRows(order, cases, gold, observed), JoinRows(other, cases, gold, observed);
    forall row | row in a ensures row in b {
      var i :| 0 <= i < |a| && a[i] == row;
      assert order[i] in Elements(order);
      var j :| 0 <= j < |other| && other[j] == order[i];
      assert b[j] == row;
    }
  }

  lemma RowsReordered(executions: seq<Case>, labels: seq<Label>, items: seq<Observation>,
                      executions': seq<Case>, labels': seq<Label>, items': seq<Observation>)
    requires Reordered(executions, executions') && Reordered(labels, labels') && Reordered(items, items')
    requires Unambiguous(CaseId, executions) && Unambiguous(LabelId, labels) && Unambiguous(ItemId, items)
    ensures SameIds(executions, labels, items) <==> SameIds(executions', labels', items')
    ensures SameIds(executions, labels, items) ==>
              Reordered(RowsOf(executions, labels, items), RowsOf(executions', labels', items'))
  {
    hide JoinRows, Unambiguous;
    ByIdReordered(CaseId, executions, executions');
    ByIdReordered(LabelId, labels, labels');
    ByIdReordered(ItemId, items, items');
    if SameIds(executions, labels, items) {
      var order, order' := KeyOrder(CaseId, executions), KeyOrder(CaseId, executions');
      assert forall id :: id in order ==> id in Elements(order);
      assert forall id :: id in order' ==> id in Elements(order');
      JoinReordered(order, order', ById(CaseId, executions), ById(LabelId, labels), ById(ItemId, items));
    }
  }

  /** Reordering cases, labels and observations changes neither whether a run is scored nor its report. */
  lemma OrderIrrelevant(lib: Library, executions: seq<Case>, labels: seq<Label>, items: seq<Observation>,
                        executions': seq<Case>, labels': seq<Label>, items': seq<Observation>)
    requires Reordered(executions, executions') && Reordered(labels, labels') && Reordered(items, items')
    requires Unambiguous(CaseId, executions) && Unambiguous(LabelId, labels) && Unambiguous(ItemId, items)
    ensures Scorable(executions, labels, items) <==> Scorable(executions', labels', items')
    ensures Scorable(executions, labels, items) ==>
              var rows, rows' := RowsOf(executions, labels, items), RowsOf(executions', labels', items');
              && MetricsOf(lib, rows, items) == MetricsOf(lib, rows', items')
              && BreakdownOf(lib, rows) == BreakdownOf(lib, rows')
  {
    hide MetricsOf, BreakdownOf, RowOk, RowsOf, SameIds, Unambiguous;
    RowsReordered(executions, labels, items, executions', labels', items');
    SameMembers(labels, labels');
    if SameIds(executions, labels, items) {
      var rows, rows' := RowsOf(executions, labels, items), RowsOf(executions', labels', items');
      SameMembers(rows, rows');
      MetricsReordered(lib, rows, rows', items, items');
      BreakdownReordered(lib, rows, rows');
    }
  }
}
