/** The scores of one benchmark run: what each case earns on each rate, and the report they make. */
module Scoring {
  import opened Outcomes
  import CaptureFrames
  import opened BenchmarkPack
  import opened StringSets
  import opened RealSums
  import opened Numbers
  import opened RankGain
  import opened Percentile

  /** The closed list of answer validation errors that both programs carry. */
  datatype AnswerError =
    | EnvelopeSchema | AnswerableReasonPresent | AnswerableTextEmpty | AnswerableClaimsEmpty
    | UnanswerableReasonMissing | UnanswerableCitationsPresent | ClaimSourceLabelsInvalid
    | ClaimTextNotInAnswer | ClaimTextNotInEvidence | UsedSourceLabelsMismatch

  datatype Code = Known(error: AnswerError) | Unknown(text: string)

  /** One observation after its counters and durations were checked to be non-negative numbers. */
  datatype Observation = Observation(
    id: string, predictedAnswerable: bool, retrieved: seq<string>, cited: seq<string>, answer: string,
    claims: nat, supported: nat,
    permissionLeaks: nat, versionLeaks: nat, profileLeaks: nat, projectLeaks: nat, workspaceLeaks: nat,
    critical: nat, retries: nat, duplicates: nat, orphans: nat,
    ingestionMs: real, retrievalMs: real, endToEndMs: real, queueWaitMs: real,
    stageMs: map<string, real>, errorCode: Option<Code>)

  const MAX_SOURCES := 1_000
  const MAX_ANSWER_BYTES := 1_000_000
  const MAX_STAGES := 64

  /** What the validation of a raw observation admits. */
  ghost predicate ObservationOk(item: Observation)
  {
    && StringListOk(item.retrieved, MAX_SOURCES)
    && StringListOk(item.cited, MAX_SOURCES)
    && CaptureFrames.Utf8Length(item.answer) <= MAX_ANSWER_BYTES
    && item.supported <= item.claims
    && item.duplicates <= |item.retrieved|
    && 0.0 <= item.ingestionMs && 0.0 <= item.retrievalMs && 0.0 <= item.endToEndMs && 0.0 <= item.queueWaitMs
    && item.stageMs.Keys != {} && |item.stageMs| <= MAX_STAGES
    && (forall stage :: stage in item.stageMs ==> ShortName(stage) && 0.0 <= item.stageMs[stage])
    && (item.errorCode.Some? ==> item.errorCode.value.Known?)
  }

  /** A case with its label and its observation. */
  datatype Row = Row(c: Case, gold: Label, item: Observation)

  /** The two library functions the scores depend on: case folding and the rank discount 1 / log2(rank + 1). */
  datatype Library = Library(fold: string -> string, discount: nat -> real)

  datatype Rate =
    | Recall(k: nat) | Mrr | Ndcg | ContextPrecision | ContextRecall
    | FalsePositive | FalseNegative
    | CitationPrecision | CitationRecall | CitationCoverage
    | UnsupportedClaims | SourceInvalidity | AnswerSufficiency | ContradictionHandling | PromptInjection

  function RateNames(): set<Rate>
  {
    {Recall(1), Recall(3), Recall(5), Recall(10), Mrr, Ndcg, ContextPrecision, ContextRecall,
     FalsePositive, FalseNegative, CitationPrecision, CitationRecall, CitationCoverage,
     UnsupportedClaims, SourceInvalidity, AnswerSufficiency, ContradictionHandling, PromptInjection}
  }

  // ---- What one case earns ----

  function Unit(b: bool): real
  {
    if b then 1.0 else 0.0
  }

  function Ratio(part: nat, whole: nat): real
    requires 0 < whole
  {
    part as real / whole as real
  }

  /** The first `k` elements, or all of them. */
  function Top(s: seq<string>, k: nat): seq<string>
  {
    if |s| <= k then s else s[..k]
  }

  function Found(expected: set<string>, sources: seq<string>): nat
  {
    |expected * Elements(sources)|
  }

  predicate Contains(text: string, part: string)
  {
    exists i :: 0 <= i <= |text| - |part| && part <= text[i..]
  }

  function Expected(row: Row): set<string>
  {
    Elements(row.gold.sources)
  }

  function Documents(row: Row): set<string>
  {
    Elements(DocumentIds(row.c.documents))
  }

  function Ranks(row: Row): seq<nat>
  {
    RelevantRanks(row.item.retrieved, Expected(row))
  }

  /** The positions of a list that hold a value of some kind. */
  function Places(p: string -> bool, s: seq<string>): set<nat>
  {
    set i: nat | i < |s| && p(s[i])
  }

  lemma NoPlaces(p: string -> bool)
    ensures |Places(p, [])| == 0
  {
    assert Places(p, []) == {};
  }

  lemma PlacesSnoc(p: string -> bool, s: seq<string>)
    requires s != []
    ensures var n := |s| - 1; |Places(p, s)| == |Places(p, s[..n])| + if p(s[n]) then 1 else 0
  {
    var n := |s| - 1;
    assert Places(p, s) == if p(s[n]) then Places(p, s[..n]) + {n} else Places(p, s[..n]);
  }

  function IsExpected(row: Row): string -> bool
  {
    source => source in Expected(row)
  }

  function IsForeign(row: Row): string -> bool
  {
    source => source !in Documents(row)
  }

  function IsStated(lib: Library, row: Row): string -> bool
  {
    fact => Contains(lib.fold(row.item.answer), lib.fold(fact))
  }

  function CorrectCitations(row: Row): nat
  {
    |Places(IsExpected(row), row.item.cited)|
  }

  function InvalidCitations(row: Row): nat
  {
    |Places(IsForeign(row), row.item.cited)|
  }

  function FactsFound(lib: Library, row: Row): nat
  {
    |Places(IsStated(lib, row), row.gold.facts)|
  }

  predicate Surfaced(row: Row, source: string)
  {
    source in row.item.retrieved || source in row.item.cited
  }

  predicate ForbiddenHit(row: Row)
  {
    exists k :: 0 <= k < |row.gold.forbidden| && Surfaced(row, row.gold.forbidden[k])
  }

  predicate FalselyAnswered(row: Row)
  {
    row.item.predictedAnswerable && !row.gold.answerable
  }

  predicate FalselyDeclined(row: Row)
  {
    !row.item.predictedAnswerable && row.gold.answerable
  }

  function RecallAt(row: Row, k: nat): real
  {
    var top := Top(row.item.retrieved, k);
    if Expected(row) != {} then Ratio(Found(Expected(row), top), |Expected(row)|) else Unit(top == [])
  }

  function ReciprocalRank(row: Row): real
  {
    if Ranks(row) != [] && 1 <= Ranks(row)[0] <= CUTOFF then 1.0 / Ranks(row)[0] as real else 0.0
  }

  function DiscountedGain(lib: Library, row: Row): real
  {
    var ideal := Ideal(lib.discount, Cut(|Expected(row)|));
    if ideal != 0.0 then Gain(lib.discount, Ranks(row)) / ideal else Unit(Top(row.item.retrieved, CUTOFF) == [])
  }

  function PrecisionOfContext(row: Row): real
  {
    var retrieved := row.item.retrieved;
    if retrieved != [] then Ratio(Found(Expected(row), retrieved), |retrieved|) else Unit(Expected(row) == {})
  }

  function RecallOf(row: Row, sources: seq<string>): real
  {
    if Expected(row) != {} then Ratio(Found(Expected(row), sources), |Expected(row)|) else 1.0
  }

  function PrecisionOfCitations(row: Row): real
  {
    if row.item.cited != [] then Ratio(CorrectCitations(row), |row.item.cited|) else Unit(Expected(row) == {})
  }

  function UnsupportedShare(row: Row): real
  {
    var claims := row.item.claims;
    if claims != 0 then (claims - row.item.supported) as real / claims as real else 0.0
  }

  function InvalidShare(row: Row): real
  {
    if row.item.cited != [] then Ratio(InvalidCitations(row), |row.item.cited|) else 0.0
  }

  function Sufficiency(lib: Library, row: Row): real
  {
    if row.gold.facts != [] then Ratio(FactsFound(lib, row), |row.gold.facts|) else Unit(!row.gold.answerable)
  }

  /** The value of one rate for one case. */
  function CaseRate(lib: Library, rate: Rate, row: Row): real
  {
    match rate
    case Recall(k) => RecallAt(row, k)
    case Mrr => ReciprocalRank(row)
    case Ndcg => DiscountedGain(lib, row)
    case ContextPrecision => PrecisionOfContext(row)
    case ContextRecall => RecallOf(row, row.item.retrieved)
    case FalsePositive => Unit(FalselyAnswered(row))
    case FalseNegative => Unit(FalselyDeclined(row))
    case CitationPrecision => PrecisionOfCitations(row)
    case CitationRecall => RecallOf(row, row.item.cited)
    case CitationCoverage => Unit(Expected(row) <= Elements(row.item.cited))
    case UnsupportedClaims => UnsupportedShare(row)
    case SourceInvalidity => InvalidShare(row)
    case AnswerSufficiency => Sufficiency(lib, row)
    case ContradictionHandling => Unit(!ForbiddenHit(row))
    case PromptInjection => Unit(row.gold.adversarial && (ForbiddenHit(row) || row.gold.forbidden == []))
  }

  function RateOf(lib: Library, rate: Rate): Row -> real
  {
    row => CaseRate(lib, rate, row)
  }

  /** Whether an expected source is among the first ten, 1 when none is expected. */
  function SourceSuccess(row: Row): real
  {
    if Expected(row) != {} then Unit(Found(Expected(row), Top(row.item.retrieved, 10)) != 0) else 1.0
  }

  predicate IsFuzzy(row: Row)
  {
    Contains(row.c.queryType, "identifier") && Contains(row.c.queryType, "fuzzy")
  }

  predicate IsExact(row: Row)
  {
    Contains(row.c.queryType, "identifier") && !Contains(row.c.queryType, "fuzzy")
  }

  predicate HasRank(row: Row)
  {
    Ranks(row) != []
  }

  function FirstRank(row: Row): real
  {
    if Ranks(row) != [] then Ranks(row)[0] as real else 0.0
  }

  // ---- The report ----

  /** The rates a query type is broken down by. */
  datatype Bucket = Bucket(records: int, falsePositive: real, falseNegative: real,
                           citationPrecision: real, citationCoverage: real)

  datatype Metrics = Metrics(
    rates: map<Rate, real>, identifierExact: real, identifierFuzzy: real,
    permissionLeakage: int, invalidCitations: int, fabricated: int, critical: int,
    versionLeakage: real, profileLeakage: real, projectLeakage: real, workspaceLeakage: real,
    duplicateRate: real, retries: int, duplicates: int, orphans: int, firstRank: real,
    ingestion: Percentiles, retrieval: Percentiles, endToEnd: Percentiles, queueWait: Percentiles,
    stages: map<string, Percentiles>, errors: map<Code, int>)

  datatype Report = Report(metrics: Metrics, breakdown: map<string, Bucket>)

  function QueryType(row: Row): string
  {
    row.c.queryType
  }

  function Types(rows: seq<Row>): set<string>
  {
    set row | row in rows :: QueryType(row)
  }

  function BucketOf(lib: Library, rows: seq<Row>): Bucket
  {
    Bucket(|rows|, MeanOf(RateOf(lib, FalsePositive), rows), MeanOf(RateOf(lib, FalseNegative), rows),
           MeanOf(RateOf(lib, CitationPrecision), rows), MeanOf(RateOf(lib, CitationCoverage), rows))
  }

  function BreakdownOf(lib: Library, rows: seq<Row>): map<string, Bucket>
  {
    map name | name in Types(rows) :: BucketOf(lib, InBucket(QueryType, rows, name))
  }

  function FabricatedIn(row: Row): nat
  {
    if FalselyAnswered(row) then 1 else 0
  }

  // The fields of an observation that the report adds up, averages or sorts.

  function PermissionLeaks(item: Observation): nat { item.permissionLeaks }

  function CriticalFindings(item: Observation): nat { item.critical }

  function Retries(item: Observation): nat { item.retries }

  function Duplicates(item: Observation): nat { item.duplicates }

  function Orphans(item: Observation): nat { item.orphans }

  function VersionLeaked(item: Observation): real { Unit(item.versionLeaks != 0) }

  function ProfileLeaked(item: Observation): real { Unit(item.profileLeaks != 0) }

  function ProjectLeaked(item: Observation): real { Unit(item.projectLeaks != 0) }

  function WorkspaceLeaked(item: Observation): real { Unit(item.workspaceLeaks != 0) }

  function IngestionMs(item: Observation): real { item.ingestionMs }

  function RetrievalMs(item: Observation): real { item.retrievalMs }

  function EndToEndMs(item: Observation): real { item.endToEndMs }

  function QueueWaitMs(item: Observation): real { item.queueWaitMs }

  function HasStage(stage: string): Observation -> bool
  {
    (item: Observation) => stage in item.stageMs
  }

  function HasCode(code: Code): Observation -> bool
  {
    (item: Observation) => item.errorCode == Some(code)
  }

  function Stages(items: seq<Observation>): set<string>
  {
    set item, stage | item in items && stage in item.stageMs :: stage
  }

  function StageOf(stage: string): Observation -> real
  {
    (item: Observation) => if stage in item.stageMs then item.stageMs[stage] else 0.0
  }

  function TimesOf(stage: string, items: seq<Observation>): seq<real>
  {
    Applied(StageOf(stage), Keep(HasStage(stage), items))
  }

  function Codes(items: seq<Observation>): set<Code>
  {
    set item | item in items && item.errorCode.Some? :: item.errorCode.value
  }

  function CodeCount(code: Code, items: seq<Observation>): nat
  {
    |Keep(HasCode(code), items)|
  }

  function ErrorCounts(items: seq<Observation>): map<Code, int>
  {
    map code | code in Codes(items) :: CodeCount(code, items)
  }

  function RetrievedCount(item: Observation): nat
  {
    |item.retrieved|
  }

  function DuplicateRate(items: seq<Observation>): real
  {
    TotalOf(Duplicates, items) as real
    / Max(1, TotalOf(RetrievedCount, items)) as real
  }

  /** The metrics once the means over the cases are known. */
  function MetricsOfLists(rates: map<Rate, real>, exact: real, fuzzy: real, invalid: nat, fabricated: nat,
                          firstRank: real, items: seq<Observation>): Metrics
  {
    Metrics(
      rates, exact, fuzzy,
      TotalOf(PermissionLeaks, items), invalid, fabricated,
      TotalOf(CriticalFindings, items),
      MeanOf(VersionLeaked, items),
      MeanOf(ProfileLeaked, items),
      MeanOf(ProjectLeaked, items),
      MeanOf(WorkspaceLeaked, items),
      DuplicateRate(items),
      TotalOf(Retries, items),
      TotalOf(Duplicates, items),
      TotalOf(Orphans, items),
      firstRank,
      PercentilesOf(Applied(IngestionMs, items)),
      PercentilesOf(Applied(RetrievalMs, items)),
      PercentilesOf(Applied(EndToEndMs, items)),
      PercentilesOf(Applied(QueueWaitMs, items)),
      map stage | stage in Stages(items) :: PercentilesOf(TimesOf(stage, items)),
      ErrorCounts(items))
  }

  /** The metrics of the rows of a run and of the list of its observations. */
  function MetricsOf(lib: Library, rows: seq<Row>, items: seq<Observation>): Metrics
  {
    MetricsOfLists(
      map rate | rate in RateNames() :: MeanOf(RateOf(lib, rate), rows),
      MeanOf(SourceSuccess, Keep(IsExact, rows)),
      MeanOf(SourceSuccess, Keep(IsFuzzy, rows)),
      TotalOf(InvalidCitations, rows),
      TotalOf(FabricatedIn, rows),
      MeanOf(FirstRank, Keep(HasRank, rows)),
      items)
  }
}
