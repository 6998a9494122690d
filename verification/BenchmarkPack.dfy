/** The private benchmark pack: execution cases first, then a frozen request ledger, then labels. */
module BenchmarkPack {
  import opened Outcomes
  import opened CaptureFrames
  import opened Sorting
  import opened StringSets

  const MAX_RECORDS := 10_000
  const MAX_QUERY_TYPES := 100
  const MAX_DOCUMENTS_PER_CASE := 128
  const MAX_FILE_BYTES := 8_000_000
  const MAX_STRING_BYTES := 8_192
  const MAX_LABEL_ITEMS := 256

  datatype Document = Document(id: string, filename: string, revises: Option<string>)

  datatype Case = Case(id: string, queryType: string, documents: seq<Document>)

  /** `measurable` says that every source constraint uses only the fields the runner can score. */
  datatype Label = Label(id: string, answerable: bool, facts: seq<string>, sources: seq<string>,
                         forbidden: seq<string>, adversarial: bool, measurable: bool)

  /** What the two pack members hold when they are read. */
  datatype Disk = Disk(cases: seq<Case>, golden: Bytes)

  // ---- Names ----

  predicate NameStart(c: char)
  {
    'a' <= c <= 'z' || '0' <= c <= '9'
  }

  /** The pattern [a-z0-9][a-z0-9_-]{0,63} of query types and stage names. */
  predicate ShortName(s: string)
  {
    1 <= |s| <= 64 && NameStart(s[0]) && forall i :: 1 <= i < |s| ==> NameStart(s[i]) || s[i] in {'_', '-'}
  }

  // ---- Execution cases ----

  function DocumentIds(documents: seq<Document>): (ids: seq<string>)
    ensures |ids| == |documents| && forall i :: 0 <= i < |ids| ==> ids[i] == documents[i].id
  {
    seq(|documents|, i requires 0 <= i < |documents| => documents[i].id)
  }

  function Filenames(documents: seq<Document>): (names: seq<string>)
    ensures |names| == |documents| && forall i :: 0 <= i < |names| ==> names[i] == documents[i].filename
  {
    seq(|documents|, i requires 0 <= i < |documents| => documents[i].filename)
  }

  /** Identifiers and file names are unique and a revision names an earlier document of the list. */
  ghost predicate DocumentsOk(documents: seq<Document>)
  {
    && 1 <= |documents| <= MAX_DOCUMENTS_PER_CASE
    && NoRepeats(DocumentIds(documents))
    && NoRepeats(Filenames(documents))
    && (forall k :: 0 <= k < |documents| && documents[k].revises.Some? ==>
          documents[k].revises.value in DocumentIds(documents[..k]))
  }

  method AdmitDocuments(documents: seq<Document>) returns (ok: bool)
    ensures ok <==> DocumentsOk(documents)
  {
    if documents == [] || |documents| > MAX_DOCUMENTS_PER_CASE {
      return false;
    }
    var ids: set<string>, names: set<string> := {}, {};
    for k := 0 to |documents|
      invariant ids == set i | 0 <= i < k :: documents[i].id
      invariant names == set i | 0 <= i < k :: documents[i].filename
      invariant forall i, j :: 0 <= i < j < k ==> documents[i].id != documents[j].id
      invariant forall i, j :: 0 <= i < j < k ==> documents[i].filename != documents[j].filename
      invariant forall i :: 0 <= i < k && documents[i].revises.Some? ==>
                  documents[i].revises.value in DocumentIds(documents[..i])
    {
      var document := documents[k];
      if document.id in ids {
        ghost var i :| 0 <= i < k && documents[i].id == documents[k].id;
        assert DocumentIds(documents)[i] == DocumentIds(documents)[k];
        return false;
      }
      if document.filename in names {
        ghost var i :| 0 <= i < k && documents[i].filename == documents[k].filename;
        assert Filenames(documents)[i] == Filenames(documents)[k];
        return false;
      }
      if document.revises.Some? {
        IdsOfPrefix(documents, k);
        if document.revises.value !in ids {
          return false;
        }
      }
      ids, names := ids + {document.id}, names + {document.filename};
    }
    return true;
  }

  lemma IdsOfPrefix(documents: seq<Document>, k: nat)
    requires k <= |documents|
    ensures forall id :: id in DocumentIds(documents[..k]) <==> id in (set i | 0 <= i < k :: documents[i].id)
  {
    var prefix := DocumentIds(documents[..k]);
    forall id ensures id in prefix <==> id in (set i | 0 <= i < k :: documents[i].id) {
      if id in prefix {
        var i :| 0 <= i < |prefix| && prefix[i] == id;
        assert documents[i].id == id;
      }
      if i :| 0 <= i < k && documents[i].id == id {
        assert prefix[i] == id;
      }
    }
  }

  /** The position of the document that document `k` revises. */
  ghost function Revised(documents: seq<Document>, k: nat): (i: nat)
    requires DocumentsOk(documents) && k < |documents| && documents[k].revises.Some?
    ensures i < k && documents[i].id == documents[k].revises.value
  {
    var earlier := DocumentIds(documents[..k]);
    var i :| 0 <= i < |earlier| && earlier[i] == documents[k].revises.value;
    i
  }

  /** The chain of revisions from document `k` back to the one it started from. */
  ghost function History(documents: seq<Document>, k: nat): (chain: seq<nat>)
    requires DocumentsOk(documents) && k < |documents|
    ensures chain != [] && chain[0] == k
    ensures forall n :: 0 <= n < |chain| ==> chain[n] < |documents|
    decreases k
  {
    if documents[k].revises.None? then [k] else [k] + History(documents, Revised(documents, k))
  }

  /** Admitted revision links form a forest: following them never comes back, each link is the only
      one out of its document, and every chain ends at a document that revises nothing. */
  lemma {:induction false} RevisionsFormForest(documents: seq<Document>, k: nat)
    requires DocumentsOk(documents) && k < |documents|
    ensures var chain := History(documents, k);
      && (forall m, n :: 0 <= m < n < |chain| ==> chain[n] < chain[m])
      && documents[chain[|chain| - 1]].revises.None?
      && (forall n :: 0 <= n < |chain| - 1 ==>
            documents[chain[n]].revises == Some(documents[chain[n + 1]].id))
    decreases k
  {
    if documents[k].revises.Some? {
      RevisionsFormForest(documents, Revised(documents, k));
    }
  }

  function CaseIds(cases: seq<Case>): (ids: seq<string>)
    ensures |ids| == |cases| && forall i :: 0 <= i < |ids| ==> ids[i] == cases[i].id
  {
    seq(|cases|, i requires 0 <= i < |cases| => cases[i].id)
  }

  ghost predicate CasesOk(cases: seq<Case>)
  {
    && 1 <= |cases| <= MAX_RECORDS
    && NoRepeats(CaseIds(cases))
    && (forall k :: 0 <= k < |cases| ==> ShortName(cases[k].queryType) && DocumentsOk(cases[k].documents))
    && |QueryTypes(cases)| <= MAX_QUERY_TYPES
  }

  function QueryTypes(cases: seq<Case>): (types: set<string>)
  {
    set k | 0 <= k < |cases| :: cases[k].queryType
  }

  lemma NoCasesNoTypes(cases: seq<Case>)
    ensures QueryTypes(cases[..0]) == {}
  {
  }

  /** One more case is one more type at most. */
  lemma QueryTypesOfPrefix(cases: seq<Case>, k: nat)
    requires k < |cases|
    ensures QueryTypes(cases[..k + 1]) == QueryTypes(cases[..k]) + {cases[k].queryType}
    ensures |QueryTypes(cases[..k + 1])| <= |QueryTypes(cases)|
  {
    assert QueryTypes(cases[..k + 1]) <= QueryTypes(cases);
    SubsetSize(QueryTypes(cases[..k + 1]), QueryTypes(cases));
    assert cases[..k + 1][k] == cases[k];
  }

  method AdmitCases(cases: seq<Case>) returns (ok: bool)
    ensures ok <==> CasesOk(cases)
  {
    hide ShortName, DocumentsOk, QueryTypes;
    if cases == [] || |cases| > MAX_RECORDS {
      return false;
    }
    var ids: set<string>, types: set<string> := {}, {};
    assert QueryTypes(cases[..0]) == {} by { NoCasesNoTypes(cases); }
    for k := 0 to |cases|
      invariant forall i :: 0 <= i < k ==> cases[i].id in ids
      invariant forall id :: id in ids ==> exists i :: 0 <= i < k && cases[i].id == id
      invariant types == QueryTypes(cases[..k])
      invariant |types| <= MAX_QUERY_TYPES
      invariant forall i, j :: 0 <= i < j < k ==> cases[i].id != cases[j].id
      invariant forall i :: 0 <= i < k ==> ShortName(cases[i].queryType) && DocumentsOk(cases[i].documents)
    {
      if cases[k].id in ids {
        ghost var i :| 0 <= i < k && cases[i].id == cases[k].id;
        assert CaseIds(cases)[i] == CaseIds(cases)[k];
        return false;
      }
      if !ShortName(cases[k].queryType) {
        return false;
      }
      ids, types := ids + {cases[k].id}, types + {cases[k].queryType};
      QueryTypesOfPrefix(cases, k);
      if |types| > MAX_QUERY_TYPES {
        return false;
      }
      var documents := AdmitDocuments(cases[k].documents);
      if !documents {
        return false;
      }
    }
    assert cases[..|cases|] == cases;
    return true;
  }

  // ---- The request ledger ----

  predicate IdLeq(a: LedgerRecord, b: LedgerRecord)
  {
    a.id == b.id || StringLess(a.id, b.id)
  }

  lemma IdOrder()
    ensures TotalPreorder(IdLeq)
  {
    forall a: LedgerRecord, b: LedgerRecord ensures IdLeq(a, b) || IdLeq(b, a) {
      StringLessTotal(a.id, b.id);
    }
    forall a: LedgerRecord, b: LedgerRecord, c: LedgerRecord | IdLeq(a, b) && IdLeq(b, c) ensures IdLeq(a, c) {
      if StringLess(a.id, b.id) && StringLess(b.id, c.id) {
        StringLessTransitive(a.id, b.id, c.id);
      }
    }
  }

  ghost predicate DistinctRecords(records: seq<LedgerRecord>)
  {
    forall i, j :: 0 <= i < j < |records| ==> records[i].id != records[j].id
  }

  /** What freezing digests: the records in the order of their case identifiers. */
  function LedgerDigestOf(records: seq<LedgerRecord>): Digest
  {
    RequestLedgerDigest(Sort(IdLeq, records))
  }

  /** Records naming each case once are told apart by their order. */
  lemma DistinctRecordsDistinguished(records: seq<LedgerRecord>)
    requires DistinctRecords(records)
    ensures Distinguishes(IdLeq, records)
  {
    forall a, b | a in records && b in records && IdLeq(a, b) && IdLeq(b, a) ensures a == b {
      StringLessTotal(a.id, b.id);
      var i :| 0 <= i < |records| && records[i] == a;
      var j :| 0 <= j < |records| && records[j] == b;
      assert i == j;
    }
  }

  /** The frozen digest is the same for every order of the records, and of no other records. */
  lemma FreezingIsCanonical(a: seq<LedgerRecord>, b: seq<LedgerRecord>)
    requires DistinctRecords(a)
    ensures LedgerDigestOf(a) == LedgerDigestOf(b) <==> multiset(a) == multiset(b)
  {
    IdOrder();
    DistinctRecordsDistinguished(a);
    if multiset(a) == multiset(b) {
      SortCanonical(IdLeq, a, b);
    }
  }

  ghost predicate RecordsCover(records: seq<LedgerRecord>, cases: seq<Case>)
  {
    && |records| <= MAX_RECORDS
    && DistinctRecords(records)
    && Elements(RecordIds(records)) == Elements(CaseIds(cases))
  }

  ghost predicate NamedOnce(records: seq<LedgerRecord>, id: string)
  {
    exists i :: 0 <= i < |records| && NamedOnlyAt(records, id, i)
  }

  ghost predicate NamedOnlyAt(records: seq<LedgerRecord>, id: string, i: nat)
    requires i < |records|
  {
    records[i].id == id && forall j :: 0 <= j < |records| && j != i ==> records[j].id != id
  }

  function RecordIds(records: seq<LedgerRecord>): (ids: seq<string>)
    ensures |ids| == |records| && forall i :: 0 <= i < |ids| ==> ids[i] == records[i].id
  {
    seq(|records|, i requires 0 <= i < |records| => records[i].id)
  }

  /** Covering records name exactly the cases: as many records as cases, and each case named once. */
  lemma CoveringIsBijective(records: seq<LedgerRecord>, cases: seq<Case>)
    requires RecordsCover(records, cases) && NoRepeats(CaseIds(cases))
    ensures |records| == |cases|
    ensures forall k :: 0 <= k < |cases| ==> NamedOnce(records, cases[k].id)
  {
    var ids, names := CaseIds(cases), RecordIds(records);
    DistinctSize(names);
    DistinctSize(ids);
    forall k | 0 <= k < |cases| ensures NamedOnce(records, cases[k].id) {
      assert ids[k] in Elements(ids);
      assert ids[k] in Elements(names);
      var i :| 0 <= i < |names| && names[i] == ids[k];
      assert NamedOnlyAt(records, cases[k].id, i);
    }
  }

  /** The loop over the records that freezing runs before it digests them. */
  method CheckRecords(records: seq<LedgerRecord>, cases: seq<Case>) returns (ok: bool)
    ensures ok <==> RecordsCover(records, cases)
  {
    if |records| > MAX_RECORDS {
      return false;
    }
    var seen: set<string> := {};
    for i := 0 to |records|
      invariant seen == set k | 0 <= k < i :: records[k].id
      invariant forall k, j :: 0 <= k < j < i ==> records[k].id != records[j].id
    {
      if records[i].id in seen {
        return false;
      }
      seen := seen + {records[i].id};
    }
    var names := RecordIds(records);
    assert seen == Elements(names) by {
      forall n | n in names ensures n in seen {
        var i :| 0 <= i < |names| && names[i] == n;
        assert records[i].id == n;
      }
      forall i | 0 <= i < |records| ensures records[i].id in names { assert names[i] == records[i].id; }
    }
    return seen == Elements(CaseIds(cases));
  }

  // ---- Labels ----

  ghost predicate LabelRecordsOk(labels: seq<Label>)
  {
    && 1 <= |labels| <= MAX_RECORDS
    && (forall i, j :: 0 <= i < j < |labels| ==> labels[i].id != labels[j].id)
    && (forall i :: 0 <= i < |labels| ==> LabelOk(labels[i]))
  }

  /** A bounded list of non-empty strings of at most 8192 bytes. */
  predicate StringListOk(items: seq<string>, maximum: nat)
  {
    |items| <= maximum && forall i :: 0 <= i < |items| ==> 1 <= Utf8Length(items[i]) <= MAX_STRING_BYTES
  }

  predicate Unrepeated(items: seq<string>)
  {
    forall i, j :: 0 <= i < j < |items| ==> items[i] != items[j]
  }

  predicate LabelOk(gold: Label)
  {
    && StringListOk(gold.facts, MAX_LABEL_ITEMS) && Unrepeated(gold.facts)
    && StringListOk(gold.sources, MAX_LABEL_ITEMS)
    && StringListOk(gold.forbidden, MAX_LABEL_ITEMS) && Unrepeated(gold.forbidden)
    && (if gold.answerable then gold.facts != [] && gold.sources != [] else gold.facts == [] && gold.sources == [])
  }

  function KnownDocuments(cases: seq<Case>, id: string): (known: set<string>)
  {
    set k, d | 0 <= k < |cases| && cases[k].id == id && d in DocumentIds(cases[k].documents) :: d
  }

  predicate SourcesBound(cases: seq<Case>, gold: Label)
  {
    var known := KnownDocuments(cases, gold.id);
    && (forall s :: s in gold.sources ==> s in known)
    && (forall s :: s in gold.forbidden ==> s in known)
    && (forall s :: s in gold.sources ==> s !in gold.forbidden)
  }

  /** One label for each case, its sources and forbidden sources among the case's own documents. */
  ghost predicate LabelsBound(cases: seq<Case>, labels: seq<Label>)
  {
    && LabelRecordsOk(labels)
    && Elements(LabelIds(labels)) == Elements(CaseIds(cases))
    && (forall i :: 0 <= i < |labels| ==> SourcesBound(cases, labels[i]))
  }

  method AdmitLabels(cases: seq<Case>, labels: seq<Label>) returns (ok: bool)
    ensures ok <==> LabelsBound(cases, labels)
  {
    if labels == [] || |labels| > MAX_RECORDS {
      return false;
    }
    var ids: set<string> := {};
    for i := 0 to |labels|
      invariant ids == set k | 0 <= k < i :: labels[k].id
      invariant forall k, j :: 0 <= k < j < i ==> labels[k].id != labels[j].id
      invariant forall k :: 0 <= k < i ==> LabelOk(labels[k])
    {
      if labels[i].id in ids || !LabelOk(labels[i]) {
        return false;
      }
      ids := ids + {labels[i].id};
    }
    ghost var names := LabelIds(labels);
    assert ids == Elements(names) by {
      forall n | n in names ensures n in ids {
        var i :| 0 <= i < |names| && names[i] == n;
        assert labels[i].id == n;
      }
      forall i | 0 <= i < |labels| ensures labels[i].id in names { assert names[i] == labels[i].id; }
    }
    if ids != Elements(CaseIds(cases)) {
      return false;
    }
    for i := 0 to |labels|
      invariant forall k :: 0 <= k < i ==> SourcesBound(cases, labels[k])
    {
      if !SourcesBound(cases, labels[i]) {
        return false;
      }
    }
    return true;
  }

  // ---- The pack ----

  /** The one-way gate: cases, then a frozen ledger, then labels.  `disk` is what a method finds when
      it reads the pack's members again. */
  class LocalBenchmarkPack {
    const executionOnly: bool
    const admitted: Disk
    const expectedGolden: Option<Digest>
    const expectedBundle: Option<Disk>
    var executions: Option<seq<Case>>
    var ledgerFrozen: bool
    var requestLedger: Option<Digest>

    ghost predicate Valid()
      reads this
    {
      && (executions.Some? ==> executions.value == admitted.cases && CasesOk(admitted.cases))
      && (ledgerFrozen <==> requestLedger.Some?)
    }

    predicate Unchanged(disk: Disk)
    {
      if executionOnly then disk.cases == admitted.cases else disk == admitted
    }

    constructor (admitted: Disk, executionOnly: bool, expectedGolden: Option<Digest>, expectedBundle: Option<Disk>)
      ensures Valid() && !ledgerFrozen && executions.None?
      ensures this.admitted == admitted && this.executionOnly == executionOnly
      ensures this.expectedGolden == expectedGolden && this.expectedBundle == expectedBundle
    {
      this.admitted, this.executionOnly := admitted, executionOnly;
      this.expectedGolden, this.expectedBundle := expectedGolden, expectedBundle;
      executions, ledgerFrozen, requestLedger := None, false, None;
    }

    /** The cases, parsed on first use from a member that still is what was admitted. */
    method ExecutionProjection(disk: Disk) returns (cases: Result<seq<Case>>)
      requires Valid()
      modifies this`executions
      ensures Valid()
      ensures cases.Ok? <==>
        || old(executions).Some?
        || (disk.cases == admitted.cases && (executionOnly || disk.golden == admitted.golden) && CasesOk(disk.cases))
      ensures cases.Ok? ==> cases.value == admitted.cases && executions == Some(admitted.cases)
      ensures cases.Err? ==> executions == old(executions)
    {
      if executions.None? {
        if !Unchanged(disk) {
          return Err("benchmark execution changed after admission");
        }
        var ok := AdmitCases(disk.cases);
        if !ok {
          return Err("execution cases do not match the strict contract");
        }
        executions := Some(disk.cases);
      }
      return Ok(executions.value);
    }

    /** Freezes the ledger once, on records that name every case exactly once. */
    method FreezeRequestLedger(records: seq<LedgerRecord>, disk: Disk) returns (digest: Result<Digest>)
      requires Valid()
      modifies this
      ensures Valid()
      ensures digest.Ok? <==>
        && !old(ledgerFrozen) && RecordsCover(records, admitted.cases)
        && disk.cases == admitted.cases && (executionOnly || disk.golden == admitted.golden)
        && (old(executions).Some? || CasesOk(disk.cases))
      ensures digest.Ok? ==> ledgerFrozen && requestLedger == Some(digest.value)
                             && digest.value == LedgerDigestOf(records)
      ensures digest.Err? ==> ledgerFrozen == old(ledgerFrozen) && requestLedger == old(requestLedger)
    {
      if ledgerFrozen {
        return Err("request ledger is already frozen");
      }
      var cases := ExecutionProjection(disk);
      if cases.Err? || !Unchanged(disk) {
        return Err("benchmark execution changed after admission");
      }
      var covered := CheckRecords(records, cases.value);
      if !covered {
        return Err("request ledger record IDs must exactly match execution record IDs");
      }
      requestLedger := Some(LedgerDigestOf(records));
      ledgerFrozen := true;
      return Ok(requestLedger.value);
    }

    /** Parses released golden bytes; `parsed` is what their JSON holds, if it is well formed. */
    method LoadLabelsPayload(payload: Bytes, parsed: Option<seq<Label>>, disk: Disk) returns (labels: Result<seq<Label>>)
      requires Valid()
      modifies this`executions
      ensures Valid()
      ensures labels.Ok? <==>
        && ledgerFrozen && 0 < |payload| <= 8_000_000
        && (old(executions).Some? || CasesOk(disk.cases))
        && disk.cases == admitted.cases && (executionOnly || disk.golden == admitted.golden)
        && (expectedGolden.Some? ==> GoldenDigest(payload) == expectedGolden.value)
        && (executionOnly && expectedBundle.Some? ==> Disk(admitted.cases, payload) == expectedBundle.value)
        && parsed.Some? && LabelsBound(admitted.cases, parsed.value)
      ensures labels.Ok? ==> labels.value == parsed.value
    {
      if !ledgerFrozen {
        return Err("request ledger must be frozen before golden labels are loaded");
      }
      if payload == [] || |payload| > MAX_FILE_BYTES {
        return Err("golden label payload is invalid or oversized");
      }
      var cases := ExecutionProjection(disk);
      if cases.Err? || !Unchanged(disk) {
        return Err("benchmark execution changed after admission");
      }
      if expectedGolden.Some? && GoldenDigest(payload) != expectedGolden.value {
        return Err("golden label payload hash mismatch");
      }
      if executionOnly && expectedBundle.Some? && Disk(admitted.cases, payload) != expectedBundle.value {
        return Err("benchmark pack bundle hash mismatch");
      }
      if parsed.None? {
        return Err("golden labels are invalid");
      }
      var ok := AdmitLabels(cases.value, parsed.value);
      if !ok {
        return Err("golden labels do not match the execution cases");
      }
      return Ok(parsed.value);
    }
  }

  function LabelIds(labels: seq<Label>): (ids: seq<string>)
    ensures |ids| == |labels| && forall i :: 0 <= i < |ids| ==> ids[i] == labels[i].id
  {
    seq(|labels|, i requires 0 <= i < |labels| => labels[i].id)
  }

  /** Label `i` belongs to the case and speaks only of the case's documents. */
  ghost predicate LabelFor(c: Case, gold: Label)
  {
    && gold.id == c.id
    && (forall s :: s in gold.sources ==> s in DocumentIds(c.documents) && s !in gold.forbidden)
    && (forall s :: s in gold.forbidden ==> s in DocumentIds(c.documents))
    && (gold.answerable <==> gold.sources != [])
  }

  /** Labels that pass are in bijection with the cases, expect only documents of their own case, and
      never expect what they forbid. */
  lemma LabelsMatchCases(cases: seq<Case>, labels: seq<Label>)
    requires CasesOk(cases) && LabelsBound(cases, labels)
    ensures |labels| == |cases| && NoRepeats(LabelIds(labels))
    ensures forall k :: 0 <= k < |cases| ==> exists gold :: gold in labels && LabelFor(cases[k], gold)
  {
    var ids, names := CaseIds(cases), LabelIds(labels);
    DistinctSize(names);
    DistinctSize(ids);
    forall k | 0 <= k < |cases| ensures exists gold :: gold in labels && LabelFor(cases[k], gold) {
      assert ids[k] in Elements(ids);
      assert ids[k] in Elements(names);
      var i :| 0 <= i < |names| && names[i] == ids[k];
      assert SourcesBound(cases, labels[i]) && LabelOk(labels[i]);
      OwnDocuments(cases, k);
      assert labels[i] in labels && LabelFor(cases[k], labels[i]);
    }
  }

  lemma OwnDocuments(cases: seq<Case>, k: nat)
    requires k < |cases| && NoRepeats(CaseIds(cases))
    ensures forall d :: d in KnownDocuments(cases, cases[k].id) <==> d in DocumentIds(cases[k].documents)
  {
    var ids := CaseIds(cases);
    forall d | d in KnownDocuments(cases, cases[k].id) ensures d in DocumentIds(cases[k].documents) {
      var n :| 0 <= n < |cases| && cases[n].id == cases[k].id && d in DocumentIds(cases[n].documents);
      assert ids[n] == ids[k];
    }
  }
}
