/** What the benchmark pack admits and freezes, said of the entries of its lists, with every limit written out. */
module PackLaws {
  import opened Outcomes
  import opened CaptureFrames
  import opened Sorting
  import opened StringSets
  import opened BenchmarkPack

  // ---- Execution cases ----

  ghost predicate StableName(s: string)
  {
    && 0 < |s| < 65
    && forall i :: 0 <= i < |s| ==>
         'a' <= s[i] <= 'z' || '0' <= s[i] <= '9' || (i > 0 && (s[i] == '_' || s[i] == '-'))
  }

  ghost predicate DocumentsFit(documents: seq<Document>)
  {
    && 0 < |documents| <= 128
    && (forall i, j :: 0 <= i < j < |documents| ==>
          documents[i].id != documents[j].id && documents[i].filename != documents[j].filename)
    && forall k :: 0 <= k < |documents| && documents[k].revises.Some? ==>
         exists i :: 0 <= i < k && documents[i].id == documents[k].revises.value
  }

  /** Between 1 and 128 documents of distinct identifiers and file names, each revision of an earlier one. */
  lemma DocumentsExactly(documents: seq<Document>)
    ensures DocumentsOk(documents) <==> DocumentsFit(documents)
  {
    var ids, names := DocumentIds(documents), Filenames(documents);
    assert NoRepeats(ids) <==> forall i, j :: 0 <= i < j < |documents| ==> ids[i] != ids[j];
    assert NoRepeats(names) <==> forall i, j :: 0 <= i < j < |documents| ==> names[i] != names[j];
    forall k | 0 <= k < |documents| && documents[k].revises.Some?
      ensures documents[k].revises.value in DocumentIds(documents[..k])
              <==> exists i :: 0 <= i < k && documents[i].id == documents[k].revises.value
    {
      EarlierId(documents, k, documents[k].revises.value);
    }
  }

  lemma EarlierId(documents: seq<Document>, k: nat, id: string)
    requires k <= |documents|
    ensures id in DocumentIds(documents[..k]) <==> exists i :: 0 <= i < k && documents[i].id == id
  {
    var earlier := DocumentIds(documents[..k]);
    assert |earlier| == k && forall i :: 0 <= i < k ==> earlier[i] == documents[i].id;
    if i :| 0 <= i < k && documents[i].id == id {
      assert earlier[i] == id;
    }
  }

  /** Between 1 and 10,000 cases of distinct identifiers and at most 100 query types, each type 1 to 64 of the
      characters a-z, 0-9, _ and -, the first a letter or a digit. */
  lemma CasesExactly(cases: seq<Case>)
    ensures CasesOk(cases) <==>
              && 0 < |cases| <= 10_000
              && (forall i, j :: 0 <= i < j < |cases| ==> cases[i].id != cases[j].id)
              && (forall k :: 0 <= k < |cases| ==> StableName(cases[k].queryType) && DocumentsFit(cases[k].documents))
              && |set c | c in cases :: c.queryType| <= 100
  {
    hide DocumentsOk, DocumentsFit;
    var ids := CaseIds(cases);
    assert NoRepeats(ids) <==> forall i, j :: 0 <= i < j < |cases| ==> ids[i] != ids[j];
    assert QueryTypes(cases) == set c | c in cases :: c.queryType;
    forall k | 0 <= k < |cases| ensures DocumentsOk(cases[k].documents) <==> DocumentsFit(cases[k].documents) {
      DocumentsExactly(cases[k].documents);
    }
    forall k | 0 <= k < |cases| ensures ShortName(cases[k].queryType) <==> StableName(cases[k].queryType) {
      NameMeans(cases[k].queryType);
    }
  }

  lemma NameMeans(s: string)
    ensures ShortName(s) <==> StableName(s)
  {
  }

  // ---- The request ledger ----

  /** Every name of the first list is one of the second. */
  ghost predicate Covers(names: seq<string>, others: seq<string>)
  {
    forall i :: 0 <= i < |names| ==> Occurs(names[i], others)
  }

  ghost predicate Occurs(name: string, names: seq<string>)
  {
    exists k :: 0 <= k < |names| && names[k] == name
  }

  ghost predicate IsCase(cases: seq<Case>, name: string)
  {
    exists k :: 0 <= k < |cases| && cases[k].id == name
  }

  lemma OccursMeansCase(cases: seq<Case>, name: string)
    ensures Occurs(name, CaseIds(cases)) <==> IsCase(cases, name)
  {
    var ids := CaseIds(cases);
    if k :| 0 <= k < |ids| && ids[k] == name {
      assert cases[k].id == name;
    }
    if k :| 0 <= k < |cases| && cases[k].id == name {
      assert ids[k] == name;
    }
  }

  lemma SameElements(a: seq<string>, b: seq<string>)
    ensures Elements(a) == Elements(b) <==> Covers(a, b) && Covers(b, a)
  {
    if Elements(a) == Elements(b) {
      forall i | 0 <= i < |a| ensures Occurs(a[i], b) { assert a[i] in Elements(a); }
      forall k | 0 <= k < |b| ensures Occurs(b[k], a) { assert b[k] in Elements(b); }
    }
    if Covers(a, b) && Covers(b, a) {
      forall x | x in a ensures x in b {
        var i :| 0 <= i < |a| && a[i] == x;
        assert Occurs(a[i], b);
      }
      forall x | x in b ensures x in a {
        var k :| 0 <= k < |b| && b[k] == x;
        assert Occurs(b[k], a);
      }
    }
  }

  ghost predicate IsRecorded(records: seq<LedgerRecord>, name: string)
  {
    exists i :: 0 <= i < |records| && records[i].id == name
  }

  lemma OccursMeansRecorded(records: seq<LedgerRecord>, name: string)
    ensures Occurs(name, RecordIds(records)) <==> IsRecorded(records, name)
  {
    var named := RecordIds(records);
    if i :| 0 <= i < |named| && named[i] == name {
      assert records[i].id == name;
    }
    if i :| 0 <= i < |records| && records[i].id == name {
      assert named[i] == name;
    }
  }

  /** The records that can be frozen: at most 10,000 of them, no case twice, every case, and nothing but cases. */
  lemma RecordsExactly(records: seq<LedgerRecord>, cases: seq<Case>)
    ensures RecordsCover(records, cases) <==>
              && |records| <= 10_000
              && (forall i, j :: 0 <= i < j < |records| ==> records[i].id != records[j].id)
              && (forall k :: 0 <= k < |cases| ==> IsRecorded(records, cases[k].id))
              && (forall i :: 0 <= i < |records| ==> IsCase(cases, records[i].id))
  {
    var named, ids := RecordIds(records), CaseIds(cases);
    SameElements(named, ids);
    hide Elements, Occurs, IsCase, IsRecorded;
    forall k | 0 <= k < |cases| ensures Occurs(ids[k], named) <==> IsRecorded(records, cases[k].id) {
      OccursMeansRecorded(records, ids[k]);
    }
    forall i | 0 <= i < |records| ensures Occurs(named[i], ids) <==> IsCase(cases, records[i].id) {
      OccursMeansCase(cases, named[i]);
    }
  }

  /** What freezing digests: the same records, by strictly increasing identifiers. */
  lemma FrozenInOrder(records: seq<LedgerRecord>) returns (ordered: seq<LedgerRecord>)
    requires forall i, j :: 0 <= i < j < |records| ==> records[i].id != records[j].id
    ensures LedgerDigestOf(records) == RequestLedgerDigest(ordered)
    ensures |ordered| == |records| && forall r :: r in ordered <==> r in records
    ensures forall i, j :: 0 <= i < j < |ordered| ==> StringLess(ordered[i].id, ordered[j].id)
  {
    ordered := Sort(IdLeq, records);
    IdOrder();
    SortSorted(IdLeq, records);
    MembersOfSort(IdLeq, records);
    assert NoRepeats(records);
    SortNoRepeats(IdLeq, records);
    forall i, j | 0 <= i < j < |ordered| ensures StringLess(ordered[i].id, ordered[j].id) {
      assert IdLeq(ordered[i], ordered[j]) && ordered[i] != ordered[j];
      assert ordered[i] in records && ordered[j] in records;
      var k :| 0 <= k < |records| && records[k] == ordered[i];
      var l :| 0 <= l < |records| && records[l] == ordered[j];
      assert k < l || l < k;
    }
  }

  // ---- Golden labels ----

  ghost predicate Strings(items: seq<string>)
  {
    |items| <= 256 && forall i :: 0 <= i < |items| ==> 0 < Utf8Length(items[i]) <= 8_192
  }

  ghost predicate LabelFits(gold: Label)
  {
    && Strings(gold.facts) && Strings(gold.sources) && Strings(gold.forbidden)
    && (forall i, j :: 0 <= i < j < |gold.facts| ==> gold.facts[i] != gold.facts[j])
    && (forall i, j :: 0 <= i < j < |gold.forbidden| ==> gold.forbidden[i] != gold.forbidden[j])
    && (gold.answerable ==> gold.facts != [] && gold.sources != [])
    && (!gold.answerable ==> gold.facts == [] && gold.sources == [])
  }

  /** The sources a label expects and forbids are documents of cases with its identifier, and none is both. */
  ghost predicate SourcesFit(cases: seq<Case>, gold: Label)
  {
    && (forall s :: s in gold.sources || s in gold.forbidden ==>
          exists k, d :: 0 <= k < |cases| && cases[k].id == gold.id
                         && 0 <= d < |cases[k].documents| && cases[k].documents[d].id == s)
    && forall s :: s in gold.sources ==> s !in gold.forbidden
  }

  ghost predicate IsLabelled(labels: seq<Label>, name: string)
  {
    exists i :: 0 <= i < |labels| && labels[i].id == name
  }

  /** Exactly the labels that are released: between 1 and 10,000 well-formed ones, one for each case and no other,
      bound to the documents of its case. */
  lemma LabelsExactly(cases: seq<Case>, labels: seq<Label>)
    ensures LabelsBound(cases, labels) <==>
              && 0 < |labels| <= 10_000
              && (forall i, j :: 0 <= i < j < |labels| ==> labels[i].id != labels[j].id)
              && (forall i :: 0 <= i < |labels| ==> LabelFits(labels[i]))
              && (forall i :: 0 <= i < |labels| ==> SourcesFit(cases, labels[i]))
              && (forall k :: 0 <= k < |cases| ==> IsLabelled(labels, cases[k].id))
              && (forall i :: 0 <= i < |labels| ==> IsCase(cases, labels[i].id))
  {
    LabelListExactly(labels);
    LabelIdsExactly(cases, labels);
    hide Elements, LabelRecordsOk, LabelFits, SourcesBound, SourcesFit, IsLabelled, IsCase;
    forall i | 0 <= i < |labels| ensures SourcesBound(cases, labels[i]) <==> SourcesFit(cases, labels[i]) {
      SourcesMean(cases, labels[i]);
    }
  }

  lemma LabelListExactly(labels: seq<Label>)
    ensures LabelRecordsOk(labels) <==>
              && 0 < |labels| <= 10_000
              && (forall i, j :: 0 <= i < j < |labels| ==> labels[i].id != labels[j].id)
              && (forall i :: 0 <= i < |labels| ==> LabelFits(labels[i]))
  {
    hide LabelOk, LabelFits;
    forall i | 0 <= i < |labels| ensures LabelOk(labels[i]) <==> LabelFits(labels[i]) {
      LabelMeans(labels[i]);
    }
  }

  lemma OccursMeansLabelled(labels: seq<Label>, name: string)
    ensures Occurs(name, LabelIds(labels)) <==> IsLabelled(labels, name)
  {
    var named := LabelIds(labels);
    if i :| 0 <= i < |named| && named[i] == name {
      assert labels[i].id == name;
    }
    if i :| 0 <= i < |labels| && labels[i].id == name {
      assert named[i] == name;
    }
  }

  lemma LabelIdsExactly(cases: seq<Case>, labels: seq<Label>)
    ensures Elements(LabelIds(labels)) == Elements(CaseIds(cases)) <==>
              && (forall k :: 0 <= k < |cases| ==> IsLabelled(labels, cases[k].id))
              && (forall i :: 0 <= i < |labels| ==> IsCase(cases, labels[i].id))
  {
    var named, ids := LabelIds(labels), CaseIds(cases);
    SameElements(named, ids);
    hide Elements, Occurs, IsCase, IsLabelled;
    forall k | 0 <= k < |cases| ensures Occurs(ids[k], named) <==> IsLabelled(labels, cases[k].id) {
      OccursMeansLabelled(labels, ids[k]);
    }
    forall i | 0 <= i < |labels| ensures Occurs(named[i], ids) <==> IsCase(cases, labels[i].id) {
      OccursMeansCase(cases, named[i]);
    }
  }

  lemma LabelMeans(gold: Label)
    ensures LabelOk(gold) <==> LabelFits(gold)
  {
    hide Utf8Length;
  }

  lemma SourcesMean(cases: seq<Case>, gold: Label)
    ensures SourcesBound(cases, gold) <==> SourcesFit(cases, gold)
  {
    forall s ensures s in KnownDocuments(cases, gold.id) <==>
        exists k, d :: 0 <= k < |cases| && cases[k].id == gold.id
                       && 0 <= d < |cases[k].documents| && cases[k].documents[d].id == s {
      KnownMeans(cases, gold.id, s);
    }
  }

  lemma KnownMeans(cases: seq<Case>, id: string, s: string)
    ensures s in KnownDocuments(cases, id) <==>
              exists k, d :: 0 <= k < |cases| && cases[k].id == id
                             && 0 <= d < |cases[k].documents| && cases[k].documents[d].id == s
  {
    if s in KnownDocuments(cases, id) {
      var k :| 0 <= k < |cases| && cases[k].id == id && s in DocumentIds(cases[k].documents);
      var d :| 0 <= d < |DocumentIds(cases[k].documents)| && DocumentIds(cases[k].documents)[d] == s;
      assert cases[k].documents[d].id == s;
    }
    if k, d :| 0 <= k < |cases| && cases[k].id == id && 0 <= d < |cases[k].documents| && cases[k].documents[d].id == s {
      assert DocumentIds(cases[k].documents)[d] == s;
      assert s in DocumentIds(cases[k].documents);
    }
  }
}
