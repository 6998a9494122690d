/** The executor of benchmark cases: retrieval hands out one handle for each case, answering consumes it, and
    finalizing accepts only when none is left.  All handles share one table of active source versions. */
module CaseExecution {
  import opened Outcomes
  import opened Sorting
  import opened RetrievalFusion

  /** A logical source of a case as it was ingested: its physical document and version. */
  datatype Source = Source(logical: string, document: string, version: string)

  type Physical = (string, string)

  // ---- Source versions ----

  function LogicalOf(sources: seq<Source>): map<Physical, string>
  {
    if sources == [] then map[]
    else
      var last := sources[|sources| - 1];
      LogicalOf(sources[..|sources| - 1])[(last.document, last.version) := last.logical]
  }

  /** The table of active versions after the sources of one more case. */
  function Activated(active: map<string, (string, string)>, sources: seq<Source>): map<string, (string, string)>
  {
    if sources == [] then active
    else
      var last := sources[|sources| - 1];
      Activated(active, sources[..|sources| - 1])[last.document := (last.version, last.logical)]
  }

  /** The version of a document that counts is the last one ingested; documents of other cases keep theirs. */
  lemma {:induction false} ActiveIsLast(active: map<string, (string, string)>, sources: seq<Source>, k: nat)
    requires k < |sources| && forall j :: k < j < |sources| ==> sources[j].document != sources[k].document
    ensures var after := Activated(active, sources);
      sources[k].document in after && after[sources[k].document] == (sources[k].version, sources[k].logical)
    decreases |sources|
  {
    if k < |sources| - 1 {
      ActiveIsLast(active, sources[..|sources| - 1], k);
    }
  }

  lemma {:induction false} OthersKeepTheirs(active: map<string, (string, string)>, sources: seq<Source>, document: string)
    requires forall j :: 0 <= j < |sources| ==> sources[j].document != document
    ensures var after := Activated(active, sources);
      (document in after <==> document in active) && (document in active ==> after[document] == active[document])
    decreases |sources|
  {
    if sources != [] {
      OthersKeepTheirs(active, sources[..|sources| - 1], document);
    }
  }

  lemma {:induction false} LogicalIsLast(sources: seq<Source>, k: nat)
    requires k < |sources| && forall j :: k < j < |sources| ==> sources[j].document != sources[k].document
    ensures var physical := (sources[k].document, sources[k].version);
      physical in LogicalOf(sources) && LogicalOf(sources)[physical] == sources[k].logical
    decreases |sources|
  {
    if k < |sources| - 1 {
      LogicalIsLast(sources[..|sources| - 1], k);
    }
  }

  // ---- Judging an answer ----

  /** A source identifier in an observation: a logical one, or an opaque one of a physical source. */
  datatype Named = Logical(id: string) | Opaque(source: Physical)

  /** A citation counts only when it names a source of the case in its active version. */
  function CitedAs(logical: map<Physical, string>, active: map<string, (string, string)>, source: Physical): Named
  {
    if source in logical && source.0 in active && active[source.0] == (source.1, logical[source]) then Logical(logical[source])
    else Opaque(source)
  }

  function RetrievedAs(logical: map<Physical, string>, source: Physical): Named
  {
    if source in logical && logical[source] != "" then Logical(logical[source]) else Opaque(source)
  }

  function Deduped<T(==, !new)>(s: seq<T>): (r: seq<T>)
    ensures forall x :: x in r <==> x in s
    ensures NoRepeats(r) && |r| <= |s|
  {
    if s == [] then []
    else
      assert s == s[..|s| - 1] + [s[|s| - 1]];
      var front := Deduped(s[..|s| - 1]);
      if s[|s| - 1] in front then front else front + [s[|s| - 1]]
  }

  /** The part of an observation that the executor derives from an answer. */
  datatype Judged = Judged(retrieved: seq<Named>, cited: seq<Named>, invalid: nat, versionLeaks: nat, duplicates: nat)

  predicate Sourced(c: Hit)
  {
    c.source.0 != "" && c.source.1 != ""
  }

  predicate Outdated(active: map<string, (string, string)>, c: Hit)
  {
    c.source.0 !in active || active[c.source.0].0 != c.source.1
  }

  function RetrievedNames(logical: map<Physical, string>, candidates: seq<Hit>): seq<Named>
  {
    if candidates == [] then []
    else
      var last := candidates[|candidates| - 1];
      RetrievedNames(logical, candidates[..|candidates| - 1])
      + if Sourced(last) then [RetrievedAs(logical, last.source)] else []
  }

  function Leaks(active: map<string, (string, string)>, candidates: seq<Hit>): nat
  {
    if candidates == [] then 0
    else
      Leaks(active, candidates[..|candidates| - 1]) + if Outdated(active, candidates[|candidates| - 1]) then 1 else 0
  }

  function CitedNames(logical: map<Physical, string>, active: map<string, (string, string)>, citations: seq<Physical>)
    : (names: seq<Named>)
    ensures |names| == |citations|
    ensures forall i :: 0 <= i < |names| ==> names[i] == CitedAs(logical, active, citations[i])
  {
    seq(|citations|, i requires 0 <= i < |citations| => CitedAs(logical, active, citations[i]))
  }

  function InvalidCount(names: seq<Named>): nat
  {
    if names == [] then 0
    else InvalidCount(names[..|names| - 1]) + if names[|names| - 1].Opaque? then 1 else 0
  }

  function Judge(logical: map<Physical, string>, active: map<string, (string, string)>, candidates: seq<Hit>,
                 citations: seq<Physical>): Judged
  {
    var names := CitedNames(logical, active, citations);
    Judged(Deduped(RetrievedNames(logical, candidates)), Deduped(names), InvalidCount(names), Leaks(active, candidates),
           |candidates| - |Deduped(ChunksOf(candidates))|)
  }

  /** Every logical citation that is reported names a source of the case in the version that is active when the
      case is answered, and nothing invalid is reported as one. */
  lemma CitationsAreCurrent(logical: map<Physical, string>, active: map<string, (string, string)>,
                            candidates: seq<Hit>, citations: seq<Physical>, id: string)
    ensures Logical(id) in Judge(logical, active, candidates, citations).cited
            <==> exists source :: source in citations && source in logical && logical[source] == id
                                  && source.0 in active && active[source.0] == (source.1, id)
  {
  }

  /** `j` is where a document was ingested last. */
  ghost predicate LastOf(sources: seq<Source>, j: nat, document: string)
  {
    j < |sources| && sources[j].document == document
    && forall m :: j < m < |sources| ==> sources[m].document != document
  }

  lemma {:induction false} LastOrNone(sources: seq<Source>, document: string) returns (j: nat)
    ensures LastOf(sources, j, document) || forall m :: 0 <= m < |sources| ==> sources[m].document != document
    decreases |sources|
  {
    j := 0;
    if sources != [] {
      if sources[|sources| - 1].document == document {
        j := |sources| - 1;
      } else {
        j := LastOrNone(sources[..|sources| - 1], document);
      }
    }
  }

  /** Cases retrieved in between can invalidate a citation.  A citation of the version that a case ingested last
      of a document counts exactly when no case retrieved since has replaced the version or its logical name;
      `since` are the sources of those cases in the order of their retrieval. */
  lemma CitationCountsExactly(before: map<string, (string, string)>, own: seq<Source>, since: seq<Source>, k: nat)
    requires k < |own| && LastOf(own, k, own[k].document)
    ensures var active := Activated(Activated(before, own), since);
      CitedAs(LogicalOf(own), active, (own[k].document, own[k].version)) == Logical(own[k].logical)
      <==> forall j: nat :: LastOf(since, j, own[k].document) ==>
             since[j].version == own[k].version && since[j].logical == own[k].logical
  {
    var document := own[k].document;
    var table := Activated(before, own);
    LogicalIsLast(own, k);
    ActiveIsLast(before, own, k);
    var j := LastOrNone(since, document);
    if LastOf(since, j, document) {
      ActiveIsLast(table, since, j);
      assert forall m: nat :: LastOf(since, m, document) ==> m == j;
    } else {
      OthersKeepTheirs(table, since, document);
    }
  }

  /** Once a later case has ingested another version of the document, the old one is never reported as a
      source: its citation is opaque and is counted as invalid. */
  lemma SupersededIsInvalid(before: map<string, (string, string)>, logical: map<Physical, string>, since: seq<Source>,
                            j: nat, version: string, candidates: seq<Hit>, citations: seq<Physical>, n: nat)
    requires j < |since| && LastOf(since, j, since[j].document) && since[j].version != version
    requires n < |citations| && citations[n] == (since[j].document, version)
    ensures var judged := Judge(logical, Activated(before, since), candidates, citations);
      Opaque(citations[n]) in judged.cited && judged.invalid > 0
  {
    ActiveIsLast(before, since, j);
    var names := CitedNames(logical, Activated(before, since), citations);
    assert names[n] == Opaque(citations[n]);
    InvalidSeen(names, n);
  }

  lemma {:induction false} InvalidSeen(names: seq<Named>, n: nat)
    requires n < |names| && names[n].Opaque?
    ensures InvalidCount(names) > 0
    decreases |names|
  {
    if n < |names| - 1 {
      InvalidSeen(names[..|names| - 1], n);
    }
  }

  // ---- Counting duplicates ----

  lemma DedupedOfDistinct(s: seq<string>)
    requires NoRepeats(s)
    ensures Deduped(s) == s
  {
    if s != [] {
      DedupedOfDistinct(s[..|s| - 1]);
      assert s == s[..|s| - 1] + [s[|s| - 1]];
    }
  }

  /** What retrieval returns repeats no chunk, so the executor reports no duplicate, and its own observation
      always passes the check that duplicates do not exceed the retrieved sources. */
  lemma RetrievalReportsNoDuplicates(lists: seq<seq<Hit>>, cost: Hit -> nat, settings: Settings, ranked: seq<Hit>,
                                     logical: map<Physical, string>, active: map<string, (string, string)>,
                                     citations: seq<Physical>)
    requires settings.rrfK > 0 && RetrievedFrom(lists, cost, settings, ranked)
    ensures var judged := Judge(logical, active, ranked, citations);
      judged.duplicates == 0 <= |judged.retrieved|
  {
    hide RetrievedFrom;
    RetrievedChunksDistinct(lists, cost, settings, ranked);
    DedupedOfDistinct(ChunksOf(ranked));
  }

  // ---- The executor ----

  /** The table that the executor and all its handles share. */
  class ActiveVersions {
    var current: map<string, (string, string)>

    constructor ()
      ensures current == map[]
    {
      current := map[];
    }
  }

  class Handle {
    const caseId: string
    const logical: map<Physical, string>
    const versions: ActiveVersions

    constructor (caseId: string, logical: map<Physical, string>, versions: ActiveVersions)
      ensures this.caseId == caseId && this.logical == logical && this.versions == versions
    {
      this.caseId, this.logical, this.versions := caseId, logical, versions;
    }
  }

  class CaseExecutor {
    var prepared: bool
    var finalized: bool
    var pending: map<string, Handle>
    const versions: ActiveVersions
    /** Every handle given out, and those that were answered, in order. */
    ghost var retrieved: seq<Handle>
    ghost var answered: seq<Handle>

    ghost predicate Valid()
      reads this
    {
      && (forall h :: h in pending.Values ==> h in retrieved && h !in answered)
      && (forall h :: h in retrieved && h !in answered ==> h in pending.Values)
      && (forall id :: id in pending ==> pending[id].caseId == id && pending[id].versions == versions)
      && (forall h :: h in answered ==> h in retrieved)
      && NoRepeats(retrieved) && NoRepeats(answered)
    }

    constructor ()
      ensures Valid() && fresh(versions) && !prepared && !finalized && retrieved == [] && answered == []
    {
      prepared, finalized, pending, retrieved, answered := false, false, map[], [], [];
      versions := new ActiveVersions();
    }

    /** Ingests the documents of a case, retrieves, and hands out the handle to answer it with. */
    method RetrieveCase(caseId: string, sources: seq<Source>) returns (handle: Option<Handle>)
      requires Valid()
      modifies this`pending, this`retrieved, versions
      ensures Valid() && answered == old(answered)
      ensures handle.Some? <==> prepared && !finalized && caseId != "" && caseId !in old(pending)
      ensures handle.None? ==> retrieved == old(retrieved) && versions.current == old(versions.current)
      ensures handle.Some? ==>
                && fresh(handle.value) && handle.value.caseId == caseId
                && handle.value.logical == LogicalOf(sources) && handle.value.versions == versions
                && retrieved == old(retrieved) + [handle.value] && caseId in pending && pending[caseId] == handle.value
                && versions.current == Activated(old(versions.current), sources)
    {
      if !prepared || finalized || caseId == "" || caseId in pending {
        return None;
      }
      var logical: map<Physical, string> := map[];
      var start := versions.current;
      for k := 0 to |sources|
        modifies versions
        invariant logical == LogicalOf(sources[..k]) && versions.current == Activated(start, sources[..k])
      {
        assert sources[..k + 1][..k] == sources[..k];
        logical := logical[(sources[k].document, sources[k].version) := sources[k].logical];
        versions.current := versions.current[sources[k].document := (sources[k].version, sources[k].logical)];
      }
      assert sources[..|sources|] == sources;
      var h := new Handle(caseId, logical, versions);
      ghost var before := pending;
      pending := pending[caseId := h];
      PendingGrows(before, caseId, h);
      retrieved := retrieved + [h];
      return Some(h);
    }

    /** Consumes a handle: it answers exactly the pending ones, each once, against the versions active by now. */
    method AnswerCase(handle: Handle, candidates: seq<Hit>, citations: seq<Physical>) returns (r: Option<Judged>)
      requires Valid()
      modifies this`pending, this`answered
      ensures Valid() && retrieved == old(retrieved)
      ensures r.Some? <==> prepared && !finalized && handle in old(retrieved) && handle !in old(answered)
      ensures r.Some? ==> answered == old(answered) + [handle]
      ensures r.Some? ==> r.value == Judge(handle.logical, versions.current, candidates, citations)
      ensures r.None? ==> answered == old(answered) && pending == old(pending)
    {
      if !prepared || finalized || handle.caseId !in pending || pending[handle.caseId] != handle {
        PendingOnlyOnce(handle);
        return None;
      }
      assert handle in pending.Values;
      ghost var before := pending;
      pending := pending - {handle.caseId};
      PendingShrinks(before, handle);
      answered := answered + [handle];
      return Some(Judge(handle.logical, handle.versions.current, candidates, citations));
    }

    lemma PendingOnlyOnce(handle: Handle)
      requires Valid()
      ensures handle in pending.Values <==> handle.caseId in pending && pending[handle.caseId] == handle
    {
      if handle in pending.Values {
        var id :| id in pending && pending[id] == handle;
        assert id == handle.caseId;
      }
    }

    /** Ends the run.  It is accepted only when every handle was answered, whatever else is wrong. */
    method Finalize(resourcesOk: bool) returns (ok: bool)
      requires Valid()
      modifies this`finalized
      ensures Valid()
      ensures ok <==> old(prepared && !finalized) && resourcesOk && forall h :: h in retrieved ==> h in answered
      ensures old(prepared && !finalized) ==> finalized
    {
      if !prepared || finalized {
        return false;
      }
      finalized := true;
      NonePending();
      return pending == map[] && resourcesOk;
    }

    lemma NonePending()
      requires Valid()
      ensures pending == map[] <==> forall h :: h in retrieved ==> h in answered
    {
      if pending != map[] {
        var id :| id in pending;
        assert pending[id] in pending.Values;
      }
    }
  }

  lemma PendingGrows(before: map<string, Handle>, id: string, h: Handle)
    requires id !in before
    ensures before[id := h].Values == before.Values + {h}
  {
    var after := before[id := h];
    forall x | x in before.Values ensures x in after.Values {
      var k :| k in before && before[k] == x;
      assert after[k] == x;
    }
    assert after[id] == h;
  }

  lemma PendingShrinks(before: map<string, Handle>, h: Handle)
    requires h.caseId in before && before[h.caseId] == h
    requires forall id :: id in before ==> before[id].caseId == id
    ensures (before - {h.caseId}).Values == before.Values - {h}
  {
    var after := before - {h.caseId};
    forall x | x in before.Values - {h} ensures x in after.Values {
      var k :| k in before && before[k] == x;
      assert after[k] == x;
    }
  }

  /** An accepted run answered every handle exactly once. */
  lemma AcceptedRunAnswersAll(executor: CaseExecutor)
    requires executor.Valid() && forall h :: h in executor.retrieved ==> h in executor.answered
    ensures multiset(executor.retrieved) == multiset(executor.answered)
  {
    forall h: Handle ensures multiset(executor.retrieved)[h] == multiset(executor.answered)[h] {
      CountOfDistinct(executor.retrieved, h);
      CountOfDistinct(executor.answered, h);
    }
  }
}
