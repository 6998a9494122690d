/** What the judgement of one answer reports, position by position of the candidates and of the citations. */
module CaseLaws {
  import opened Sorting
  import opened RetrievalFusion
  import opened CaseExecution

  /** The list has the members of `s` in the order of their first positions. */
  ghost predicate FirstsOf<T(!new)>(s: seq<T>, r: seq<T>)
  {
    && (forall x :: x in r <==> x in s)
    && forall a, b :: 0 <= a < b < |r| ==> exists i :: 0 <= i < |s| && s[i] == r[a] && r[b] !in s[..i + 1]
  }

  lemma {:induction false} DedupedFirsts<T(!new)>(s: seq<T>)
    ensures FirstsOf(s, Deduped(s))
    decreases |s|
  {
    if s != [] {
      var n := |s| - 1;
      assert s == s[..n] + [s[n]];
      var front, r := Deduped(s[..n]), Deduped(s);
      DedupedFirsts(s[..n]);
      forall a, b | 0 <= a < b < |r| ensures exists i :: 0 <= i < |s| && s[i] == r[a] && r[b] !in s[..i + 1] {
        if b < |front| {
          var i :| 0 <= i < n && s[..n][i] == front[a] && front[b] !in s[..n][..i + 1];
          assert s[..n][..i + 1] == s[..i + 1] && s[i] == r[a];
        } else {
          assert r[a] in s[..n] && r[b] == s[n] && s[n] !in s[..n];
          var i :| 0 <= i < n && s[..n][i] == r[a];
          assert s[i] == r[a] && s[..i + 1] <= s[..n];
          assert r[b] !in s[..i + 1];
        }
      }
    }
  }

  /** The active version of the document that the source names is another one, or there is none. */
  ghost predicate Stale(active: map<string, (string, string)>, source: Physical)
  {
    source.0 in active ==> active[source.0].0 != source.1
  }

  /** The citation is of the version that is active now, under the logical name that the case gave it. */
  ghost predicate Current(logical: map<Physical, string>, active: map<string, (string, string)>, source: Physical)
  {
    source in logical && source.0 in active && active[source.0].0 == source.1 && active[source.0].1 == logical[source]
  }

  ghost function StalePositions(active: map<string, (string, string)>, candidates: seq<Hit>): set<nat>
  {
    set i: nat | i < |candidates| && Stale(active, candidates[i].source)
  }

  ghost function InvalidPositions(logical: map<Physical, string>, active: map<string, (string, string)>,
                                  citations: seq<Physical>): set<nat>
  {
    set i: nat | i < |citations| && !Current(logical, active, citations[i])
  }

  ghost function RepeatedPositions(candidates: seq<Hit>): set<nat>
  {
    set i: nat | i < |candidates| && exists j :: 0 <= j < i && candidates[j].chunk == candidates[i].chunk
  }

  lemma {:induction false} LeaksCount(active: map<string, (string, string)>, candidates: seq<Hit>)
    ensures Leaks(active, candidates) == |StalePositions(active, candidates)|
    decreases |candidates|
  {
    if candidates == [] {
      assert StalePositions(active, candidates) == {};
    } else {
      var n := |candidates| - 1;
      LeaksCount(active, candidates[..n]);
      var before := StalePositions(active, candidates[..n]);
      assert StalePositions(active, candidates)
             == before + (if Stale(active, candidates[n].source) then {n} else {});
    }
  }

  lemma {:induction false} InvalidAreCounted(logical: map<Physical, string>, active: map<string, (string, string)>,
                                             citations: seq<Physical>)
    ensures InvalidCount(CitedNames(logical, active, citations)) == |InvalidPositions(logical, active, citations)|
    decreases |citations|
  {
    if citations == [] {
      assert InvalidPositions(logical, active, citations) == {};
    } else {
      var n := |citations| - 1;
      InvalidAreCounted(logical, active, citations[..n]);
      var names := CitedNames(logical, active, citations);
      assert names[..n] == CitedNames(logical, active, citations[..n]);
      assert names[n].Opaque? <==> !Current(logical, active, citations[n]);
      InvalidSnoc(logical, active, citations, n);
      assert n !in InvalidPositions(logical, active, citations[..n]);
      hide InvalidPositions, Current, CitedNames;
    }
  }

  lemma InvalidSnoc(logical: map<Physical, string>, active: map<string, (string, string)>, citations: seq<Physical>, n: nat)
    requires |citations| == n + 1
    ensures InvalidPositions(logical, active, citations)
            == InvalidPositions(logical, active, citations[..n])
               + (if !Current(logical, active, citations[n]) then {n} else {})
  {
    hide Current;
  }

  lemma {:induction false} RepeatsCount(candidates: seq<Hit>)
    ensures |candidates| - |Deduped(ChunksOf(candidates))| == |RepeatedPositions(candidates)|
    decreases |candidates|
  {
    if candidates == [] {
      assert RepeatedPositions(candidates) == {};
    } else {
      var n := |candidates| - 1;
      var before, all := RepeatedPositions(candidates[..n]), RepeatedPositions(candidates);
      RepeatsCount(candidates[..n]);
      RepeatedSnoc(candidates, n);
      assert n !in before;
      var chunks := ChunksOf(candidates);
      assert chunks[..n] == ChunksOf(candidates[..n]);
      DedupedSnoc(chunks, n);
      hide RepeatedPositions, ChunksOf, Deduped;
    }
  }

  lemma DedupedSnoc(chunks: seq<string>, n: nat)
    requires |chunks| == n + 1
    ensures |Deduped(chunks)| == |Deduped(chunks[..n])| + if chunks[n] in chunks[..n] then 0 else 1
  {
  }

  lemma RepeatedSnoc(candidates: seq<Hit>, n: nat)
    requires |candidates| == n + 1
    ensures RepeatedPositions(candidates)
            == RepeatedPositions(candidates[..n])
               + (if ChunksOf(candidates)[n] in ChunksOf(candidates)[..n] then {n} else {})
  {
    var before, chunks := RepeatedPositions(candidates[..n]), ChunksOf(candidates);
    var repeated := exists j :: 0 <= j < n && candidates[j].chunk == candidates[n].chunk;
    assert repeated <==> chunks[n] in chunks[..n] by {
      if j :| 0 <= j < n && candidates[j].chunk == candidates[n].chunk {
        assert chunks[..n][j] == chunks[n];
      }
    }
    forall i: nat ensures i in RepeatedPositions(candidates) <==> i in before || (i == n && repeated) {
      assert i < n ==> forall j :: 0 <= j <= i ==> candidates[..n][j] == candidates[j];
    }
  }

  lemma {:induction false} RetrievedNamesMean(logical: map<Physical, string>, candidates: seq<Hit>, name: Named)
    ensures name in RetrievedNames(logical, candidates) <==>
              exists i :: 0 <= i < |candidates| && RetrievedUnder(logical, candidates[i].source, name)
    decreases |candidates|
  {
    if candidates != [] {
      var n := |candidates| - 1;
      RetrievedNamesMean(logical, candidates[..n], name);
      if i :| 0 <= i < |candidates[..n]| && RetrievedUnder(logical, candidates[..n][i].source, name) {
        assert candidates[i] == candidates[..n][i];
      }
      if i :| 0 <= i < n && RetrievedUnder(logical, candidates[i].source, name) {
        assert candidates[..n][i] == candidates[i];
      }
    }
  }

  /** A candidate that names a document and a version is reported under the case's name for them, if it has one. */
  ghost predicate RetrievedUnder(logical: map<Physical, string>, source: Physical, name: Named)
  {
    && source.0 != "" && source.1 != ""
    && if source in logical && logical[source] != "" then name == Logical(logical[source]) else name == Opaque(source)
  }

  ghost predicate CitedUnder(logical: map<Physical, string>, active: map<string, (string, string)>, source: Physical,
                             name: Named)
  {
    if Current(logical, active, source) then name == Logical(logical[source]) else name == Opaque(source)
  }

  /** What an answer reports: the sources retrieved and cited, each once and first come first, the number of
      citations that are not of an active version of the case, of candidates that are not of the active version
      of their document, and of candidates whose chunk came before. */
  lemma JudgesExactly(logical: map<Physical, string>, active: map<string, (string, string)>, candidates: seq<Hit>,
                      citations: seq<Physical>)
    ensures var judged := Judge(logical, active, candidates, citations);
      && (forall name :: name in judged.retrieved <==>
            exists i :: 0 <= i < |candidates| && RetrievedUnder(logical, candidates[i].source, name))
      && (forall name :: name in judged.cited <==>
            exists i :: 0 <= i < |citations| && CitedUnder(logical, active, citations[i], name))
      && NoRepeats(judged.retrieved) && NoRepeats(judged.cited)
      && FirstsOf(RetrievedNames(logical, candidates), judged.retrieved)
      && FirstsOf(CitedNames(logical, active, citations), judged.cited)
      && judged.invalid == |InvalidPositions(logical, active, citations)|
      && judged.versionLeaks == |StalePositions(active, candidates)|
      && judged.duplicates == |RepeatedPositions(candidates)|
  {
    hide FirstsOf;
    var judged := Judge(logical, active, candidates, citations);
    forall name ensures name in judged.retrieved <==>
        exists i :: 0 <= i < |candidates| && RetrievedUnder(logical, candidates[i].source, name) {
      RetrievedNamesMean(logical, candidates, name);
    }
    var names := CitedNames(logical, active, citations);
    forall name ensures name in judged.cited <==>
        exists i :: 0 <= i < |citations| && CitedUnder(logical, active, citations[i], name) {
      CitedNamesMean(logical, active, citations, name);
    }
    DedupedFirsts(RetrievedNames(logical, candidates));
    DedupedFirsts(names);
    InvalidAreCounted(logical, active, citations);
    LeaksCount(active, candidates);
    RepeatsCount(candidates);
  }

  lemma CitedNamesMean(logical: map<Physical, string>, active: map<string, (string, string)>, citations: seq<Physical>,
                       name: Named)
    ensures name in CitedNames(logical, active, citations) <==>
              exists i :: 0 <= i < |citations| && CitedUnder(logical, active, citations[i], name)
  {
    var names := CitedNames(logical, active, citations);
    assert forall i :: 0 <= i < |citations| ==> (names[i] == name <==> CitedUnder(logical, active, citations[i], name));
  }

  /** The names of a case's sources: the last one given to a document and version, and none besides. */
  lemma {:induction false} LogicalMeans(sources: seq<Source>, physical: Physical)
    ensures physical in LogicalOf(sources) <==>
              exists k :: 0 <= k < |sources| && (sources[k].document, sources[k].version) == physical
    ensures forall k :: 0 <= k < |sources| && (sources[k].document, sources[k].version) == physical
                        && (forall m :: k < m < |sources| ==> (sources[m].document, sources[m].version) != physical)
                        ==> LogicalOf(sources)[physical] == sources[k].logical
    decreases |sources|
  {
    if sources != [] {
      var n := |sources| - 1;
      LogicalMeans(sources[..n], physical);
      if k :| 0 <= k < n && (sources[k].document, sources[k].version) == physical {
        assert sources[..n][k] == sources[k];
      }
      if k :| 0 <= k < n && (sources[..n][k].document, sources[..n][k].version) == physical {
        assert sources[k] == sources[..n][k];
      }
    }
  }
}
