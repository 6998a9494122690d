/** Reciprocal rank fusion of the ranked lists of several retrievers, and what is kept of the fused list. */
module RetrievalFusion {
  import opened Outcomes
  import opened Sorting
  import opened RealSums
  import opened CaptureFrames

  /** One result of a retriever: its chunk, the document and version it comes from, and the digest of the
      chunk's content when it is known. */
  datatype Hit = Hit(chunk: string, source: (string, string), content: Option<string>)

  function ChunksOf(hits: seq<Hit>): (chunks: seq<string>)
    ensures |chunks| == |hits| && forall i :: 0 <= i < |chunks| ==> chunks[i] == hits[i].chunk
  {
    seq(|hits|, i requires 0 <= i < |hits| => hits[i].chunk)
  }

  // ---- The score of a chunk ----

  /** The position, counted from 1, at which a list names the key first; 0 if it does not. */
  function FirstRank(ranked: seq<string>, key: string): (rank: nat)
    ensures rank <= |ranked| && (rank == 0 <==> key !in ranked)
    ensures rank > 0 ==> ranked[rank - 1] == key && key !in ranked[..rank - 1]
  {
    if ranked == [] then 0
    else
      var n := |ranked| - 1;
      assert ranked == ranked[..n] + [ranked[n]];
      var earlier := FirstRank(ranked[..n], key);
      assert earlier > 0 ==> ranked[..n][..earlier - 1] == ranked[..earlier - 1];
      if earlier > 0 then earlier else if ranked[n] == key then n + 1 else 0
  }

  function Share(k: nat, key: string, ranked: seq<string>): real
    requires k > 0
  {
    if key in ranked then 1.0 / (k + FirstRank(ranked, key)) as real else 0.0
  }

  function ShareOf(k: nat, key: string): seq<string> -> real
    requires k > 0
  {
    (ranked: seq<string>) => Share(k, key, ranked)
  }

  function Score(lists: seq<seq<string>>, k: nat, key: string): real
    requires k > 0
  {
    SumOf(ShareOf(k, key), lists)
  }

  // ---- The fused ranking ----

  /** A key with its score. */
  datatype Scored = Scored(key: string, score: real)

  /** Higher scores first, equal scores by key. */
  predicate Before(a: Scored, b: Scored)
  {
    a.score > b.score || (a.score == b.score && (a.key == b.key || StringLess(a.key, b.key)))
  }

  lemma BeforeOrders()
    ensures TotalPreorder(Before)
  {
    forall a: Scored, b: Scored ensures Before(a, b) || Before(b, a) { StringLessTotal(a.key, b.key); }
    forall a: Scored, b: Scored, c: Scored | Before(a, b) && Before(b, c) ensures Before(a, c) {
      if StringLess(a.key, b.key) && StringLess(b.key, c.key) { StringLessTransitive(a.key, b.key, c.key); }
    }
  }

  predicate Named(lists: seq<seq<string>>, key: string)
  {
    exists m :: 0 <= m < |lists| && key in lists[m]
  }

  /** The ranking that fusion promises: every key of every list once, by decreasing score. */
  ghost predicate FusionOf(lists: seq<seq<string>>, k: nat, fused: seq<Scored>)
    requires k > 0
  {
    && (forall i, j :: 0 <= i < j < |fused| ==> fused[i].key != fused[j].key)
    && (forall key :: Named(lists, key) <==> exists i :: 0 <= i < |fused| && fused[i].key == key)
    && (forall i :: 0 <= i < |fused| ==> fused[i].score == Score(lists, k, fused[i].key))
    && Sorted(Before, fused)
  }

  lemma ShareStep(k: nat, key: string, ranked: seq<string>, n: nat)
    requires k > 0 && n < |ranked|
    ensures Share(k, key, ranked[..n + 1])
            == if key == ranked[n] && key !in ranked[..n] then 1.0 / (k + n + 1) as real else Share(k, key, ranked[..n])
  {
    assert ranked[..n + 1][..n] == ranked[..n];
    assert ranked[..n + 1] == ranked[..n] + [ranked[n]];
  }

  lemma ScoreStep(lists: seq<seq<string>>, k: nat, key: string, m: nat)
    requires k > 0 && m < |lists|
    ensures Score(lists[..m + 1], k, key) == Score(lists[..m], k, key) + Share(k, key, lists[m])
  {
    assert lists[..m + 1] == lists[..m] + [lists[m]];
    SumOfAppend(ShareOf(k, key), lists[..m], [lists[m]]);
    SumOfOne(ShareOf(k, key), lists[m]);
  }

  /** The scores so far: all of the lists before, and the first part of the current one. */
  ghost predicate Tallied(scores: map<string, real>, lists: seq<seq<string>>, ranked: seq<string>, k: nat)
    requires k > 0
  {
    && (forall key :: key in scores <==> Named(lists, key) || key in ranked)
    && (forall key :: key in scores ==> scores[key] == Score(lists, k, key) + Share(k, key, ranked))
  }

  lemma AbsentShare(k: nat, key: string, ranked: seq<string>)
    requires k > 0
    ensures key !in ranked ==> Share(k, key, ranked) == 0.0
  {
  }

  lemma NotNamedScoresNothing(lists: seq<seq<string>>, k: nat, key: string)
    requires k > 0 && !Named(lists, key)
    ensures Score(lists, k, key) == 0.0
  {
    SumOfZero(ShareOf(k, key), lists);
  }

  lemma TalliedStep(scores: map<string, real>, lists: seq<seq<string>>, ranked: seq<string>, n: nat, k: nat)
    requires k > 0 && n < |ranked| && Tallied(scores, lists, ranked[..n], k)
    ensures var key := ranked[n];
      Tallied(if key in ranked[..n] then scores
              else scores[key := (if key in scores then scores[key] else 0.0) + 1.0 / (k + n + 1) as real],
              lists, ranked[..n + 1], k)
  {
    hide Share, Named, Score;
    assert ranked[..n + 1] == ranked[..n] + [ranked[n]];
    forall key ensures Share(k, key, ranked[..n + 1])
        == if key == ranked[n] && key !in ranked[..n] then 1.0 / (k + n + 1) as real else Share(k, key, ranked[..n]) {
      ShareStep(k, key, ranked, n);
    }
    var key := ranked[n];
    if key !in scores {
      NotNamedScoresNothing(lists, k, key);
    }
    AbsentShare(k, key, ranked[..n]);
  }

  lemma TalliedNext(scores: map<string, real>, lists: seq<seq<string>>, m: nat, k: nat)
    requires k > 0 && m < |lists| && Tallied(scores, lists[..m], lists[m], k)
    ensures Tallied(scores, lists[..m + 1], [], k)
  {
    assert lists[..m + 1] == lists[..m] + [lists[m]];
    forall key ensures Named(lists[..m + 1], key) <==> Named(lists[..m], key) || key in lists[m] {
      if Named(lists[..m], key) {
        var i :| 0 <= i < m && key in lists[..m][i];
        assert key in lists[..m + 1][i];
      }
      if key in lists[m] { assert key in lists[..m + 1][m]; }
    }
    forall key | key in scores ensures scores[key] == Score(lists[..m + 1], k, key) + Share(k, key, []) {
      ScoreStep(lists, k, key, m);
    }
  }

  /** The entries of a dictionary, in any order. */
  method Items(scores: map<string, real>) returns (items: seq<Scored>)
    ensures Enumerates(scores, items)
  {
    items := [];
    var left := scores;
    while left != map[]
      invariant left.Keys <= scores.Keys && forall key :: key in left ==> left[key] == scores[key]
      invariant forall i, j :: 0 <= i < j < |items| ==> items[i].key != items[j].key
      invariant forall i :: 0 <= i < |items| ==>
                  items[i].key in scores && items[i].key !in left && items[i].score == scores[items[i].key]
      invariant forall key :: key in scores && key !in left ==> exists i :: 0 <= i < |items| && items[i].key == key
      decreases |left|
    {
      var key :| key in left;
      ghost var before := items;
      items := items + [Scored(key, left[key])];
      left := left - {key};
      forall other | other in scores && other !in left ensures exists i :: 0 <= i < |items| && items[i].key == other {
        if other == key {
          assert items[|before|].key == key;
        } else {
          var i :| 0 <= i < |before| && before[i].key == other;
          assert items[i].key == other;
        }
      }
    }
  }

  /** `items` lists a dictionary of scores. */
  ghost predicate Enumerates(scores: map<string, real>, items: seq<Scored>)
  {
    && (forall i, j :: 0 <= i < j < |items| ==> items[i].key != items[j].key)
    && (forall i :: 0 <= i < |items| ==> items[i].key in scores && items[i].score == scores[items[i].key])
    && (forall key :: key in scores ==> exists i :: 0 <= i < |items| && items[i].key == key)
  }

  lemma SortedItems(scores: map<string, real>, items: seq<Scored>)
    requires Enumerates(scores, items)
    ensures Enumerates(scores, Sort(Before, items))
  {
    var fused := Sort(Before, items);
    SortNoRepeats(Before, items);
    MembersOfSort(Before, items);
    hide Before, NoRepeats;
    assert forall x :: x in fused ==> x in items;
    forall i | 0 <= i < |fused| ensures fused[i].key in scores && fused[i].score == scores[fused[i].key] {
      assert fused[i] in fused && fused[i] in items;
    }
    forall i, j | 0 <= i < j < |fused| ensures fused[i].key != fused[j].key {
      assert fused[i] != fused[j];
    }
    forall key | key in scores ensures exists i :: 0 <= i < |fused| && fused[i].key == key {
      var i :| 0 <= i < |items| && items[i].key == key;
      assert items[i] in fused;
    }
  }

  lemma SortedItemsFuse(lists: seq<seq<string>>, k: nat, scores: map<string, real>, items: seq<Scored>)
    requires k > 0 && Tallied(scores, lists, [], k) && Enumerates(scores, items)
    ensures FusionOf(lists, k, Sort(Before, items))
  {
    hide Score, Named, Before, TotalPreorder, Sorted, Share, Sort;
    BeforeOrders();
    SortSorted(Before, items);
    SortedItems(scores, items);
    AbsentShareOfNone(k);
  }

  lemma AbsentShareOfNone(k: nat)
    requires k > 0
    ensures forall key :: Share(k, key, []) == 0.0
  {
  }

  /** `reciprocal_rank_fusion`: a dictionary of scores, filled list by list, and then sorted. */
  method ReciprocalRankFusion(lists: seq<seq<string>>, k: int) returns (fused: Option<seq<Scored>>)
    ensures fused.Some? <==> k > 0
    ensures fused.Some? ==> FusionOf(lists, k, fused.value)
  {
    hide Score, Share, Named, Tallied, FusionOf;
    if k <= 0 {
      return None;
    }
    var scores: map<string, real> := map[];
    NothingTallied(k);
    assert lists[..0] == [];
    for m := 0 to |lists|
      invariant Tallied(scores, lists[..m], [], k)
    {
      var ranked := lists[m];
      var seen: set<string> := {};
      assert ranked[..0] == [];
      for n := 0 to |ranked|
        invariant forall key :: key in seen <==> key in ranked[..n]
        invariant Tallied(scores, lists[..m], ranked[..n], k)
      {
        var key := ranked[n];
        TalliedStep(scores, lists[..m], ranked, n, k);
        assert ranked[..n + 1] == ranked[..n] + [key];
        if key !in seen {
          seen := seen + {key};
          scores := scores[key := (if key in scores then scores[key] else 0.0) + 1.0 / (k + n + 1) as real];
        }
      }
      assert ranked[..|ranked|] == ranked;
      TalliedNext(scores, lists, m, k);
    }
    assert lists[..|lists|] == lists;
    var items := Items(scores);
    SortedItemsFuse(lists, k, scores, items);
    return Some(Sort(Before, items));
  }

  lemma NothingTallied(k: nat)
    requires k > 0
    ensures Tallied(map[], [], [], k)
  {
  }

  // ---- Laws of the fused ranking ----

  /** The key comes first at position `p`, counted from 0. */
  ghost predicate ComesAt(ranked: seq<string>, key: string, p: nat)
  {
    p < |ranked| && ranked[p] == key && forall q :: 0 <= q < p ==> ranked[q] != key
  }

  /** A list adds 1 / (k + 1) to the score of its first key, 1 / (k + 2) to that of its second, and so on;
      nothing for keys that it does not name or names again. */
  lemma ScoreMeans(lists: seq<seq<string>>, k: nat, key: string, m: nat)
    requires k > 0 && m < |lists|
    ensures Score([], k, key) == 0.0 && lists[..|lists|] == lists
    ensures forall p: nat :: ComesAt(lists[m], key, p) ==>
              Score(lists[..m + 1], k, key) == Score(lists[..m], k, key) + 1.0 / (k + p + 1) as real
    ensures (forall q :: 0 <= q < |lists[m]| ==> lists[m][q] != key) ==>
              Score(lists[..m + 1], k, key) == Score(lists[..m], k, key)
  {
    ScoreStep(lists, k, key, m);
    hide Score;
    forall p: nat | ComesAt(lists[m], key, p) ensures FirstRank(lists[m], key) == p + 1 {
      var rank := FirstRank(lists[m], key);
      assert lists[m][rank - 1] == key;
      var earlier := lists[m][..rank - 1];
      assert forall q :: 0 <= q < |earlier| ==> earlier[q] == lists[m][q] && earlier[q] in earlier;
    }
  }

  /** The fused ranking: every key of the lists once, a higher score first and at equal scores the smaller key. */
  lemma FusionMeans(lists: seq<seq<string>>, k: nat, fused: seq<Scored>)
    requires k > 0 && FusionOf(lists, k, fused)
    ensures forall m, q :: 0 <= m < |lists| && 0 <= q < |lists[m]| ==>
              exists i :: 0 <= i < |fused| && fused[i].key == lists[m][q]
    ensures forall i :: 0 <= i < |fused| ==> exists m :: 0 <= m < |lists| && fused[i].key in lists[m]
    ensures forall i, j :: 0 <= i < j < |fused| ==>
              && fused[i].key != fused[j].key && fused[i].score >= fused[j].score
              && (fused[i].score == fused[j].score ==> StringLess(fused[i].key, fused[j].key))
    ensures forall i :: 0 <= i < |fused| ==> fused[i].score == Score(lists, k, fused[i].key)
  {
    hide Score;
    forall m, q | 0 <= m < |lists| && 0 <= q < |lists[m]| ensures Named(lists, lists[m][q]) {
      assert lists[m][q] in lists[m];
    }
    assert forall i :: 0 <= i < |fused| ==> Named(lists, fused[i].key);
    forall i, j | 0 <= i < j < |fused|
      ensures fused[i].score >= fused[j].score
      ensures fused[i].score == fused[j].score ==> StringLess(fused[i].key, fused[j].key)
    {
      assert Before(fused[i], fused[j]);
    }
  }

  /** The promise determines the ranking, whatever the order of the lists. */
  lemma FusionIsCanonical(lists: seq<seq<string>>, others: seq<seq<string>>, k: nat, a: seq<Scored>, b: seq<Scored>)
    requires k > 0 && multiset(lists) == multiset(others) && FusionOf(lists, k, a) && FusionOf(others, k, b)
    ensures a == b
  {
    forall key ensures Score(lists, k, key) == Score(others, k, key) {
      SumOfPermutation(ShareOf(k, key), lists, others);
    }
    forall key ensures Named(lists, key) <==> Named(others, key) { NamedReordered(lists, others, key); }
    hide Score, Named, Before;
    forall x | x in a ensures x in b { Carried(lists, others, k, a, b, x); }
    forall x | x in b ensures x in a { Carried(others, lists, k, b, a, x); }
    SameDistinctMembers(a, b);
    BeforeOrders();
    forall x, y | x in a && y in a && Before(x, y) && Before(y, x) ensures x == y { BeforeTellsApart(x, y); }
    SortedUnique(Before, a, b);
  }

  lemma BeforeTellsApart(x: Scored, y: Scored)
    requires Before(x, y) && Before(y, x)
    ensures x == y
  {
    StringLessTotal(x.key, y.key);
  }

  lemma NamedReordered(lists: seq<seq<string>>, others: seq<seq<string>>, key: string)
    requires multiset(lists) == multiset(others)
    ensures Named(lists, key) <==> Named(others, key)
  {
    if m :| 0 <= m < |lists| && key in lists[m] {
      assert lists[m] in multiset(others);
    }
    if m :| 0 <= m < |others| && key in others[m] {
      assert others[m] in multiset(lists);
    }
  }

  lemma Carried(lists: seq<seq<string>>, others: seq<seq<string>>, k: nat, a: seq<Scored>, b: seq<Scored>, x: Scored)
    requires k > 0 && FusionOf(lists, k, a) && FusionOf(others, k, b) && x in a
    requires Score(lists, k, x.key) == Score(others, k, x.key) && (Named(lists, x.key) <==> Named(others, x.key))
    ensures x in b
  {
    hide Score, Named, Sorted;
    var i :| 0 <= i < |a| && a[i] == x;
    assert Named(lists, x.key);
    var j :| 0 <= j < |b| && b[j].key == x.key;
    assert b[j] == x;
  }

  /** In every list that names `y`, `x` comes first. */
  ghost predicate Dominates(lists: seq<seq<string>>, x: string, y: string)
  {
    forall m :: 0 <= m < |lists| && y in lists[m] ==> x in lists[m] && FirstRank(lists[m], x) < FirstRank(lists[m], y)
  }

  lemma LargerShare(k: nat, x: string, y: string, ranked: seq<string>)
    requires k > 0 && (y in ranked ==> x in ranked && FirstRank(ranked, x) < FirstRank(ranked, y))
    ensures Share(k, y, ranked) <= Share(k, x, ranked)
    ensures x in ranked ==> Share(k, y, ranked) < Share(k, x, ranked)
  {
    if y in ranked {
      SmallerQuotient((k + FirstRank(ranked, x)) as real, (k + FirstRank(ranked, y)) as real);
    } else if x in ranked {
      PositiveQuotient((k + FirstRank(ranked, x)) as real);
    }
  }

  lemma PositiveQuotient(a: real)
    requires 0.0 < a
    ensures 0.0 < 1.0 / a
  {
  }

  lemma SmallerQuotient(a: real, b: real)
    requires 0.0 < a < b
    ensures 1.0 / b < 1.0 / a
  {
    PositiveQuotient(a);
    PositiveQuotient(b);
    assert 1.0 / a - 1.0 / b == (b - a) * (1.0 / a) * (1.0 / b) by {
      assert (1.0 / a) * a == 1.0 && (1.0 / b) * b == 1.0;
    }
    ProductPositive(b - a, 1.0 / a, 1.0 / b);
  }

  lemma ProductPositive(a: real, b: real, c: real)
    requires 0.0 < a && 0.0 < b && 0.0 < c
    ensures 0.0 < a * b * c
  {
  }

  lemma {:induction false} DominatingScore(lists: seq<seq<string>>, k: nat, x: string, y: string)
    requires k > 0 && Dominates(lists, x, y)
    ensures Score(lists, k, y) <= Score(lists, k, x)
    ensures Named(lists, x) ==> Score(lists, k, y) < Score(lists, k, x)
    decreases |lists|
  {
    if lists != [] {
      LargerShare(k, x, y, lists[0]);
      forall m | 0 <= m < |lists[1..]| && y in lists[1..][m]
        ensures x in lists[1..][m] && FirstRank(lists[1..][m], x) < FirstRank(lists[1..][m], y)
      {
        assert lists[1..][m] == lists[m + 1];
      }
      DominatingScore(lists[1..], k, x, y);
      if m :| 0 <= m < |lists| && x in lists[m] {
        if m > 0 { assert x in lists[1..][m - 1]; }
      }
    }
  }

  /** A chunk that every retriever naming the other one puts first comes first in the fusion, whatever the
      constant and whatever else the lists hold. */
  lemma DominatingComesFirst(lists: seq<seq<string>>, k: nat, fused: seq<Scored>, i: nat, j: nat)
    requires k > 0 && FusionOf(lists, k, fused) && i < |fused| && j < |fused|
    requires i != j && Dominates(lists, fused[i].key, fused[j].key)
    ensures i < j && fused[i].score > fused[j].score
  {
    DominatingScore(lists, k, fused[i].key, fused[j].key);
    assert Named(lists, fused[i].key);
    assert fused[j].score < fused[i].score;
    assert j < i ==> Before(fused[j], fused[i]);
  }

  // ---- From ranked lists to candidates ----

  function Lists(candidates: seq<seq<Hit>>): (lists: seq<seq<string>>)
    ensures |lists| == |candidates| && forall m :: 0 <= m < |lists| ==> lists[m] == ChunksOf(candidates[m])
  {
    seq(|candidates|, m requires 0 <= m < |candidates| => ChunksOf(candidates[m]))
  }

  predicate Holds(candidates: seq<seq<Hit>>, hit: Hit)
  {
    exists m :: 0 <= m < |candidates| && hit in candidates[m]
  }

  lemma NamedIsHeld(candidates: seq<seq<Hit>>, key: string)
    ensures Named(Lists(candidates), key) <==> exists hit :: Holds(candidates, hit) && hit.chunk == key
  {
    if m :| 0 <= m < |candidates| && key in ChunksOf(candidates[m]) {
      var n :| 0 <= n < |ChunksOf(candidates[m])| && ChunksOf(candidates[m])[n] == key;
      assert candidates[m][n] in candidates[m];
      assert Holds(candidates, candidates[m][n]);
    }
    if hit :| Holds(candidates, hit) && hit.chunk == key {
      var m :| 0 <= m < |candidates| && hit in candidates[m];
      var n :| 0 <= n < |candidates[m]| && candidates[m][n] == hit;
      assert ChunksOf(candidates[m])[n] == key;
      assert key in Lists(candidates)[m];
    }
  }

  /** `fuse`: one candidate for each key of the fused ranking, with the data of its first occurrence. */
  method Fuse(candidates: seq<seq<Hit>>, k: int) returns (hits: Option<seq<Hit>>)
    ensures hits.Some? <==> k > 0
    ensures hits.Some? ==> FusedHits(candidates, k, hits.value)
  {
    hide FusionOf, Named;
    var order := ReciprocalRankFusion(Lists(candidates), k);
    if order.None? {
      return None;
    }
    var byKey := FirstHits(candidates);
    forall i | 0 <= i < |order.value| ensures order.value[i].key in byKey {
      FusedIsNamed(Lists(candidates), k, order.value, i);
      NamedIsHeld(candidates, order.value[i].key);
    }
    var result: seq<Hit> := [];
    for i := 0 to |order.value|
      invariant |result| == i
      invariant forall n :: 0 <= n < i ==>
                  result[n].chunk == order.value[n].key && Foremost(candidates, result[n])
    {
      result := result + [byKey[order.value[i].key]];
    }
    return Some(result);
  }

  lemma FusedIsNamed(lists: seq<seq<string>>, k: nat, fused: seq<Scored>, i: nat)
    requires k > 0 && FusionOf(lists, k, fused) && i < |fused|
    ensures Named(lists, fused[i].key)
  {
  }

  /** The candidates carry the fused ranking, each the first occurrence of its chunk. */
  ghost predicate FusedHits(candidates: seq<seq<Hit>>, k: nat, hits: seq<Hit>)
    requires k > 0
  {
    && (exists fused: seq<Scored> :: FusionOf(Lists(candidates), k, fused) && |fused| == |hits|
                        && forall i :: 0 <= i < |hits| ==> hits[i].chunk == fused[i].key)
    && (forall i :: 0 <= i < |hits| ==> Foremost(candidates, hits[i]))
  }

  /** The first occurrence of a chunk, going through the lists in order. */
  ghost predicate Foremost(candidates: seq<seq<Hit>>, hit: Hit)
  {
    exists m, n :: 0 <= m < |candidates| && 0 <= n < |candidates[m]| && candidates[m][n] == hit
                   && ForemostAt(candidates, m, n)
  }

  ghost predicate ForemostAt(candidates: seq<seq<Hit>>, m: nat, n: nat)
    requires m < |candidates| && n < |candidates[m]|
  {
    && (forall i, j :: 0 <= i < m && 0 <= j < |candidates[i]| ==> candidates[i][j].chunk != candidates[m][n].chunk)
    && (forall j :: 0 <= j < n ==> candidates[m][j].chunk != candidates[m][n].chunk)
  }

  method FirstHits(candidates: seq<seq<Hit>>) returns (byKey: map<string, Hit>)
    ensures forall key :: key in byKey ==> byKey[key].chunk == key && Foremost(candidates, byKey[key])
    ensures forall hit :: Holds(candidates, hit) ==> hit.chunk in byKey
  {
    byKey := map[];
    for m := 0 to |candidates|
      invariant forall key :: key in byKey ==> byKey[key].chunk == key && Foremost(candidates, byKey[key])
      invariant forall i, j :: 0 <= i < m && 0 <= j < |candidates[i]| ==> candidates[i][j].chunk in byKey
    {
      for n := 0 to |candidates[m]|
        invariant forall key :: key in byKey ==> byKey[key].chunk == key && Foremost(candidates, byKey[key])
        invariant forall i, j :: 0 <= i < m && 0 <= j < |candidates[i]| ==> candidates[i][j].chunk in byKey
        invariant forall j :: 0 <= j < n ==> candidates[m][j].chunk in byKey
      {
        var hit := candidates[m][n];
        if hit.chunk !in byKey {
          assert ForemostAt(candidates, m, n);
          byKey := byKey[hit.chunk := hit];
        }
      }
    }
  }

  ghost predicate DistinctChunks(hits: seq<Hit>)
  {
    forall i, j :: 0 <= i < j < |hits| ==> hits[i].chunk != hits[j].chunk
  }

  lemma FusedChunksDistinct(candidates: seq<seq<Hit>>, k: nat, hits: seq<Hit>)
    requires k > 0 && FusedHits(candidates, k, hits)
    ensures DistinctChunks(hits)
  {
    hide Score, Named, Sorted;
    var fused: seq<Scored> :| FusionOf(Lists(candidates), k, fused) && |fused| == |hits|
                 && forall i :: 0 <= i < |hits| ==> hits[i].chunk == fused[i].key;
  }

  // ---- What is kept of the fused list ----

  /** The hits that are not a later copy of the same content; a hit without a content digest is kept. */
  function FirstCopies(hits: seq<Hit>): (r: seq<Hit>)
    ensures forall hit :: hit in r ==> hit in hits
  {
    if hits == [] then []
    else
      var n := |hits| - 1;
      var front := FirstCopies(hits[..n]);
      if hits[n].content.Some? && hits[n].content in Contents(hits[..n]) then front else front + [hits[n]]
  }

  function Contents(hits: seq<Hit>): set<Option<string>>
  {
    set hit | hit in hits :: hit.content
  }

  /** `dedupe`: one pass with a dictionary of the contents seen. */
  method Dedupe(hits: seq<Hit>) returns (kept: seq<Hit>)
    ensures kept == FirstCopies(hits)
  {
    var seen: set<Option<string>> := {};
    kept := [];
    for i := 0 to |hits|
      invariant kept == FirstCopies(hits[..i])
      invariant forall c :: c in seen <==> c.Some? && c in Contents(hits[..i])
    {
      assert hits[..i + 1][..i] == hits[..i] && hits[..i + 1] == hits[..i] + [hits[i]];
      assert Contents(hits[..i + 1]) == Contents(hits[..i]) + {hits[i].content};
      var content := hits[i].content;
      if content.None? {
        kept := kept + [hits[i]];
      } else if content !in seen {
        seen := seen + {content};
        kept := kept + [hits[i]];
      }
    }
    assert hits[..|hits|] == hits;
  }

  /** No content is kept twice, and every content of the fused list is still there. */
  lemma {:induction false} CopiesAreDropped(hits: seq<Hit>)
    ensures var r := FirstCopies(hits);
      && (forall i, j :: 0 <= i < j < |r| && r[i].content.Some? ==> r[i].content != r[j].content)
      && Contents(r) == Contents(hits)
    decreases |hits|
  {
    if hits != [] {
      var n := |hits| - 1;
      CopiesAreDropped(hits[..n]);
      assert hits == hits[..n] + [hits[n]];
      assert Contents(hits) == Contents(hits[..n]) + {hits[n].content};
      var front, r := FirstCopies(hits[..n]), FirstCopies(hits);
      assert forall i :: 0 <= i < |front| ==> front[i].content in Contents(front);
      if r != front {
        assert Contents(r) == Contents(front) + {hits[n].content};
      }
    }
  }

  lemma {:induction false} CopiesKeepDistinct(hits: seq<Hit>)
    requires DistinctChunks(hits)
    ensures DistinctChunks(FirstCopies(hits))
    decreases |hits|
  {
    if hits != [] {
      var n := |hits| - 1;
      CopiesKeepDistinct(hits[..n]);
      var front := FirstCopies(hits[..n]);
      forall i | 0 <= i < |front| ensures front[i].chunk != hits[n].chunk {
        assert front[i] in hits[..n];
        var m :| 0 <= m < n && hits[m] == front[i];
      }
    }
  }

  datatype Settings = Settings(rrfK: int, fusionCandidates: nat, maxCandidates: nat, maxTokens: nat)

  /** The hits that fit the two budgets, taken greedily in order, with the tokens they need. */
  function WithinBudget(cost: Hit -> nat, settings: Settings, hits: seq<Hit>): (r: (seq<Hit>, nat))
  {
    if hits == [] then ([], 0)
    else
      var n := |hits| - 1;
      var (front, tokens) := WithinBudget(cost, settings, hits[..n]);
      if |front| >= settings.maxCandidates || tokens + cost(hits[n]) > settings.maxTokens then (front, tokens)
      else (front + [hits[n]], tokens + cost(hits[n]))
  }

  /** `_rerank_input`. */
  method RerankInput(cost: Hit -> nat, settings: Settings, hits: seq<Hit>) returns (accepted: seq<Hit>)
    ensures accepted == WithinBudget(cost, settings, hits).0
  {
    accepted := [];
    var tokens := 0;
    for i := 0 to |hits|
      invariant (accepted, tokens) == WithinBudget(cost, settings, hits[..i])
    {
      assert hits[..i + 1][..i] == hits[..i];
      if |accepted| < settings.maxCandidates && tokens + cost(hits[i]) <= settings.maxTokens {
        accepted := accepted + [hits[i]];
        tokens := tokens + cost(hits[i]);
      }
    }
    assert hits[..|hits|] == hits;
  }

  lemma {:induction false} BudgetKeepsDistinct(cost: Hit -> nat, settings: Settings, hits: seq<Hit>)
    requires DistinctChunks(hits)
    ensures var (accepted, tokens) := WithinBudget(cost, settings, hits);
      && DistinctChunks(accepted) && (forall hit :: hit in accepted ==> hit in hits)
      && |accepted| <= settings.maxCandidates && tokens <= settings.maxTokens && tokens == TotalOf(cost, accepted)
    decreases |hits|
  {
    if hits != [] {
      var n := |hits| - 1;
      BudgetKeepsDistinct(cost, settings, hits[..n]);
      var front := WithinBudget(cost, settings, hits[..n]).0;
      assert hits == hits[..n] + [hits[n]];
      forall i | 0 <= i < |front| ensures front[i].chunk != hits[n].chunk {
        assert front[i] in hits[..n];
        var m :| 0 <= m < n && hits[m] == front[i];
      }
      TotalOfAppend(cost, front, [hits[n]]);
      assert [hits[n]][1..] == [];
    }
  }

  function Take(hits: seq<Hit>, n: nat): seq<Hit>
  {
    if |hits| <= n then hits else hits[..n]
  }

  /** What the stages after fusion leave of a fused list; the reranker is switched off and passes it on. */
  function Narrowed(cost: Hit -> nat, settings: Settings, hits: seq<Hit>): seq<Hit>
  {
    var n := settings.fusionCandidates;
    WithinBudget(cost, settings, Take(FirstCopies(Take(hits, n)), n)).0
  }

  /** What retrieval returns for the lists of its retrievers. */
  ghost predicate RetrievedFrom(candidates: seq<seq<Hit>>, cost: Hit -> nat, settings: Settings, ranked: seq<Hit>)
    requires settings.rrfK > 0
  {
    exists hits :: FusedHits(candidates, settings.rrfK, hits) && ranked == Narrowed(cost, settings, hits)
  }

  /** The ranking part of `retrieve`: fusion, cut, removal of copies, budget. */
  method Retrieve(dense: seq<Hit>, lexical: seq<Hit>, identifier: seq<Hit>, cost: Hit -> nat, settings: Settings)
    returns (ranked: Option<seq<Hit>>)
    ensures ranked.Some? <==> settings.rrfK > 0
    ensures ranked.Some? ==> RetrievedFrom([dense, lexical, identifier], cost, settings, ranked.value)
  {
    hide FusedHits;
    var fused := Fuse([dense, lexical, identifier], settings.rrfK);
    if fused.None? {
      return None;
    }
    var deduped := Dedupe(Take(fused.value, settings.fusionCandidates));
    var accepted := RerankInput(cost, settings, Take(deduped, settings.fusionCandidates));
    return Some(accepted);
  }

  // ---- What is kept, position by position ----

  /** `r` is what `hits` holds at the increasing positions `at`. */
  ghost predicate Picks(hits: seq<Hit>, at: seq<nat>, r: seq<Hit>)
  {
    && |r| == |at|
    && (forall k :: 0 <= k < |at| ==> at[k] < |hits| && r[k] == hits[at[k]])
    && (forall k, l :: 0 <= k < l < |at| ==> at[k] < at[l])
  }

  /** No hit before position `i` has the same content. */
  ghost predicate FirstCopyAt(hits: seq<Hit>, i: nat)
    requires i < |hits|
  {
    hits[i].content.None? || forall j :: 0 <= j < i ==> hits[j].content != hits[i].content
  }

  /** Just `c` of the positions lie before `i`. */
  ghost predicate Earlier(at: seq<nat>, i: nat, c: nat)
  {
    c <= |at| && (forall k :: 0 <= k < c ==> at[k] < i) && forall k :: c <= k < |at| ==> i <= at[k]
  }

  ghost predicate Fits(cost: Hit -> nat, settings: Settings, kept: seq<Hit>, hit: Hit)
  {
    |kept| < settings.maxCandidates && TotalOf(cost, kept) + cost(hit) <= settings.maxTokens
  }

  lemma PicksSnoc(hits: seq<Hit>, n: nat, at: seq<nat>, r: seq<Hit>)
    requires |hits| == n + 1 && Picks(hits[..n], at, r)
    ensures Picks(hits, at, r) && Picks(hits, at + [n], r + [hits[n]]) && n !in at
  {
    assert forall k :: 0 <= k < |at| ==> hits[..n][at[k]] == hits[at[k]];
  }

  lemma NewContent(hits: seq<Hit>, n: nat)
    requires |hits| == n + 1
    ensures FirstCopyAt(hits, n) <==> hits[n].content.None? || hits[n].content !in Contents(hits[..n])
    ensures forall i :: 0 <= i < n ==> (FirstCopyAt(hits[..n], i) <==> FirstCopyAt(hits, i))
  {
    var front := hits[..n];
    assert forall j :: 0 <= j < n ==> front[j] == hits[j] && front[j] in front;
  }

  lemma {:induction false} FirstCopiesExactly(hits: seq<Hit>) returns (at: seq<nat>)
    ensures Picks(hits, at, FirstCopies(hits))
    ensures forall i :: 0 <= i < |hits| ==> (i in at <==> FirstCopyAt(hits, i))
    decreases |hits|
  {
    at := [];
    if hits != [] {
      var n := |hits| - 1;
      var front := FirstCopiesExactly(hits[..n]);
      PicksSnoc(hits, n, front, FirstCopies(hits[..n]));
      NewContent(hits, n);
      hide FirstCopyAt, Contents;
      at := if FirstCopyAt(hits, n) then front + [n] else front;
      forall i | 0 <= i < n ensures i in at <==> FirstCopyAt(hits, i) {
        assert i in at <==> i in front;
      }
    }
  }

  /** Each hit is kept exactly when it fits with what was kept before it. */
  ghost predicate Greedy(cost: Hit -> nat, settings: Settings, hits: seq<Hit>, at: seq<nat>, r: seq<Hit>)
  {
    forall i: nat, c: nat :: i < |hits| && Earlier(at, i, c) && c <= |r| ==>
      (i in at <==> Fits(cost, settings, r[..c], hits[i]))
  }

  lemma {:induction false} BudgetExactly(cost: Hit -> nat, settings: Settings, hits: seq<Hit>) returns (at: seq<nat>)
    requires DistinctChunks(hits)
    ensures Picks(hits, at, WithinBudget(cost, settings, hits).0)
    ensures Greedy(cost, settings, hits, at, WithinBudget(cost, settings, hits).0)
    decreases |hits|
  {
    at := [];
    if hits != [] {
      var n := |hits| - 1;
      var front := BudgetExactly(cost, settings, hits[..n]);
      BudgetKeepsDistinct(cost, settings, hits[..n]);
      var before, r := WithinBudget(cost, settings, hits[..n]).0, WithinBudget(cost, settings, hits).0;
      PicksSnoc(hits, n, front, before);
      var fits := Fits(cost, settings, before, hits[n]);
      at := if fits then front + [n] else front;
      assert r == if fits then before + [hits[n]] else before;
      hide WithinBudget, Fits, Picks;
      GreedySnoc(cost, settings, hits, n, front, before, at, r);
    }
  }

  lemma GreedySnoc(cost: Hit -> nat, settings: Settings, hits: seq<Hit>, n: nat, front: seq<nat>, before: seq<Hit>,
                   at: seq<nat>, r: seq<Hit>)
    requires |hits| == n + 1 && |front| == |before| && n !in front && forall k :: 0 <= k < |front| ==> front[k] < n
    requires Greedy(cost, settings, hits[..n], front, before)
    requires var fits := Fits(cost, settings, before, hits[n]);
      at == (if fits then front + [n] else front) && r == if fits then before + [hits[n]] else before
    ensures Greedy(cost, settings, hits, at, r)
  {
    hide Fits;
    assert forall k :: 0 <= k < |at| ==> at[k] == if k < |front| then front[k] else n;
    assert |front| < |at| ==> at[|front|] == n;
    forall i: nat, c: nat | i < |hits| && Earlier(at, i, c) && c <= |r|
      ensures i in at <==> Fits(cost, settings, r[..c], hits[i])
    {
      if i < n {
        assert i in at <==> i in front;
        assert Earlier(front, i, c) && r[..c] == before[..c] && hits[..n][i] == hits[i];
      } else {
        assert Earlier(at, n, |front|);
        EarlierOnce(at, n, c, |front|);
        assert r[..c] == before;
      }
    }
  }

  lemma EarlierOnce(at: seq<nat>, i: nat, c: nat, d: nat)
    requires Earlier(at, i, c) && Earlier(at, i, d)
    ensures c == d
  {
    var k := if c < d then c else d;
    assert k < |at| ==> (k < c <==> at[k] < i) && (k < d <==> at[k] < i);
  }

  lemma TakeIsPrefix(hits: seq<Hit>, n: nat)
    ensures Take(hits, n) <= hits && |Take(hits, n)| == if n < |hits| then n else |hits|
  {
  }

  /** What goes on after fusion, as positions of the fused ranking: they increase, so the ranking is kept, and lie
      among the first `fusionCandidates`.  One of those is left out exactly when an earlier one has its content or
      it does not fit into the budgets with those kept before it. */
  lemma NarrowedExactly(cost: Hit -> nat, settings: Settings, hits: seq<Hit>) returns (at: seq<nat>)
    requires DistinctChunks(hits)
    ensures Picks(hits, at, Narrowed(cost, settings, hits))
    ensures forall i <- at :: i < settings.fusionCandidates
    ensures forall i: nat, c: nat :: i < |hits| && i < settings.fusionCandidates && Earlier(at, i, c) ==>
              (i in at <==> FirstCopyAt(hits, i) && Fits(cost, settings, Narrowed(cost, settings, hits)[..c], hits[i]))
  {
    var n, r := settings.fusionCandidates, Narrowed(cost, settings, hits);
    var taken := Take(hits, n);
    TakeIsPrefix(hits, n);
    var copies := FirstCopies(taken);
    CopiesKeepDistinct(taken);
    var first := FirstCopiesExactly(taken);
    PicksFew(taken, first, copies);
    var fitting := BudgetExactly(cost, settings, copies);
    assert r == WithinBudget(cost, settings, copies).0;
    hide Narrowed, FirstCopies, WithinBudget, Take, DistinctChunks, Fits, FirstCopyAt;
    at := PicksOfPicks(taken, first, copies, fitting, r);
    assert Picks(hits, at, r);
    forall i: nat, c: nat | i < |hits| && i < n && Earlier(at, i, c)
      ensures i in at <==> FirstCopyAt(hits, i) && Fits(cost, settings, r[..c], hits[i])
    {
      SameInPrefix(hits, taken, i);
      if i in first {
        var p :| 0 <= p < |first| && first[p] == i;
        StageOf(first, fitting, at, p, c);
      }
    }
  }

  lemma SameInPrefix(hits: seq<Hit>, taken: seq<Hit>, i: nat)
    requires taken <= hits && i < |taken|
    ensures taken[i] == hits[i] && (FirstCopyAt(taken, i) <==> FirstCopyAt(hits, i))
  {
    assert forall j :: 0 <= j <= i ==> taken[j] == hits[j];
  }

  lemma PicksOfPicks(hits: seq<Hit>, first: seq<nat>, copies: seq<Hit>, fitting: seq<nat>, r: seq<Hit>)
    returns (at: seq<nat>)
    requires Picks(hits, first, copies) && Picks(copies, fitting, r)
    ensures Picks(hits, at, r)
    ensures |at| == |fitting| && forall k :: 0 <= k < |at| ==> fitting[k] < |first| && at[k] == first[fitting[k]]
  {
    at := seq(|fitting|, k requires 0 <= k < |fitting| => first[fitting[k]]);
  }

  lemma RankingOf(candidates: seq<seq<Hit>>, k: nat, hits: seq<Hit>) returns (fused: seq<Scored>)
    requires k > 0 && FusedHits(candidates, k, hits)
    ensures FusionOf(Lists(candidates), k, fused) && |fused| == |hits|
    ensures forall i :: 0 <= i < |hits| ==> hits[i].chunk == fused[i].key && Foremost(candidates, hits[i])
  {
    var ranking: seq<Scored> :| FusionOf(Lists(candidates), k, ranking) && |ranking| == |hits|
                   && forall i :: 0 <= i < |hits| ==> hits[i].chunk == ranking[i].key;
    fused := ranking;
  }

  lemma PicksFew(hits: seq<Hit>, at: seq<nat>, r: seq<Hit>)
    requires Picks(hits, at, r)
    ensures |r| <= |hits|
  {
    if |at| > |hits| {
      Spread(at, |hits|);
    }
  }

  lemma {:induction false} Spread(at: seq<nat>, k: nat)
    requires forall k, l :: 0 <= k < l < |at| ==> at[k] < at[l]
    requires k < |at|
    ensures k <= at[k]
    decreases k
  {
    if k > 0 {
      Spread(at, k - 1);
    }
  }

  /** Positions of positions: what lies before `first[p]` is what lies before `p`. */
  lemma StageOf(first: seq<nat>, fitting: seq<nat>, at: seq<nat>, p: nat, c: nat)
    requires forall k, l :: 0 <= k < l < |first| ==> first[k] < first[l]
    requires |at| == |fitting| && forall k :: 0 <= k < |at| ==> fitting[k] < |first| && at[k] == first[fitting[k]]
    requires p < |first| && Earlier(at, first[p], c)
    ensures Earlier(fitting, p, c) && (first[p] in at <==> p in fitting)
  {
    forall k | 0 <= k < |at| ensures at[k] < first[p] <==> fitting[k] < p {
      assert fitting[k] < p || fitting[k] == p || p < fitting[k];
    }
    if first[p] in at {
      var k :| 0 <= k < |at| && at[k] == first[p];
      assert fitting[k] == p;
    }
    if p in fitting {
      var k :| 0 <= k < |fitting| && fitting[k] == p;
      assert at[k] == first[p];
    }
  }

  /** What retrieval returns are chunks of one fused ranking in its order, at positions before
      `fusionCandidates`. */
  lemma RetrievalKeepsRanking(candidates: seq<seq<Hit>>, cost: Hit -> nat, settings: Settings, ranked: seq<Hit>)
    returns (fused: seq<Scored>, at: seq<nat>)
    requires settings.rrfK > 0 && RetrievedFrom(candidates, cost, settings, ranked)
    ensures FusionOf(Lists(candidates), settings.rrfK, fused)
    ensures |at| == |ranked| && forall k, l :: 0 <= k < l < |at| ==> at[k] < at[l]
    ensures forall k :: 0 <= k < |at| ==>
              && at[k] < |fused| && at[k] < settings.fusionCandidates && ranked[k].chunk == fused[at[k]].key
              && Foremost(candidates, ranked[k])
  {
    hide FusionOf, Narrowed, Foremost, FusedHits;
    var hits :| FusedHits(candidates, settings.rrfK, hits) && ranked == Narrowed(cost, settings, hits);
    FusedChunksDistinct(candidates, settings.rrfK, hits);
    fused := RankingOf(candidates, settings.rrfK, hits);
    at := NarrowedExactly(cost, settings, hits);
    forall k | 0 <= k < |at|
      ensures at[k] < |fused| && at[k] < settings.fusionCandidates && ranked[k].chunk == fused[at[k]].key
      ensures Foremost(candidates, ranked[k])
    {
      assert at[k] in at && ranked[k] == hits[at[k]];
    }
  }

  /** Retrieval never returns a chunk twice, whatever the retrievers returned, and stays within its budgets. */
  lemma RetrievedChunksDistinct(candidates: seq<seq<Hit>>, cost: Hit -> nat, settings: Settings, ranked: seq<Hit>)
    requires settings.rrfK > 0 && RetrievedFrom(candidates, cost, settings, ranked)
    ensures NoRepeats(ChunksOf(ranked))
    ensures |ranked| <= settings.maxCandidates && TotalOf(cost, ranked) <= settings.maxTokens
    ensures forall hit :: hit in ranked ==> Holds(candidates, hit)
  {
    hide FusedHits, FirstCopies, WithinBudget, Holds, TotalOf;
    var n := settings.fusionCandidates;
    var hits :| FusedHits(candidates, settings.rrfK, hits) && ranked == Narrowed(cost, settings, hits);
    FusedChunksDistinct(candidates, settings.rrfK, hits);
    CopiesKeepDistinct(Take(hits, n));
    BudgetKeepsDistinct(cost, settings, Take(FirstCopies(Take(hits, n)), n));
    FusedAreHeld(candidates, settings.rrfK, hits);
    forall hit | hit in ranked ensures Holds(candidates, hit) {
      assert hit in FirstCopies(Take(hits, n));
      assert hit in hits;
    }
  }

  lemma FusedAreHeld(candidates: seq<seq<Hit>>, k: nat, hits: seq<Hit>)
    requires k > 0 && FusedHits(candidates, k, hits)
    ensures forall hit :: hit in hits ==> Holds(candidates, hit)
  {
    forall hit | hit in hits ensures Holds(candidates, hit) {
      assert Foremost(candidates, hit);
      var m, n :| 0 <= m < |candidates| && 0 <= n < |candidates[m]| && candidates[m][n] == hit
                  && ForemostAt(candidates, m, n);
    }
  }
}
