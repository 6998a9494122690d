/** Copying a database table by table, with circular links restored at the end.  A run may be stopped after
    any table or lost between any two commits, and is then started again from the beginning. */
module Migration {
  import opened Outcomes
  import opened Numbers

  datatype Table =
    | EmbeddingProfiles | Projects | Documents | DocumentVersions | SourceFiles | DocumentArtifacts
    | IngestionJobs | IngestionEvents | Chunks | ChunkEmbeddings | Conversations | Messages | MessageCitations

  const TABLES: seq<Table> := [
    EmbeddingProfiles, Projects, Documents, DocumentVersions, SourceFiles, DocumentArtifacts,
    IngestionJobs, IngestionEvents, Chunks, ChunkEmbeddings, Conversations, Messages, MessageCitations]

  /** The position of a table in that order. */
  function Rank(t: Table): (rank: nat)
    ensures rank < |TABLES| && TABLES[rank] == t
  {
    match t
    case EmbeddingProfiles => 0
    case Projects => 1
    case Documents => 2
    case DocumentVersions => 3
    case SourceFiles => 4
    case DocumentArtifacts => 5
    case IngestionJobs => 6
    case IngestionEvents => 7
    case Chunks => 8
    case ChunkEmbeddings => 9
    case Conversations => 10
    case Messages => 11
    case MessageCitations => 12
  }

  /** The table that the circular field of a table points to: documents.active_version_id and
      document_versions.normalized_artifact_id. */
  function LinkTarget(t: Table): Option<Table>
  {
    match t
    case Documents => Some(DocumentVersions)
    case DocumentVersions => Some(DocumentArtifacts)
    case _ => None
  }

  datatype Id = Id(table: Table, key: string)

  /** A row: its circular field, its other references, and its other columns. */
  datatype Row = Row(circular: Option<string>, references: set<Id>, columns: map<string, string>)

  type Database = map<Id, Row>

  predicate HasLink(id: Id)
  {
    LinkTarget(id.table).Some?
  }

  // ---- What the steps do ----

  /** A source row as it is inserted: a circular field is left out at first. */
  function Inserted(id: Id, row: Row): Row
  {
    if HasLink(id) then row.(circular := None) else row
  }

  function TableIds(source: Database, t: Table): (ids: set<Id>)
    ensures ids <= source.Keys
  {
    set id | id in source && id.table == t
  }

  function LinkIds(source: Database, t: Table): (ids: set<Id>)
    ensures forall id :: id in ids ==> id in source && source[id].circular.Some?
  {
    set id | id in source && id.table == t && source[id].circular.Some?
  }

  /** Insert some rows; rows that exist are kept as they are. */
  function WithRows(source: Database, target: Database, ids: set<Id>): Database
    requires ids <= source.Keys
  {
    map id | id in target.Keys + ids :: if id in target then target[id] else Inserted(id, source[id])
  }

  /** Set the circular field of some rows, where they exist. */
  function WithLinks(source: Database, target: Database, ids: set<Id>): Database
    requires ids <= source.Keys
  {
    map id | id in target :: if id in ids then target[id].(circular := source[id].circular) else target[id]
  }

  function Copied(source: Database, target: Database, t: Table): Database
  {
    WithRows(source, target, TableIds(source, t))
  }

  function Linked(source: Database, target: Database, t: Table): Database
  {
    WithLinks(source, target, LinkIds(source, t))
  }

  const STEPS := 15

  /** The committed state after step `k` of a run: one commit for each table, then one for each circular field. */
  function Step(source: Database, target: Database, k: nat): Database
  {
    if k < |TABLES| then Copied(source, target, TABLES[k])
    else if k == |TABLES| then Linked(source, target, Documents)
    else Linked(source, target, DocumentVersions)
  }

  function AfterSteps(source: Database, target: Database, n: nat): Database
  {
    if n == 0 then target else Step(source, AfterSteps(source, target, n - 1), n - 1)
  }

  function FullRun(source: Database, target: Database): Database
  {
    AfterSteps(source, target, STEPS)
  }

  /** A sequence of runs, each lost or stopped after that many commits. */
  function AfterRuns(source: Database, target: Database, stops: seq<nat>): Database
  {
    if stops == [] then target
    else AfterSteps(source, AfterRuns(source, target, stops[..|stops| - 1]), stops[|stops| - 1])
  }

  // ---- The result of a run, row by row ----

  /** A row that was in the target before: only its circular field can change. */
  function Overlaid(source: Database, id: Id, row: Row): Row
  {
    if HasLink(id) && id in source && source[id].circular.Some? then row.(circular := source[id].circular) else row
  }

  function Merged(source: Database, target: Database): Database
  {
    map id | id in target.Keys + source.Keys :: if id in target then Overlaid(source, id, target[id]) else source[id]
  }

  /** What any committed state on the way consists of, with the tables before `upTo` complete. */
  ghost predicate OnTheWay(source: Database, target: Database, state: Database, upTo: nat)
  {
    && target.Keys <= state.Keys <= target.Keys + source.Keys
    && (forall id :: id in source && Rank(id.table) < upTo ==> id in state)
    && (forall id :: id in target ==> state[id] == target[id] || state[id] == Overlaid(source, id, target[id]))
    && (forall id :: id in state && id !in target ==> state[id] == Inserted(id, source[id]) || state[id] == source[id])
  }

  lemma CopyOnTheWay(source: Database, target: Database, state: Database, k: nat)
    requires k < |TABLES| && OnTheWay(source, target, state, k)
    ensures OnTheWay(source, target, Copied(source, state, TABLES[k]), k + 1)
  {
    var next := Copied(source, state, TABLES[k]);
    forall id | id in source && Rank(id.table) < k + 1 ensures id in next {
      assert Rank(id.table) == k ==> id.table == TABLES[k];
    }
  }

  lemma LinkOnTheWay(source: Database, target: Database, state: Database, t: Table, upTo: nat)
    requires OnTheWay(source, target, state, upTo) && LinkTarget(t).Some?
    ensures OnTheWay(source, target, Linked(source, state, t), upTo)
  {
  }

  lemma {:induction false} StepsOnTheWay(source: Database, target: Database, state: Database, n: nat)
    requires OnTheWay(source, target, state, 0) && n <= STEPS
    ensures OnTheWay(source, target, AfterSteps(source, state, n), Min(n, |TABLES|))
    decreases n
  {
    hide OnTheWay, Copied, Linked;
    if n > 0 {
      StepsOnTheWay(source, target, state, n - 1);
      var before := AfterSteps(source, state, n - 1);
      if n - 1 < |TABLES| {
        CopyOnTheWay(source, target, before, n - 1);
      } else if n - 1 == |TABLES| {
        LinkOnTheWay(source, target, before, Documents, |TABLES|);
      } else {
        LinkOnTheWay(source, target, before, DocumentVersions, |TABLES|);
      }
    }
  }

  ghost predicate Commits(stops: seq<nat>)
  {
    forall i :: 0 <= i < |stops| ==> stops[i] <= STEPS
  }

  lemma {:induction false} RunsOnTheWay(source: Database, target: Database, stops: seq<nat>)
    requires Commits(stops)
    ensures OnTheWay(source, target, AfterRuns(source, target, stops), 0)
    decreases |stops|
  {
    if stops != [] {
      RunsOnTheWay(source, target, stops[..|stops| - 1]);
      StepsOnTheWay(source, target, AfterRuns(source, target, stops[..|stops| - 1]), stops[|stops| - 1]);
    }
  }

  lemma LastSteps(source: Database, target: Database)
    ensures FullRun(source, target)
            == Linked(source, Linked(source, AfterSteps(source, target, |TABLES|), Documents), DocumentVersions)
  {
    hide Copied, Linked;
    assert AfterSteps(source, target, 14) == Linked(source, AfterSteps(source, target, 13), Documents);
    assert AfterSteps(source, target, 15) == Step(source, AfterSteps(source, target, 14), 14);
  }

  /** Restoring both circular fields overlays a row once. */
  lemma LinkedTwice(source: Database, copied: Database, id: Id)
    requires id in copied
    ensures var final := Linked(source, Linked(source, copied, Documents), DocumentVersions);
      id in final && final[id] == Overlaid(source, id, copied[id])
  {
  }

  lemma LinkedRow(source: Database, target: Database, copied: Database, id: Id)
    requires OnTheWay(source, target, copied, |TABLES|) && id in copied
    ensures var final := Linked(source, Linked(source, copied, Documents), DocumentVersions);
      id in final && id in Merged(source, target) && final[id] == Merged(source, target)[id]
  {
    LinkedTwice(source, copied, id);
    hide Linked;
    assert id in source ==> source[id].circular.Some? || source[id].circular.None?;
  }

  /** From any state on the way, a run that completes ends in the same merged database. */
  lemma FullRunMerges(source: Database, target: Database, state: Database)
    requires OnTheWay(source, target, state, 0)
    ensures FullRun(source, state) == Merged(source, target)
  {
    hide OnTheWay, AfterSteps, FullRun, Linked, Merged;
    StepsOnTheWay(source, target, state, |TABLES|);
    LastSteps(source, state);
    var copied := AfterSteps(source, state, |TABLES|);
    CompleteKeys(source, target, copied);
    var final := Linked(source, Linked(source, copied, Documents), DocumentVersions);
    LinkedKeys(source, copied, Documents);
    LinkedKeys(source, Linked(source, copied, Documents), DocumentVersions);
    forall id | id in copied
      ensures id in final && id in Merged(source, target) && final[id] == Merged(source, target)[id]
    {
      LinkedRow(source, target, copied, id);
    }
    assert final.Keys == Merged(source, target).Keys;
  }

  lemma CompleteKeys(source: Database, target: Database, copied: Database)
    requires OnTheWay(source, target, copied, |TABLES|)
    ensures copied.Keys == target.Keys + source.Keys == Merged(source, target).Keys
  {
    forall id | id in source ensures id in copied {
      assert Rank(id.table) < |TABLES|;
    }
  }

  lemma LinkedKeys(source: Database, target: Database, t: Table)
    ensures Linked(source, target, t).Keys == target.Keys
  {
  }

  /** Resume safety: after any sequence of stopped and lost runs, one run that completes ends exactly where a
      single undisturbed run would have ended. */
  lemma ResumeEqualsOneShot(source: Database, target: Database, stops: seq<nat>)
    requires Commits(stops)
    ensures FullRun(source, AfterRuns(source, target, stops)) == FullRun(source, target) == Merged(source, target)
  {
    RunsOnTheWay(source, target, stops);
    FullRunMerges(source, target, AfterRuns(source, target, stops));
    FullRunMerges(source, target, target);
  }

  /** Rows that were only in the target are untouched by a run that completes, and it adds no row of its own. */
  lemma TargetRowsUntouched(source: Database, target: Database, stops: seq<nat>)
    requires Commits(stops)
    ensures var final := FullRun(source, AfterRuns(source, target, stops));
      && final.Keys == target.Keys + source.Keys
      && (forall id :: id in target && id !in source ==> final[id] == target[id])
  {
    ResumeEqualsOneShot(source, target, stops);
  }

  /** A row of both databases ends equal to the source row exactly when it agreed with it outside the circular
      field and does not hold a circular field where the source has none. */
  predicate Compatible(id: Id, before: Row, wanted: Row)
  {
    && before.references == wanted.references && before.columns == wanted.columns
    && (if HasLink(id) then wanted.circular.None? ==> before.circular.None? else before.circular == wanted.circular)
  }

  /** After a run that completes, every source row is equal in the target, circular fields included, exactly when
      the rows that were there before were compatible. */
  lemma FullRunArrivesExactly(source: Database, target: Database, stops: seq<nat>)
    requires Commits(stops)
    ensures var final := FullRun(source, AfterRuns(source, target, stops));
      (forall id :: id in source ==> id in final && final[id] == source[id])
      <==> (forall id :: id in source && id in target ==> Compatible(id, target[id], source[id]))
  {
    ResumeEqualsOneShot(source, target, stops);
    hide FullRun, AfterRuns, AfterSteps;
    var final := Merged(source, target);
    forall id | id in source && id in target
      ensures final[id] == source[id] <==> Compatible(id, target[id], source[id])
    {
      var before, wanted := target[id], source[id];
      assert before == Row(before.circular, before.references, before.columns);
      assert wanted == Row(wanted.circular, wanted.references, wanted.columns);
      assert wanted.circular.None? || wanted.circular.Some?;
    }
  }

  /** A link that the source does not have (any more) survives every run. */
  lemma StaleLinkStays()
    ensures var id := Id(Documents, "d");
      var source, target := map[id := Row(None, {}, map[])], map[id := Row(Some("v"), {}, map[])];
      id in FullRun(source, target) && FullRun(source, target)[id] != source[id]
  {
    var id := Id(Documents, "d");
    var source, target := map[id := Row(None, {}, map[])], map[id := Row(Some("v"), {}, map[])];
    FullRunMerges(source, target, target);
    hide FullRun;
    assert Merged(source, target)[id] == Row(Some("v"), {}, map[]);
  }

  // ---- References ----

  ghost predicate RowResolves(db: Database, id: Id)
    requires id in db
  {
    && (forall r :: r in db[id].references ==> r in db)
    && (HasLink(id) && db[id].circular.Some? ==> Id(LinkTarget(id.table).value, db[id].circular.value) in db)
  }

  ghost predicate Resolves(db: Database)
  {
    forall id :: id in db ==> RowResolves(db, id)
  }

  /** Apart from circular fields, references point to the same table or to one copied earlier. */
  ghost predicate Layered(db: Database)
  {
    forall id, r :: id in db && r in db[id].references ==> Rank(r.table) <= Rank(id.table)
  }

  /** The tables that the foreign keys of a table point to, in the schema of the target. */
  function ForeignKeys(t: Table): set<Table>
  {
    match t
    case EmbeddingProfiles => {}
    case Projects => {}
    case Documents => {Projects, DocumentVersions}
    case DocumentVersions => {Documents, DocumentArtifacts}
    case SourceFiles => {DocumentVersions}
    case DocumentArtifacts => {DocumentVersions}
    case IngestionJobs => {DocumentVersions}
    case IngestionEvents => {IngestionJobs}
    case Chunks => {Documents, DocumentVersions, SourceFiles, Chunks}
    case ChunkEmbeddings => {Chunks, EmbeddingProfiles}
    case Conversations => {Projects}
    case Messages => {Conversations}
    case MessageCitations => {Messages, Chunks, Documents, DocumentVersions, SourceFiles}
  }

  /** The fields left out at first are exactly the foreign keys that point to a table copied later. */
  lemma CircularFieldsPointLater(t: Table, other: Table)
    ensures LinkTarget(t) == Some(other) <==> other in ForeignKeys(t) && Rank(t) < Rank(other)
  {
  }

  /** References follow the foreign keys of the schema; the circular fields are apart. */
  ghost predicate FollowsSchema(db: Database)
  {
    forall id, r :: id in db && r in db[id].references ==>
      r.table in ForeignKeys(id.table) && LinkTarget(id.table) != Some(r.table)
  }

  /** The order of the copy fits the schema. */
  lemma SchemaIsLayered(db: Database)
    requires FollowsSchema(db)
    ensures Layered(db)
  {
    forall id, r | id in db && r in db[id].references ensures Rank(r.table) <= Rank(id.table) {
      CircularFieldsPointLater(id.table, r.table);
    }
  }

  lemma CopyResolves(source: Database, target: Database, state: Database, k: nat)
    requires Resolves(source) && Layered(source) && Resolves(state)
    requires k < |TABLES| && OnTheWay(source, target, state, k)
    ensures Resolves(Copied(source, state, TABLES[k]))
  {
    var next := Copied(source, state, TABLES[k]);
    forall id | id in next ensures RowResolves(next, id) {
      if id in state {
        assert RowResolves(state, id);
      } else {
        assert RowResolves(source, id) && id.table == TABLES[k];
        RankOfTable(k);
        forall r | r in next[id].references ensures r in next {
          assert Rank(r.table) <= Rank(id.table);
        }
      }
    }
  }

  lemma RankOfTable(k: nat)
    requires k < |TABLES|
    ensures Rank(TABLES[k]) == k
  {
  }

  lemma LinkResolves(source: Database, target: Database, state: Database, t: Table)
    requires Resolves(source) && Resolves(state) && OnTheWay(source, target, state, |TABLES|)
    ensures Resolves(Linked(source, state, t))
  {
    var next := Linked(source, state, t);
    forall id | id in next ensures RowResolves(next, id) {
      assert RowResolves(state, id);
      if id in source {
        assert RowResolves(source, id);
        forall other | other in source ensures other in next {
          assert Rank(other.table) < |TABLES|;
        }
      }
    }
  }

  lemma {:induction false} StepsResolve(source: Database, target: Database, state: Database, n: nat)
    requires Resolves(source) && Layered(source) && Resolves(state)
    requires OnTheWay(source, target, state, 0) && n <= STEPS
    ensures Resolves(AfterSteps(source, state, n))
    decreases n
  {
    hide Resolves, OnTheWay, Copied, Linked;
    if n > 0 {
      var before := AfterSteps(source, state, n - 1);
      StepsResolve(source, target, state, n - 1);
      StepsOnTheWay(source, target, state, n - 1);
      if n - 1 < |TABLES| {
        CopyResolves(source, target, before, n - 1);
      } else if n - 1 == |TABLES| {
        LinkResolves(source, target, before, Documents);
      } else {
        LinkResolves(source, target, before, DocumentVersions);
      }
    }
  }

  /** All references resolve at every committed state of every sequence of interrupted runs, circular ones
      included, when they do in both databases and other references point to the same or earlier tables. */
  lemma {:induction false} EveryCommitResolves(source: Database, target: Database, stops: seq<nat>, n: nat)
    requires Resolves(source) && Layered(source) && Resolves(target)
    requires Commits(stops) && n <= STEPS
    ensures Resolves(AfterSteps(source, AfterRuns(source, target, stops), n))
    decreases |stops|
  {
    var state := AfterRuns(source, target, stops);
    RunsOnTheWay(source, target, stops);
    if stops != [] {
      var before := stops[..|stops| - 1];
      EveryCommitResolves(source, target, before, stops[|stops| - 1]);
    }
    StepsResolve(source, target, state, n);
  }

  // ---- The constraints of the target ----

  /** The values of a row that no other row may have: the name of a project, the number of a version of a
      document, and being the active embedding profile. */
  datatype Unique = ProjectName(name: string) | VersionNumber(document: Id, number: string) | ActiveProfile

  function UniqueKeys(id: Id, row: Row): set<Unique>
  {
    match id.table
    case Projects => if "name" in row.columns then {ProjectName(row.columns["name"])} else {}
    case DocumentVersions =>
      if "version_no" in row.columns then
        set r | r in row.references && r.table == Documents :: VersionNumber(r, row.columns["version_no"])
      else {}
    case EmbeddingProfiles =>
      if "is_active" in row.columns && row.columns["is_active"] == "true" then {ActiveProfile} else {}
    case _ => {}
  }

  /** Two rows share no unique value. */
  predicate Apart(a: Id, x: Row, b: Id, y: Row)
  {
    UniqueKeys(a, x) !! UniqueKeys(b, y)
  }

  /** No other row has a unique value of this one. */
  predicate KeysFree(db: Database, id: Id, row: Row)
  {
    forall other :: other in db && other != id ==> Apart(other, db[other], id, row)
  }

  /** Two rows share a unique value exactly when they are projects of the same name, versions of the same document
      with the same number, or both active embedding profiles. */
  lemma ApartExactly(a: Id, x: Row, b: Id, y: Row)
    ensures !Apart(a, x, b, y) <==>
              && a.table == b.table
              && ((a.table == Projects && Shared("name", x, y))
                  || (a.table == DocumentVersions && Shared("version_no", x, y)
                      && exists r :: r in x.references && r in y.references && r.table == Documents)
                  || (a.table == EmbeddingProfiles && Shared("is_active", x, y) && x.columns["is_active"] == "true"))
  {
    if a.table == b.table == DocumentVersions && Shared("version_no", x, y) {
      if r :| r in x.references && r in y.references && r.table == Documents {
        assert VersionNumber(r, x.columns["version_no"]) in UniqueKeys(a, x);
        assert VersionNumber(r, x.columns["version_no"]) in UniqueKeys(b, y);
      }
    }
    if a.table == b.table == Projects && Shared("name", x, y) {
      assert ProjectName(x.columns["name"]) in UniqueKeys(a, x) && ProjectName(x.columns["name"]) in UniqueKeys(b, y);
    }
    if a.table == b.table == EmbeddingProfiles && Shared("is_active", x, y) && x.columns["is_active"] == "true" {
      assert ActiveProfile in UniqueKeys(a, x) && ActiveProfile in UniqueKeys(b, y);
    }
  }

  predicate Shared(column: string, x: Row, y: Row)
  {
    column in x.columns && column in y.columns && x.columns[column] == y.columns[column]
  }

  lemma TablesShareNoKeys(a: Id, x: Row, b: Id, y: Row)
    requires a.table != b.table
    ensures Apart(a, x, b, y)
  {
  }

  /** `order` lists the source rows of a table by primary key. */
  ghost predicate Listing(source: Database, t: Table, order: seq<Id>)
  {
    && (forall i, j :: 0 <= i < j < |order| ==> order[i] != order[j])
    && (forall id :: id in order <==> id in TableIds(source, t))
  }

  ghost predicate Listings(source: Database, orders: map<Table, seq<Id>>)
  {
    forall t :: t in orders && Listing(source, t, orders[t])
  }

  predicate RefersWithin(db: Database, id: Id, row: Row)
  {
    forall r :: r in row.references ==> r in db || r == id
  }

  /** A row can be inserted: what it refers to is there, or is the row itself, and its unique values are free. */
  predicate Admitted(db: Database, id: Id, row: Row)
  {
    RefersWithin(db, id, row) && KeysFree(db, id, row)
  }

  /** Inserting the rows one by one, each checked at once; None when one is refused. */
  function InsertAll(source: Database, db: Database, order: seq<Id>): Option<Database>
    requires forall id :: id in order ==> id in source
    decreases |order|
  {
    if order == [] then Some(db)
    else
      var id := order[0];
      if id in db then InsertAll(source, db, order[1..])
      else if !Admitted(db, id, source[id]) then None
      else InsertAll(source, db[id := Inserted(id, source[id])], order[1..])
  }

  /** Each row that is missing refers only to rows that are there or come no later in the order. */
  ghost predicate RefsInOrder(source: Database, db: Database, order: seq<Id>)
    requires forall id :: id in order ==> id in source
  {
    forall k, r :: 0 <= k < |order| && order[k] !in db && r in source[order[k]].references ==>
      r in db || r in order[..k + 1]
  }

  /** No row that is missing shares a unique value with a row that is there, or with another missing one. */
  ghost predicate KeysInOrder(source: Database, db: Database, order: seq<Id>)
    requires forall id :: id in order ==> id in source
  {
    && (forall k :: 0 <= k < |order| && order[k] !in db ==> KeysFree(db, order[k], source[order[k]]))
    && (forall m, k :: 0 <= m < k < |order| && order[m] !in db && order[k] !in db ==>
          Apart(order[m], source[order[m]], order[k], source[order[k]]))
  }

  ghost predicate Insertable(source: Database, db: Database, order: seq<Id>)
    requires forall id :: id in order ==> id in source
  {
    RefsInOrder(source, db, order) && KeysInOrder(source, db, order)
  }

  lemma {:induction false} InsertAllSucceeds(source: Database, db: Database, order: seq<Id>)
    requires forall id :: id in order ==> id in source
    requires forall i, j :: 0 <= i < j < |order| ==> order[i] != order[j]
    ensures InsertAll(source, db, order).Some? <==> Insertable(source, db, order)
    decreases |order|
  {
    hide RefsInOrder, KeysInOrder, RefersWithin, KeysFree, Inserted;
    if order == [] {
      NothingToInsert(source, db, order);
    } else {
      var id, rest := order[0], order[1..];
      var next := if id in db then db else db[id := Inserted(id, source[id])];
      InsertAllSucceeds(source, next, rest);
      RefsStep(source, db, next, order);
      KeysStep(source, db, next, order);
    }
  }

  lemma NothingToInsert(source: Database, db: Database, order: seq<Id>)
    requires order == []
    ensures Insertable(source, db, order)
  {
  }

  lemma {:induction false} InsertAllRows(source: Database, db: Database, order: seq<Id>)
    requires forall id :: id in order ==> id in source
    requires InsertAll(source, db, order).Some?
    ensures InsertAll(source, db, order).value == WithRows(source, db, set id | id in order)
    decreases |order|
  {
    hide Admitted;
    if order != [] {
      var id, rest := order[0], order[1..];
      var next := if id in db then db else db[id := Inserted(id, source[id])];
      InsertAllRows(source, next, rest);
      assert (set other | other in order) == {id} + (set other | other in rest);
      WithRowsStep(source, db, next, id, set other | other in rest);
    }
  }

  lemma WithRowsStep(source: Database, db: Database, next: Database, id: Id, rest: set<Id>)
    requires id in source && rest <= source.Keys
    requires next == if id in db then db else db[id := Inserted(id, source[id])]
    ensures WithRows(source, next, rest) == WithRows(source, db, {id} + rest)
  {
  }

  lemma RefsStep(source: Database, db: Database, next: Database, order: seq<Id>)
    requires order != [] && forall id :: id in order ==> id in source
    requires forall i, j :: 0 <= i < j < |order| ==> order[i] != order[j]
    requires next == if order[0] in db then db else db[order[0] := Inserted(order[0], source[order[0]])]
    ensures RefsInOrder(source, db, order)
            <==> (&& (order[0] in db || RefersWithin(db, order[0], source[order[0]]))
                  && RefsInOrder(source, next, order[1..]))
  {
    var id, rest := order[0], order[1..];
    assert forall k :: 0 <= k < |rest| ==> rest[k] == order[k + 1] && order[..k + 2] == [id] + rest[..k + 1];
    assert order[..1] == [id];
    if RefsInOrder(source, db, order) {
      forall k, r | 0 <= k < |rest| && rest[k] !in next && r in source[rest[k]].references
        ensures r in next || r in rest[..k + 1]
      {
        assert order[k + 1] !in db && r in source[order[k + 1]].references;
        assert r in db || r in order[..k + 2];
      }
      if id !in db {
        forall r | r in source[id].references ensures r in db || r == id {
          assert order[0] !in db && r in source[order[0]].references;
        }
      }
    }
    if (id in db || RefersWithin(db, id, source[id])) && RefsInOrder(source, next, rest) {
      forall k, r | 0 <= k < |order| && order[k] !in db && r in source[order[k]].references
        ensures r in db || r in order[..k + 1]
      {
        if k > 0 {
          assert rest[k - 1] !in next && r in source[rest[k - 1]].references;
          assert order[..k + 1] == [id] + rest[..k];
        }
      }
    }
  }

  lemma KeysStep(source: Database, db: Database, next: Database, order: seq<Id>)
    requires order != [] && forall id :: id in order ==> id in source
    requires forall i, j :: 0 <= i < j < |order| ==> order[i] != order[j]
    requires next == if order[0] in db then db else db[order[0] := Inserted(order[0], source[order[0]])]
    ensures KeysInOrder(source, db, order)
            <==> (order[0] in db || KeysFree(db, order[0], source[order[0]])) && KeysInOrder(source, next, order[1..])
  {
    hide KeysFree, Apart, Inserted, KeysInOrder;
    if KeysInOrder(source, db, order) {
      KeysForth(source, db, next, order);
    }
    if (order[0] in db || KeysFree(db, order[0], source[order[0]])) && KeysInOrder(source, next, order[1..]) {
      KeysBack(source, db, next, order);
    }
  }

  lemma KeysForth(source: Database, db: Database, next: Database, order: seq<Id>)
    requires order != [] && forall id :: id in order ==> id in source
    requires forall i, j :: 0 <= i < j < |order| ==> order[i] != order[j]
    requires next == if order[0] in db then db else db[order[0] := Inserted(order[0], source[order[0]])]
    requires KeysInOrder(source, db, order)
    ensures (order[0] in db || KeysFree(db, order[0], source[order[0]])) && KeysInOrder(source, next, order[1..])
  {
    var id, rest := order[0], order[1..];
    SameKeys(id, source[id]);
    hide Apart, Inserted;
    assert forall k :: 0 <= k < |rest| ==> rest[k] == order[k + 1];
    forall k | 0 <= k < |rest| && rest[k] !in next ensures KeysFree(next, rest[k], source[rest[k]]) {
      assert order[k + 1] !in db && KeysFree(db, order[k + 1], source[order[k + 1]]);
      assert id !in db ==> Apart(order[0], source[order[0]], order[k + 1], source[order[k + 1]]);
    }
  }

  lemma KeysBack(source: Database, db: Database, next: Database, order: seq<Id>)
    requires order != [] && forall id :: id in order ==> id in source
    requires forall i, j :: 0 <= i < j < |order| ==> order[i] != order[j]
    requires next == if order[0] in db then db else db[order[0] := Inserted(order[0], source[order[0]])]
    requires (order[0] in db || KeysFree(db, order[0], source[order[0]])) && KeysInOrder(source, next, order[1..])
    ensures KeysInOrder(source, db, order)
  {
    var id, rest := order[0], order[1..];
    SameKeys(id, source[id]);
    hide Apart, Inserted;
    assert forall k :: 0 < k < |order| ==> order[k] == rest[k - 1] && order[k] != id;
    forall k | 0 <= k < |order| && order[k] !in db ensures KeysFree(db, order[k], source[order[k]]) {
      if k > 0 {
        assert rest[k - 1] !in next && KeysFree(next, rest[k - 1], source[rest[k - 1]]);
        forall other | other in db && other != order[k] ensures Apart(other, db[other], order[k], source[order[k]]) {
          assert other in next && next[other] == db[other];
        }
      }
    }
    forall m, k | 0 <= m < k < |order| && order[m] !in db && order[k] !in db
      ensures Apart(order[m], source[order[m]], order[k], source[order[k]])
    {
      assert rest[k - 1] !in next && KeysFree(next, rest[k - 1], source[rest[k - 1]]);
      if m > 0 {
        assert rest[m - 1] !in next;
      } else {
        assert id in next && next[id] == Inserted(id, source[id]);
      }
    }
  }

  lemma SameKeys(id: Id, row: Row)
    ensures forall b, y :: Apart(id, Inserted(id, row), b, y) <==> Apart(id, row, b, y)
  {
  }

  /** The links of one circular field can be set: the rows they name are there. */
  predicate Linkable(source: Database, db: Database, t: Table)
    requires LinkTarget(t).Some?
  {
    forall id :: id in LinkIds(source, t) && id in db ==> Id(LinkTarget(t).value, source[id].circular.value) in db
  }

  /** Whether the next step of a run is accepted by the constraints of the target. */
  ghost predicate Accepted(source: Database, db: Database, orders: map<Table, seq<Id>>, k: nat)
    requires Listings(source, orders)
  {
    if k < |TABLES| then Insertable(source, db, orders[TABLES[k]])
    else if k == |TABLES| then Linkable(source, db, Documents)
    else Linkable(source, db, DocumentVersions)
  }

  /** No step of a run is refused. */
  ghost predicate Completes(source: Database, db: Database, orders: map<Table, seq<Id>>)
    requires Listings(source, orders)
  {
    forall k :: 0 <= k < STEPS ==> Accepted(source, AfterSteps(source, db, k), orders, k)
  }

  /** Within one table: a row still missing refers to rows of the table that are there or not later. */
  ghost predicate ParentsFirst(source: Database, db: Database, t: Table, order: seq<Id>)
    requires forall id :: id in order ==> id in source
  {
    forall k, r :: 0 <= k < |order| && order[k] !in db && r in source[order[k]].references && r.table == t ==>
      r in db || r in order[..k + 1]
  }

  /** What the rows of one table must satisfy before a run: parents first, and no unique value taken. */
  ghost predicate Fits(source: Database, db: Database, t: Table, order: seq<Id>)
    requires forall id :: id in order ==> id in source
  {
    ParentsFirst(source, db, t, order) && KeysInOrder(source, db, order)
  }

  ghost predicate AllFit(source: Database, db: Database, orders: map<Table, seq<Id>>)
    requires Listings(source, orders)
  {
    forall t :: t in orders ==> Fits(source, db, t, orders[t])
  }

  /** Two databases that hold the same rows of a table. */
  ghost predicate SameTable(a: Database, b: Database, t: Table)
  {
    forall id: Id :: id.table == t ==> (id in a <==> id in b) && (id in a ==> a[id] == b[id])
  }

  /** The steps of earlier tables leave a later one as it is. */
  lemma {:induction false} TableUntilCopied(source: Database, db: Database, n: nat, t: Table)
    requires n <= Rank(t)
    ensures SameTable(AfterSteps(source, db, n), db, t)
    decreases n
  {
    if n > 0 {
      TableUntilCopied(source, db, n - 1, t);
      RankOfTable(n - 1);
    }
  }

  lemma FitsByTable(source: Database, a: Database, b: Database, t: Table, order: seq<Id>)
    requires Listing(source, t, order) && SameTable(a, b, t) && Fits(source, a, t, order)
    ensures Fits(source, b, t, order)
  {
    hide UniqueKeys, TableIds;
    assert forall k :: 0 <= k < |order| ==> order[k] in order && order[k] in TableIds(source, t);
    InTable(source, t, order);
    forall k | 0 <= k < |order| && order[k] !in b ensures KeysFree(b, order[k], source[order[k]]) {
      assert order[k] !in a && KeysFree(a, order[k], source[order[k]]);
      forall other | other in b && other != order[k]
        ensures Apart(other, b[other], order[k], source[order[k]])
      {
        if other.table != t { TablesShareNoKeys(other, b[other], order[k], source[order[k]]); }
      }
    }
  }

  lemma InTable(source: Database, t: Table, order: seq<Id>)
    requires Listing(source, t, order)
    ensures forall k :: 0 <= k < |order| ==> order[k] in source && order[k].table == t
  {
    assert forall k :: 0 <= k < |order| ==> order[k] in order;
  }

  lemma InsertableExactly(source: Database, target: Database, state: Database, k: nat, order: seq<Id>)
    requires Resolves(source) && Layered(source) && OnTheWay(source, target, state, 0)
    requires k < |TABLES| && Listing(source, TABLES[k], order)
    ensures Insertable(source, AfterSteps(source, state, k), order) <==> Fits(source, state, TABLES[k], order)
  {
    var db, t := AfterSteps(source, state, k), TABLES[k];
    hide Resolves, Layered, OnTheWay, AfterSteps, TableIds, KeysInOrder, RefsInOrder, ParentsFirst, SameTable;
    StepsOnTheWay(source, target, state, k);
    RankOfTable(k);
    TableUntilCopied(source, state, k, t);
    InTable(source, t, order);
    EarlierTablesThere(source, target, db, k, order);
    RefsByTable(source, db, t, order);
    if Fits(source, db, t, order) { FitsByTable(source, db, state, t, order); }
    if Fits(source, state, t, order) { FitsByTable(source, state, db, t, order); }
  }

  lemma EarlierTablesThere(source: Database, target: Database, db: Database, k: nat, order: seq<Id>)
    requires Resolves(source) && Layered(source) && k < |TABLES| && OnTheWay(source, target, db, k)
    requires forall n :: 0 <= n < |order| ==> order[n] in source && order[n].table == TABLES[k]
    ensures forall n, r :: 0 <= n < |order| && r in source[order[n]].references && r.table != TABLES[k] ==> r in db
  {
    RankOfTable(k);
    forall n, r | 0 <= n < |order| && r in source[order[n]].references && r.table != TABLES[k] ensures r in db {
      assert RowResolves(source, order[n]);
      assert Rank(r.table) <= k;
      assert TABLES[Rank(r.table)] == r.table;
    }
  }

  lemma RefsByTable(source: Database, db: Database, t: Table, order: seq<Id>)
    requires forall id :: id in order ==> id in source
    requires forall n, r :: 0 <= n < |order| && r in source[order[n]].references && r.table != t ==> r in db
    ensures RefsInOrder(source, db, order) <==> ParentsFirst(source, db, t, order)
  {
  }

  lemma LinksAccepted(source: Database, target: Database, db: Database, t: Table)
    requires Resolves(source) && OnTheWay(source, target, db, |TABLES|) && LinkTarget(t).Some?
    ensures Linkable(source, db, t)
  {
    forall id | id in LinkIds(source, t) ensures Id(LinkTarget(t).value, source[id].circular.value) in db {
      assert RowResolves(source, id);
      assert Rank(LinkTarget(t).value) < |TABLES|;
    }
  }

  /** The steps that restore links are never refused once all tables are copied. */
  lemma LinkStepsAccepted(source: Database, target: Database, state: Database, orders: map<Table, seq<Id>>, k: nat)
    requires Resolves(source) && OnTheWay(source, target, state, 0) && Listings(source, orders)
    requires |TABLES| <= k < STEPS
    ensures Accepted(source, AfterSteps(source, state, k), orders, k)
  {
    hide Resolves, OnTheWay, AfterSteps, Linkable, Insertable;
    StepsOnTheWay(source, target, state, k);
    var db := AfterSteps(source, state, k);
    LinksAccepted(source, target, db, Documents);
    LinksAccepted(source, target, db, DocumentVersions);
  }

  /** A run from any state on the way completes exactly when, within each table, every row still missing comes
      no earlier in key order than the rows of the table it refers to, or finds them there, and shares no
      unique value with a row that is there or with another missing one. */
  lemma CompletesExactly(source: Database, target: Database, state: Database, orders: map<Table, seq<Id>>)
    requires Resolves(source) && Layered(source) && OnTheWay(source, target, state, 0) && Listings(source, orders)
    ensures Completes(source, state, orders) <==> AllFit(source, state, orders)
  {
    hide Resolves, Layered, OnTheWay, Insertable, Fits, AfterSteps, Linkable;
    forall k | 0 <= k < |TABLES|
      ensures Accepted(source, AfterSteps(source, state, k), orders, k)
              <==> Fits(source, state, TABLES[k], orders[TABLES[k]])
    {
      InsertableExactly(source, target, state, k, orders[TABLES[k]]);
    }
    forall k | |TABLES| <= k < STEPS ensures Accepted(source, AfterSteps(source, state, k), orders, k) {
      LinkStepsAccepted(source, target, state, orders, k);
    }
    if Completes(source, state, orders) {
      forall t | t in orders ensures Fits(source, state, t, orders[t]) {
        assert TABLES[Rank(t)] == t;
        assert Accepted(source, AfterSteps(source, state, Rank(t)), orders, Rank(t));
      }
    }
  }

  /** For a source that follows the schema only chunks can come before their parents, and only projects, versions and
      embedding profiles can clash. */
  lemma SchemaCompletesExactly(source: Database, target: Database, state: Database, orders: map<Table, seq<Id>>)
    requires Resolves(source) && FollowsSchema(source) && OnTheWay(source, target, state, 0)
    requires Listings(source, orders)
    ensures Completes(source, state, orders) <==>
              && ParentsFirst(source, state, Chunks, orders[Chunks])
              && forall t :: t in {Projects, DocumentVersions, EmbeddingProfiles} ==> KeysInOrder(source, state, orders[t])
  {
    SchemaIsLayered(source);
    CompletesExactly(source, target, state, orders);
    hide Completes, OnTheWay, Resolves, Layered, FollowsSchema, ParentsFirst, KeysInOrder;
    forall t | t in orders && t != Chunks ensures ParentsFirst(source, state, t, orders[t]) {
      OnlyChunksRefer(source, state, t, orders[t]);
    }
    forall t | t in orders && t !in {Projects, DocumentVersions, EmbeddingProfiles}
      ensures KeysInOrder(source, state, orders[t])
    {
      FewKeys(source, state, t, orders[t]);
    }
  }

  lemma OnlyChunksRefer(source: Database, state: Database, t: Table, order: seq<Id>)
    requires FollowsSchema(source) && Listing(source, t, order) && t != Chunks
    ensures ParentsFirst(source, state, t, order)
  {
    InTable(source, t, order);
    hide TableIds;
    forall k, r | 0 <= k < |order| && r in source[order[k]].references ensures r.table != t {
      assert r.table in ForeignKeys(t);
    }
  }

  lemma FewKeys(source: Database, state: Database, t: Table, order: seq<Id>)
    requires Listing(source, t, order) && t !in {Projects, DocumentVersions, EmbeddingProfiles}
    ensures KeysInOrder(source, state, order)
  {
    InTable(source, t, order);
    hide TableIds;
    assert forall k :: 0 <= k < |order| ==> UniqueKeys(order[k], source[order[k]]) == {};
  }

  /** What a run has inserted takes no unique value from the rows that are still missing. */
  lemma FitsOnTheWay(source: Database, target: Database, state: Database, t: Table, order: seq<Id>)
    requires OnTheWay(source, target, state, 0) && Listing(source, t, order) && Fits(source, target, t, order)
    ensures Fits(source, state, t, order)
  {
    InTable(source, t, order);
    hide UniqueKeys, Inserted, TableIds;
    forall k | 0 <= k < |order| && order[k] !in state ensures KeysFree(state, order[k], source[order[k]]) {
      assert order[k] !in target && KeysFree(target, order[k], source[order[k]]);
      forall other | other in state && other != order[k]
        ensures Apart(other, state[other], order[k], source[order[k]])
      {
        OnTheWayKeys(source, target, state, other);
        if other.table != t {
          TablesShareNoKeys(other, state[other], order[k], source[order[k]]);
        } else if other !in target {
          assert other in TableIds(source, t) by { InIds(source, other); }
          var m :| 0 <= m < |order| && order[m] == other;
          assert m < k || k < m;
        }
      }
    }
  }

  lemma InIds(source: Database, id: Id)
    requires id in source
    ensures id in TableIds(source, id.table)
  {
  }

  lemma OnTheWayKeys(source: Database, target: Database, state: Database, id: Id)
    requires OnTheWay(source, target, state, 0) && id in state
    ensures id in target || id in source
    ensures UniqueKeys(id, state[id]) == UniqueKeys(id, if id in target then target[id] else source[id])
  {
  }

  /** Stopping and starting again never makes a run fail that would have completed at once. */
  lemma ResumedRunCompletes(source: Database, target: Database, stops: seq<nat>, orders: map<Table, seq<Id>>)
    requires Resolves(source) && Layered(source) && Listings(source, orders) && Commits(stops)
    requires Completes(source, target, orders)
    ensures Completes(source, AfterRuns(source, target, stops), orders)
  {
    hide Resolves, Layered, Completes, AfterRuns, Fits;
    var state := AfterRuns(source, target, stops);
    RunsOnTheWay(source, target, stops);
    CompletesExactly(source, target, target, orders);
    CompletesExactly(source, target, state, orders);
    forall t | t in orders ensures Fits(source, state, t, orders[t]) {
      FitsOnTheWay(source, target, state, t, orders[t]);
    }
  }

  /** A run that the target refuses is refused again, however often it is repeated: the tables it copied
      before do not change what is missing from the refused one. */
  lemma RefusedAgain(source: Database, target: Database, state: Database, orders: map<Table, seq<Id>>, k: nat)
    requires Resolves(source) && Layered(source) && OnTheWay(source, target, state, 0) && Listings(source, orders)
    requires k < |TABLES| && !Accepted(source, AfterSteps(source, state, k), orders, k)
    ensures var left := AfterSteps(source, state, k);
      !Accepted(source, AfterSteps(source, left, k), orders, k)
  {
    hide Resolves, Layered, Insertable, AfterSteps, Fits, SameTable;
    var left := AfterSteps(source, state, k);
    var t, order := TABLES[k], orders[TABLES[k]];
    RankOfTable(k);
    StepsOnTheWay(source, target, state, k);
    OnTheWayWeaken(source, target, left, Min(k, |TABLES|));
    InsertableExactly(source, target, state, k, order);
    InsertableExactly(source, target, left, k, order);
    TableUntilCopied(source, state, k, t);
    if Fits(source, left, t, order) { FitsByTable(source, left, state, t, order); }
  }

  // ---- Runs that may be refused ----

  /** How many steps a run commits from step `k` on before one is refused. */
  ghost function Reached(source: Database, db: Database, orders: map<Table, seq<Id>>, k: nat): (n: nat)
    requires Listings(source, orders) && k <= STEPS
    ensures k <= n <= STEPS
    ensures forall i :: k <= i < n ==> Accepted(source, AfterSteps(source, db, i), orders, i)
    ensures n < STEPS ==> !Accepted(source, AfterSteps(source, db, n), orders, n)
    decreases STEPS - k
  {
    if k == STEPS || !Accepted(source, AfterSteps(source, db, k), orders, k) then k
    else Reached(source, db, orders, k + 1)
  }

  /** A run that is stopped or lost after at most `stop` commits. */
  ghost function RunTo(source: Database, db: Database, orders: map<Table, seq<Id>>, stop: nat): Database
    requires Listings(source, orders)
  {
    AfterSteps(source, db, Min(stop, Reached(source, db, orders, 0)))
  }

  /** What a run commits, as `Execute` states it, is what `RunTo` says. */
  lemma CommitsAreReached(source: Database, db: Database, orders: map<Table, seq<Id>>, planned: nat, commits: nat)
    requires Listings(source, orders) && commits <= planned <= STEPS
    requires forall k :: 0 <= k < commits ==> Accepted(source, AfterSteps(source, db, k), orders, k)
    requires commits < planned ==> !Accepted(source, AfterSteps(source, db, commits), orders, commits)
    ensures AfterSteps(source, db, commits) == RunTo(source, db, orders, planned)
  {
    hide Accepted, AfterSteps;
  }

  /** A sequence of runs, each stopped, lost or refused. */
  ghost function Attempts(source: Database, target: Database, orders: map<Table, seq<Id>>, stops: seq<nat>): Database
    requires Listings(source, orders)
  {
    if stops == [] then target
    else RunTo(source, Attempts(source, target, orders, stops[..|stops| - 1]), orders, stops[|stops| - 1])
  }

  lemma RunIsCut(source: Database, db: Database, orders: map<Table, seq<Id>>, stop: nat) returns (cut: nat)
    requires Listings(source, orders)
    ensures cut <= STEPS && cut <= Reached(source, db, orders, 0)
    ensures RunTo(source, db, orders, stop) == AfterSteps(source, db, cut)
  {
    hide AfterSteps, Accepted, Listings;
    cut := Min(stop, Reached(source, db, orders, 0));
  }

  /** Refused runs are runs that end after the steps they committed. */
  lemma {:induction false} AttemptsAreRuns(source: Database, target: Database, orders: map<Table, seq<Id>>,
                                           stops: seq<nat>)
    returns (cuts: seq<nat>)
    requires Listings(source, orders)
    ensures Commits(cuts) && AfterRuns(source, target, cuts) == Attempts(source, target, orders, stops)
    decreases |stops|
  {
    hide RunTo, AfterSteps, Listing;
    cuts := [];
    if stops != [] {
      var front := AttemptsAreRuns(source, target, orders, stops[..|stops| - 1]);
      var before := Attempts(source, target, orders, stops[..|stops| - 1]);
      var cut := RunIsCut(source, before, orders, stops[|stops| - 1]);
      cuts := front + [cut];
      assert cuts[..|cuts| - 1] == front;
    }
  }

  lemma ReachedAll(source: Database, db: Database, orders: map<Table, seq<Id>>)
    requires Listings(source, orders)
    ensures Completes(source, db, orders) <==> Reached(source, db, orders, 0) == STEPS
  {
    hide Accepted, AfterSteps;
  }

  /** As long as a table does not fit, no run gets past it or changes it. */
  lemma {:induction false} StaysRefused(source: Database, target: Database, orders: map<Table, seq<Id>>,
                                        stops: seq<nat>, k: nat)
    requires Resolves(source) && Layered(source) && Listings(source, orders)
    requires k < |TABLES| && !Fits(source, target, TABLES[k], orders[TABLES[k]])
    ensures SameTable(Attempts(source, target, orders, stops), target, TABLES[k])
    ensures Reached(source, Attempts(source, target, orders, stops), orders, 0) <= k
    decreases |stops|
  {
    hide Resolves, Layered, Fits, Insertable, AfterSteps, OnTheWay, Linkable;
    var t := TABLES[k];
    RankOfTable(k);
    var state := Attempts(source, target, orders, stops);
    if stops != [] {
      var before := Attempts(source, target, orders, stops[..|stops| - 1]);
      StaysRefused(source, target, orders, stops[..|stops| - 1], k);
      TableUntilCopied(source, before, Min(stops[|stops| - 1], Reached(source, before, orders, 0)), t);
    }
    var cuts := AttemptsAreRuns(source, target, orders, stops);
    RunsOnTheWay(source, target, cuts);
    InsertableExactly(source, target, state, k, orders[t]);
    if Fits(source, state, t, orders[t]) { FitsByTable(source, state, target, t, orders[t]); }
    assert !Accepted(source, AfterSteps(source, state, k), orders, k);
  }

  /** Retrying decides nothing: after any stopped, lost or refused runs, a run completes exactly when the first
      one would have. */
  lemma RetryDecidesNothing(source: Database, target: Database, orders: map<Table, seq<Id>>, stops: seq<nat>)
    requires Resolves(source) && Layered(source) && Listings(source, orders)
    ensures Completes(source, Attempts(source, target, orders, stops), orders) <==> Completes(source, target, orders)
  {
    hide Resolves, Layered, Completes, Attempts, Fits, AfterRuns, Reached;
    var cuts := AttemptsAreRuns(source, target, orders, stops);
    if Completes(source, target, orders) {
      ResumedRunCompletes(source, target, cuts, orders);
    } else {
      var k := Misfit(source, target, orders);
      StaysRefused(source, target, orders, stops, k);
      ReachedAll(source, Attempts(source, target, orders, stops), orders);
    }
  }

  lemma Misfit(source: Database, target: Database, orders: map<Table, seq<Id>>) returns (k: nat)
    requires Resolves(source) && Layered(source) && Listings(source, orders)
    requires !Completes(source, target, orders)
    ensures k < |TABLES| && !Fits(source, target, TABLES[k], orders[TABLES[k]])
  {
    hide Resolves, Layered, Completes, Fits;
    CompletesExactly(source, target, target, orders);
    var t :| t in orders && !Fits(source, target, t, orders[t]);
    k := Rank(t);
  }

  lemma MisfitIsMissing(source: Database, target: Database, t: Table, order: seq<Id>) returns (id: Id)
    requires Listing(source, t, order) && !Fits(source, target, t, order)
    ensures id in source && id !in target && id.table == t
  {
    hide UniqueKeys, TableIds, Apart;
    InTable(source, t, order);
    if n, r :| 0 <= n < |order| && order[n] !in target && r in source[order[n]].references && r.table == t
               && r !in target && r !in order[..n + 1] {
      id := order[n];
    } else if n :| 0 <= n < |order| && order[n] !in target && !KeysFree(target, order[n], source[order[n]]) {
      id := order[n];
    } else {
      var m, n :| 0 <= m < n < |order| && order[m] !in target && order[n] !in target
                  && !(Apart(order[m], source[order[m]], order[n], source[order[n]]));
      id := order[n];
    }
  }

  /** Every source row ends equal in the target, circular fields included, after any runs and one more, exactly
      when a run completes and the rows that were there before are compatible. */
  lemma SourceArrivesExactly(source: Database, target: Database, orders: map<Table, seq<Id>>, stops: seq<nat>)
    requires Resolves(source) && Layered(source) && Listings(source, orders)
    ensures var final := RunTo(source, Attempts(source, target, orders, stops), orders, STEPS);
      (forall id :: id in source ==> id in final && final[id] == source[id])
      <==> Completes(source, target, orders)
           && forall id :: id in source && id in target ==> Compatible(id, target[id], source[id])
  {
    hide Resolves, Layered, Completes, Attempts, Fits, AfterRuns, AfterSteps, FullRun, Compatible, Reached;
    var state := Attempts(source, target, orders, stops);
    RetryDecidesNothing(source, target, orders, stops);
    ReachedAll(source, state, orders);
    if Completes(source, target, orders) {
      var cuts := AttemptsAreRuns(source, target, orders, stops);
      FullRunArrivesExactly(source, target, cuts);
      FullRunIs(source, state);
    } else {
      var k := Misfit(source, target, orders);
      var id := MisfitIsMissing(source, target, TABLES[k], orders[TABLES[k]]);
      StaysRefused(source, target, orders, stops + [STEPS], k);
      LastAttempt(source, target, orders, stops);
    }
  }

  lemma FullRunIs(source: Database, target: Database)
    ensures FullRun(source, target) == AfterSteps(source, target, STEPS)
  {
  }

  lemma LastAttempt(source: Database, target: Database, orders: map<Table, seq<Id>>, stops: seq<nat>)
    requires Listings(source, orders)
    ensures Attempts(source, target, orders, stops + [STEPS])
            == RunTo(source, Attempts(source, target, orders, stops), orders, STEPS)
  {
    assert (stops + [STEPS])[..|stops|] == stops;
  }

  // ---- A target as its schema creates it ----

  /** The embedding profile that the schema inserts. */
  const DEFAULT_PROFILE := Id(EmbeddingProfiles, "00000000-0000-4000-8000-000000000001")

  ghost predicate FreshTarget(target: Database)
  {
    target.Keys == {DEFAULT_PROFILE} && UniqueKeys(DEFAULT_PROFILE, target[DEFAULT_PROFILE]) == {ActiveProfile}
  }

  /** No two source rows share a unique value. */
  ghost predicate OwnKeysFree(source: Database)
  {
    forall id :: id in source ==> KeysFree(source, id, source[id])
  }

  /** Into a fresh target, a source that is in order itself can be copied exactly when its active embedding
      profile, if it has one, is the very profile that the schema inserts. */
  lemma FreshTargetExactly(source: Database, target: Database, orders: map<Table, seq<Id>>)
    requires Resolves(source) && Layered(source) && Listings(source, orders) && FreshTarget(target)
    requires OwnKeysFree(source) && forall t :: t in orders ==> ParentsFirst(source, target, t, orders[t])
    ensures Completes(source, target, orders)
            <==> forall id :: id in source && ActiveProfile in UniqueKeys(id, source[id]) ==> id == DEFAULT_PROFILE
  {
    hide Resolves, Layered, Completes, ParentsFirst;
    CompletesExactly(source, target, target, orders);
    forall t | t in orders
      ensures KeysInOrder(source, target, orders[t])
              <==> OnlyDefaultActive(source, t)
    {
      FreshKeys(source, target, t, orders[t]);
    }
    hide KeysInOrder;
    assert forall id: Id :: id.table in orders;
  }

  ghost predicate OnlyDefaultActive(source: Database, t: Table)
  {
    forall id :: id in source && id.table == t && ActiveProfile in UniqueKeys(id, source[id]) ==> id == DEFAULT_PROFILE
  }

  lemma FreshKeys(source: Database, target: Database, t: Table, order: seq<Id>)
    requires FreshTarget(target) && OwnKeysFree(source) && Listing(source, t, order)
    ensures KeysInOrder(source, target, order)
            <==> OnlyDefaultActive(source, t)
  {
    hide UniqueKeys, TableIds;
    InTable(source, t, order);
    forall m, k | 0 <= m < k < |order| ensures Apart(order[m], source[order[m]], order[k], source[order[k]]) {
      assert KeysFree(source, order[k], source[order[k]]) && order[m] in source;
    }
    if KeysInOrder(source, target, order) {
      forall id | id in source && id.table == t && ActiveProfile in UniqueKeys(id, source[id])
        ensures id == DEFAULT_PROFILE
      {
        InIds(source, id);
        var k :| 0 <= k < |order| && order[k] == id;
        assert DEFAULT_PROFILE in target;
      }
    }
  }

  /** A source whose active profile has another identity is refused at the first table by every run, and nothing
      is ever committed. */
  lemma {:induction false} ForeignProfileIsRefused(source: Database, target: Database, orders: map<Table, seq<Id>>,
                                                   stops: seq<nat>, held: Id, profile: Id)
    requires Listings(source, orders)
    requires held in target && ActiveProfile in UniqueKeys(held, target[held])
    requires profile in source && profile !in target && ActiveProfile in UniqueKeys(profile, source[profile])
    ensures Attempts(source, target, orders, stops) == target && Reached(source, target, orders, 0) == 0
    decreases |stops|
  {
    assert profile.table == EmbeddingProfiles == TABLES[0];
    var order := orders[TABLES[0]];
    InIds(source, profile);
    var k :| 0 <= k < |order| && order[k] == profile;
    assert !KeysFree(target, order[k], source[order[k]]);
    hide KeysInOrder, RefsInOrder, UniqueKeys;
    assert AfterSteps(source, target, 0) == target;
    if stops != [] {
      ForeignProfileIsRefused(source, target, orders, stops[..|stops| - 1], held, profile);
    }
  }

  /** A chunk whose key comes before its parent's: the copy of the chunks is refused. */
  lemma ChildBeforeParent()
    ensures var child, parent := Id(Chunks, "a"), Id(Chunks, "b");
      var source := map[child := Row(None, {parent}, map[]), parent := Row(None, {}, map[])];
      && InsertAll(source, map[], [child, parent]).None?
      && InsertAll(source, map[], [parent, child]) == Some(source)
  {
    var child, parent := Id(Chunks, "a"), Id(Chunks, "b");
    assert child.key[0] != parent.key[0];
    var source := map[child := Row(None, {parent}, map[]), parent := Row(None, {}, map[])];
    var first: Database := map[parent := source[parent]];
    assert [parent, child][1..] == [child] && [child][1..] == [];
    assert !HasLink(child) && !HasLink(parent) && source[parent].references == {}
           && source[child].references == {parent};
    assert InsertAll(source, first, [child]) == InsertAll(source, first[child := source[child]], []);
    assert first[child := source[child]] == source;
  }

  lemma OnTheWayWeaken(source: Database, target: Database, state: Database, upTo: nat)
    requires OnTheWay(source, target, state, upTo)
    ensures OnTheWay(source, target, state, 0)
  {
  }

  /** A fresh target and a source with one active profile of another identity: the first insert is refused. */
  lemma FreshTargetRefuses()
    ensures var row, profile := Row(None, {}, map["is_active" := "true"]), Id(EmbeddingProfiles, "p");
      var source, target := map[profile := row], map[DEFAULT_PROFILE := row];
      FreshTarget(target) && OwnKeysFree(source) && InsertAll(source, target, [profile]).None?
  {
    var row, profile := Row(None, {}, map["is_active" := "true"]), Id(EmbeddingProfiles, "p");
    var target: Database := map[DEFAULT_PROFILE := row];
    assert |profile.key| == 1 && |DEFAULT_PROFILE.key| == 36;
    assert UniqueKeys(DEFAULT_PROFILE, row) == UniqueKeys(profile, row) == {ActiveProfile};
    assert ActiveProfile in UniqueKeys(DEFAULT_PROFILE, target[DEFAULT_PROFILE]);
    assert !KeysFree(target, profile, row);
  }

  // ---- The program ----

  lemma LinkOne(source: Database, target: Database, done: set<Id>, id: Id)
    requires done <= source.Keys && id in source && id !in done
    ensures var before := WithLinks(source, target, done);
      WithLinks(source, target, done + {id})
      == if id in before then before[id := before[id].(circular := source[id].circular)] else before
  {
  }

  lemma NoLinks(source: Database, target: Database)
    ensures WithLinks(source, target, {}) == target
    ensures forall ids: set<Id> :: ids - ids == {}
  {
  }

  lemma InsertedAll(source: Database, target: Database, ids: set<Id>)
    requires ids <= source.Keys
    ensures ids <= WithRows(source, target, ids).Keys
  {
  }

  lemma InsertTurn(source: Database, db: Database, order: seq<Id>, n: nat)
    requires n < |order| && forall id :: id in order ==> id in source
    ensures var id := order[n];
      InsertAll(source, db, order[n..])
      == if id in db then InsertAll(source, db, order[n + 1..])
         else if !Admitted(db, id, source[id]) then None
         else InsertAll(source, db[id := Inserted(id, source[id])], order[n + 1..])
  {
    hide Admitted, Inserted;
    assert order[n..][0] == order[n] && order[n..][1..] == order[n + 1..];
  }

  lemma InsertNone(source: Database, db: Database, order: seq<Id>)
    requires order == []
    ensures InsertAll(source, db, order) == Some(db)
  {
  }

  /** A connection to the target: what is committed, and the open transaction over it. */
  class Target {
    var committed: Database
    var open: Database

    constructor (rows: Database)
      ensures committed == rows && open == rows
    {
      committed, open := rows, rows;
    }

    method Commit()
      modifies this
      ensures committed == open == old(open)
    {
      committed := open;
    }

    method Rollback()
      modifies this
      ensures committed == open == old(committed)
    {
      open := committed;
    }

    /** Inserts rows one by one in the open transaction, until one is refused. */
    method InsertRows(source: Database, order: seq<Id>) returns (inserted: bool)
      requires forall id :: id in order ==> id in source
      modifies this`open
      ensures inserted <==> InsertAll(source, old(open), order).Some?
      ensures inserted ==> InsertAll(source, old(open), order) == Some(open)
    {
      hide Inserted, Admitted, InsertAll;
      ghost var goal := InsertAll(source, open, order);
      var n := 0;
      assert order[0..] == order;
      while n < |order|
        invariant 0 <= n <= |order| && InsertAll(source, open, order[n..]) == goal
      {
        var id := order[n];
        InsertTurn(source, open, order, n);
        if id !in open {
          if !Admitted(open, id, source[id]) {
            return false;
          }
          open := open[id := Inserted(id, source[id])];
        }
        n := n + 1;
      }
      InsertNone(source, open, order[n..]);
      return true;
    }

    /** Inserts the rows of one table in key order and commits, then verifies that every source identity is
        there.  A row refused by a foreign key or a unique key ends it, with nothing committed. */
    method CopyTable(source: Database, t: Table, order: seq<Id>) returns (copied: bool)
      requires open == committed && Listing(source, t, order)
      modifies this
      ensures open == committed
      ensures copied <==> Insertable(source, old(committed), order)
      ensures committed == if copied then Copied(source, old(committed), t) else old(committed)
    {
      InsertAllSucceeds(source, committed, order);
      if InsertAll(source, committed, order).Some? {
        InsertAllRows(source, committed, order);
      }
      assert (set id | id in order) == TableIds(source, t);
      hide WithRows, Insertable, TableIds, InsertAll;
      var inserted := InsertRows(source, order);
      if !inserted {
        Rollback();
        return false;
      }
      Commit();
      var wanted := TableIds(source, t);
      InsertedAll(source, old(committed), wanted);
      var found := set id | id in committed && id in wanted;
      assert found == wanted;
      return |found| == |wanted| && found == wanted;
    }

    /** Restores one circular field and commits; a link refused by its foreign key ends it. */
    method RestoreLink(source: Database, t: Table) returns (restored: bool)
      requires open == committed && LinkTarget(t).Some?
      modifies this
      ensures open == committed
      ensures restored <==> Linkable(source, old(committed), t)
      ensures committed == if restored then Linked(source, old(committed), t) else old(committed)
    {
      var wanted := LinkIds(source, t);
      var left := wanted;
      hide WithLinks, LinkIds;
      NoLinks(source, committed);
      while left != {}
        invariant left <= wanted && committed == old(committed)
        invariant open == WithLinks(source, committed, wanted - left)
        invariant open.Keys == committed.Keys
        invariant forall id :: id in wanted - left && id in committed ==>
                    Id(LinkTarget(t).value, source[id].circular.value) in committed
        decreases |left|
      {
        var id :| id in left;
        LinkOne(source, committed, wanted - left, id);
        if id in open {
          if Id(LinkTarget(t).value, source[id].circular.value) !in open {
            Rollback();
            return false;
          }
          open := open[id := open[id].(circular := source[id].circular)];
        }
        assert wanted - left + {id} == wanted - (left - {id});
        left := left - {id};
      }
      assert wanted - left == wanted;
      Commit();
      return true;
    }

    /** One run: all tables and links, or the tables up to the one it is told to stop after.  `commits` says
        how many steps were committed; the step after them was refused unless the run was through. */
    method Execute(source: Database, orders: map<Table, seq<Id>>, apply: bool, stopAfter: Option<Table>)
      returns (complete: bool, commits: nat)
      requires open == committed && Listings(source, orders)
      modifies this
      ensures open == committed == AfterSteps(source, old(committed), commits)
      ensures var planned := if !apply then 0 else if stopAfter.Some? then Rank(stopAfter.value) + 1 else STEPS;
        && commits <= planned
        && (forall k :: 0 <= k < commits ==> Accepted(source, AfterSteps(source, old(committed), k), orders, k))
        && (commits < planned ==>
              !complete && !Accepted(source, AfterSteps(source, old(committed), commits), orders, commits))
        && (complete <==> commits == planned && (!apply || stopAfter.None?))
    {
      hide Copied, Linked, Rank, Insertable, Linkable;
      commits := 0;
      if !apply {
        return true, 0;
      }
      ghost var start := committed;
      while commits < |TABLES|
        invariant 0 <= commits <= |TABLES|
        invariant open == committed == AfterSteps(source, start, commits)
        invariant forall k :: 0 <= k < commits ==> Accepted(source, AfterSteps(source, start, k), orders, k)
        invariant stopAfter.Some? ==> commits <= Rank(stopAfter.value)
      {
        var t := TABLES[commits];
        var copied := CopyTable(source, t, orders[t]);
        if !copied {
          return false, commits;
        }
        commits := commits + 1;
        if stopAfter == Some(t) {
          RankOfTable(commits - 1);
          return false, commits;
        }
        assert stopAfter.Some? ==> commits - 1 != Rank(stopAfter.value);
      }
      for k := 0 to 2
        invariant commits == |TABLES| + k
        invariant open == committed == AfterSteps(source, start, commits)
        invariant forall n :: 0 <= n < commits ==> Accepted(source, AfterSteps(source, start, n), orders, n)
      {
        var restored := RestoreLink(source, if k == 0 then Documents else DocumentVersions);
        if !restored {
          return false, commits;
        }
        commits := commits + 1;
      }
      return true, commits;
    }
  }
}
