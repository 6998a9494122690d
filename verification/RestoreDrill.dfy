/** The restore drill, and the round trip from backup to restored bucket. */
module RestoreDrill {
  import opened Outcomes
  import opened Sorting
  import opened RealSums
  import opened Octets
  import opened BackupObjects
  import opened BackupRestore

  // ---- The restore loop ----

  /** The bucket that the drill creates.  What a put leaves there is up to the store: `arrived`. */
  class TargetBucket {
    var objects: map<string, Bytes>

    constructor ()
      ensures objects == map[]
    {
      objects := map[];
    }

    method Put(name: string, arrived: Bytes)
      modifies this
      ensures objects == old(objects)[name := arrived]
    {
      objects := objects[name := arrived];
    }
  }

  ghost predicate ArrivedIntact(prepared: seq<(Item, Bytes)>, arrived: seq<Bytes>, k: nat)
    requires k <= |prepared| && |arrived| == |prepared|
  {
    forall i :: 0 <= i < k ==> Sha(arrived[i]) == prepared[i].0.payload
  }

  /** The names and contents of a list, later entries over earlier ones. */
  function BucketOf(prepared: seq<(Item, Bytes)>): map<string, Bytes>
  {
    if prepared == [] then map[]
    else
      var last := prepared[|prepared| - 1];
      BucketOf(prepared[..|prepared| - 1])[last.0.name := last.1]
  }

  /** Puts every object, reads it back and compares digests.  It completes exactly when every object arrived
      intact, and then the bucket holds what was prepared. */
  method RestoreObjects(bucket: TargetBucket, prepared: seq<(Item, Bytes)>, arrived: seq<Bytes>) returns (ok: bool)
    requires |arrived| == |prepared|
    requires forall i :: 0 <= i < |prepared| ==> prepared[i].0.payload == Sha(prepared[i].1)
    requires bucket.objects == map[]
    modifies bucket
    ensures ok <==> ArrivedIntact(prepared, arrived, |prepared|)
    ensures ok ==> bucket.objects == BucketOf(prepared)
  {
    for n := 0 to |prepared|
      invariant ArrivedIntact(prepared, arrived, n)
      invariant bucket.objects == BucketOf(prepared[..n])
    {
      var (item, content) := prepared[n];
      assert prepared[..n + 1][..n] == prepared[..n];
      bucket.Put(item.name, arrived[n]);
      var restored := bucket.objects[item.name];
      if Sha(restored) != item.payload {
        return false;
      }
    }
    assert prepared[..|prepared|] == prepared;
    return true;
  }

  // ---- Reconciliation and receipt ----

  datatype Reconciliation = Reconciliation(references: nat, objects: nat, missing: nat, orphans: nat)

  function Reconcile(dbKeys: set<string>, objectKeys: set<string>): Reconciliation
  {
    Reconciliation(|dbKeys|, |objectKeys|, |dbKeys - objectKeys|, |objectKeys - dbKeys|)
  }

  datatype Smoke = Smoke(migration: bool, auth: bool, retrieval: bool, citation: bool)

  predicate AllSmokes(s: Smoke)
  {
    s.migration && s.auth && s.retrieval && s.citation
  }

  predicate CountsOk(r: Reconciliation)
  {
    r.references <= MAX_OBJECTS && r.objects <= MAX_OBJECTS && r.missing <= MAX_OBJECTS && r.orphans <= MAX_OBJECTS
  }

  datatype Receipt = Receipt(passed: bool, reconciliation: Reconciliation, smoke: Smoke)

  function RestoreReceipt(completed: real, started: real, finished: real, r: Reconciliation, smoke: Smoke): Result<Receipt>
  {
    if started < completed || finished < started then Err("restore timing order is invalid")
    else if !CountsOk(r) then Err("restore reconciliation count is malformed")
    else Ok(Receipt(r.missing == 0 && r.orphans == 0 && AllSmokes(smoke), r, smoke))
  }

  /** Nothing is missing and nothing orphaned exactly when the database and the bucket name the same keys. */
  lemma ReconciledExactly(dbKeys: set<string>, objectKeys: set<string>)
    ensures var r := Reconcile(dbKeys, objectKeys); r.missing == 0 && r.orphans == 0 <==> dbKeys == objectKeys
  {
    if |dbKeys - objectKeys| == 0 && |objectKeys - dbKeys| == 0 {
      assert dbKeys - objectKeys == {} && objectKeys - dbKeys == {};
    }
  }

  /** The drill: validation, restore into a new bucket, reconciliation, receipt. */
  method RunRestoreDrill(mac: Mac, files: Files, m: Manifest, arrived: seq<Bytes>, dbKeys: set<string>, smoke: Smoke,
                         started: real, finished: real) returns (r: Result<Receipt>, bucket: TargetBucket)
    requires |arrived| == |m.inventory|
    ensures fresh(bucket)
    ensures r.Ok? <==>
              && MaterialsOk(mac, files, m)
              && ArrivedIntact(Prepared(files, m.inventory), arrived, |m.inventory|)
              && |dbKeys| <= MAX_OBJECTS && m.completed <= started <= finished
    ensures r.Ok? ==>
              && bucket.objects == BucketOf(Prepared(files, m.inventory))
              && (r.value.passed <==> dbKeys == bucket.objects.Keys && smoke == Smoke(true, true, true, true))
              && r.value.smoke == smoke
              && var counted := r.value.reconciliation;
                 && counted.references == |dbKeys| && counted.objects == |bucket.objects|
                 && counted.missing == |dbKeys - bucket.objects.Keys|
                 && counted.orphans == |bucket.objects.Keys - dbKeys|
  {
    bucket := new TargetBucket();
    var validated := ValidateMaterials(mac, files, m);
    if validated.Err? {
      return Err(validated.reason), bucket;
    }
    var prepared := validated.value;
    PreparedFits(mac, files, m);
    hide MaterialsOk, ItemOk;
    var restored := RestoreObjects(bucket, prepared, arrived);
    BucketSize(prepared);
    hide BucketOf, Prepared, ArrivedIntact;
    if !restored {
      return Err("restored object payload hash mismatch"), bucket;
    }
    if |dbKeys| > MAX_OBJECTS {
      return Err("restored database smoke failed"), bucket;
    }
    var objectKeys := bucket.objects.Keys;
    DifferencesFit(dbKeys, objectKeys);
    ReconciledExactly(dbKeys, objectKeys);
    r := RestoreReceipt(m.completed, started, finished, Reconcile(dbKeys, objectKeys), smoke);
  }

  lemma PreparedFits(mac: Mac, files: Files, m: Manifest)
    requires MaterialsOk(mac, files, m)
    ensures |m.inventory| <= MAX_OBJECTS
    ensures forall i :: 0 <= i < |m.inventory| ==> m.inventory[i].nameSha in files.objects
    ensures var prepared := Prepared(files, m.inventory);
      forall i :: 0 <= i < |prepared| ==> prepared[i].0.payload == Sha(prepared[i].1)
  {
    assert forall i :: 0 <= i < |m.inventory| ==> ItemOk(mac, files, m.inventory[i]);
  }

  lemma {:induction false} BucketSize(prepared: seq<(Item, Bytes)>)
    ensures |BucketOf(prepared)| <= |prepared|
    decreases |prepared|
  {
    if prepared != [] {
      var front, last := prepared[..|prepared| - 1], prepared[|prepared| - 1];
      BucketSize(front);
      var before := BucketOf(front);
      assert before[last.0.name := last.1].Keys == before.Keys + {last.0.name};
    }
  }

  lemma DifferencesFit(a: set<string>, b: set<string>)
    ensures |a - b| <= |a| && |b - a| <= |b|
  {
    assert a - b <= a && b - a <= b;
    SubsetFits(a - b, a);
    SubsetFits(b - a, b);
  }

  lemma SubsetFits(a: set<string>, b: set<string>)
    requires a <= b
    ensures |a| <= |b|
  {
    assert b == a + (b - a);
    assert |b| == |a| + |b - a|;
  }

  // ---- The round trip ----

  lemma {:induction false} FileOfObject(objects: seq<Listed>, i: nat)
    requires i < |objects| && DistinctNames(objects)
    ensures NameSha(objects[i].name) in ObjectFiles(objects)
    ensures ObjectFiles(objects)[NameSha(objects[i].name)] == PayloadOf(objects[i])
    decreases |objects|
  {
    var n := |objects| - 1;
    if i < n {
      FileOfObject(objects[..n], i);
      assert objects[i].name != objects[n].name;
    }
  }

  lemma ItemsDistinct(objects: seq<Listed>)
    requires DistinctNames(objects)
    ensures NoRepeats(Items(objects)) && DistinctItems(Sort(NameLeq, Items(objects)))
  {
    var items := Items(objects);
    var sorted := Sort(NameLeq, items);
    assert forall i, j :: 0 <= i < j < |items| ==> objects[i].name != objects[j].name && items[i] != items[j];
    SortNoRepeats(NameLeq, items);
    MembersOfSort(NameLeq, items);
    forall i, j | 0 <= i < j < |sorted| ensures sorted[i].name != sorted[j].name {
      assert sorted[i] in items && sorted[j] in items;
      var k :| 0 <= k < |items| && items[k] == sorted[i];
      var l :| 0 <= l < |items| && items[l] == sorted[j];
      assert sorted[i] != sorted[j];
      assert k < l || l < k;
    }
  }

  lemma BackedUpItem(mac: Mac, source: Source, retention: int, item: Item)
    requires Backupable(mac, source, retention) && item in Items(source.objects)
    ensures ItemOk(mac, Files(source.dump, ObjectFiles(source.objects)), item)
    ensures item.bytes <= MAX_OBJECT_BYTES
  {
    var items := Items(source.objects);
    var i :| 0 <= i < |items| && items[i] == item;
    var o := source.objects[i];
    assert ObjectOk(mac, o) && Encrypted(o);
    FileOfObject(source.objects, i);
    hide Authentic, ObjectFiles, Joined;
    assert 35 <= |PayloadOf(o)| by {
      AuthenticSize(mac, o.name, PayloadOf(o));
    }
  }

  lemma AuthenticSize(mac: Mac, name: string, payload: Bytes)
    requires Authentic(mac, name, payload)
    ensures 35 <= |payload|
  {
  }

  lemma InventoryAccepted(mac: Mac, source: Source, retention: int)
    requires Backupable(mac, source, retention)
    ensures var inventory := Sort(NameLeq, Items(source.objects));
      && InventoryOk(mac, Files(source.dump, ObjectFiles(source.objects)), inventory)
      && TotalOf(BytesOf, inventory) == TotalOf(BytesOf, Items(source.objects))
  {
    hide Authentic, ItemOk, ObjectOk, Encrypted, ObjectFiles, Items, Sort, TotalOf;
    var files, items := Files(source.dump, ObjectFiles(source.objects)), Items(source.objects);
    var inventory := Sort(NameLeq, items);
    MembersOfSort(NameLeq, items);
    ItemsDistinct(source.objects);
    TotalOfPermutation(BytesOf, inventory, items);
    forall i | 0 <= i < |inventory| ensures ItemOk(mac, files, inventory[i]) {
      assert inventory[i] in items;
      BackedUpItem(mac, source, retention, inventory[i]);
    }
  }

  /** A completed backup is accepted for a restore exactly when its source was resolved to valid addresses, a
      port and a bucket, the clock did not run backwards and the dump is within the size limit. */
  lemma CompletedBackupIsAccepted(mac: Mac, source: Source, retention: int)
    requires Backupable(mac, source, retention)
    ensures MaterialsOk(mac, Files(source.dump, ObjectFiles(source.objects)), ManifestOf(source, retention))
            <==> source.addressesValid && 1 <= source.port <= 65535 && source.bucket != ""
                 && source.started <= source.completed && |source.dump| <= MAX_TOTAL_BYTES
  {
    hide InventoryOk, ObjectFiles, Items, Sort, TotalOf, Encrypted;
    InventoryAccepted(mac, source, retention);
    var inventory := Sort(NameLeq, Items(source.objects));
    assert |inventory| == |source.objects|;
    assert 1 <= |inventory| <= MAX_OBJECTS;
  }

  /** The source bucket as a map. */
  function SourceBucket(objects: seq<Listed>): map<string, Bytes>
  {
    if objects == [] then map[]
    else SourceBucket(objects[..|objects| - 1])[objects[|objects| - 1].name := PayloadOf(objects[|objects| - 1])]
  }

  lemma {:induction false} SourceBucketAt(objects: seq<Listed>, name: string)
    requires DistinctNames(objects)
    ensures name in SourceBucket(objects) <==> exists i :: 0 <= i < |objects| && objects[i].name == name
    ensures forall i :: 0 <= i < |objects| && objects[i].name == name ==> SourceBucket(objects)[name] == PayloadOf(objects[i])
    decreases |objects|
  {
    if objects != [] {
      var n := |objects| - 1;
      SourceBucketAt(objects[..n], name);
      if i :| 0 <= i < n && objects[i].name == name {
        assert objects[..n][i].name == name;
      }
      if i :| 0 <= i < n && objects[..n][i].name == name {
        assert objects[i].name == name;
      }
    }
  }

  lemma {:induction false} BucketAt(prepared: seq<(Item, Bytes)>, name: string)
    requires forall i, j :: 0 <= i < j < |prepared| ==> prepared[i].0.name != prepared[j].0.name
    ensures name in BucketOf(prepared) <==> exists i :: 0 <= i < |prepared| && prepared[i].0.name == name
    ensures forall i :: 0 <= i < |prepared| && prepared[i].0.name == name ==> BucketOf(prepared)[name] == prepared[i].1
    decreases |prepared|
  {
    if prepared != [] {
      var n := |prepared| - 1;
      BucketAt(prepared[..n], name);
      if i :| 0 <= i < n && prepared[i].0.name == name {
        assert prepared[..n][i].0.name == name;
      }
      if i :| 0 <= i < n && prepared[..n][i].0.name == name {
        assert prepared[i].0.name == name;
      }
    }
  }

  lemma RestoredEntry(source: Source, name: string)
    requires DistinctNames(source.objects)
    requires var items, files := Sort(NameLeq, Items(source.objects)), Files(source.dump, ObjectFiles(source.objects));
      (forall i :: 0 <= i < |items| ==> items[i].nameSha in files.objects) && DistinctItems(items)
    ensures var items, files := Sort(NameLeq, Items(source.objects)), Files(source.dump, ObjectFiles(source.objects));
      var restored, bucket := BucketOf(Prepared(files, items)), SourceBucket(source.objects);
      (name in restored <==> name in bucket) && (name in restored ==> restored[name] == bucket[name])
  {
    var objects, items := source.objects, Sort(NameLeq, Items(source.objects));
    var prepared := Prepared(Files(source.dump, ObjectFiles(objects)), items);
    hide BucketOf, SourceBucket, Joined, Sort, DistinctNames, ObjectFiles;
    BucketAt(prepared, name);
    SourceBucketAt(objects, name);
    if i :| 0 <= i < |prepared| && prepared[i].0.name == name {
      var k := OriginOf(objects, items[i]);
      FileOfObject(objects, k);
    }
    if k :| 0 <= k < |objects| && objects[k].name == name {
      MembersOfSort(NameLeq, Items(objects));
      assert Items(objects)[k] in items;
      var i :| 0 <= i < |items| && items[i] == Items(objects)[k];
      assert prepared[i].0.name == name;
    }
  }

  /** Round trip: restoring a completed backup gives back the bucket, key by key and byte by byte. */
  lemma RestoredBucketEqualsSource(mac: Mac, source: Source, retention: int)
    requires Backupable(mac, source, retention)
    ensures var items, files := ManifestOf(source, retention).inventory, Files(source.dump, ObjectFiles(source.objects));
      && (forall i :: 0 <= i < |items| ==> items[i].nameSha in files.objects)
      && BucketOf(Prepared(files, items)) == SourceBucket(source.objects)
  {
    var objects, items := source.objects, ManifestOf(source, retention).inventory;
    var files := Files(source.dump, ObjectFiles(objects));
    assert DistinctNames(objects);
    hide ObjectFiles, BucketOf, SourceBucket, Joined, Backupable, Sort, DistinctNames;
    ItemsDistinct(objects);
    forall i | 0 <= i < |items| ensures items[i].nameSha in files.objects {
      var k := OriginOf(objects, items[i]);
      FileOfObject(objects, k);
    }
    var restored, bucket := BucketOf(Prepared(files, items)), SourceBucket(objects);
    forall name: string {
      RestoredEntry(source, name);
    }
    assert restored.Keys == bucket.Keys;
  }

  lemma OriginOf(objects: seq<Listed>, item: Item) returns (k: nat)
    requires item in Sort(NameLeq, Items(objects)) && DistinctNames(objects)
    ensures k < |objects| && ItemOf(objects[k]) == item
  {
    MembersOfSort(NameLeq, Items(objects));
    k :| 0 <= k < |Items(objects)| && Items(objects)[k] == item;
  }
}
