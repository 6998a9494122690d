/** What a backup leaves behind and what validation accepts, said on the directory, the manifest and the
    source alone. */
module RestoreLaws {
  import CaptureFrames
  import opened Sorting
  import opened RealSums
  import opened Octets
  import opened BackupObjects
  import opened BackupRestore
  import opened RestoreDrill

  /** An envelope under `name`: magic, nonce, ciphertext and the tag over this very name. */
  ghost predicate SealedUnder(mac: Mac, name: string, content: Bytes)
  {
    && 35 <= |content| <= 68_719_476_736
    && content[..7] == [67, 86, 69, 78, 67, 49, 0]
    && content[|content| - 16..] == mac(content[7..19], name, content[19..|content| - 16])
  }

  ghost predicate NameFits(name: string)
  {
    name != "" && CaptureFrames.Utf8Length(name) <= 1024
  }

  /** The item describes the file stored for its name. */
  ghost predicate Describes(mac: Mac, files: Files, item: Item)
  {
    && NameFits(item.name) && item.nameSha == NameSha(item.name) && item.encrypted
    && NameSha(item.name) in files.objects
    && var content := files.objects[NameSha(item.name)];
       SealedUnder(mac, item.name, content) && item.payload == Sha(content) && item.bytes == |content|
  }

  /** The sizes of the files that the items name, added up. */
  ghost function StoredBytes(files: Files, items: seq<Item>): nat
  {
    if items == [] then 0
    else
      var name := NameSha(items[0].name);
      (if name in files.objects then |files.objects[name]| else 0) + StoredBytes(files, items[1..])
  }

  ghost predicate BoundTo(m: Manifest)
  {
    && m.addressesValid && 0 < m.port < 65536 && m.bucket != "" && m.started <= m.completed
    && 1 <= m.retention <= 3650 && m.versioned
  }

  lemma ItemMeans(mac: Mac, files: Files, item: Item)
    ensures ItemOk(mac, files, item) <==> Describes(mac, files, item)
  {
    if item.nameSha in files.objects {
      var content := files.objects[item.nameSha];
      if 35 <= |content| {
        assert Head(content) == content[..7];
      }
    }
  }

  lemma ItemsMean(mac: Mac, files: Files, items: seq<Item>)
    ensures (forall i :: 0 <= i < |items| ==> ItemOk(mac, files, items[i]))
            <==> forall i :: 0 <= i < |items| ==> Describes(mac, files, items[i])
  {
    hide ItemOk, Describes;
    forall i | 0 <= i < |items| ensures ItemOk(mac, files, items[i]) <==> Describes(mac, files, items[i]) {
      ItemMeans(mac, files, items[i]);
    }
  }

  lemma {:induction false} StoredBytesAddUp(mac: Mac, files: Files, items: seq<Item>)
    requires forall i :: 0 <= i < |items| ==> Describes(mac, files, items[i])
    ensures TotalOf(BytesOf, items) == StoredBytes(files, items)
    decreases |items|
  {
    hide SealedUnder, NameFits;
    if items != [] {
      assert Describes(mac, files, items[0]);
      StoredBytesAddUp(mac, files, items[1..]);
    }
  }

  /** Exactly what validation accepts, of any directory and any manifest: the dump has the manifest's digest,
      every item describes an authentic envelope stored under its own name, no name comes twice, the inventory
      digest is of this inventory, and the aggregates are those of the files. */
  lemma AcceptedExactly(mac: Mac, files: Files, m: Manifest)
    ensures MaterialsOk(mac, files, m) <==>
              && BoundTo(m)
              && m.dump == Sha(files.dump) && |files.dump| <= 1_099_511_627_776
              && 1 <= |m.inventory| <= 100_000 && m.inventorySha == InventorySha(m.inventory)
              && (forall i :: 0 <= i < |m.inventory| ==> Describes(mac, files, m.inventory[i]))
              && (forall i, j :: 0 <= i < j < |m.inventory| ==> m.inventory[i].name != m.inventory[j].name)
              && m.objects == m.encrypted == |m.inventory|
              && m.bytes == StoredBytes(files, m.inventory) <= 1_099_511_627_776
  {
    hide ItemOk, Describes, TotalOf, StoredBytes;
    ItemsMean(mac, files, m.inventory);
    if forall i :: 0 <= i < |m.inventory| ==> Describes(mac, files, m.inventory[i]) {
      StoredBytesAddUp(mac, files, m.inventory);
    }
  }

  /** The file of an object holds exactly what the bucket served for it. */
  ghost predicate Holds(files: Files, o: Listed)
  {
    NameSha(o.name) in files.objects && files.objects[NameSha(o.name)] == Joined(o.chunks)
  }

  lemma ItemOfHeld(mac: Mac, source: Source, retention: int, files: Files, k: nat)
    requires Backupable(mac, source, retention) && k < |source.objects|
    ensures Describes(mac, files, ItemOf(source.objects[k])) <==> Holds(files, source.objects[k])
  {
    var o := source.objects[k];
    assert ObjectOk(mac, o) && Encrypted(o);
    hide Joined;
  }

  lemma InventoryHeld(mac: Mac, source: Source, retention: int, files: Files)
    requires Backupable(mac, source, retention)
    ensures (forall i :: 0 <= i < |source.objects| ==>
               Describes(mac, files, ManifestOf(source, retention).inventory[i]))
            <==> forall k :: 0 <= k < |source.objects| ==> Holds(files, source.objects[k])
  {
    var objects, items := source.objects, Items(source.objects);
    forall k | 0 <= k < |objects| ensures Describes(mac, files, items[k]) <==> Holds(files, objects[k]) {
      ItemOfHeld(mac, source, retention, files, k);
    }
    var inventory := ManifestOf(source, retention).inventory;
    MembersOfSort(NameLeq, items);
    hide Holds, Items, Sort, Backupable, ManifestOf, ItemOf;
    SameMembersDescribed(mac, files, inventory, items);
  }

  lemma SameMembersDescribed(mac: Mac, files: Files, a: seq<Item>, b: seq<Item>)
    requires forall x :: x in a <==> x in b
    ensures (forall i :: 0 <= i < |a| ==> Describes(mac, files, a[i]))
            <==> forall k :: 0 <= k < |b| ==> Describes(mac, files, b[k])
  {
    hide Describes;
    assert (forall i :: 0 <= i < |a| ==> a[i] in b) && forall k :: 0 <= k < |b| ==> b[k] in a;
    assert (forall i :: 0 <= i < |a| ==> Describes(mac, files, a[i])) <==> forall x :: x in a ==> Describes(mac, files, x);
    assert (forall k :: 0 <= k < |b| ==> Describes(mac, files, b[k])) <==> forall x :: x in b ==> Describes(mac, files, x);
  }

  /** Which directories are accepted with the manifest of a completed backup: exactly those whose dump is the
      dump that was taken and in which the file of each object is what the bucket served for it. */
  lemma OnlyTheBackupIsAccepted(mac: Mac, source: Source, retention: int, files: Files)
    requires Backupable(mac, source, retention)
    ensures MaterialsOk(mac, files, ManifestOf(source, retention)) <==>
              && source.addressesValid && 1 <= source.port <= 65535 && source.bucket != ""
              && source.started <= source.completed
              && files.dump == source.dump && |source.dump| <= 1_099_511_627_776
              && forall k :: 0 <= k < |source.objects| ==> Holds(files, source.objects[k])
  {
    var m := ManifestOf(source, retention);
    InventoryHeld(mac, source, retention, files);
    InventoryAccepted(mac, source, retention);
    hide ItemOk, Describes, Holds, TotalOf, Items, Sort, Encrypted, ObjectFiles, Joined, ListingOk;
    assert 1 <= |m.inventory| == |source.objects| <= MAX_OBJECTS;
    assert DistinctItems(m.inventory);
    ItemsMean(mac, files, m.inventory);
  }

  // ---- What a backup records ----

  /** The sizes of the objects of a listing, added up. */
  ghost function ListedBytes(objects: seq<Listed>): nat
  {
    if objects == [] then 0 else |Joined(objects[0].chunks)| + ListedBytes(objects[1..])
  }

  lemma {:induction false} ListedBytesAddUp(objects: seq<Listed>)
    ensures TotalOf(BytesOf, Items(objects)) == ListedBytes(objects)
    decreases |objects|
  {
    hide Joined;
    if objects != [] {
      ListedBytesAddUp(objects[1..]);
      assert Items(objects)[1..] == Items(objects[1..]);
      assert Items(objects)[0].bytes == |Joined(objects[0].chunks)|;
    }
  }

  /** Exactly the sources that can be backed up. */
  lemma BackupableExactly(mac: Mac, source: Source, retention: int)
    ensures Backupable(mac, source, retention) <==>
              && 1 <= retention <= 3650 && source.dump != [] && source.versioned
              && 1 <= |source.objects| <= 100_000 && ListedBytes(source.objects) <= 1_099_511_627_776
              && (forall i :: 0 <= i < |source.objects| ==>
                    && NameFits(source.objects[i].name)
                    && SealedUnder(mac, source.objects[i].name, Joined(source.objects[i].chunks)))
              && (forall i, j :: 0 <= i < j < |source.objects| ==> source.objects[i].name != source.objects[j].name)
  {
    ListedBytesAddUp(source.objects);
    hide TotalOf, ListedBytes, Items;
    forall i | 0 <= i < |source.objects|
      ensures ObjectOk(mac, source.objects[i]) && Encrypted(source.objects[i]) <==>
                && NameFits(source.objects[i].name)
                && SealedUnder(mac, source.objects[i].name, Joined(source.objects[i].chunks))
    {
      ObjectMeans(mac, source.objects[i]);
    }
    hide ObjectOk, Encrypted, SealedUnder, NameFits;
  }

  lemma ObjectMeans(mac: Mac, o: Listed)
    ensures ObjectOk(mac, o) && Encrypted(o) <==> NameFits(o.name) && SealedUnder(mac, o.name, Joined(o.chunks))
  {
    hide Joined;
    var content := Joined(o.chunks);
    if 35 <= |content| {
      assert Head(content) == content[..7];
    }
  }

  ghost predicate NamesRise(items: seq<Item>)
  {
    forall i, j :: 0 <= i < j < |items| ==> CaptureFrames.StringLess(items[i].name, items[j].name)
  }

  /** What a completed backup records of its source: the inventory lists every object once, in increasing order
      of the names, and the totals are those of the listing. */
  lemma ManifestMeans(mac: Mac, source: Source, retention: int)
    requires Backupable(mac, source, retention)
    ensures var m := ManifestOf(source, retention);
      && m.dump == Sha(source.dump) && m.retention == retention && m.versioned
      && (m.addressesValid, m.port, m.bucket) == (source.addressesValid, source.port, source.bucket)
      && (m.started, m.completed) == (source.started, source.completed)
      && m.objects == m.encrypted == |m.inventory| == |source.objects| && m.bytes == ListedBytes(source.objects)
      && m.inventorySha == InventorySha(m.inventory)
      && NamesRise(m.inventory)
      && (forall o :: o in source.objects ==>
            Item(o.name, NameSha(o.name), Sha(Joined(o.chunks)), |Joined(o.chunks)|, true) in m.inventory)
  {
    ListedBytesAddUp(source.objects);
    assert DistinctNames(source.objects);
    hide Joined, TotalOf, ListedBytes, Backupable, Sort, Items, ItemOf, NamesRise;
    ItemsDistinct(source.objects);
    NamesIncrease(Items(source.objects));
    ListedInInventory(source.objects);
  }

  lemma ListedInInventory(objects: seq<Listed>)
    ensures forall o :: o in objects ==>
      Item(o.name, NameSha(o.name), Sha(Joined(o.chunks)), |Joined(o.chunks)|, true) in Sort(NameLeq, Items(objects))
  {
    hide Joined, Sort;
    MembersOfSort(NameLeq, Items(objects));
    forall o | o in objects ensures ItemOf(o) in Items(objects) {
      var k :| 0 <= k < |objects| && objects[k] == o;
      assert Items(objects)[k] == ItemOf(o);
    }
  }

  lemma NamesIncrease(items: seq<Item>)
    requires DistinctItems(Sort(NameLeq, items))
    ensures NamesRise(Sort(NameLeq, items))
  {
    NameOrderTotal();
    SortSorted(NameLeq, items);
  }

  lemma NameOrderTotal()
    ensures TotalPreorder(NameLeq)
  {
    forall a: Item, b: Item ensures NameLeq(a, b) || NameLeq(b, a) {
      CaptureFrames.StringLessTotal(a.name, b.name);
    }
    forall a: Item, b: Item, c: Item | NameLeq(a, b) && NameLeq(b, c) ensures NameLeq(a, c) {
      if a.name != b.name && b.name != c.name {
        CaptureFrames.StringLessTransitive(a.name, b.name, c.name);
      }
    }
  }

  /** The directory of a completed backup holds one file for each object, with its content, and nothing else. */
  lemma DirectoryMeans(objects: seq<Listed>)
    requires DistinctNames(objects)
    ensures forall k :: 0 <= k < |objects| ==> Holds(Files([], ObjectFiles(objects)), objects[k])
    ensures forall key <- ObjectFiles(objects) :: exists k :: 0 <= k < |objects| && key == NameSha(objects[k].name)
  {
    forall k | 0 <= k < |objects| ensures Holds(Files([], ObjectFiles(objects)), objects[k]) {
      FileOfObject(objects, k);
    }
    FilesAreListed(objects);
  }

  lemma {:induction false} FilesAreListed(objects: seq<Listed>)
    ensures forall key <- ObjectFiles(objects) :: exists k :: 0 <= k < |objects| && key == NameSha(objects[k].name)
    decreases |objects|
  {
    hide Joined;
    if objects != [] {
      var front := objects[..|objects| - 1];
      FilesAreListed(front);
      forall key | key in ObjectFiles(objects) ensures exists k :: 0 <= k < |objects| && key == NameSha(objects[k].name) {
        if key in ObjectFiles(front) {
          var k :| 0 <= k < |front| && key == NameSha(front[k].name);
          assert objects[k] == front[k];
        } else {
          assert key == NameSha(objects[|objects| - 1].name);
        }
      }
    }
  }

  // ---- What a restore leaves ----

  /** Of any accepted set: when every object arrived intact the bucket holds, under the names of the inventory
      and no others, the files stored for them. */
  lemma RestoredExactly(mac: Mac, files: Files, m: Manifest, arrived: seq<Bytes>)
    requires MaterialsOk(mac, files, m) && |arrived| == |m.inventory|
    ensures forall i :: 0 <= i < |m.inventory| ==> NameSha(m.inventory[i].name) in files.objects
    ensures forall i :: 0 <= i < |m.inventory| ==> m.inventory[i].nameSha in files.objects
    ensures ArrivedIntact(Prepared(files, m.inventory), arrived, |m.inventory|)
            <==> forall i :: 0 <= i < |m.inventory| ==> arrived[i] == files.objects[NameSha(m.inventory[i].name)]
    ensures var bucket := BucketOf(Prepared(files, m.inventory));
      && (forall i :: 0 <= i < |m.inventory| ==>
            m.inventory[i].name in bucket && bucket[m.inventory[i].name] == files.objects[NameSha(m.inventory[i].name)])
      && (forall name <- bucket :: exists i :: 0 <= i < |m.inventory| && m.inventory[i].name == name)
  {
    AcceptedExactly(mac, files, m);
    hide MaterialsOk, BucketOf, SealedUnder, NameFits;
    forall i | 0 <= i < |m.inventory|
      ensures m.inventory[i].nameSha == NameSha(m.inventory[i].name) && m.inventory[i].nameSha in files.objects
      ensures m.inventory[i].payload == Sha(files.objects[m.inventory[i].nameSha])
    {
      assert Describes(mac, files, m.inventory[i]);
    }
    hide Describes;
    var prepared := Prepared(files, m.inventory);
    forall i | 0 <= i < |m.inventory|
      ensures m.inventory[i].name in BucketOf(prepared)
      ensures BucketOf(prepared)[m.inventory[i].name] == prepared[i].1
    {
      BucketAt(prepared, m.inventory[i].name);
      assert prepared[i].0.name == m.inventory[i].name;
    }
    forall name | name in BucketOf(prepared) ensures exists i :: 0 <= i < |m.inventory| && m.inventory[i].name == name {
      BucketAt(prepared, name);
      var i :| 0 <= i < |prepared| && prepared[i].0.name == name;
      assert m.inventory[i].name == name;
    }
  }
}
