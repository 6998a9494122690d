/** Creating a backup, validating it before a restore, and the restore drill. */
module BackupRestore {
  import opened Outcomes
  import CaptureFrames
  import opened Sorting
  import opened RealSums
  import opened Octets
  import opened BackupObjects

  /** A digest stands for the bytes it is the digest of. */
  datatype Sha = Sha(content: Bytes)
  datatype NameSha = NameSha(name: string)

  datatype Item = Item(name: string, nameSha: NameSha, payload: Sha, bytes: nat, encrypted: bool)

  /** An inventory digest stands for the inventory. */
  datatype InventorySha = InventorySha(items: seq<Item>)

  datatype Manifest = Manifest(
    addressesValid: bool, port: int, bucket: string, started: real, completed: real, retention: int, dump: Sha,
    inventory: seq<Item>, inventorySha: InventorySha, objects: int, bytes: int, versioned: bool, encrypted: int)

  /** The backup directory: the database dump, and one file for each object, named by the digest of its name. */
  datatype Files = Files(dump: Bytes, objects: map<NameSha, Bytes>)

  /** One object as the source bucket lists and serves it. */
  datatype Listed = Listed(name: string, chunks: seq<Bytes>)

  /** What a backup reads: the resolved endpoint, the clock, the dump and the objects of the bucket. */
  datatype Source = Source(addressesValid: bool, port: int, bucket: string, started: real, completed: real,
                           versioned: bool, dump: Bytes, objects: seq<Listed>)

  function PayloadOf(o: Listed): Bytes
  {
    Joined(o.chunks)
  }

  function ItemOf(o: Listed): Item
  {
    Item(o.name, NameSha(o.name), Sha(PayloadOf(o)), |PayloadOf(o)|, true)
  }

  function Items(objects: seq<Listed>): (items: seq<Item>)
    ensures |items| == |objects| && forall i :: 0 <= i < |items| ==> items[i] == ItemOf(objects[i])
  {
    seq(|objects|, i requires 0 <= i < |objects| => ItemOf(objects[i]))
  }

  function BytesOf(item: Item): nat
  {
    item.bytes
  }

  predicate NameOk(name: string)
  {
    1 <= |name| && CaptureFrames.Utf8Length(name) <= MAX_KEY_BYTES
  }

  predicate Encrypted(o: Listed)
  {
    Head(PayloadOf(o)) == Magic()
  }

  predicate ObjectOk(mac: Mac, o: Listed)
  {
    && NameOk(o.name)
    && |PayloadOf(o)| <= MAX_OBJECT_BYTES
    && (Encrypted(o) ==> Authentic(mac, o.name, PayloadOf(o)))
  }

  ghost predicate DistinctNames(objects: seq<Listed>)
  {
    forall i, j :: 0 <= i < j < |objects| ==> objects[i].name != objects[j].name
  }

  /** What the loop over the listing accepts. */
  ghost predicate ListingOk(mac: Mac, objects: seq<Listed>)
  {
    && |objects| <= MAX_OBJECTS
    && (forall i :: 0 <= i < |objects| ==> ObjectOk(mac, objects[i]))
    && DistinctNames(objects)
    && TotalOf(BytesOf, Items(objects)) <= MAX_TOTAL_BYTES
  }

  predicate NameLeq(a: Item, b: Item)
  {
    a.name == b.name || CaptureFrames.StringLess(a.name, b.name)
  }

  predicate PolicyOk(versioned: bool, encrypted: int, objects: int, retention: int)
  {
    0 < objects && 0 <= encrypted <= objects && 1 <= retention <= 3650 && versioned && encrypted == objects
  }

  /** Exactly the sources that can be backed up. */
  ghost predicate Backupable(mac: Mac, source: Source, retention: int)
  {
    && 1 <= retention <= 3650 && source.dump != [] && source.versioned && source.objects != []
    && ListingOk(mac, source.objects)
    && (forall i :: 0 <= i < |source.objects| ==> Encrypted(source.objects[i]))
  }

  function ManifestOf(source: Source, retention: int): Manifest
  {
    var inventory := Sort(NameLeq, Items(source.objects));
    Manifest(source.addressesValid, source.port, source.bucket, source.started, source.completed, retention,
             Sha(source.dump), inventory, InventorySha(inventory), |inventory|, TotalOf(BytesOf, Items(source.objects)),
             source.versioned, |inventory|)
  }

  /** The files that the objects leave in the directory. */
  function ObjectFiles(objects: seq<Listed>): map<NameSha, Bytes>
  {
    if objects == [] then map[]
    else
      var last := objects[|objects| - 1];
      ObjectFiles(objects[..|objects| - 1])[NameSha(last.name) := PayloadOf(last)]
  }

  const MAX_MANIFEST_BYTES := 16_777_216

  datatype Backup = Backup(manifest: Manifest, files: Files)

  /** What the loop over the listing keeps. */
  datatype Progress = Progress(inventory: seq<Item>, objects: map<NameSha, Bytes>, seen: set<string>,
                               encrypted: nat, total: nat)

  function Marked(objects: seq<Listed>): (items: seq<Item>)
    ensures |items| == |objects|
    ensures forall i :: 0 <= i < |items| ==> items[i] == ItemOf(objects[i]).(encrypted := Encrypted(objects[i]))
  {
    seq(|objects|, i requires 0 <= i < |objects| => ItemOf(objects[i]).(encrypted := Encrypted(objects[i])))
  }

  function Names(objects: seq<Listed>): set<string>
  {
    set o | o in objects :: o.name
  }

  function One(o: Listed): nat
  {
    if Encrypted(o) then 1 else 0
  }

  ghost predicate Gathered(mac: Mac, done: seq<Listed>, p: Progress)
  {
    && ListingOk(mac, done)
    && p == Progress(Marked(done), ObjectFiles(done), Names(done), TotalOf(One, done), TotalOf(BytesOf, Items(done)))
  }

  lemma TotalsSnoc(done: seq<Listed>, o: Listed)
    ensures TotalOf(BytesOf, Items(done) + [ItemOf(o)]) == TotalOf(BytesOf, Items(done)) + |PayloadOf(o)|
    ensures TotalOf(One, done + [o]) == TotalOf(One, done) + One(o)
  {
    TotalOfAppend(BytesOf, Items(done), [ItemOf(o)]);
    TotalOfAppend(One, done, [o]);
    hide PayloadOf, One;
    assert [ItemOf(o)][1..] == [] && [o][1..] == [];
  }

  lemma ItemsSnoc(done: seq<Listed>, o: Listed)
    ensures Items(done + [o]) == Items(done) + [ItemOf(o)]
    ensures Marked(done + [o]) == Marked(done) + [ItemOf(o).(encrypted := Encrypted(o))]
    ensures TotalOf(BytesOf, Items(done + [o])) == TotalOf(BytesOf, Items(done)) + |PayloadOf(o)|
    ensures TotalOf(One, done + [o]) == TotalOf(One, done) + One(o)
    ensures ObjectFiles(done + [o]) == ObjectFiles(done)[NameSha(o.name) := PayloadOf(o)]
    ensures Names(done + [o]) == Names(done) + {o.name}
  {
    assert Items(done + [o]) == Items(done) + [ItemOf(o)];
    TotalsSnoc(done, o);
    hide TotalOf, Encrypted;
    assert (done + [o])[..|done|] == done;
    forall x ensures x in done + [o] <==> x in done || x == o {
    }
  }

  lemma ListingSnoc(mac: Mac, done: seq<Listed>, o: Listed)
    requires ListingOk(mac, done)
    ensures ListingOk(mac, done + [o])
            <==> |done| < MAX_OBJECTS && ObjectOk(mac, o) && o.name !in Names(done)
                 && TotalOf(BytesOf, Items(done)) + |PayloadOf(o)| <= MAX_TOTAL_BYTES
  {
    hide ObjectOk, Items, TotalOf, Names, DistinctNames, PayloadOf, ObjectFiles, Marked, Encrypted, One;
    ItemsSnoc(done, o);
    DistinctSnoc(done, o);
    var all := done + [o];
    assert all[|done|] == o;
    assert forall i :: 0 <= i < |done| ==> all[i] == done[i];
  }

  lemma DistinctSnoc(done: seq<Listed>, o: Listed)
    requires DistinctNames(done)
    ensures DistinctNames(done + [o]) <==> o.name !in Names(done)
  {
    var all := done + [o];
    if o.name !in Names(done) {
      forall i, j | 0 <= i < j < |all| ensures all[i].name != all[j].name {
        assert all[i] in done;
      }
    } else {
      var k :| 0 <= k < |done| && done[k].name == o.name;
      assert all[k].name == all[|done|].name;
    }
  }

  lemma ListingPrefix(mac: Mac, objects: seq<Listed>, k: nat)
    requires k <= |objects| && ListingOk(mac, objects)
    ensures ListingOk(mac, objects[..k])
  {
    PrefixTotal(objects, k);
    hide ObjectOk, TotalOf, Items;
    assert forall i :: 0 <= i < k ==> objects[..k][i] == objects[i];
  }

  lemma PrefixTotal(objects: seq<Listed>, k: nat)
    requires k <= |objects|
    ensures TotalOf(BytesOf, Items(objects[..k])) <= TotalOf(BytesOf, Items(objects))
  {
    hide TotalOf, ItemOf;
    assert Items(objects) == Items(objects[..k]) + Items(objects[k..]);
    TotalOfAppend(BytesOf, Items(objects[..k]), Items(objects[k..]));
  }

  /** Reads one object, and authenticates it if it carries the magic prefix. */
  method Fetch(mac: Mac, o: Listed) returns (fetched: Option<(Bytes, bool)>)
    ensures fetched.Some? <==>
              |PayloadOf(o)| <= MAX_OBJECT_BYTES && (Encrypted(o) ==> Authentic(mac, o.name, PayloadOf(o)))
    ensures fetched.Some? ==> fetched.value == (PayloadOf(o), Encrypted(o))
  {
    hide Authentic, Joined, Head;
    var stored, prefix := StoreObject(o.chunks);
    if stored.None? {
      return None;
    }
    if prefix == Magic() {
      var stream := new Stream(stored.value);
      var authentic := AuthenticateEnvelope(mac, stream, o.name, |stored.value|);
      assert stored.value[..|stored.value|] == stored.value;
      if !authentic {
        return None;
      }
    }
    return Some((stored.value, prefix == Magic()));
  }

  /** One turn of the loop over the listing. */
  method BackUpObject(mac: Mac, ghost done: seq<Listed>, p: Progress, o: Listed) returns (next: Option<Progress>)
    requires Gathered(mac, done, p)
    ensures next.Some? <==> ListingOk(mac, done + [o])
    ensures next.Some? ==> Gathered(mac, done + [o], next.value)
  {
    hide ListingOk, TotalOf, Names, ObjectFiles, Marked, Items, Authentic, NameOk, PayloadOf, Encrypted, Joined;
    ListingSnoc(mac, done, o);
    ItemsSnoc(done, o);
    assert |Marked(done)| == |done|;
    if |p.inventory| >= MAX_OBJECTS || !NameOk(o.name) || o.name in p.seen {
      return None;
    }
    var fetched := Fetch(mac, o);
    if fetched.None? {
      return None;
    }
    var (content, encrypted) := fetched.value;
    var total := p.total + |content|;
    if total > MAX_TOTAL_BYTES {
      return None;
    }
    var item := Item(o.name, NameSha(o.name), Sha(content), |content|, encrypted);
    return Some(Progress(p.inventory + [item], p.objects[NameSha(o.name) := content], p.seen + {o.name},
                         p.encrypted + (if encrypted then 1 else 0), total));
  }

  lemma {:induction false} AllEncrypted(objects: seq<Listed>)
    ensures TotalOf(One, objects) <= |objects|
    ensures TotalOf(One, objects) == |objects| <==> forall i :: 0 <= i < |objects| ==> Encrypted(objects[i])
    decreases |objects|
  {
    if objects != [] {
      AllEncrypted(objects[1..]);
      assert objects == [objects[0]] + objects[1..];
    }
  }

  /** Takes the snapshot: `manifestBytes` is the size of the manifest's text. */
  method CreateBackup(mac: Mac, source: Source, retention: int, manifestBytes: nat) returns (r: Result<Backup>)
    ensures r.Ok? <==> Backupable(mac, source, retention) && manifestBytes <= MAX_MANIFEST_BYTES
    ensures r.Ok? ==>
              r.value == Backup(ManifestOf(source, retention), Files(source.dump, ObjectFiles(source.objects)))
  {
    hide ListingOk, ObjectFiles, Encrypted, Names;
    if !(1 <= retention <= 3650) {
      return Err("backup destination must be new and retention bounded");
    }
    if source.dump == [] {
      return Err("PostgreSQL backup is empty");
    }
    var listed := source.objects;
    var p := Progress([], map[], {}, 0, 0);
    EmptyListing(mac);
    for n := 0 to |listed|
      invariant Gathered(mac, listed[..n], p)
    {
      assert listed[..n + 1] == listed[..n] + [listed[n]];
      var next := BackUpObject(mac, listed[..n], p, listed[n]);
      if next.None? {
        if ListingOk(mac, listed) {
          ListingPrefix(mac, listed, n + 1);
        }
        return Err("source object cannot be backed up");
      }
      p := next.value;
    }
    assert listed[..|listed|] == listed;
    AllEncrypted(listed);
    if !PolicyOk(source.versioned, p.encrypted, |p.inventory|, retention) {
      return Err("backup policy validation failed");
    }
    assert p.inventory == Items(listed);
    if manifestBytes > MAX_MANIFEST_BYTES {
      return Err("private manifest exceeds size policy");
    }
    var ordered := Sort(NameLeq, p.inventory);
    var manifest := Manifest(source.addressesValid, source.port, source.bucket, source.started, source.completed,
      retention, Sha(source.dump), ordered, InventorySha(ordered), |ordered|, p.total, source.versioned, p.encrypted);
    return Ok(Backup(manifest, Files(source.dump, p.objects)));
  }

  lemma EmptyListing(mac: Mac)
    ensures Gathered(mac, [], Progress([], map[], {}, 0, 0))
  {
  }

  // ---- Validation before a restore ----

  predicate ItemOk(mac: Mac, files: Files, item: Item)
  {
    && NameOk(item.name) && item.nameSha == NameSha(item.name)
    && 7 <= item.bytes <= MAX_OBJECT_BYTES && item.encrypted
    && item.nameSha in files.objects
    && var content := files.objects[item.nameSha];
      |content| <= MAX_OBJECT_BYTES && Sha(content) == item.payload && |content| == item.bytes
      && Head(content) == Magic() && Authentic(mac, item.name, content)
  }

  ghost predicate DistinctItems(items: seq<Item>)
  {
    forall i, j :: 0 <= i < j < |items| ==> items[i].name != items[j].name
  }

  predicate PolicyBound(m: Manifest)
  {
    && m.addressesValid && 1 <= m.port <= 65535 && m.bucket != ""
    && m.started <= m.completed
    && 1 <= m.retention <= 3650 && m.versioned
  }

  ghost predicate InventoryOk(mac: Mac, files: Files, items: seq<Item>)
  {
    && (forall i :: 0 <= i < |items| ==> ItemOk(mac, files, items[i]))
    && DistinctItems(items)
    && TotalOf(BytesOf, items) <= MAX_TOTAL_BYTES
  }

  /** Exactly the restore sets that are accepted. */
  ghost predicate MaterialsOk(mac: Mac, files: Files, m: Manifest)
  {
    && PolicyBound(m)
    && |files.dump| <= MAX_TOTAL_BYTES && Sha(files.dump) == m.dump
    && 1 <= |m.inventory| <= MAX_OBJECTS && m.inventorySha == InventorySha(m.inventory)
    && InventoryOk(mac, files, m.inventory)
    && m.objects == |m.inventory| && m.bytes == TotalOf(BytesOf, m.inventory) && m.encrypted == |m.inventory|
  }

  /** The items with the contents to restore. */
  function Prepared(files: Files, items: seq<Item>): (prepared: seq<(Item, Bytes)>)
    requires forall i :: 0 <= i < |items| ==> items[i].nameSha in files.objects
    ensures |prepared| == |items|
    ensures forall i :: 0 <= i < |items| ==> prepared[i] == (items[i], files.objects[items[i].nameSha])
  {
    seq(|items|, i requires 0 <= i < |items| => (items[i], files.objects[items[i].nameSha]))
  }

  method ValidateItem(mac: Mac, files: Files, item: Item) returns (ok: bool)
    ensures ok <==> ItemOk(mac, files, item)
  {
    hide Authentic;
    if !NameOk(item.name) || item.nameSha != NameSha(item.name) || !(7 <= item.bytes <= MAX_OBJECT_BYTES)
       || !item.encrypted || item.nameSha !in files.objects {
      return false;
    }
    var content := files.objects[item.nameSha];
    if |content| > MAX_OBJECT_BYTES || Sha(content) != item.payload {
      return false;
    }
    var stream := new Stream(content);
    var prefix := stream.Read(7);
    if |content| != item.bytes || prefix != Magic() {
      return false;
    }
    ok := AuthenticateEnvelope(mac, stream, item.name, |content|);
    assert content[..|content|] == content;
  }

  lemma InventorySnoc(mac: Mac, files: Files, done: seq<Item>, item: Item)
    requires InventoryOk(mac, files, done)
    ensures InventoryOk(mac, files, done + [item])
            <==> ItemOk(mac, files, item) && (forall x :: x in done ==> x.name != item.name)
                 && TotalOf(BytesOf, done) + item.bytes <= MAX_TOTAL_BYTES
    ensures TotalOf(BytesOf, done + [item]) == TotalOf(BytesOf, done) + item.bytes
  {
    hide ItemOk;
    TotalOfAppend(BytesOf, done, [item]);
    assert [item][1..] == [] && TotalOf(BytesOf, [item][1..]) == 0;
    var all := done + [item];
    assert all[|done|] == item && forall i :: 0 <= i < |done| ==> all[i] == done[i] && done[i] in done;
    if InventoryOk(mac, files, all) {
      forall x | x in done ensures x.name != item.name {
        var i :| 0 <= i < |done| && done[i] == x;
        assert all[i].name != all[|done|].name;
      }
    }
  }

  lemma InventoryPrefix(mac: Mac, files: Files, items: seq<Item>, k: nat)
    requires k <= |items| && InventoryOk(mac, files, items)
    ensures InventoryOk(mac, files, items[..k])
  {
    hide ItemOk;
    assert items == items[..k] + items[k..];
    TotalOfAppend(BytesOf, items[..k], items[k..]);
  }

  /** Checks the whole restore set before anything is restored. */
  method ValidateMaterials(mac: Mac, files: Files, m: Manifest) returns (r: Result<seq<(Item, Bytes)>>)
    ensures r.Ok? <==> MaterialsOk(mac, files, m)
    ensures r.Ok? ==> r.value == Prepared(files, m.inventory)
  {
    hide ItemOk, InventoryOk, TotalOf;
    if !PolicyBound(m) || |files.dump| > MAX_TOTAL_BYTES || Sha(files.dump) != m.dump {
      return Err("private backup policy binding is malformed");
    }
    var items := m.inventory;
    if !(1 <= |items| <= MAX_OBJECTS) || m.inventorySha != InventorySha(items) {
      return Err("object inventory is malformed");
    }
    var prepared: seq<(Item, Bytes)>, seen: set<string>, total: nat := [], {}, 0;
    EmptyInventory(mac, files);
    for n := 0 to |items|
      invariant InventoryOk(mac, files, items[..n])
      invariant seen == set x | x in items[..n] :: x.name
      invariant total == TotalOf(BytesOf, items[..n])
      invariant |prepared| == n && forall i :: 0 <= i < n ==>
                  items[i].nameSha in files.objects && prepared[i] == (items[i], files.objects[items[i].nameSha])
    {
      var item := items[n];
      assert items[..n + 1] == items[..n] + [item];
      InventorySnoc(mac, files, items[..n], item);
      var itemOk := ValidateItem(mac, files, item);
      if item.name in seen || !itemOk || total + item.bytes > MAX_TOTAL_BYTES {
        if InventoryOk(mac, files, items) {
          InventoryPrefix(mac, files, items, n + 1);
        }
        return Err("object inventory entry is malformed");
      }
      ItemHasFile(mac, files, item);
      seen, total := seen + {item.name}, total + item.bytes;
      prepared := prepared + [(item, files.objects[item.nameSha])];
    }
    assert items[..|items|] == items;
    if m.objects != |items| || m.bytes != total || m.encrypted != |items| {
      return Err("object inventory aggregate binding mismatch");
    }
    return Ok(prepared);
  }

  lemma EmptyInventory(mac: Mac, files: Files)
    ensures InventoryOk(mac, files, []) && TotalOf(BytesOf, []) == 0
  {
  }

  lemma ItemHasFile(mac: Mac, files: Files, item: Item)
    requires ItemOk(mac, files, item)
    ensures item.nameSha in files.objects
  {
  }
}
