/** What the scheduler takes from a child's receipt, and what a child that failed leaves to later runs, with
    every limit written out. */
module ScheduleLaws {
  import opened Outcomes
  import opened BackupSlots
  import opened BackupSchedule
  import opened BackupHost

  /** Exactly the admitted intervals: at least five minutes, and a whole number of them makes a day. */
  lemma IntervalsExactly(interval: int)
    ensures ScheduleSlot(0.0, interval).Ok? <==> 300 <= interval && exists n: nat :: n * interval == 86_400
  {
    if 300 <= interval {
      if n: nat :| n * interval == 86_400 {
        Quotient(n, interval);
      }
      if IntervalOk(interval) {
        assert 86_400 / interval * interval == 86_400;
      }
    }
  }

  lemma Quotient(n: nat, k: int)
    requires 0 < k && n * k == 86_400
    ensures 86_400 % k == 0 && k <= 86_400
  {
    MultipleAligned(n, k);
    MultiplyMonotone(1, n, k);
  }

  /** The names of a slot's files: its start, and the first twelve characters of the revision. */
  lemma KeyMeans(request: Request)
    ensures var key := KeyOf(request);
      && key.slot % request.interval == 0
      && (0.0 <= request.observed ==> key.slot as real <= request.observed < (key.slot + request.interval) as real)
      && key.revision <= request.revision
      && |key.revision| == (if |request.revision| < 12 then |request.revision| else 12)
  {
    if 0.0 <= request.observed {
      SlotsTile(request.observed, request.interval, KeyOf(request).slot);
    }
    AlignedSlot(Epoch(request.observed), request.interval);
  }

  /** The receipt can be read once all but its final line break has been written. */
  ghost predicate Readable(file: ReceiptFile, receipt: Receipt)
  {
    exists size: nat :: 2 <= size && file.text == Some(Backup(receipt, size)) && size - 1 <= file.written
  }

  ghost predicate Acceptable(receipt: Receipt, request: Request, slot: int)
  {
    && receipt.wellFormed && receipt.revision == request.revision && receipt.retention == request.retention
    && 0 < receipt.objects <= 100_000 && receipt.encrypted == receipt.objects && 0 < receipt.bytes
    && slot as real <= receipt.started <= receipt.completed < (slot + request.interval) as real
    && receipt.completed <= request.observed + 300.0
  }

  /** Exactly the receipts that are accepted: readable, of this revision and retention, with all objects encrypted,
      bound to the manifest in the backup directory, and made inside the slot and at most five minutes ahead of
      the observation. */
  lemma ValidatesExactly(store: Store, request: Request, receipt: Receipt)
    requires KeyOf(request) in store.receipts && Readable(store.receipts[KeyOf(request)], receipt)
    ensures var key, child := KeyOf(request), Validate(store, request);
      && (child.Ok? <==>
            && Acceptable(receipt, request, key.slot)
            && key in store.backups && store.backups[key].manifest == Some(receipt.manifest))
      && (child.Ok? ==>
            && child.value.manifest == receipt.manifest && child.value.objects == receipt.objects
            && child.value.encrypted == receipt.encrypted && child.value.completed == receipt.completed
            && child.value.retainedUntil == receipt.completed + 86_400.0 * receipt.retention as real
            && child.value.read == store.receipts[key].written)
  {
    assert (receipt.retention * DAY) as real == 86_400.0 * receipt.retention as real;
  }

  lemma OthersAreRefused(store: Store, request: Request)
    requires var key := KeyOf(request);
      key in store.receipts ==> forall receipt :: !Readable(store.receipts[key], receipt)
    ensures Validate(store, request).Err?
  {
    var key := KeyOf(request);
    if key in store.receipts && Parsed(store.receipts[key]).Some? {
      assert Readable(store.receipts[key], Parsed(store.receipts[key]).value);
    }
  }

  /** A child that fails after it reserved its receipt and writes out its terminal record. */
  ghost function FailingChild(size: nat): seq<ChildStep>
  {
    [ReserveReceipt, MakeDirectory, Fail(size), Write(size), Exit]
  }

  lemma FailingChildRuns(store: Store, pid: nat, cid: nat, key: Key, size: nat)
    requires key !in store.receipts && key !in store.backups && 2 <= size
    ensures var (after, worker) := ChildSteps(store, cid, Worker(pid, key, Spawned, false, false), FailingChild(size));
      && worker.phase == Exited(2)
      && after.receipts == store.receipts[key := ReceiptFile(cid, Some(Terminal(size)), size)]
      && after.backups == store.backups[key := Directory(cid, None)]
  {
    var steps, w0 := FailingChild(size), Worker(pid, key, Spawned, false, false);
    assert steps[..4][..3] == steps[..3] && steps[..3][..2] == steps[..2] && steps[..2][..1] == steps[..1];
    assert ChildSteps(store, cid, w0, steps[..0]) == (store, w0);
    assert steps[..1][..0] == steps[..0];
    var (s1, w1) := ChildSteps(store, cid, w0, steps[..1]);
    var (s2, w2) := ChildSteps(store, cid, w0, steps[..2]);
    var (s3, w3) := ChildSteps(store, cid, w0, steps[..3]);
    var (s4, w4) := ChildSteps(store, cid, w0, steps[..4]);
    assert w1.phase == Reserved && w2.phase == Working && w3.phase == Writing(Terminal(size));
    assert s4.receipts == store.receipts[key := ReceiptFile(cid, Some(Terminal(size)), size)];
    assert s4.backups == store.backups[key := Directory(cid, None)];
  }

  /** A failed backup is not retried within its slot: its run reports the failure, and every later run of the slot
      refuses the receipt that is left and changes nothing. */
  lemma FailureHoldsSlot(store: Store, pid: nat, cid: nat, request: Request, size: nat, pid': nat, cid': nat,
                         later: Request, steps: seq<ChildStep>)
    requires KeyOf(request) !in store.receipts && KeyOf(request) !in store.backups && 2 <= size
    requires KeyOf(later) == KeyOf(request)
    ensures var (after, first) := Undisturbed(store, pid, cid, request, FailingChild(size));
      var (final, second) := Undisturbed(after, pid', cid', later, steps);
      && first == Err("CHILD_BACKUP_FAILED")
      && final == after && second == Err("INVALID_CHILD_RECEIPT")
  {
    FailingChildRuns(store, pid, cid, KeyOf(request), size);
    hide ChildSteps, KeyOf;
  }
}
