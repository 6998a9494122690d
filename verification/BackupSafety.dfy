/** Over every interleaving of schedulers, orphaned children and crashes: one child for each slot, one PASS
    for each slot, and when the reports of a slot agree. */
module BackupSafety {
  import opened Outcomes
  import opened BackupSchedule

  // ---- The invariant ----

  predicate Active(phase: RunPhase)
  {
    !phase.Ended?
  }

  /** The lock is held exactly by the one process that has not ended. */
  ghost predicate LockOk(w: World)
  {
    && (w.locked.Some? ==> w.locked.value in w.runs && Active(w.runs[w.locked.value].phase))
    && (forall pid :: pid in w.runs && Active(w.runs[pid].phase) ==> w.locked == Some(pid))
  }

  /** A waiting scheduler waits for its own child, and nothing has been reported for its slot. */
  ghost predicate WaitingOk(w: World, pid: nat)
    requires pid in w.runs
  {
    w.runs[pid].phase.Waiting? ==>
      var cid := w.runs[pid].phase.child;
      && cid in w.workers && w.workers[cid].parent == pid && w.workers[cid].key == KeyOf(w.runs[pid].request)
      && (forall q :: q in w.runs && KeyOf(w.runs[q].request) == KeyOf(w.runs[pid].request) ==> !HasReport(w.runs[q]))
  }

  predicate HasReport(run: Scheduler)
  {
    run.phase.Ended? && run.phase.outcome.Ok?
  }

  predicate Holding(phase: Phase)
  {
    phase.Reserved? || phase.Failing? || phase.Working? || phase.Writing? || phase == Exited(0)
  }

  ghost predicate WorkerOk(w: World, cid: nat)
    requires cid in w.workers
  {
    var worker := w.workers[cid];
    && (Holding(worker.phase) ==> worker.reserved)
    && (worker.phase.Working? ==> worker.made)
    && (worker.made ==> worker.reserved)
    && (worker.reserved ==> worker.key in w.store.receipts && w.store.receipts[worker.key].owner == cid)
    && (worker.phase.Spawned? ==> !worker.reserved)
    && (worker.phase.Reserved? || worker.phase.Failing? || worker.phase.Working? ==>
          w.store.receipts[worker.key].text.None? && w.store.receipts[worker.key].written == 0)
    && (worker.phase.Reserved? ==> !worker.made)
    && (worker.phase.Writing? ==> w.store.receipts[worker.key].text == Some(worker.phase.text))
    && (worker.made ==> worker.key in w.store.backups && w.store.backups[worker.key].creator == cid)
    && (worker.phase == Exited(0) ==> Full(w.store.receipts[worker.key]))
  }

  /** The whole text of a completed backup. */
  predicate Full(file: ReceiptFile)
  {
    file.text.Some? && file.text.value.Backup? && file.written == file.text.value.size
  }

  ghost predicate FileOk(w: World, key: Key)
    requires key in w.store.receipts
  {
    var file := w.store.receipts[key];
    && file.owner in w.workers && w.workers[file.owner].key == key && w.workers[file.owner].reserved
    && (file.text.None? ==> file.written == 0)
    && (file.text.Some? ==> 2 <= file.text.value.size && file.written <= file.text.value.size)
    && (file.text.Some? && file.text.value.Backup? ==>
          key in w.store.backups && w.store.backups[key].manifest == Some(file.text.value.receipt.manifest))
  }

  ghost predicate DirectoryOk(w: World, key: Key)
    requires key in w.store.backups
  {
    var directory := w.store.backups[key];
    && directory.creator in w.workers && w.workers[directory.creator].key == key && w.workers[directory.creator].made
  }

  /** What a report says of the receipt of its slot. */
  ghost predicate ReportBound(w: World, key: Key, report: Report)
  {
    && key in w.store.receipts
    && w.store.receipts[key].text == Some(report.child.text)
    && report.child.read <= w.store.receipts[key].written
    && Parsed(w.store.receipts[key].(written := report.child.read)).Some?
    && report.child == ChildOf(w.store.receipts[key].(written := report.child.read))
  }

  ghost predicate ReportOk(w: World, pid: nat)
    requires pid in w.runs
  {
    HasReport(w.runs[pid]) ==>
      var key, report := KeyOf(w.runs[pid].request), w.runs[pid].phase.outcome.value;
      && ReportBound(w, key, report)
      && (report.passed ==> Full(w.store.receipts[key]) && w.store.receipts[key].owner in w.workers && report.child.read == report.child.text.size
                            && w.workers[w.store.receipts[key].owner].parent == pid)
  }

  /** Next to a PASS, every report of the slot read the whole receipt. */
  ghost predicate ReadsWhole(w: World, p: nat, q: nat)
    requires p in w.runs && q in w.runs
  {
    HasReport(w.runs[p]) && HasReport(w.runs[q]) && KeyOf(w.runs[p].request) == KeyOf(w.runs[q].request)
    && w.runs[p].phase.outcome.value.passed ==>
      w.runs[q].phase.outcome.value.child.read == w.runs[q].phase.outcome.value.child.text.size
  }

  ghost predicate FilesOk(w: World)
  {
    && (forall cid :: cid in w.workers ==> WorkerOk(w, cid))
    && (forall key :: key in w.store.receipts ==> FileOk(w, key))
    && (forall key :: key in w.store.backups ==> DirectoryOk(w, key))
  }

  ghost predicate RunsOk(w: World)
    requires FilesOk(w)
  {
    && LockOk(w)
    && (forall pid :: pid in w.runs ==> WaitingOk(w, pid) && ReportOk(w, pid))
    && (forall p, q :: p in w.runs && q in w.runs ==> ReadsWhole(w, p, q))
  }

  ghost predicate Inv(w: World)
  {
    FilesOk(w) && RunsOk(w)
  }

  // ---- Child steps ----

  /** What a child step does to the files, seen from outside the child: receipts and manifests only grow. */
  ghost predicate Grows(before: Store, after: Store)
  {
    && (forall key :: key in before.receipts ==>
          && key in after.receipts
          && after.receipts[key].owner == before.receipts[key].owner
          && (before.receipts[key].text.Some? ==> after.receipts[key].text == before.receipts[key].text)
          && before.receipts[key].written <= after.receipts[key].written)
    && (forall key :: key in before.backups ==>
          key in after.backups && after.backups[key].creator == before.backups[key].creator)
  }

  /** A step touches only the entries of the child's own key, and its own process. */
  lemma StepIsLocal(w: World, cid: nat, step: ChildStep)
    requires cid in w.workers
    ensures var next, own := ChildActs(w, cid, step), w.workers[cid].key;
      && next.workers.Keys == w.workers.Keys
      && (forall other :: other in w.workers && other != cid ==> next.workers[other] == w.workers[other])
      && (forall key :: key != own ==>
            && (key in next.store.receipts <==> key in w.store.receipts)
            && (key in w.store.receipts ==> next.store.receipts[key] == w.store.receipts[key])
            && (key in next.store.backups <==> key in w.store.backups)
            && (key in w.store.backups ==> next.store.backups[key] == w.store.backups[key]))
      && next.workers[cid].key == own && next.workers[cid].parent == w.workers[cid].parent
      && (w.workers[cid].reserved ==> next.workers[cid].reserved)
      && (w.workers[cid].made ==> next.workers[cid].made)
  {
  }

  lemma OwnWorkerKept(w: World, cid: nat, step: ChildStep)
    requires FilesOk(w) && cid in w.workers
    ensures WorkerOk(ChildActs(w, cid, step), cid)
  {
    assert WorkerOk(w, cid);
    var key := w.workers[cid].key;
    assert key in w.store.receipts ==> FileOk(w, key);
    hide FilesOk, FileOk, DirectoryOk;
  }

  lemma OtherWorkerKept(w: World, cid: nat, step: ChildStep, other: nat)
    requires FilesOk(w) && cid in w.workers && other in w.workers && other != cid
    ensures WorkerOk(ChildActs(w, cid, step), other)
  {
    assert WorkerOk(w, cid) && WorkerOk(w, other);
    StepIsLocal(w, cid, step);
    ChildGrows(w, cid, step);
    hide FilesOk, FileOk, DirectoryOk;
    if w.workers[other].key == w.workers[cid].key && w.workers[other].reserved {
      assert !w.workers[cid].reserved;
    } else {
      hide ChildActs;
    }
  }

  lemma OwnFileKept(w: World, cid: nat, step: ChildStep)
    requires FilesOk(w) && cid in w.workers
    ensures var next, key := ChildActs(w, cid, step), w.workers[cid].key;
      key in next.store.receipts ==> FileOk(next, key)
  {
    var key := w.workers[cid].key;
    assert WorkerOk(w, cid);
    assert key in w.store.receipts ==> FileOk(w, key);
    hide FilesOk, DirectoryOk;
  }

  lemma OtherFileKept(w: World, cid: nat, step: ChildStep, key: Key)
    requires FilesOk(w) && cid in w.workers && key in w.store.receipts && key != w.workers[cid].key
    ensures key in ChildActs(w, cid, step).store.receipts && FileOk(ChildActs(w, cid, step), key)
  {
    assert FileOk(w, key);
    StepIsLocal(w, cid, step);
    hide FilesOk, ChildActs;
  }

  lemma DirectoryKept(w: World, cid: nat, step: ChildStep, key: Key)
    requires FilesOk(w) && cid in w.workers && key in ChildActs(w, cid, step).store.backups
    ensures DirectoryOk(ChildActs(w, cid, step), key)
  {
    assert key in w.store.backups ==> DirectoryOk(w, key);
    hide FilesOk;
  }

  lemma ChildKeepsFiles(w: World, cid: nat, step: ChildStep)
    requires FilesOk(w) && cid in w.workers
    ensures var next := ChildActs(w, cid, step); FilesOk(next) && Grows(w.store, next.store)
  {
    var next := ChildActs(w, cid, step);
    ChildGrows(w, cid, step);
    StepIsLocal(w, cid, step);
    hide WorkerOk, FileOk, DirectoryOk, ChildActs;
    forall other | other in next.workers ensures WorkerOk(next, other) {
      if other == cid {
        OwnWorkerKept(w, cid, step);
      } else {
        OtherWorkerKept(w, cid, step, other);
      }
    }
    forall key | key in next.store.receipts ensures FileOk(next, key) {
      if key == w.workers[cid].key {
        OwnFileKept(w, cid, step);
      } else {
        OtherFileKept(w, cid, step, key);
      }
    }
    forall key | key in next.store.backups ensures DirectoryOk(next, key) {
      DirectoryKept(w, cid, step, key);
    }
  }

  lemma ChildGrows(w: World, cid: nat, step: ChildStep)
    requires FilesOk(w) && cid in w.workers
    ensures Grows(w.store, ChildActs(w, cid, step).store)
  {
    assert WorkerOk(w, cid);
    hide FilesOk;
  }

  // ---- Every action keeps the invariant ----

  lemma ReportKept(w: World, cid: nat, step: ChildStep, pid: nat)
    requires cid in w.workers && FilesOk(w) && FilesOk(ChildActs(w, cid, step)) && pid in w.runs && ReportOk(w, pid)
    requires Grows(w.store, ChildActs(w, cid, step).store)
    ensures ReportOk(ChildActs(w, cid, step), pid)
  {
    StepIsLocal(w, cid, step);
    var key, next := KeyOf(w.runs[pid].request), ChildActs(w, cid, step);
    assert next.runs == w.runs;
    if HasReport(w.runs[pid]) {
      assert FileOk(next, key) && FileOk(w, key);
    }
    hide ChildActs, FilesOk, KeyOf;
  }

  lemma ChildKeeps(w: World, cid: nat, step: ChildStep)
    requires Inv(w) && cid in w.workers
    ensures Inv(ChildActs(w, cid, step))
  {
    var next := ChildActs(w, cid, step);
    ChildKeepsFiles(w, cid, step);
    StepIsLocal(w, cid, step);
    assert next.runs == w.runs && next.locked == w.locked;
    assert forall pid :: pid in w.runs ==> WaitingOk(w, pid) && ReportOk(w, pid);
    assert forall p, q :: p in w.runs && q in w.runs ==> ReadsWhole(w, p, q);
    hide WaitingOk, ReportOk, ReadsWhole, WorkerOk, FileOk, DirectoryOk;
    ChildGrows(w, cid, step);
    forall pid | pid in w.runs ensures ReportOk(next, pid) {
      ReportKept(w, cid, step, pid);
    }
    ChildKeepsRuns(w, cid, step);
  }

  lemma ChildKeepsRuns(w: World, cid: nat, step: ChildStep)
    requires Inv(w) && cid in w.workers && FilesOk(ChildActs(w, cid, step))
    ensures var next := ChildActs(w, cid, step);
      && (forall pid :: pid in w.runs ==> pid in next.runs && WaitingOk(next, pid))
      && (forall p, q :: p in w.runs && q in w.runs ==> p in next.runs && q in next.runs && ReadsWhole(next, p, q))
  {
    var next := ChildActs(w, cid, step);
    StepIsLocal(w, cid, step);
    assert next.runs == w.runs;
    hide ChildActs, FilesOk, ReportOk, KeyOf, HasReport;
    forall pid | pid in w.runs ensures WaitingOk(next, pid) {
      assert WaitingOk(w, pid);
    }
    forall p, q | p in w.runs && q in w.runs ensures ReadsWhole(next, p, q) {
      assert ReadsWhole(w, p, q);
    }
  }

  lemma SameFiles(w: World, next: World)
    requires FilesOk(w) && next.store == w.store && next.workers == w.workers
    ensures FilesOk(next)
  {
    assert forall cid :: cid in w.workers ==> WorkerOk(w, cid) && WorkerOk(next, cid);
    assert forall key :: key in w.store.receipts ==> FileOk(w, key) && FileOk(next, key);
    assert forall key :: key in w.store.backups ==> DirectoryOk(w, key) && DirectoryOk(next, key);
  }

  lemma StartKeeps(w: World, pid: nat, request: Request)
    requires Inv(w)
    ensures Inv(Next(w, Start(pid, request)))
  {
    var next := Next(w, Start(pid, request));
    SameFiles(w, next);
    hide FilesOk, KeyOf;
    forall p | p in next.runs ensures WaitingOk(next, p) && ReportOk(next, p) {
      if p != pid || pid in w.runs {
        assert WaitingOk(w, p) && ReportOk(w, p);
      }
    }
    forall p, q | p in next.runs && q in next.runs ensures ReadsWhole(next, p, q) {
      if p in w.runs && q in w.runs {
        assert ReadsWhole(w, p, q);
      }
    }
  }

  /** What a report must satisfy at the moment it is made. */
  ghost predicate Reportable(w: World, pid: nat, report: Report)
    requires pid in w.runs
  {
    var key := KeyOf(w.runs[pid].request);
    && ReportBound(w, key, report)
    && report.child.read == w.store.receipts[key].written
    && (report.passed ==>
          && Full(w.store.receipts[key])
          && w.store.receipts[key].owner in w.workers && w.workers[w.store.receipts[key].owner].parent == pid
          && (forall q :: q in w.runs && KeyOf(w.runs[q].request) == key ==> !HasReport(w.runs[q])))
  }

  lemma EndingKeeps(w: World, pid: nat, outcome: Result<Report>)
    requires Inv(w) && pid in w.runs && Active(w.runs[pid].phase)
    requires outcome.Ok? ==> Reportable(w, pid, outcome.value)
    ensures Inv(Ending(w, pid, outcome))
  {
    var next := Ending(w, pid, outcome);
    SameFiles(w, next);
    assert w.locked == Some(pid);
    hide FilesOk, KeyOf;
    forall p | p in next.runs ensures WaitingOk(next, p) && ReportOk(next, p) {
      assert WaitingOk(w, p) && ReportOk(w, p);
    }
    forall p, q | p in next.runs && q in next.runs ensures ReadsWhole(next, p, q) {
      assert ReadsWhole(w, p, q) && ReportOk(w, p) && ReportOk(w, q);
    }
  }

  lemma AdmitKeeps(w: World, pid: nat, cid: nat)
    requires Inv(w) && pid in w.runs && w.runs[pid].phase == Admitted && cid !in w.workers
    ensures Inv(Admission(w, pid, cid))
  {
    var request := w.runs[pid].request;
    var key := KeyOf(request);
    if key in w.store.receipts {
      assert w.store.receipts[key].(written := w.store.receipts[key].written) == w.store.receipts[key];
      EndingKeeps(w, pid, Reported(false, Validate(w.store, request)));
    } else if key in w.store.backups {
      EndingKeeps(w, pid, Err("INCOMPLETE_PRIOR_ATTEMPT"));
    } else {
      SpawnKeeps(w, pid, cid);
    }
  }

  lemma SpawnKeepsFiles(w: World, pid: nat, cid: nat)
    requires Inv(w) && pid in w.runs && w.runs[pid].phase == Admitted && cid !in w.workers
    requires KeyOf(w.runs[pid].request) !in w.store.receipts && KeyOf(w.runs[pid].request) !in w.store.backups
    ensures FilesOk(Admission(w, pid, cid))
  {
    hide RunsOk;
    var next := Admission(w, pid, cid);
    forall c | c in next.workers ensures WorkerOk(next, c) {
      assert c != cid ==> WorkerOk(w, c);
    }
    forall k | k in next.store.receipts ensures FileOk(next, k) {
      assert FileOk(w, k);
    }
    forall k | k in next.store.backups ensures DirectoryOk(next, k) {
      assert DirectoryOk(w, k);
    }
  }

  lemma SpawnKeeps(w: World, pid: nat, cid: nat)
    requires Inv(w) && pid in w.runs && w.runs[pid].phase == Admitted && cid !in w.workers
    requires KeyOf(w.runs[pid].request) !in w.store.receipts && KeyOf(w.runs[pid].request) !in w.store.backups
    ensures Inv(Admission(w, pid, cid))
  {
    var next := Admission(w, pid, cid);
    SpawnKeepsFiles(w, pid, cid);
    hide FilesOk;
    forall p | p in next.runs ensures WaitingOk(next, p) && ReportOk(next, p) {
      assert WaitingOk(w, p) && ReportOk(w, p);
    }
    forall p, q | p in next.runs && q in next.runs ensures ReadsWhole(next, p, q) {
      assert ReadsWhole(w, p, q);
    }
  }

  lemma FinishKeeps(w: World, pid: nat)
    requires Inv(w)
    ensures Inv(Next(w, Finish(pid)))
  {
    if pid in w.runs && w.runs[pid].phase.Waiting? {
      assert WaitingOk(w, pid);
      var cid, key := w.runs[pid].phase.child, KeyOf(w.runs[pid].request);
      assert WorkerOk(w, cid);
      if w.workers[cid].phase == Exited(0) {
        assert w.store.receipts[key].(written := w.store.receipts[key].written) == w.store.receipts[key];
        EndingKeeps(w, pid, Reported(true, Validate(w.store, w.runs[pid].request)));
      } else if w.workers[cid].phase.Exited? || w.workers[cid].phase == Dead {
        EndingKeeps(w, pid, Err("CHILD_BACKUP_FAILED"));
      }
    }
  }

  lemma NextKeeps(w: World, a: Action)
    requires Inv(w)
    ensures Inv(Next(w, a))
  {
    hide Inv, FilesOk, ChildActs, Admission;
    match a
    case Start(pid, request) => StartKeeps(w, pid, request);
    case Admit(pid, cid) =>
      if pid in w.runs && w.runs[pid].phase == Admitted && cid !in w.workers {
        AdmitKeeps(w, pid, cid);
      }
    case Finish(pid) => FinishKeeps(w, pid);
    case Crash(pid) =>
      if pid in w.runs && !w.runs[pid].phase.Ended? {
        EndingKeeps(w, pid, Err("CRASHED"));
      }
    case ChildDoes(cid, step) =>
      if cid in w.workers {
        ChildKeeps(w, cid, step);
      }
  }

  lemma {:induction false} AlwaysInv(actions: seq<Action>)
    ensures Inv(After(EMPTY, actions))
    decreases |actions|
  {
    if actions != [] {
      AlwaysInv(actions[..|actions| - 1]);
      NextKeeps(After(EMPTY, actions[..|actions| - 1]), actions[|actions| - 1]);
    }
  }

  // ---- The guarantees ----

  /** At most one child for each slot passes the reservation, at most one creates the backup directory, and
      it is the one that passed. */
  lemma OneChildPerSlot(actions: seq<Action>, c: nat, d: nat)
    requires var w := After(EMPTY, actions);
      && c in w.workers && d in w.workers && w.workers[c].key == w.workers[d].key
      && w.workers[c].reserved && (w.workers[d].reserved || w.workers[d].made)
    ensures c == d
  {
    AlwaysInv(actions);
    var w := After(EMPTY, actions);
    assert WorkerOk(w, c) && WorkerOk(w, d);
  }

  /** At most one run for each slot reports PASS. */
  lemma OnePassPerSlot(actions: seq<Action>, p: nat, q: nat)
    requires var w := After(EMPTY, actions);
      && p in w.runs && q in w.runs && KeyOf(w.runs[p].request) == KeyOf(w.runs[q].request)
      && HasReport(w.runs[p]) && HasReport(w.runs[q])
      && w.runs[p].phase.outcome.value.passed && w.runs[q].phase.outcome.value.passed
    ensures p == q
  {
    AlwaysInv(actions);
    var w := After(EMPTY, actions);
    assert ReportOk(w, p) && ReportOk(w, q);
  }

  /** Two reports of a slot agree on the manifest, the counts and the times, and they agree on everything
      exactly when both read the receipt with its trailing newline or both without it.  Next to a PASS they
      always agree. */
  lemma ReportsAgree(actions: seq<Action>, p: nat, q: nat)
    requires var w := After(EMPTY, actions);
      && p in w.runs && q in w.runs && KeyOf(w.runs[p].request) == KeyOf(w.runs[q].request)
      && HasReport(w.runs[p]) && HasReport(w.runs[q])
    ensures var w := After(EMPTY, actions);
      var a, b := w.runs[p].phase.outcome.value, w.runs[q].phase.outcome.value;
      && a.child == b.child.(read := a.child.read)
      && (a.child == b.child <==> (a.child.read == a.child.text.size <==> b.child.read == b.child.text.size))
      && (a.passed ==> a.child == b.child)
  {
    AlwaysInv(actions);
    var w := After(EMPTY, actions);
    assert ReportOk(w, p) && ReportOk(w, q) && ReadsWhole(w, p, q);
    assert FileOk(w, KeyOf(w.runs[p].request));
  }

  /** Every report names the manifest in the backup directory and a receipt of that slot that the child which
      created the directory wrote. */
  lemma ReportsAreBacked(actions: seq<Action>, p: nat)
    requires var w := After(EMPTY, actions); p in w.runs && HasReport(w.runs[p])
    ensures var w := After(EMPTY, actions);
      var key, child := KeyOf(w.runs[p].request), w.runs[p].phase.outcome.value.child;
      && key in w.store.backups && key in w.store.receipts
      && w.store.backups[key].manifest == Some(child.manifest)
      && w.store.receipts[key].text == Some(child.text) && child.text.Backup?
      && w.store.backups[key].creator == w.store.receipts[key].owner
  {
    AlwaysInv(actions);
    var w := After(EMPTY, actions);
    var key := KeyOf(w.runs[p].request);
    assert ReportOk(w, p) && FileOk(w, key) && DirectoryOk(w, key);
    assert WorkerOk(w, w.store.backups[key].creator);
  }
}
