/** One scheduler run in place: the files it shares are fields, and the child it starts acts on them step by
    step.  Run undisturbed, it is one of the interleavings of the safety results. */
module BackupHost {
  import opened Outcomes
  import opened BackupSlots
  import opened BackupSchedule

  function ChildSteps(store: Store, cid: nat, worker: Worker, steps: seq<ChildStep>): (Store, Worker)
  {
    if steps == [] then (store, worker)
    else
      var (before, w) := ChildSteps(store, cid, worker, steps[..|steps| - 1]);
      ChildRun(before, cid, w, steps[|steps| - 1])
  }

  /** What a run does when nothing else runs: the files after it, and its outcome. */
  function Undisturbed(store: Store, pid: nat, cid: nat, request: Request, steps: seq<ChildStep>): (Store, Result<Report>)
  {
    var key := KeyOf(request);
    if key in store.receipts then (store, Reported(false, Validate(store, request)))
    else if key in store.backups then (store, Err("INCOMPLETE_PRIOR_ATTEMPT"))
    else
      var (after, worker) := ChildSteps(store, cid, Worker(pid, key, Spawned, false, false), steps);
      (after, if worker.phase == Exited(0) then Reported(true, Validate(after, request)) else Err("CHILD_BACKUP_FAILED"))
  }

  class Host {
    var locked: bool
    var backups: map<Key, Directory>
    var receipts: map<Key, ReceiptFile>

    constructor ()
      ensures !locked && Files() == Store(map[], map[])
    {
      locked, backups, receipts := false, map[], map[];
    }

    function Files(): Store
      reads this
    {
      Store(backups, receipts)
    }

    /** A child performs one step on the files. */
    method Perform(cid: nat, worker: Worker, step: ChildStep) returns (after: Worker)
      modifies this`backups, this`receipts
      ensures (Files(), after) == ChildRun(old(Files()), cid, worker, step)
    {
      after := worker;
      var key := worker.key;
      match step
      case ReserveReceipt =>
        if worker.phase == Spawned {
          if key in receipts {
            after := worker.(phase := Exited(2));
          } else {
            receipts := receipts[key := ReceiptFile(cid, None, 0)];
            after := worker.(phase := Reserved, reserved := true);
          }
        }
      case MakeDirectory =>
        if worker.phase == Reserved {
          if key in backups {
            after := worker.(phase := Failing);
          } else {
            backups := backups[key := Directory(cid, None)];
            after := worker.(phase := Working, made := true);
          }
        }
      case Fail(size) =>
        if 2 <= size && worker.phase in {Reserved, Failing, Working} && key in receipts {
          receipts := receipts[key := receipts[key].(text := Some(Terminal(size)))];
          after := worker.(phase := Writing(Terminal(size)));
        }
      case Complete(receipt, size) =>
        if 2 <= size && worker.phase == Working && key in receipts && key in backups {
          backups := backups[key := backups[key].(manifest := Some(receipt.manifest))];
          receipts := receipts[key := receipts[key].(text := Some(Backup(receipt, size)))];
          after := worker.(phase := Writing(Backup(receipt, size)));
        }
      case Write(count) =>
        if worker.phase.Writing? && key in receipts && receipts[key].written + count <= worker.phase.text.size {
          receipts := receipts[key := receipts[key].(written := receipts[key].written + count)];
        }
      case Exit =>
        if worker.phase.Writing? && key in receipts && receipts[key].written == worker.phase.text.size {
          after := worker.(phase := Exited(if worker.phase.text.Backup? then 0 else 2));
        }
      case Die =>
        if !worker.phase.Exited? {
          after := worker.(phase := Dead);
        }
    }

    /** Admits or executes one schedule slot.  `steps` is what the child does until it exits or is killed. */
    method RunSchedule(pid: nat, cid: nat, request: Request, steps: seq<ChildStep>) returns (r: Result<Report>)
      modifies this
      ensures locked == old(locked)
      ensures old(locked) ==> r == Err("OVERLAP_ACTIVE") && Files() == old(Files())
      ensures !old(locked) ==> (Files(), r) == Undisturbed(old(Files()), pid, cid, request, steps)
      // A slot that has a receipt or a directory is left as it is; only a fresh one can pass.
      ensures !old(locked) && KeyOf(request) in old(receipts) ==>
                Files() == old(Files()) && (r.Ok? ==> !r.value.passed) && (r.Ok? <==> Validate(Files(), request).Ok?)
      ensures !old(locked) && KeyOf(request) !in old(receipts) && KeyOf(request) in old(backups) ==>
                Files() == old(Files()) && r == Err("INCOMPLETE_PRIOR_ATTEMPT")
      ensures !old(locked) && KeyOf(request) !in old(receipts) && KeyOf(request) !in old(backups) && r.Ok? ==>
                r.value.passed && Validate(Files(), request) == Ok(r.value.child)
    {
      if locked {
        return Err("OVERLAP_ACTIVE");
      }
      locked := true;
      var key := KeyOf(request);
      if key in receipts {
        r := Reported(false, Validate(Files(), request));
      } else if key in backups {
        r := Err("INCOMPLETE_PRIOR_ATTEMPT");
      } else {
        var worker := Worker(pid, key, Spawned, false, false);
        ghost var start := worker;
        for i := 0 to |steps|
          invariant locked
          invariant (Files(), worker) == ChildSteps(old(Files()), cid, start, steps[..i])
        {
          assert steps[..i + 1][..i] == steps[..i];
          worker := Perform(cid, worker, steps[i]);
        }
        assert steps[..|steps|] == steps;
        if worker.phase == Exited(0) {
          r := Reported(true, Validate(Files(), request));
        } else {
          r := Err("CHILD_BACKUP_FAILED");
        }
      }
      locked := false;
    }
  }

  // ---- The undisturbed run is an interleaving ----

  function Acts(cid: nat, steps: seq<ChildStep>): (acts: seq<Action>)
    ensures |acts| == |steps| && forall i :: 0 <= i < |steps| ==> acts[i] == ChildDoes(cid, steps[i])
  {
    seq(|steps|, i requires 0 <= i < |steps| => ChildDoes(cid, steps[i]))
  }

  /** The actions of one run: it takes the lock, starts the child, and kills it if it has not exited. */
  function Script(pid: nat, cid: nat, request: Request, steps: seq<ChildStep>): seq<Action>
  {
    [Start(pid, request), Admit(pid, cid)] + Acts(cid, steps) + [ChildDoes(cid, Die), Finish(pid)]
  }

  lemma {:induction false} AfterAppend(w: World, a: seq<Action>, b: seq<Action>)
    ensures After(w, a + b) == After(After(w, a), b)
    decreases |b|
  {
    if b == [] {
      assert a + b == a;
    } else {
      var n := |b| - 1;
      assert (a + b)[..|a + b| - 1] == a + b[..n];
      AfterAppend(w, a, b[..n]);
    }
  }

  lemma AfterTwo(w: World, a: Action, b: Action)
    ensures After(w, [a, b]) == Next(Next(w, a), b)
  {
    assert [a, b][..1] == [a] && [a][..0] == [];
    assert After(w, [a]) == Next(After(w, []), a);
  }

  lemma {:induction false} ActsFollowSteps(w: World, cid: nat, steps: seq<ChildStep>)
    requires cid in w.workers
    ensures var (store, worker) := ChildSteps(w.store, cid, w.workers[cid], steps);
      After(w, Acts(cid, steps)) == w.(store := store, workers := w.workers[cid := worker])
    decreases |steps|
  {
    hide ChildRun;
    if steps == [] {
      assert w.workers[cid := w.workers[cid]] == w.workers;
    } else {
      var n := |steps| - 1;
      ActsFollowSteps(w, cid, steps[..n]);
      assert Acts(cid, steps)[..n] == Acts(cid, steps[..n]);
    }
  }

  lemma ScriptUnfolds(w: World, pid: nat, cid: nat, request: Request, steps: seq<ChildStep>)
    ensures var ran := After(Next(Next(w, Start(pid, request)), Admit(pid, cid)), Acts(cid, steps));
      After(w, Script(pid, cid, request, steps)) == Next(Next(ran, ChildDoes(cid, Die)), Finish(pid))
  {
    hide Next, Acts;
    var begin, rest := [Start(pid, request), Admit(pid, cid)], [ChildDoes(cid, Die), Finish(pid)];
    AfterTwo(w, Start(pid, request), Admit(pid, cid));
    AfterAppend(w, begin, Acts(cid, steps));
    AfterAppend(w, begin + Acts(cid, steps), rest);
    AfterTwo(After(After(w, begin), Acts(cid, steps)), ChildDoes(cid, Die), Finish(pid));
  }

  /** The method's specification is the effect of this script on a world whose lock is free. */
  lemma UndisturbedIsInterleaving(w: World, pid: nat, cid: nat, request: Request, steps: seq<ChildStep>)
    requires w.locked.None? && pid !in w.runs && cid !in w.workers
    ensures var after, (store, outcome) := After(w, Script(pid, cid, request, steps)),
                                           Undisturbed(w.store, pid, cid, request, steps);
      after.store == store && pid in after.runs && after.runs[pid].phase == Ended(outcome)
  {
    hide ChildRun, Validate, KeyOf, After, Script, ChildSteps;
    ScriptUnfolds(w, pid, cid, request, steps);
    var admitted := Next(Next(w, Start(pid, request)), Admit(pid, cid));
    var ran := After(admitted, Acts(cid, steps));
    if cid in admitted.workers {
      ActsFollowSteps(admitted, cid, steps);
      DieIsFinal(ran.store, cid, ran.workers[cid]);
    } else {
      IdleActs(admitted, cid, steps);
    }
  }

  lemma DieIsFinal(store: Store, cid: nat, worker: Worker)
    ensures ChildRun(store, cid, worker, Die) == (store, if worker.phase.Exited? then worker else worker.(phase := Dead))
  {
  }

  lemma {:induction false} IdleActs(w: World, cid: nat, steps: seq<ChildStep>)
    requires cid !in w.workers
    ensures After(w, Acts(cid, steps)) == w
    decreases |steps|
  {
    if steps != [] {
      var n := |steps| - 1;
      IdleActs(w, cid, steps[..n]);
      assert Acts(cid, steps)[..n] == Acts(cid, steps[..n]);
    }
  }

  // ---- Two runs of one slot ----

  /** A child that backs up and writes its receipt in one piece. */
  function GoodChild(receipt: Receipt, size: nat): seq<ChildStep>
  {
    [ReserveReceipt, MakeDirectory, Complete(receipt, size), Write(size), Exit]
  }

  lemma GoodChildRuns(store: Store, pid: nat, cid: nat, key: Key, receipt: Receipt, size: nat)
    requires key !in store.receipts && key !in store.backups && 2 <= size
    ensures var (after, worker) :=
        ChildSteps(store, cid, Worker(pid, key, Spawned, false, false), GoodChild(receipt, size));
      && worker.phase == Exited(0)
      && key in after.receipts && after.receipts[key] == ReceiptFile(cid, Some(Backup(receipt, size)), size)
      && key in after.backups && after.backups[key] == Directory(cid, Some(receipt.manifest))
  {
    var steps, w0 := GoodChild(receipt, size), Worker(pid, key, Spawned, false, false);
    assert steps[..4][..3] == steps[..3] && steps[..3][..2] == steps[..2] && steps[..2][..1] == steps[..1];
    assert ChildSteps(store, cid, w0, steps[..0]) == (store, w0);
    assert steps[..1][..0] == steps[..0];
    var (s1, w1) := ChildSteps(store, cid, w0, steps[..1]);
    var (s2, w2) := ChildSteps(store, cid, w0, steps[..2]);
    var (s3, w3) := ChildSteps(store, cid, w0, steps[..3]);
    var (s4, w4) := ChildSteps(store, cid, w0, steps[..4]);
    assert w1.phase == Reserved && w2.phase == Working && w3.phase == Writing(Backup(receipt, size));
  }

  /** A run of a fresh slot passes exactly when the receipt is valid and the backup took at most five
      minutes from the observation; a second run of the slot then replays it, and if the first run came too
      early it is the second one that first reports the backup. */
  lemma SecondRunReplays(store: Store, pid: nat, cid: nat, request: Request, receipt: Receipt, size: nat,
                         pid': nat, cid': nat, later: Request, steps: seq<ChildStep>)
    requires KeyOf(request) !in store.receipts && KeyOf(request) !in store.backups && 2 <= size
    requires ReceiptOk(receipt, request)
    requires KeyOf(request).slot as real <= receipt.started <= receipt.completed
    requires receipt.completed < (KeyOf(request).slot + request.interval) as real
    requires later == request.(observed := later.observed) && KeyOf(later) == KeyOf(request)
    requires receipt.completed <= later.observed
    ensures var (after, first) := Undisturbed(store, pid, cid, request, GoodChild(receipt, size));
      var (final, second) := Undisturbed(after, pid', cid', later, steps);
      && (first.Ok? <==> receipt.completed - request.observed <= CLOCK_TOLERANCE)
      && final == after && second.Ok? && !second.value.passed
      && (first.Ok? ==> first.value.passed && second.value.child == first.value.child)
  {
    GoodChildRuns(store, pid, cid, KeyOf(request), receipt, size);
    hide ChildSteps, KeyOf, ReceiptOk;
  }
}
