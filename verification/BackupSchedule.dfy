/** Automatic backups: scheduler processes under one lock, the children they start, and the files both
    share.  Any process can crash at any point, and a child outlives a crashed scheduler. */
module BackupSchedule {
  import opened Outcomes
  import opened BackupSlots

  /** What a scheduler process is asked to do.  A process with another interval stops before it touches
      the shared files. */
  datatype AnyRequest = Request(revision: string, interval: int, retention: int, observed: Instant)
  type Request = r: AnyRequest | IntervalOk(r.interval) witness Request("", 300, 1, 0.0)

  /** The name under which a slot stores its backup directory and its receipt. */
  datatype Key = Key(slot: int, revision: string)

  function Short(revision: string): string
  {
    if |revision| <= 12 then revision else revision[..12]
  }

  function KeyOf(request: Request): Key
  {
    Key(SlotOf(request.observed, request.interval), Short(request.revision))
  }

  /** The fields of a child receipt that the scheduler compares or passes on; `wellFormed` stands for the
      fixed fields, the flags and the syntax of the digests. */
  datatype Receipt = Receipt(wellFormed: bool, revision: string, manifest: string, started: Instant,
                             completed: Instant, retention: int, objects: int, encrypted: int, bytes: int)

  /** What a child writes as its receipt: `size` characters, the last of them a newline. */
  datatype Text = Backup(receipt: Receipt, size: nat) | Terminal(size: nat)

  /** A reserved receipt file: who reserved it, and how much of which text it holds. */
  datatype ReceiptFile = ReceiptFile(owner: nat, text: Option<Text>, written: nat)

  /** A backup directory: who created it, and its manifest once written. */
  datatype Directory = Directory(creator: nat, manifest: Option<string>)

  datatype Store = Store(backups: map<Key, Directory>, receipts: map<Key, ReceiptFile>)

  // ---- Reading and validating a receipt ----

  /** The receipt that the file parses to.  A JSON object is complete without its trailing newline. */
  function Parsed(file: ReceiptFile): Option<Receipt>
  {
    if file.text.Some? && file.text.value.Backup? && 2 <= file.text.value.size <= file.written + 1 then
      Some(file.text.value.receipt)
    else None
  }

  predicate ReceiptOk(receipt: Receipt, request: Request)
  {
    && receipt.wellFormed
    && receipt.revision == request.revision
    && receipt.retention == request.retention
    && 1 <= receipt.objects <= 100_000
    && receipt.encrypted == receipt.objects
    && 0 < receipt.bytes
  }

  /** The part of a report that describes the child: `text` and `read` identify the bytes whose digest it gives. */
  datatype Child = Child(text: Text, read: nat, manifest: string, objects: int, encrypted: int,
                         completed: Instant, retainedUntil: Instant)

  function ChildOf(file: ReceiptFile): Child
    requires Parsed(file).Some?
  {
    var receipt := Parsed(file).value;
    Child(file.text.value, file.written, receipt.manifest, receipt.objects, receipt.encrypted, receipt.completed,
          receipt.completed + (receipt.retention * DAY) as real)
  }

  function Validate(store: Store, request: Request): Result<Child>
  {
    var key := KeyOf(request);
    if key !in store.receipts then Err("CHILD_RECEIPT_UNAVAILABLE")
    else
      var file := store.receipts[key];
      if Parsed(file).None? || !ReceiptOk(Parsed(file).value, request) then Err("INVALID_CHILD_RECEIPT")
      else if key !in store.backups || store.backups[key].manifest != Some(Parsed(file).value.manifest) then
        Err("BACKUP_MANIFEST_BINDING_MISMATCH")
      else if !TimesInSlot(Parsed(file).value.started, Parsed(file).value.completed, key.slot, request.interval,
                           request.observed) then
        Err("CHILD_RECEIPT_TIME_OUT_OF_SLOT")
      else Ok(ChildOf(file))
  }

  /** A receipt that validates at one observation validates at every later one of the slot, with the same
      result and so the same retention bound. */
  lemma ValidLater(store: Store, request: Request, later: Request)
    requires later == request.(observed := later.observed)
    requires request.observed <= later.observed && KeyOf(later) == KeyOf(request)
    requires Validate(store, request).Ok?
    ensures Validate(store, later) == Validate(store, request)
  {
  }

  /** Exactly when it validates later but not yet: the backup was completed more than five minutes after
      the observation of the run. */
  lemma TooEarlyExactly(store: Store, request: Request, later: Request)
    requires later == request.(observed := later.observed)
    requires request.observed <= later.observed && KeyOf(later) == KeyOf(request)
    requires Validate(store, later).Ok?
    ensures Validate(store, request).Err?
            <==> Validate(store, later).value.completed - request.observed > CLOCK_TOLERANCE
  {
  }

  // ---- The steps of a child ----

  datatype Phase = Spawned | Reserved | Failing | Working | Writing(text: Text) | Exited(code: nat) | Dead

  /** A child process; `reserved` and `made` remember that it passed the reservation and created the directory. */
  datatype Worker = Worker(parent: nat, key: Key, phase: Phase, reserved: bool, made: bool)

  datatype ChildStep = ReserveReceipt | MakeDirectory | Fail(size: nat) | Complete(receipt: Receipt, size: nat)
                     | Write(count: nat) | Exit | Die

  function WithFile(store: Store, key: Key, file: ReceiptFile): Store
  {
    store.(receipts := store.receipts[key := file])
  }

  function WithDirectory(store: Store, key: Key, directory: Directory): Store
  {
    store.(backups := store.backups[key := directory])
  }

  /** One step of child `cid`, which changes nothing when the child is not at that point. */
  function ChildRun(store: Store, cid: nat, w: Worker, step: ChildStep): (Store, Worker)
  {
    match step
    case ReserveReceipt =>
      if w.phase != Spawned then (store, w)
      else if w.key in store.receipts then (store, w.(phase := Exited(2)))
      else (WithFile(store, w.key, ReceiptFile(cid, None, 0)), w.(phase := Reserved, reserved := true))
    case MakeDirectory =>
      if w.phase != Reserved then (store, w)
      else if w.key in store.backups then (store, w.(phase := Failing))
      else (WithDirectory(store, w.key, Directory(cid, None)), w.(phase := Working, made := true))
    case Fail(size) =>
      if size < 2 || w.phase !in {Reserved, Failing, Working} || w.key !in store.receipts then (store, w)
      else
        (WithFile(store, w.key, store.receipts[w.key].(text := Some(Terminal(size)))), w.(phase := Writing(Terminal(size))))
    case Complete(receipt, size) =>
      if size < 2 || w.phase != Working || w.key !in store.receipts || w.key !in store.backups then (store, w)
      else
        var text := Backup(receipt, size);
        var filed := WithDirectory(store, w.key, store.backups[w.key].(manifest := Some(receipt.manifest)));
        (WithFile(filed, w.key, store.receipts[w.key].(text := Some(text))), w.(phase := Writing(text)))
    case Write(count) =>
      if !w.phase.Writing? || w.key !in store.receipts
         || w.phase.text.size < store.receipts[w.key].written + count then (store, w)
      else
        var file := store.receipts[w.key];
        (WithFile(store, w.key, file.(written := file.written + count)), w)
    case Exit =>
      if !w.phase.Writing? || w.key !in store.receipts || store.receipts[w.key].written != w.phase.text.size then (store, w)
      else (store, w.(phase := Exited(if w.phase.text.Backup? then 0 else 2)))
    case Die => (store, if w.phase.Exited? then w else w.(phase := Dead))
  }

  // ---- Schedulers and the world ----

  datatype Report = Report(passed: bool, child: Child)

  datatype RunPhase = Admitted | Waiting(child: nat) | Ended(outcome: Result<Report>)

  datatype Scheduler = Scheduler(request: Request, phase: RunPhase)

  datatype World = World(locked: Option<nat>, store: Store, runs: map<nat, Scheduler>, workers: map<nat, Worker>)

  const EMPTY := World(None, Store(map[], map[]), map[], map[])

  datatype Action = Start(pid: nat, request: Request) | Admit(pid: nat, cid: nat) | Finish(pid: nat) | Crash(pid: nat)
                  | ChildDoes(cid: nat, step: ChildStep)

  function Ending(w: World, pid: nat, outcome: Result<Report>): World
    requires pid in w.runs
  {
    w.(locked := None, runs := w.runs[pid := w.runs[pid].(phase := Ended(outcome))])
  }

  function Reported(passed: bool, child: Result<Child>): Result<Report>
  {
    match child
    case Ok(c) => Ok(Report(passed, c))
    case Err(reason) => Err(reason)
  }

  /** What the lock holder does first: replay a receipt, refuse an incomplete attempt, or start a child. */
  function Admission(w: World, pid: nat, cid: nat): World
    requires pid in w.runs
  {
    var request := w.runs[pid].request;
    var key := KeyOf(request);
    if key in w.store.receipts then Ending(w, pid, Reported(false, Validate(w.store, request)))
    else if key in w.store.backups then Ending(w, pid, Err("INCOMPLETE_PRIOR_ATTEMPT"))
    else
      w.(runs := w.runs[pid := w.runs[pid].(phase := Waiting(cid))],
         workers := w.workers[cid := Worker(pid, key, Spawned, false, false)])
  }

  function ChildActs(w: World, cid: nat, step: ChildStep): World
    requires cid in w.workers
  {
    var (store, worker) := ChildRun(w.store, cid, w.workers[cid], step);
    w.(store := store, workers := w.workers[cid := worker])
  }

  function Next(w: World, a: Action): World
  {
    match a
    case Start(pid, request) =>
      if pid in w.runs then w
      else if w.locked.Some? then w.(runs := w.runs[pid := Scheduler(request, Ended(Err("OVERLAP_ACTIVE")))])
      else w.(locked := Some(pid), runs := w.runs[pid := Scheduler(request, Admitted)])
    case Admit(pid, cid) =>
      if pid !in w.runs || w.runs[pid].phase != Admitted || cid in w.workers then w else Admission(w, pid, cid)
    case Finish(pid) =>
      if pid !in w.runs || !w.runs[pid].phase.Waiting? || w.runs[pid].phase.child !in w.workers then w
      else
        var worker := w.workers[w.runs[pid].phase.child];
        if worker.phase == Exited(0) then Ending(w, pid, Reported(true, Validate(w.store, w.runs[pid].request)))
        else if worker.phase.Exited? || worker.phase == Dead then Ending(w, pid, Err("CHILD_BACKUP_FAILED"))
        else w
    case Crash(pid) =>
      if pid !in w.runs || w.runs[pid].phase.Ended? then w else Ending(w, pid, Err("CRASHED"))
    case ChildDoes(cid, step) =>
      if cid !in w.workers then w else ChildActs(w, cid, step)
  }

  function After(w: World, actions: seq<Action>): World
  {
    if actions == [] then w else Next(After(w, actions[..|actions| - 1]), actions[|actions| - 1])
  }
}
