/** The one window in which two reports of a slot differ: an orphaned child has written its receipt up to
    the trailing newline when a later scheduler replays it. */
module BackupRace {
  import opened Outcomes
  import opened BackupSchedule
  import opened BackupHost

  const ASKED: Request := Request("r", 300, 1, 0.0)
  const LATER: Request := Request("r", 300, 1, 100.0)
  const SLOT := Key(0, "r")
  const RECEIPT := Receipt(true, "r", "m", 1.0, 2.0, 1, 1, 1, 1)

  function Chain(w: World, a: Action, b: Action, c: Action): World
  {
    Next(Next(Next(w, a), b), c)
  }

  /** The first scheduler starts a child and crashes; the child reserves, backs up and begins to write. */
  const BEGUN := Chain(EMPTY, Start(0, ASKED), Admit(0, 0), Crash(0))
  const WORKED := Chain(BEGUN, ChildDoes(0, ReserveReceipt), ChildDoes(0, MakeDirectory), ChildDoes(0, Complete(RECEIPT, 10)))
  /** A second scheduler reads all but the newline, a third one reads everything. */
  const REPLAYED := Chain(WORKED, ChildDoes(0, Write(9)), Start(1, LATER), Admit(1, 1))
  const REPEATED := Chain(REPLAYED, ChildDoes(0, Write(1)), Start(2, LATER), Admit(2, 2))

  lemma Begin()
    ensures BEGUN.locked.None? && BEGUN.store == EMPTY.store
    ensures BEGUN.workers == map[0 := Worker(0, SLOT, Spawned, false, false)]
    ensures 1 !in BEGUN.runs && 2 !in BEGUN.runs && KeyOf(LATER) == SLOT
  {
  }

  lemma Work()
    ensures WORKED.locked.None? && WORKED.runs == BEGUN.runs
    ensures WORKED.workers == map[0 := Worker(0, SLOT, Writing(Backup(RECEIPT, 10)), true, true)]
    ensures WORKED.store == Store(map[SLOT := Directory(0, Some("m"))],
                                  map[SLOT := ReceiptFile(0, Some(Backup(RECEIPT, 10)), 0)])
  {
    Begin();
    hide BEGUN;
  }

  predicate Replays(run: Scheduler, read: nat)
  {
    run.request == LATER && run.phase == Ended(Ok(Report(false, Child(Backup(RECEIPT, 10), read, "m", 1, 1, 2.0, 86402.0))))
  }

  lemma Replay()
    ensures REPLAYED.locked.None? && 2 !in REPLAYED.runs && REPLAYED.workers == WORKED.workers
    ensures 1 in REPLAYED.runs && Replays(REPLAYED.runs[1], 9)
    ensures REPLAYED.store == Store(map[SLOT := Directory(0, Some("m"))],
                                    map[SLOT := ReceiptFile(0, Some(Backup(RECEIPT, 10)), 9)])
  {
    Begin();
    Work();
    hide BEGUN, WORKED, KeyOf;
  }

  lemma Repeat()
    ensures 1 in REPEATED.runs && Replays(REPEATED.runs[1], 9)
    ensures 2 in REPEATED.runs && Replays(REPEATED.runs[2], 10)
  {
    Begin();
    Work();
    Replay();
    hide BEGUN, WORKED, REPLAYED, KeyOf;
  }

  function Race(): seq<Action>
  {
    [Start(0, ASKED), Admit(0, 0), Crash(0)]
    + [ChildDoes(0, ReserveReceipt), ChildDoes(0, MakeDirectory), ChildDoes(0, Complete(RECEIPT, 10))]
    + [ChildDoes(0, Write(9)), Start(1, LATER), Admit(1, 1)]
    + [ChildDoes(0, Write(1)), Start(2, LATER), Admit(2, 2)]
  }

  lemma AfterThree(w: World, a: Action, b: Action, c: Action)
    ensures After(w, [a, b, c]) == Chain(w, a, b, c)
  {
    hide Next;
    AfterTwo(w, a, b);
    assert [a, b, c][..2] == [a, b];
  }

  /** Two replays of one slot report different receipt digests: the bytes they read are different. */
  lemma ReplaysCanDiffer()
    ensures var w := After(EMPTY, Race());
      && 1 in w.runs && 2 in w.runs && w.runs[1].request == w.runs[2].request
      && w.runs[1].phase.Ended? && w.runs[1].phase.outcome.Ok? && w.runs[2].phase.Ended? && w.runs[2].phase.outcome.Ok?
      && w.runs[1].phase.outcome.value.child != w.runs[2].phase.outcome.value.child
  {
    Repeat();
    hide Next, KeyOf;
    var first := [Start(0, ASKED), Admit(0, 0), Crash(0)];
    var second := [ChildDoes(0, ReserveReceipt), ChildDoes(0, MakeDirectory), ChildDoes(0, Complete(RECEIPT, 10))];
    var third := [ChildDoes(0, Write(9)), Start(1, LATER), Admit(1, 1)];
    var fourth := [ChildDoes(0, Write(1)), Start(2, LATER), Admit(2, 2)];
    AfterAppend(EMPTY, first, second);
    AfterAppend(EMPTY, first + second, third);
    AfterAppend(EMPTY, first + second + third, fourth);
    AfterThree(EMPTY, first[0], first[1], first[2]);
    AfterThree(BEGUN, second[0], second[1], second[2]);
    AfterThree(WORKED, third[0], third[1], third[2]);
    AfterThree(REPLAYED, fourth[0], fourth[1], fourth[2]);
  }
}
