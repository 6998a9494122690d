/** A completed run whose books disagree with the log: an executor swallows a timed-out call and goes on to
    another case, and the channel drops the next frame and delivers the late answer in its place. */
module BenchmarkMisfiling {
  import opened Outcomes
  import opened CaptureFrames
  import opened CaptureProtocol
  import opened CaptureNetwork
  import opened CaptureAgreement
  import opened CaptureReuse
  import opened CaptureExchange
  import opened ProviderCalls
  import opened BenchmarkRun
  import opened BenchmarkGuarantees
  import opened BenchmarkFiling

  // ---- Calls of the generation adapter ----

  /** A prompt within the limits, and what the model makes of it. */
  datatype Question = Question(system: string, user: string, repair: bool, promptTokens: nat, maximumOutput: nat,
                               outputTokens: nat)

  predicate Askable(q: Question)
  {
    !Blank(q.system) && !Blank(q.user) && 1 <= q.promptTokens
  }

  function Asking(q: Question, reply: Option<Wire>): Call
  {
    GenerateCall(q.system, q.user, q.repair, q.promptTokens, q.maximumOutput, true, reply, q.outputTokens, true)
  }

  function EventOf(b: Books, q: Question): Event
  {
    GenerationEventFor(b.qwen.ordinal + 1, q.repair, q.system, q.user, q.promptTokens, q.maximumOutput)
  }

  function PromptOf(q: Question): Payload
  {
    Fields(PromptFields(q.system, q.user))
  }

  /** The runner is at work on a case, its client is the one on the network, and `log` is what was recorded. */
  ghost predicate AtWork(actions: seq<Action>, w: World, b: Books, bindings: Bindings, name: string, log: seq<Digest>)
  {
    && After(actions) == w && Talking(w, bindings) && w.clients[0] == b.client && w.collectors[0].log == log
    && b.ledger.active == Some(name) && !b.ledger.closed && b.client.selected == Some(CaseDigest(name))
    && b.client.count == b.ledger.calls && !b.qwen.closed
    && Lookup(w.collectors[0].ordinals, QWEN_IDENTITY) == |log| && |log| <= b.qwen.ordinal
  }

  lemma Chosen(actions: seq<Action>, w: World, b: Books, bindings: Bindings, name: string)
    returns (actions': seq<Action>, w': World)
    requires After(actions) == w && Talking(w, bindings) && w.clients[0] == b.client
    requires !b.ledger.closed && b.client.count == b.ledger.calls && !b.qwen.closed
    requires Lookup(w.collectors[0].ordinals, QWEN_IDENTITY) == |w.collectors[0].log| <= b.qwen.ordinal
    ensures AtWork(actions', w', OpenCase(b, name), bindings, name, w.collectors[0].log)
    ensures w'.tags == w.tags
  {
    var choose := SelectCase(0, name);
    actions', w' := actions + [choose], Next(w, choose);
    RunAppend(Initial, actions, [choose]);
    assert [choose][1..] == [] && Run(w, [choose]) == w';
  }

  /** The adapter's call when the client gets the acknowledgement of an entry. */
  lemma AckedCall(b: Books, q: Question, entry: Digest, maxCalls: nat) returns (after: Books)
    requires MaySend(b.client) && b.client.selected.Some? && !b.qwen.closed && !b.ledger.closed
    requires b.ledger.active.Some? && b.ledger.calls < maxCalls
    requires Askable(q)
    ensures var reply := Some(AcknowledgementOf(b.client, entry));
      && Perform(b, Asking(q, reply), maxCalls) == (after, false)
      && after.client == CaptureStep(b.client, EventOf(b, q), PromptOf(q), reply).0
    ensures after.client.count == b.client.count + 1 && after.client.selected == b.client.selected
    ensures after.bge == b.bge && after.qwen.ordinal == b.qwen.ordinal + 1 && !after.qwen.closed
    ensures CounterCalls(after) == CounterCalls(b) + 1
    ensures var name := b.ledger.active.value;
      after.ledger == b.ledger.(calls := b.ledger.calls + 1,
                                events := b.ledger.events[name := EventsOf(b.ledger, name) + [entry]])
  {
    AcknowledgementTaken(b.client, EventOf(b, q), PromptOf(q), entry);
    GenerationLedgerAdmits(b.qwen.ordinal + 1, q.repair, q.system, q.user, q.promptTokens, q.maximumOutput, entry);
    hide CaptureStep, LedgerAdmits, GenerationEventFor, CaptureRequestBody;
    after := Perform(b, Asking(q, Some(AcknowledgementOf(b.client, entry))), maxCalls).0;
  }

  /** The adapter's call when no answer arrives. */
  lemma LostCall(b: Books, q: Question, maxCalls: nat) returns (after: Books)
    requires MaySend(b.client) && b.client.selected.Some? && !b.qwen.closed
    requires Askable(q)
    ensures Perform(b, Asking(q, None), maxCalls) == (after, true)
    ensures after.client == CaptureStep(b.client, EventOf(b, q), PromptOf(q), None).0
    ensures after.client.count == b.client.count && after.client.selected == b.client.selected
    ensures after.client.link == b.client.link
    ensures after.bge == b.bge && after.qwen == b.qwen.(ordinal := b.qwen.ordinal + 1) && after.ledger == b.ledger
  {
    after := Perform(b, Asking(q, None), maxCalls).0;
  }

  lemma WouldBeRecorded(w: World, b: Books, bindings: Bindings, name: string, q: Question, actions: seq<Action>,
                        log: seq<Digest>)
    returns (safe: SafeEvent)
    requires AtWork(actions, w, b, bindings, name, log) && Askable(q)
    requires |log| == b.client.count == b.qwen.ordinal < MAX_REQUESTS
    ensures WouldRecord(w, EventOf(b, q), PromptOf(q), safe)
    ensures safe.caseId == CaseDigest(name) && safe.model == QWEN_IDENTITY
  {
    safe := NextIsNormal(b, Asking(q, None), CaseDigest(name), |log| + 1);
    hide NormalizeEvent, GenerationEventFor;
  }

  /** A call that is recorded, acknowledged and filed. */
  lemma AnsweredExchange(actions: seq<Action>, w: World, b: Books, bindings: Bindings, name: string, log: seq<Digest>,
                         q: Question, maxCalls: nat)
    returns (actions': seq<Action>, w': World, call: Call, after: Books, entry: Digest)
    requires AtWork(actions, w, b, bindings, name, log) && Askable(q)
    requires |log| == b.client.count == b.qwen.ordinal < MAX_REQUESTS && b.ledger.calls < maxCalls
    ensures !call.ObserveCall? && Perform(b, call, maxCalls) == (after, false)
    ensures AtWork(actions', w', after, bindings, name, log + [entry])
    ensures after.client.count == b.client.count + 1 && after.qwen.ordinal == b.qwen.ordinal + 1
    ensures CounterCalls(after) == CounterCalls(b) + 1 && after.bge == b.bge
    ensures after.ledger.events == b.ledger.events[name := EventsOf(b.ledger, name) + [entry]]
    ensures entry.CaptureDigest? && entry.event.caseId == CaseDigest(name)
  {
    hide NormalizeEvent, CaptureStep, Perform, PromptOk, GenerationEventFor, Handle, Next;
    var c := b.client;
    var safe := WouldBeRecorded(w, b, bindings, name, q, actions, log);
    entry := CaptureDigest(safe);
    var reply := Some(AcknowledgementOf(c, entry));
    call := Asking(q, reply);
    after := AckedCall(b, q, entry, maxCalls);
    var event, raw := EventOf(b, q), PromptOf(q);
    var sent := SendAndRecord(w, bindings, event, raw, safe);
    w' := TakeReply(sent, c, event, raw, reply);
    TakenKeepsTalking(w, w', bindings, event, raw, reply);
    var steps := [SendCapture(0, event, raw), DeliverRequest(0, RequestWire(c, event, raw), AnyFiles)];
    actions' := actions + steps + [DeliverReply(0, reply)];
    RunAppend(Initial, actions, steps);
    RunAppend(Initial, actions + steps, [DeliverReply(0, reply)]);
  }

  /** A call that is recorded, but whose answer does not arrive in time. */
  lemma LostExchange(actions: seq<Action>, w: World, b: Books, bindings: Bindings, name: string, log: seq<Digest>,
                     q: Question, maxCalls: nat)
    returns (actions': seq<Action>, w': World, call: Call, after: Books, entry: Digest)
    requires AtWork(actions, w, b, bindings, name, log) && Askable(q)
    requires |log| == b.client.count == b.qwen.ordinal < MAX_REQUESTS
    ensures !call.ObserveCall? && Perform(b, call, maxCalls) == (after, true)
    ensures AtWork(actions', w', after, bindings, name, log + [entry])
    ensures after.client.count == b.client.count && after.client.link == b.client.link
    ensures CounterCalls(after) == CounterCalls(b) && after.bge == b.bge && after.ledger == b.ledger
    ensures entry.CaptureDigest? && entry.event.caseId == CaseDigest(name)
    ensures Live(b.client) && AcknowledgementOf(b.client, entry).auth.value in w'.tags
  {
    hide NormalizeEvent, CaptureStep, Perform, PromptOk, GenerationEventFor, Handle, Next;
    var c := b.client;
    var safe := WouldBeRecorded(w, b, bindings, name, q, actions, log);
    entry := CaptureDigest(safe);
    call := Asking(q, None);
    after := LostCall(b, q, maxCalls);
    var event, raw := EventOf(b, q), PromptOf(q);
    var sent := SendAndRecord(w, bindings, event, raw, safe);
    w' := TakeReply(sent, c, event, raw, None);
    TakenKeepsTalking(w, w', bindings, event, raw, None);
    var steps := [SendCapture(0, event, raw), DeliverRequest(0, RequestWire(c, event, raw), AnyFiles)];
    actions' := actions + steps + [DeliverReply(0, None)];
    RunAppend(Initial, actions, steps);
    RunAppend(Initial, actions + steps, [DeliverReply(0, None)]);
  }

  /** A call whose frame the channel drops, and which the late acknowledgement of an earlier one answers. */
  lemma LateExchange(actions: seq<Action>, w: World, b: Books, bindings: Bindings, name: string, log: seq<Digest>,
                     q: Question, entry: Digest, maxCalls: nat)
    returns (actions': seq<Action>, w': World, call: Call, after: Books)
    requires AtWork(actions, w, b, bindings, name, log) && Askable(q) && b.ledger.calls < maxCalls
    requires AcknowledgementOf(b.client, entry).auth.value in w.tags
    ensures !call.ObserveCall? && Perform(b, call, maxCalls) == (after, false)
    ensures AtWork(actions', w', after, bindings, name, log)
    ensures after.client.count == b.client.count + 1
    ensures CounterCalls(after) == CounterCalls(b) + 1 && after.bge == b.bge
    ensures after.ledger.events == b.ledger.events[name := EventsOf(b.ledger, name) + [entry]]
  {
    hide NormalizeEvent, CaptureStep, Perform, PromptOk, GenerationEventFor, CaptureRequestBody;
    var c := b.client;
    var reply := Some(AcknowledgementOf(c, entry));
    call := Asking(q, reply);
    after := AckedCall(b, q, entry, maxCalls);
    var event, raw := EventOf(b, q), PromptOf(q);
    var send := SendCapture(0, event, raw);
    var sent := Next(w, send);
    w' := TakeReply(sent, c, event, raw, reply);
    TakenKeepsTalking(w, w', bindings, event, raw, reply);
    actions' := actions + [send] + [DeliverReply(0, reply)];
    RunAppend(Initial, actions, [send]);
    RunAppend(Initial, actions + [send], [DeliverReply(0, reply)]);
    assert [send][1..] == [] && Run(w, [send]) == sent;
  }

  // ---- The run ----

  /** What the executor does: two calls in the first case, the second of which fails and is swallowed, and one call
      in the other case. */
  function SwallowingPlan(a: string, c: string, calls: seq<Call>): Plan
    requires |calls| == 3
  {
    Plan([], true, false,
         [Visit(a, true, [Attempt(calls[0], false), Attempt(calls[1], true)], true, true),
          Visit(c, true, [Attempt(calls[2], false)], true, true)],
         true, [], true, [], true, true)
  }

  function StartOf(b: Bindings): Books
  {
    Books(Ledger(0, map[], None, false), Bge(0, 0, 0, 0, 0, false), Qwen(0, 0, 0, 0, 0, false),
          Greeted(b).clients[0], true)
  }

  lemma PlanWorks(b: Books, plan: Plan, a: string, c: string, calls: seq<Call>, maxCalls: nat,
                  b1: Books, b2: Books, b3: Books)
    requires |calls| == 3 && plan == SwallowingPlan(a, c, calls)
    requires Perform(OpenCase(b, a), calls[0], maxCalls) == (b1, false)
    requires Perform(b1, calls[1], maxCalls) == (b2, true)
    requires Perform(OpenCase(b2, c), calls[2], maxCalls) == (b3, false)
    ensures Work(b, plan, maxCalls) == (b3, true)
  {
    hide Perform, OpenCase;
    var first, second := plan.first[0], plan.first[1];
    assert first.script[1..] == [first.script[1]] && first.script[1..][1..] == [];
    assert RunScript(b1, first.script[1..], maxCalls) == (b2, false);
    assert RunVisit(b, first, maxCalls) == (b2, true);
    assert second.script[1..] == [] && RunScript(b3, second.script[1..], maxCalls) == (b3, false);
    assert RunVisit(b2, second, maxCalls) == (b3, true);
    assert plan.first[1..] == [second] && plan.first[1..][1..] == [];
    assert RunPhase(b2, plan.first[1..], maxCalls) == (b3, true);
  }

  lemma StartTalks(b: Bindings)
    ensures Fresh(StartOf(b)) && Talking(Greeted(b), b)
    ensures Greeted(b).collectors[0].log == [] && Lookup(Greeted(b).collectors[0].ordinals, QWEN_IDENTITY) == 0
    ensures Greeted(b).collectors[0].bindings == b
  {
  }

  lemma SealedRun(start: Books, plan: Plan, names: seq<string>, maxCalls: nat, worked: Books, reply: Wire)
    returns (final: Books, after: Client)
    requires Fresh(start) && Work(start, plan, maxCalls) == (worked, true)
    requires plan.attested && plan.finalize == [] && plan.finalized && plan.closes
    requires CounterCalls(worked) == worked.ledger.calls == worked.client.count && MaySend(worked.client)
    requires forall k :: 0 <= k < |names| ==> 1 <= |EventsOf(worked.ledger, names[k])| <= BenchmarkPack.MAX_RECORDS
    requires SealStep(worked.client, worked.client.count, Some(reply)).labels.Some?
    ensures Completed(start, plan, names, maxCalls, worked, final, after)
    ensures after == SealStep(worked.client, worked.client.count, Some(reply))
    ensures final.ledger == worked.ledger.(closed := true) && final.client == worked.client
  {
    hide Work, Receive, Fresh;
    final := Finish(worked, plan, maxCalls).0;
    after := SealStep(worked.client, worked.client.count, Some(reply));
    assert forall name :: EventsOf(final.ledger, name) == EventsOf(worked.ledger, name);
    assert SealedBy(final.client, after);
  }

  lemma OpenedCase(b: Books, name: string)
    ensures var after := OpenCase(b, name);
      && after.client.count == b.client.count && after.client.link == b.client.link && Live(after.client) == Live(b.client)
      && after.qwen == b.qwen && after.bge == b.bge && after.ledger.calls == b.ledger.calls
      && after.ledger.events == b.ledger.events[name := EventsOf(b.ledger, name)]
  {
  }

  lemma TalkingBound(w: World, b: Bindings, golden: Bytes)
    requires Talking(w, b) && GoldenDigest(golden) == b.goldenSha && 0 < |golden| <= MAX_GOLDEN_BYTES
    ensures GoldenAdmitted(w.collectors[0], Some(golden)) && MaySend(w.clients[0])
  {
  }

  lemma SwallowingPlanIs(a: string, c: string, calls: seq<Call>)
    requires |calls| == 3 && forall k :: 0 <= k < 3 ==> !calls[k].ObserveCall?
    ensures var plan := SwallowingPlan(a, c, calls);
      && UnforgedPlan(plan) && plan.attested && plan.finalize == [] && plan.finalized && plan.closes
  {
  }

  lemma FilterTwo(first: Digest, second: Digest, caseId: Digest)
    requires first.CaptureDigest? && second.CaptureDigest? && first.event.caseId == second.event.caseId
    ensures FilterCase([first, second], caseId) == if first.event.caseId == caseId then [first, second] else []
  {
    assert [first, second][..1] == [first] && [first][..0] == [];
    assert FilterCase([first], caseId) == if first.event.caseId == caseId then [first] else [];
  }

  /** The run up to its last call: the books, the network, and the two entries of the log. */
  ghost predicate Misfiled(actions: seq<Action>, w: World, b: Books, bindings: Bindings, a: string, c: string,
                           e1: Digest, e2: Digest)
  {
    && AtWork(actions, w, b, bindings, c, [e1, e2])
    && e1.CaptureDigest? && e2.CaptureDigest? && e1.event.caseId == e2.event.caseId == CaseDigest(a)
    && EventsOf(b.ledger, a) == [e1] && EventsOf(b.ledger, c) == [e2]
    && CounterCalls(b) == b.ledger.calls == 2
  }

  lemma SwallowedWork(b: Bindings, a: string, c: string, q1: Question, q2: Question, q3: Question, maxCalls: nat)
    returns (plan: Plan, worked: Books, actions: seq<Action>, w: World, e1: Digest, e2: Digest)
    requires a != c && Askable(q1) && Askable(q2) && Askable(q3) && 2 <= maxCalls
    ensures Fresh(StartOf(b)) && Work(StartOf(b), plan, maxCalls) == (worked, true)
    ensures UnforgedPlan(plan) && plan.attested && plan.finalize == [] && plan.finalized && plan.closes
    ensures Misfiled(actions, w, worked, b, a, c, e1, e2)
  {
    hide Talking, Perform, OpenCase, NormalizeEvent, Asking, Greeted, SwallowingPlan, Fresh, Next, Askable,
         Work, UnforgedPlan, Run, Lookup;
    var start, w0 := StartOf(b), Greeted(b);
    GreetingRuns(b);
    StartTalks(b);
    var acts1, w1 := Chosen(Meeting(b)[..4], w0, start, b, a);
    OpenedCase(start, a);
    var acts2, w2, call1, b1, e := AnsweredExchange(acts1, w1, OpenCase(start, a), b, a, [], q1, maxCalls);
    var acts3, w3, call2, b2, late := LostExchange(acts2, w2, b1, b, a, [e], q2, maxCalls);
    var acts4, w4 := Chosen(acts3, w3, b2, b, c);
    OpenedCase(b2, c);
    var acts5, w5, call3, b3 := LateExchange(acts4, w4, OpenCase(b2, c), b, c, [e, late], q3, late, maxCalls);
    var calls := [call1, call2, call3];
    plan, worked, actions, w, e1, e2 := SwallowingPlan(a, c, calls), b3, acts5, w5, e, late;
    PlanWorks(start, plan, a, c, calls, maxCalls, b1, b2, b3);
    SwallowingPlanIs(a, c, calls);
  }

  /** For any two cases and any three prompts: an executor that swallows a timeout in one case and goes on to the
      other completes a run, sealed log, labels and all, in which every count agrees and yet the books are wrong.
      The channel records the lost request, drops the frame of the next one and delivers the late answer instead;
      the other case's only event is then the digest of a request of the first case, and the log has no request
      of the other case at all. */
  lemma SwallowedTimeoutMisfiles(b: Bindings, golden: Bytes, a: string, c: string, q1: Question, q2: Question,
                                 q3: Question, maxCalls: nat)
    returns (plan: Plan, worked: Books, final: Books, after: Client, actions: seq<Action>)
    requires GoldenDigest(golden) == b.goldenSha && 0 < |golden| <= MAX_GOLDEN_BYTES
    requires a != c && Askable(q1) && Askable(q2) && Askable(q3) && 2 <= maxCalls
    ensures Completed(StartOf(b), plan, [a, c], maxCalls, worked, final, after) && UnforgedPlan(plan)
    ensures worked.ledger.calls <= maxCalls
    ensures var w := After(actions);
      && Linked(w, 0, 0) && w.clients[0] == after
      && var log := w.collectors[0].log;
      && |log| == 2 && log[0].CaptureDigest? && log[1].CaptureDigest?
      && log[0].event.caseId == log[1].event.caseId == CaseDigest(a)
      && EventsOf(final.ledger, a) == [log[0]] && EventsOf(final.ledger, c) == [log[1]]
      && FilterCase(log, CaseDigest(a)) == log && FilterCase(log, CaseDigest(c)) == []
  {
    hide Talking, SealStep, Fresh, Completed, Work, UnforgedPlan, FilterCase, Run, Lookup;
    var acts, w, e1, e2;
    plan, worked, acts, w, e1, e2 := SwallowedWork(b, a, c, q1, q2, q3, maxCalls);
    TalkingBound(w, b, golden);
    var steps, reply := SealedExchange(w, b, golden);
    actions := acts + steps;
    RunAppend(Initial, acts, steps);
    final, after := SealedRun(StartOf(b), plan, [a, c], maxCalls, worked, reply);
    FilterTwo(e1, e2, CaseDigest(a));
    FilterTwo(e1, e2, CaseDigest(c));
    assert EventsOf(final.ledger, a) == EventsOf(worked.ledger, a);
    assert EventsOf(final.ledger, c) == EventsOf(worked.ledger, c);
  }
}
