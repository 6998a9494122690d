/** One benchmark run: visits to every case under an arbitrary executor, then the sealed gate. */
module BenchmarkRun {
  import opened Outcomes
  import opened CaptureFrames
  import opened CaptureProtocol
  import opened ProviderCalls

  // ---- The run as a function of what the executor and the outside world do ----

  /** One case in one phase: the clock before, the executor's calls, whether it returned, the clock after. */
  datatype Visit = Visit(name: string, onTime: bool, script: seq<Attempt>, returned: bool, stillOnTime: bool)

  datatype Plan = Plan(
    prepare: seq<Attempt>, prepared: bool,
    phased: bool, first: seq<Visit>, embeddingCloses: bool, second: seq<Visit>,
    attested: bool, finalize: seq<Attempt>, finalized: bool, closes: bool)

  function OpenCase(b: Books, name: string): Books
  {
    b.(ledger := Select(b.ledger, name), client := b.client.(selected := Some(CaseDigest(name))))
  }

  function RunVisit(b: Books, v: Visit, maxCalls: nat): (Books, bool)
  {
    if !v.onTime then (b, false)
    else
      var (after, failed) := RunScript(OpenCase(b, v.name), v.script, maxCalls);
      (after, !failed && v.returned && v.stillOnTime)
  }

  function RunPhase(b: Books, visits: seq<Visit>, maxCalls: nat): (Books, bool)
    decreases |visits|
  {
    if visits == [] then (b, true)
    else
      var (after, ok) := RunVisit(b, visits[0], maxCalls);
      if !ok then (after, false) else RunPhase(after, visits[1..], maxCalls)
  }

  function CloseEmbedding(b: Books): Books
  {
    b.(bge := b.bge.(closed := true))
  }

  /** Everything up to the usage check; false when a failure ends the run. */
  function Work(b: Books, plan: Plan, maxCalls: nat): (Books, bool)
  {
    var (prepared, failed) := RunScript(b, plan.prepare, maxCalls);
    if failed || !plan.prepared then (prepared, false)
    else
      var (visited, ok) := RunPhase(prepared, plan.first, maxCalls);
      if !ok || !plan.phased then (visited, ok)
      else if !plan.embeddingCloses then (visited, false)
      else RunPhase(CloseEmbedding(visited), plan.second, maxCalls)
  }

  predicate UsageOk(b: Books, plan: Plan)
  {
    plan.attested && CounterCalls(b) == b.ledger.calls
  }

  /** The `finally` part: the ledger is sealed, the executor finalised, both providers closed. */
  function Finish(b: Books, plan: Plan, maxCalls: nat): (Books, bool)
  {
    var (after, failed) := RunScript(b.(ledger := b.ledger.(closed := true)), plan.finalize, maxCalls);
    (after.(bge := after.bge.(closed := true), qwen := after.qwen.(closed := true)),
     !failed && plan.finalized && plan.closes)
  }

  function Records(l: Ledger, names: seq<string>): (records: seq<LedgerRecord>)
    ensures |records| == |names|
    ensures forall k :: 0 <= k < |names| ==>
              records[k] == LedgerRecord(names[k], EventsDigest(EventsOf(l, names[k])))
  {
    seq(|names|, k requires 0 <= k < |names| => LedgerRecord(names[k], EventsDigest(EventsOf(l, names[k]))))
  }

  // ---- What holds whatever the executor does ----

  ghost predicate KnownModel(body: Body)
  {
    && Get(body, Command) == Some(Text("capture"))
    && EventField in body && body[EventField].EventValue? && EventModelOk(body[EventField].event)
  }

  ghost predicate EventModelOk(event: Event)
  {
    match event
    case EmbeddingEvent(_, _, model, _, _, _, _) => model == BGE_IDENTITY
    case GenerationEvent(_, _, model, _, _, _, _) => model == QWEN_IDENTITY
    case MalformedEvent => false
  }

  ghost predicate SameCase(b: Books)
  {
    match b.ledger.active
    case None => b.client.selected.None?
    case Some(name) => b.client.selected == Some(CaseDigest(name))
  }

  ghost predicate Sound(b: Books)
  {
    && b.client.pending.None?
    && SameCase(b)
    && (forall body :: body in b.client.outbox ==> KnownModel(body))
    && (b.clean ==> Clean(b))
  }

  // ---- What holds when no request was lost or forged ----

  function CaseOf(body: Body): Digest
  {
    if CaseField in body && body[CaseField].Sha? then body[CaseField].digest else Arbitrary("")
  }

  /** The acknowledgements of the requests sent for one case, in order. */
  function AckedFor(outbox: seq<Body>, acked: seq<Digest>, caseId: Digest): seq<Digest>
    requires |outbox| == |acked|
  {
    if outbox == [] then []
    else
      var n := |outbox| - 1;
      AckedFor(outbox[..n], acked[..n], caseId) + (if CaseOf(outbox[n]) == caseId then [acked[n]] else [])
  }

  predicate NamesModel(body: Body, model: string)
  {
    EventField in body && body[EventField].EventValue? && !body[EventField].event.MalformedEvent?
    && body[EventField].event.model == model
  }

  /** How many requests named a model. */
  function SentFor(outbox: seq<Body>, model: string): nat
  {
    if outbox == [] then 0
    else SentFor(outbox[..|outbox| - 1], model) + if NamesModel(outbox[|outbox| - 1], model) then 1 else 0
  }

  ghost predicate Clean(b: Books)
  {
    var c := b.client;
    && SentFor(c.outbox, BGE_IDENTITY) == b.bge.ordinal && SentFor(c.outbox, QWEN_IDENTITY) == b.qwen.ordinal
    && MaySend(c) && !c.failed && !c.reused
    && |c.outbox| == |c.acked| == c.count == b.ledger.calls == b.bge.ordinal + b.qwen.ordinal
    && b.qwen.ordinal == b.qwen.generationCalls + b.qwen.repairCalls
    && (forall name :: EventsOf(b.ledger, name) == AckedFor(c.outbox, c.acked, CaseDigest(name)))
  }

  /** The books when the run starts: a client that has just been greeted, and nothing counted. */
  ghost predicate Fresh(b: Books)
  {
    && MaySend(b.client) && b.client.selected.None?
    && b.client.outbox == [] && b.client.acked == [] && b.client.count == 0
    && !b.client.failed && !b.client.reused && b.client.labels.None?
    && b.ledger == Ledger(0, map[], None, false)
    && b.bge == Bge(0, 0, 0, 0, 0, false) && b.qwen == Qwen(0, 0, 0, 0, 0, false)
    && b.clean
  }

  lemma FreshSound(b: Books)
    requires Fresh(b)
    ensures Sound(b)
  {
  }

  /** A capture either leaves the client to fail or sends one body and returns one acknowledgement. */
  lemma CaptureStepEffect(c: Client, event: Event, raw: Payload, reply: Option<Wire>)
    requires c.pending.None?
    ensures var (d, acknowledgement) := CaptureStep(c, event, raw, reply);
      && d.pending.None? && d.selected == c.selected
      && (d.outbox == c.outbox || (MaySend(c) && c.selected.Some?
                                   && d.outbox == c.outbox + [CaptureRequestBody(c, event, raw)]))
      && (acknowledgement.Some? ==>
            && MaySend(c) && c.selected.Some?
            && d == c.(outbox := c.outbox + [CaptureRequestBody(c, event, raw)], count := c.count + 1,
                       acked := c.acked + [acknowledgement.value], reused := c.reused || c.failed))
  {
  }

  lemma BodyOfCapture(c: Client, event: Event, raw: Payload)
    requires MaySend(c) && c.selected.Some?
    requires EventModelOk(event)
    ensures KnownModel(CaptureRequestBody(c, event, raw))
    ensures CaseOf(CaptureRequestBody(c, event, raw)) == c.selected.value
    ensures forall model :: NamesModel(CaptureRequestBody(c, event, raw), model) <==> event.model == model
  {
  }

  lemma SentForAppend(outbox: seq<Body>, body: Body, model: string)
    ensures SentFor(outbox + [body], model) == SentFor(outbox, model) + if NamesModel(body, model) then 1 else 0
  {
    assert (outbox + [body])[..|outbox|] == outbox;
  }

  lemma AckedForAppend(outbox: seq<Body>, acked: seq<Digest>, body: Body, acknowledgement: Digest, caseId: Digest)
    requires |outbox| == |acked|
    ensures AckedFor(outbox + [body], acked + [acknowledgement], caseId)
            == AckedFor(outbox, acked, caseId) + (if CaseOf(body) == caseId then [acknowledgement] else [])
  {
    assert (outbox + [body])[..|outbox|] == outbox && (acked + [acknowledgement])[..|acked|] == acked;
  }

  /** Forwarding keeps the books sound; `counted` are the books just before, with the ordinal taken. */
  lemma ForwardSound(before: Books, numbered: Books, event: Event, raw: Payload, reply: Option<Wire>, maxCalls: nat)
    requires Sound(before) && EventModelOk(event)
    requires numbered == before.(bge := numbered.bge, qwen := numbered.qwen)
    requires numbered.bge.ordinal == before.bge.ordinal + (if event.model == BGE_IDENTITY then 1 else 0)
    requires numbered.qwen.ordinal == before.qwen.ordinal + (if event.model == QWEN_IDENTITY then 1 else 0)
    ensures var (after, forwarded) := Forward(numbered, event, raw, reply, maxCalls);
      && after.client.pending.None? && SameCase(after)
      && after.bge == numbered.bge && after.qwen == numbered.qwen
      && (forall body :: body in after.client.outbox ==> KnownModel(body))
      && (!forwarded ==> !after.clean)
      && (after.clean ==>
            && before.clean && forwarded
            && MaySend(after.client) && !after.client.failed && !after.client.reused
            && |after.client.outbox| == |after.client.acked| == after.client.count == after.ledger.calls
               == after.bge.ordinal + after.qwen.ordinal
            && SentFor(after.client.outbox, BGE_IDENTITY) == after.bge.ordinal
            && SentFor(after.client.outbox, QWEN_IDENTITY) == after.qwen.ordinal
            && (forall name :: EventsOf(after.ledger, name)
                               == AckedFor(after.client.outbox, after.client.acked, CaseDigest(name))))
  {
    hide Receive, CaptureStep, KnownModel, LedgerAdmits, SentFor, NamesModel, BGE_IDENTITY, QWEN_IDENTITY;
    IdentitiesOk();
    var c := numbered.client;
    CaptureStepEffect(c, event, raw, reply);
    var (d, acknowledgement) := CaptureStep(c, event, raw, reply);
    if MaySend(c) && c.selected.Some? {
      BodyOfCapture(c, event, raw);
    }
    var (after, forwarded) := Forward(numbered, event, raw, reply, maxCalls);
    if after.clean {
      var body := CaptureRequestBody(c, event, raw);
      SentForAppend(c.outbox, body, BGE_IDENTITY);
      SentForAppend(c.outbox, body, QWEN_IDENTITY);
      forall name ensures EventsOf(after.ledger, name)
                          == AckedFor(after.client.outbox, after.client.acked, CaseDigest(name)) {
        AckedForAppend(c.outbox, c.acked, body, acknowledgement.value, CaseDigest(name));
      }
    }
  }

  lemma EmbedSound(b: Books, call: Call, maxCalls: nat)
    requires Sound(b) && call.EmbedCall?
    ensures Sound(Embed(b, call, maxCalls).0)
  {
    hide Forward, KnownModel, SentFor;
    IdentitiesOk();
    if TextsOk(call.texts, call.query) && !b.bge.closed && call.ready {
      var ordinal := b.bge.ordinal + 1;
      var numbered := b.(bge := Counted(b.bge, call.query, call.tokens).(ordinal := ordinal));
      var event := EmbeddingEventFor(ordinal, call.query, call.texts, call.tokens);
      ForwardSound(b, numbered, event, Texts(call.texts), call.reply, maxCalls);
    }
  }

  lemma GenerateSound(b: Books, call: Call, maxCalls: nat)
    requires Sound(b) && call.GenerateCall?
    ensures Sound(Generate(b, call, maxCalls).0)
  {
    hide Forward, KnownModel, SentFor;
    IdentitiesOk();
    if PromptOk(call) && !b.qwen.closed {
      var ordinal := b.qwen.ordinal + 1;
      var numbered := b.(qwen := b.qwen.(ordinal := ordinal));
      var event := GenerationEventFor(ordinal, call.repair, call.system, call.user, call.promptTokens,
                                      call.maximumOutput);
      ForwardSound(b, numbered, event, Fields(PromptFields(call.system, call.user)), call.reply, maxCalls);
    }
  }

  lemma PerformSound(b: Books, call: Call, maxCalls: nat)
    requires Sound(b)
    ensures Sound(Perform(b, call, maxCalls).0)
  {
    match call
    case EmbedCall(_, _, _, _, _, _) => EmbedSound(b, call, maxCalls);
    case GenerateCall(_, _, _, _, _, _, _, _, _) => GenerateSound(b, call, maxCalls);
    case ObserveCall(event) =>
  }

  lemma {:induction false} ScriptSound(b: Books, script: seq<Attempt>, maxCalls: nat)
    requires Sound(b)
    ensures Sound(RunScript(b, script, maxCalls).0)
    decreases |script|
  {
    hide Sound, Perform;
    if script != [] {
      PerformSound(b, script[0].call, maxCalls);
      ScriptSound(Perform(b, script[0].call, maxCalls).0, script[1..], maxCalls);
    }
  }

  lemma SelectSound(b: Books, name: string)
    requires Sound(b)
    ensures Sound(OpenCase(b, name))
  {
    var after := OpenCase(b, name);
    assert forall n :: EventsOf(after.ledger, n) == EventsOf(b.ledger, n);
  }

  lemma {:induction false} PhaseSound(b: Books, visits: seq<Visit>, maxCalls: nat)
    requires Sound(b)
    ensures Sound(RunPhase(b, visits, maxCalls).0)
    decreases |visits|
  {
    hide Sound, RunScript, OpenCase;
    if visits != [] && visits[0].onTime {
      SelectSound(b, visits[0].name);
      ScriptSound(OpenCase(b, visits[0].name), visits[0].script, maxCalls);
      PhaseSound(RunVisit(b, visits[0], maxCalls).0, visits[1..], maxCalls);
    }
  }

  lemma CloseSound(b: Books, bge: bool, qwen: bool, ledger: bool)
    requires Sound(b)
    ensures Sound(b.(bge := b.bge.(closed := bge), qwen := b.qwen.(closed := qwen),
                     ledger := b.ledger.(closed := ledger)))
  {
    var after := b.(bge := b.bge.(closed := bge), qwen := b.qwen.(closed := qwen),
                    ledger := b.ledger.(closed := ledger));
    assert forall n :: EventsOf(after.ledger, n) == EventsOf(b.ledger, n);
  }

  lemma WorkSound(b: Books, plan: Plan, maxCalls: nat)
    requires Sound(b)
    ensures Sound(Work(b, plan, maxCalls).0)
  {
    hide Sound, RunScript, RunPhase;
    ScriptSound(b, plan.prepare, maxCalls);
    var (prepared, failed) := RunScript(b, plan.prepare, maxCalls);
    PhaseSound(prepared, plan.first, maxCalls);
    var (visited, ok) := RunPhase(prepared, plan.first, maxCalls);
    CloseSound(visited, true, visited.qwen.closed, visited.ledger.closed);
    assert CloseEmbedding(visited) == visited.(bge := visited.bge.(closed := true),
                                              qwen := visited.qwen.(closed := visited.qwen.closed),
                                              ledger := visited.ledger.(closed := visited.ledger.closed));
    PhaseSound(CloseEmbedding(visited), plan.second, maxCalls);
  }

  lemma FinishSound(b: Books, plan: Plan, maxCalls: nat)
    requires Sound(b)
    ensures Sound(Finish(b, plan, maxCalls).0)
  {
    hide Sound, RunScript;
    var closing := b.(ledger := b.ledger.(closed := true));
    CloseSound(b, b.bge.closed, b.qwen.closed, true);
    assert closing == b.(bge := b.bge.(closed := b.bge.closed), qwen := b.qwen.(closed := b.qwen.closed),
                         ledger := b.ledger.(closed := true));
    ScriptSound(closing, plan.finalize, maxCalls);
    var after := RunScript(closing, plan.finalize, maxCalls).0;
    CloseSound(after, true, true, after.ledger.closed);
    assert Finish(b, plan, maxCalls).0 == after.(bge := after.bge.(closed := true),
                                                qwen := after.qwen.(closed := true),
                                                ledger := after.ledger.(closed := after.ledger.closed));
  }

  // ---- After the ledger is sealed ----

  /** A sealed ledger takes no call and no event, whatever is tried. */
  lemma {:induction false} SealedLedgerFixed(b: Books, script: seq<Attempt>, maxCalls: nat)
    requires b.ledger.closed
    ensures RunScript(b, script, maxCalls).0.ledger == b.ledger
    decreases |script|
  {
    hide CaptureStep, LedgerAdmits;
    if script != [] {
      SealedLedgerFixed(Perform(b, script[0].call, maxCalls).0, script[1..], maxCalls);
    }
  }

  /** With the ledger sealed and both providers closed, no script of calls reaches the capture client,
      the ledger or the generation counters any more; the embedding adapter only counts refused calls. */
  lemma {:induction false} NothingMoves(b: Books, script: seq<Attempt>, maxCalls: nat)
    requires b.ledger.closed && b.bge.closed && b.qwen.closed
    ensures var after := RunScript(b, script, maxCalls).0;
      after.ledger == b.ledger && after.client == b.client && after.qwen == b.qwen
      && after.bge.ordinal == b.bge.ordinal
    decreases |script|
  {
    hide CaptureStep, LedgerAdmits, Forward;
    if script != [] {
      NothingMoves(Perform(b, script[0].call, maxCalls).0, script[1..], maxCalls);
    }
  }
}
