/** What a run counts: the lifecycle as one flat list of steps, the provider counters against the evidence, kind by
    kind and token by token, and the counters against what the executor asked for. */
module BenchmarkCounts {
  import opened Outcomes
  import opened CaptureFrames
  import opened CaptureProtocol
  import opened CaptureNetwork
  import opened CaptureAgreement
  import opened ProviderCalls
  import opened BenchmarkRun
  import opened BenchmarkGuarantees

  // ---- The lifecycle, step by step ----

  /** One thing that happens before the usage check. */
  datatype Moment = Open(name: string) | Do(attempt: Attempt) | SwitchProviders | Check(passes: bool)

  ghost function Calls(script: seq<Attempt>): (moments: seq<Moment>)
    ensures |moments| == |script| && forall k :: 0 <= k < |script| ==> moments[k] == Do(script[k])
  {
    seq(|script|, k requires 0 <= k < |script| => Do(script[k]))
  }

  /** One case: the clock, the case, the executor's calls, whether it returned, the clock again. */
  ghost function MomentsOf(v: Visit): seq<Moment>
  {
    [Check(v.onTime), Open(v.name)] + Calls(v.script) + [Check(v.returned), Check(v.stillOnTime)]
  }

  ghost function MomentsOfAll(visits: seq<Visit>): seq<Moment>
  {
    if visits == [] then [] else MomentsOf(visits[0]) + MomentsOfAll(visits[1..])
  }

  /** Preparation, the first visit to every case and, in a phased run, the second one without embeddings. */
  ghost function Timeline(plan: Plan): seq<Moment>
  {
    Calls(plan.prepare) + [Check(plan.prepared)] + MomentsOfAll(plan.first)
    + if plan.phased then [Check(plan.embeddingCloses), SwitchProviders] + MomentsOfAll(plan.second) else []
  }

  /** What one moment does to the books, and whether the run goes on. */
  ghost function Happens(b: Books, m: Moment, maxCalls: nat): (Books, bool)
  {
    match m
    case Open(name) =>
      (b.(ledger := b.ledger.(active := Some(name), events := b.ledger.events[name := EventsOf(b.ledger, name)]),
          client := b.client.(selected := Some(CaseDigest(name)))), true)
    case Do(attempt) =>
      var (after, raised) := Perform(b, attempt.call, maxCalls);
      (after, !raised || attempt.swallowed)
    case SwitchProviders => (b.(bge := b.bge.(closed := true)), true)
    case Check(passes) => (b, passes)
  }

  /** Moment after moment, until one ends the run. */
  ghost function Passing(b: Books, moments: seq<Moment>, maxCalls: nat): (Books, bool)
    decreases |moments|
  {
    if moments == [] then (b, true)
    else
      var (after, goes) := Happens(b, moments[0], maxCalls);
      if goes then Passing(after, moments[1..], maxCalls) else (after, false)
  }

  lemma {:induction false} PassingAppend(b: Books, first: seq<Moment>, second: seq<Moment>, maxCalls: nat)
    ensures var (after, goes) := Passing(b, first, maxCalls);
      Passing(b, first + second, maxCalls) == if goes then Passing(after, second, maxCalls) else (after, false)
    decreases |first|
  {
    hide Happens;
    if first == [] {
      assert first + second == second;
    } else {
      assert (first + second)[0] == first[0] && (first + second)[1..] == first[1..] + second;
      PassingAppend(Happens(b, first[0], maxCalls).0, first[1..], second, maxCalls);
    }
  }

  lemma {:induction false} CallsPass(b: Books, script: seq<Attempt>, maxCalls: nat)
    ensures var (after, failed) := RunScript(b, script, maxCalls);
      Passing(b, Calls(script), maxCalls) == (after, !failed)
    decreases |script|
  {
    hide Perform;
    if script != [] {
      assert Calls(script)[0] == Do(script[0]) && Calls(script)[1..] == Calls(script[1..]);
      CallsPass(Perform(b, script[0].call, maxCalls).0, script[1..], maxCalls);
    }
  }

  lemma CheckPasses(b: Books, passes: bool, rest: seq<Moment>, maxCalls: nat)
    ensures Passing(b, [Check(passes)] + rest, maxCalls) == if passes then Passing(b, rest, maxCalls) else (b, false)
  {
    assert ([Check(passes)] + rest)[1..] == rest;
  }

  lemma VisitPasses(b: Books, v: Visit, maxCalls: nat)
    ensures Passing(b, MomentsOf(v), maxCalls) == RunVisit(b, v, maxCalls)
  {
    hide RunScript, Calls;
    var closing := [Check(v.returned), Check(v.stillOnTime)];
    var rest := [Open(v.name)] + (Calls(v.script) + closing);
    assert MomentsOf(v) == [Check(v.onTime)] + rest;
    CheckPasses(b, v.onTime, rest, maxCalls);
    OpeningPasses(b, v.name, Calls(v.script) + closing, maxCalls);
    hide Passing, MomentsOf, OpenCase;
    var started := OpenCase(b, v.name);
    CallsPass(started, v.script, maxCalls);
    PassingAppend(started, Calls(v.script), closing, maxCalls);
    ClosingPasses(RunScript(started, v.script, maxCalls).0, v.returned, v.stillOnTime, maxCalls);
  }

  lemma OpeningPasses(b: Books, name: string, rest: seq<Moment>, maxCalls: nat)
    ensures Passing(b, [Open(name)] + rest, maxCalls) == Passing(OpenCase(b, name), rest, maxCalls)
  {
    assert ([Open(name)] + rest)[1..] == rest;
  }

  lemma ClosingPasses(b: Books, returned: bool, onTime: bool, maxCalls: nat)
    ensures Passing(b, [Check(returned), Check(onTime)], maxCalls) == (b, returned && onTime)
  {
    CheckPasses(b, returned, [Check(onTime)], maxCalls);
    CheckPasses(b, onTime, [], maxCalls);
    assert [Check(returned), Check(onTime)] == [Check(returned)] + [Check(onTime)];
    assert [Check(onTime)] == [Check(onTime)] + [];
  }

  lemma {:induction false} VisitsPass(b: Books, visits: seq<Visit>, maxCalls: nat)
    ensures Passing(b, MomentsOfAll(visits), maxCalls) == RunPhase(b, visits, maxCalls)
    decreases |visits|
  {
    hide RunVisit, MomentsOf;
    if visits != [] {
      VisitPasses(b, visits[0], maxCalls);
      PassingAppend(b, MomentsOf(visits[0]), MomentsOfAll(visits[1..]), maxCalls);
      VisitsPass(RunVisit(b, visits[0], maxCalls).0, visits[1..], maxCalls);
    }
  }

  /** The nested lifecycle is the flat timeline: the same books on every path, also when it ends early. */
  lemma WorkIsTimeline(b: Books, plan: Plan, maxCalls: nat)
    ensures Work(b, plan, maxCalls) == Passing(b, Timeline(plan), maxCalls)
  {
    hide RunScript, RunPhase, Happens, MomentsOfAll, Calls;
    var second := if plan.phased then [Check(plan.embeddingCloses), SwitchProviders] + MomentsOfAll(plan.second) else [];
    var rest := [Check(plan.prepared)] + (MomentsOfAll(plan.first) + second);
    assert Timeline(plan) == Calls(plan.prepare) + rest;
    CallsPass(b, plan.prepare, maxCalls);
    PassingAppend(b, Calls(plan.prepare), rest, maxCalls);
    var prepared := RunScript(b, plan.prepare, maxCalls).0;
    CheckPasses(prepared, plan.prepared, MomentsOfAll(plan.first) + second, maxCalls);
    PassingAppend(prepared, MomentsOfAll(plan.first), second, maxCalls);
    VisitsPass(prepared, plan.first, maxCalls);
    var visited := RunPhase(prepared, plan.first, maxCalls).0;
    SecondPasses(visited, plan, maxCalls);
  }

  lemma SecondPasses(visited: Books, plan: Plan, maxCalls: nat)
    ensures Passing(visited, if plan.phased then [Check(plan.embeddingCloses), SwitchProviders] + MomentsOfAll(plan.second)
                             else [], maxCalls)
            == if !plan.phased then (visited, true)
               else if !plan.embeddingCloses then (visited, false)
               else RunPhase(CloseEmbedding(visited), plan.second, maxCalls)
  {
    hide RunPhase, MomentsOfAll;
    if plan.phased {
      var tail := [SwitchProviders] + MomentsOfAll(plan.second);
      assert [Check(plan.embeddingCloses), SwitchProviders] + MomentsOfAll(plan.second)
             == [Check(plan.embeddingCloses)] + tail;
      CheckPasses(visited, plan.embeddingCloses, tail, maxCalls);
      assert tail[0] == SwitchProviders && tail[1..] == MomentsOfAll(plan.second);
      VisitsPass(CloseEmbedding(visited), plan.second, maxCalls);
    }
  }

  lemma {:induction false} VisitsHold(b: Books, visits: seq<Visit>, maxCalls: nat)
    requires RunPhase(b, visits, maxCalls).1
    ensures forall k :: 0 <= k < |visits| ==> visits[k].onTime && visits[k].returned && visits[k].stillOnTime
    decreases |visits|
  {
    hide RunScript, OpenCase;
    if visits != [] {
      VisitsHold(RunVisit(b, visits[0], maxCalls).0, visits[1..], maxCalls);
    }
  }

  /** A run gets to its report only if the executor was prepared, finished every case of every phase in time, was
      attested and finalised, the providers closed, and the usage they counted is the ledger's. */
  lemma CompletedMeans(start: Books, plan: Plan, names: seq<string>, maxCalls: nat, worked: Books, final: Books,
                       after: Client)
    requires Completed(start, plan, names, maxCalls, worked, final, after)
    ensures plan.prepared && plan.attested && plan.finalized && plan.closes && (plan.phased ==> plan.embeddingCloses)
    ensures forall k :: 0 <= k < |plan.first| ==>
              plan.first[k].onTime && plan.first[k].returned && plan.first[k].stillOnTime
    ensures plan.phased ==> forall k :: 0 <= k < |plan.second| ==>
              plan.second[k].onTime && plan.second[k].returned && plan.second[k].stillOnTime
    ensures worked.bge.batchCalls + worked.bge.queryCalls + worked.qwen.generationCalls + worked.qwen.repairCalls
            == worked.ledger.calls == final.client.count
    ensures final.ledger.closed && final.bge.closed && final.qwen.closed
  {
    hide RunScript, RunPhase, SealedBy;
    LedgerUnmoved(worked, plan, maxCalls);
    var prepared := RunScript(start, plan.prepare, maxCalls).0;
    VisitsHold(prepared, plan.first, maxCalls);
    if plan.phased {
      VisitsHold(CloseEmbedding(RunPhase(prepared, plan.first, maxCalls).0), plan.second, maxCalls);
    }
  }

  // ---- The counters against what the executor asked for ----

  /** What the adapters count, and what the model gave back. */
  datatype Used = Used(batches: int, batchTokens: int, queries: int, queryTokens: int, generations: int, repairs: int,
                       promptTokens: int, generatedTokens: int)

  ghost function Nothing(): Used
  {
    Used(0, 0, 0, 0, 0, 0, 0, 0)
  }

  ghost function Plus(a: Used, b: Used): Used
  {
    Used(a.batches + b.batches, a.batchTokens + b.batchTokens, a.queries + b.queries, a.queryTokens + b.queryTokens,
         a.generations + b.generations, a.repairs + b.repairs, a.promptTokens + b.promptTokens,
         a.generatedTokens + b.generatedTokens)
  }

  /** The counters of both adapters. */
  ghost function CountedIn(b: Books): Used
  {
    Used(b.bge.batchCalls, b.bge.batchTokens, b.bge.queryCalls, b.bge.queryTokens, b.qwen.generationCalls,
         b.qwen.repairCalls, b.qwen.promptTokens, b.qwen.generatedTokens)
  }

  /** What one call that succeeds uses. */
  ghost function UsedBy(call: Call): Used
  {
    match call
    case EmbedCall(_, true, tokens, _, _, _) => Nothing().(queries := 1, queryTokens := tokens)
    case EmbedCall(_, false, tokens, _, _, _) => Nothing().(batches := 1, batchTokens := tokens)
    case GenerateCall(_, _, true, prompt, _, _, _, output, _) =>
      Nothing().(repairs := 1, promptTokens := prompt, generatedTokens := output)
    case GenerateCall(_, _, false, prompt, _, _, _, output, _) =>
      Nothing().(generations := 1, promptTokens := prompt, generatedTokens := output)
    case ObserveCall(_) => Nothing()
  }

  ghost function UsedIn(script: seq<Attempt>): Used
  {
    if script == [] then Nothing() else Plus(UsedBy(script[0].call), UsedIn(script[1..]))
  }

  ghost function UsedInVisits(visits: seq<Visit>): Used
  {
    if visits == [] then Nothing() else Plus(UsedIn(visits[0].script), UsedInVisits(visits[1..]))
  }

  /** A call that does not raise is counted once, with its tokens. */
  lemma CallCounts(b: Books, call: Call, maxCalls: nat)
    requires !Perform(b, call, maxCalls).1
    ensures CountedIn(Perform(b, call, maxCalls).0) == Plus(CountedIn(b), UsedBy(call))
  {
    hide CaptureStep, Observe;
  }

  lemma {:induction false} ScriptCounts(b: Books, script: seq<Attempt>, maxCalls: nat)
    requires Faithful(script) && !RunScript(b, script, maxCalls).1
    ensures CountedIn(RunScript(b, script, maxCalls).0) == Plus(CountedIn(b), UsedIn(script))
    decreases |script|
  {
    hide Perform;
    if script != [] {
      assert !script[0].swallowed;
      CallCounts(b, script[0].call, maxCalls);
      ScriptCounts(Perform(b, script[0].call, maxCalls).0, script[1..], maxCalls);
    }
  }

  lemma VisitCounts(b: Books, v: Visit, maxCalls: nat)
    requires RunVisit(b, v, maxCalls).1 && Faithful(v.script)
    ensures CountedIn(RunVisit(b, v, maxCalls).0) == Plus(CountedIn(b), UsedIn(v.script))
  {
    hide RunScript, Faithful, Plus;
    ScriptCounts(OpenCase(b, v.name), v.script, maxCalls);
  }

  lemma PlusAssociates(a: Used, b: Used, c: Used)
    ensures Plus(Plus(a, b), c) == Plus(a, Plus(b, c))
  {
  }

  lemma PlusNothing(a: Used)
    ensures Plus(a, Nothing()) == a
  {
  }

  lemma {:induction false} VisitsCount(b: Books, visits: seq<Visit>, maxCalls: nat)
    requires RunPhase(b, visits, maxCalls).1 && forall k :: 0 <= k < |visits| ==> Faithful(visits[k].script)
    ensures CountedIn(RunPhase(b, visits, maxCalls).0) == Plus(CountedIn(b), UsedInVisits(visits))
    decreases |visits|
  {
    hide RunVisit, Faithful, Plus;
    if visits != [] {
      assert Faithful(visits[0].script);
      VisitCounts(b, visits[0], maxCalls);
      VisitsCount(RunVisit(b, visits[0], maxCalls).0, visits[1..], maxCalls);
      PlusAssociates(CountedIn(b), UsedIn(visits[0].script), UsedInVisits(visits[1..]));
    } else {
      PlusNothing(CountedIn(b));
    }
  }

  /** When a run whose executor swallows no failure gets to the usage check, every counter is the sum over all the
      calls that it made: calls by kind, tokens embedded, prompted and generated. */
  lemma FaithfulRunCounts(start: Books, plan: Plan, maxCalls: nat)
    requires FaithfulPlan(plan) && Fresh(start) && Work(start, plan, maxCalls).1
    ensures var asked := Plus(UsedIn(plan.prepare), UsedInVisits(plan.first));
      CountedIn(Work(start, plan, maxCalls).0) == if plan.phased then Plus(asked, UsedInVisits(plan.second)) else asked
  {
    hide RunScript, RunPhase, Faithful, UsedIn, UsedInVisits;
    ScriptCounts(start, plan.prepare, maxCalls);
    var prepared := RunScript(start, plan.prepare, maxCalls).0;
    VisitsCount(prepared, plan.first, maxCalls);
    if plan.phased {
      VisitsCount(CloseEmbedding(RunPhase(prepared, plan.first, maxCalls).0), plan.second, maxCalls);
    }
  }

  /** The embedding adapter counts a call before it looks whether it is closed, so a call that comes too late is
      counted although nothing is sent. */
  lemma LateEmbeddingCounts(b: Books, texts: seq<string>, query: bool, tokens: nat, ready: bool, reply: Option<Wire>,
                            modelOk: bool, maxCalls: nat)
    requires b.bge.closed || !ready
    ensures var call := EmbedCall(texts, query, tokens, ready, reply, modelOk);
      var (after, raised) := Perform(b, call, maxCalls);
      && raised && after == b.(bge := after.bge) && after.bge.ordinal == b.bge.ordinal && after.bge.closed == b.bge.closed
      && CountedIn(after) == if texts != [] && "" !in texts && (query ==> |texts| == 1)
                             then Plus(CountedIn(b), UsedBy(call)) else CountedIn(b)
  {
  }

  ghost predicate Written(s: string)
  {
    exists i :: 0 <= i < |s| && s[i] != ' ' && s[i] != '\t' && s[i] != '\n' && s[i] != '\r'
  }

  ghost predicate Sendable(b: Books, call: Call)
  {
    match call
    case EmbedCall(texts, query, _, ready, _, _) =>
      && texts != [] && (forall i :: 0 <= i < |texts| ==> texts[i] != "") && (query ==> |texts| == 1)
      && ready && !b.bge.closed
    case GenerateCall(system, user, _, promptTokens, _, withinLimits, _, _, _) =>
      && Written(system) && Written(user) && promptTokens > 0 && withinLimits && !b.qwen.closed
    case ObserveCall(_) => false
  }

  /** Exactly when a call reaches the collector, and what it then says: the adapter's next number, its own identity
      and the size of the payload itself. */
  lemma SendsExactly(b: Books, call: Call, maxCalls: nat)
    requires MaySend(b.client) && b.client.selected.Some?
    ensures var sent := Perform(b, call, maxCalls).0.client.outbox;
      if !Sendable(b, call) then sent == b.client.outbox
      else
        && |sent| == |b.client.outbox| + 1 && b.client.outbox <= sent
        && var body := sent[|sent| - 1];
        && Get(body, CaseField) == Some(Sha(b.client.selected.value))
        && Get(body, RawPayload) == Some(PayloadValue(
             if call.EmbedCall? then Texts(call.texts) else Fields(map["system" := call.system, "user" := call.user])))
        && Get(body, EventField) == Some(EventValue(
             if call.EmbedCall? then
               EmbeddingEvent(b.bge.ordinal + 1, if call.query then Query else Embedding, BGE_IDENTITY, |call.texts|,
                              TotalUtf8(call.texts), call.tokens, PayloadDigest(Texts(call.texts)))
             else
               GenerationEvent(b.qwen.ordinal + 1, if call.repair then Repair else Generation, QWEN_IDENTITY,
                               ["system", "user"],
                               map["system" := Utf8Length(call.system), "user" := Utf8Length(call.user)],
                               map["prompt" := call.promptTokens, "maximum_output" := call.maximumOutput],
                               PayloadDigest(Fields(map["system" := call.system, "user" := call.user])))))
  {
    hide Observe, Receive, Blank, Written;
    if call.GenerateCall? {
      BlankMeans(call.system);
      BlankMeans(call.user);
    }
    var event := if call.EmbedCall? then EmbeddingEventFor(b.bge.ordinal + 1, call.query, call.texts, call.tokens)
                 else if call.GenerateCall? then
                   GenerationEventFor(b.qwen.ordinal + 1, call.repair, call.system, call.user, call.promptTokens,
                                      call.maximumOutput)
                 else MalformedEvent;
    forall raw, reply ensures CaptureStep(b.client, event, raw, reply).0.outbox
                              == b.client.outbox + [CaptureRequestBody(b.client, event, raw)] {
      CaptureSends(b.client, event, raw, reply);
    }
    hide CaptureStep;
  }

  lemma BlankMeans(s: string)
    ensures Blank(s) <==> !Written(s)
  {
  }

  lemma CaptureSends(c: Client, event: Event, raw: Payload, reply: Option<Wire>)
    requires MaySend(c) && c.selected.Some?
    ensures CaptureStep(c, event, raw, reply).0.outbox == c.outbox + [CaptureRequestBody(c, event, raw)]
  {
  }

  /** Exactly what the ledger takes: an acknowledged event of one of the two models with its numbers in range, while
      it is open and a case is selected.  Beyond the budget it is counted but not kept. */
  lemma ObservesExactly(l: Ledger, e: LedgerEvent, maxCalls: nat)
    ensures var (after, observed) := Observe(l, e, maxCalls);
      var taken := !l.closed && l.active.Some? && Acceptable(e);
      && (observed <==> taken && l.calls < maxCalls)
      && after.calls == l.calls + (if taken then 1 else 0) && after.active == l.active && after.closed == l.closed
      && (!observed ==> after.events == l.events)
      && (observed ==> forall name :: EventsOf(after, name)
                         == EventsOf(l, name) + if Some(name) == l.active then [e.capture.value] else [])
  {
    assert forall name :: name in l.events ==> EventsOf(l, name) == l.events[name];
  }

  ghost predicate Acceptable(e: LedgerEvent)
  {
    && e.capture.Some? && !e.event.MalformedEvent? && e.event.ordinal > 0
    && (e.event.EmbeddingEvent? ==>
          && e.event.kind in {Embedding, Query} && e.event.model == BGE_IDENTITY
          && e.event.itemCount > 0 && e.event.byteCount >= 0 && e.event.tokenCount >= 0)
    && (e.event.GenerationEvent? ==>
          && e.event.kind in {Generation, Repair} && e.event.model == QWEN_IDENTITY
          && 0 < |e.event.fieldNames| <= 32 && (forall k :: 0 <= k < |e.event.fieldNames| ==> e.event.fieldNames[k] != "")
          && (forall name :: name in e.event.byteCounts <==> name in e.event.fieldNames)
          && (forall name :: name in e.event.byteCounts ==> e.event.byteCounts[name] >= 0)
          && (forall name :: name in e.event.tokenCounts <==> name == "prompt" || name == "maximum_output")
          && (forall name :: name in e.event.tokenCounts ==> e.event.tokenCounts[name] >= 0))
  }

  // ---- The counters against the evidence ----

  predicate Names(body: Body, kind: Kind)
  {
    EventField in body && body[EventField].EventValue? && !body[EventField].event.MalformedEvent?
    && body[EventField].event.kind == kind
  }

  /** The tokens that a request declares: those of its texts, or those of its prompt. */
  function Declared(body: Body): int
  {
    if EventField !in body || !body[EventField].EventValue? then 0
    else
      match body[EventField].event
      case EmbeddingEvent(_, _, _, _, _, tokens, _) => tokens
      case GenerationEvent(_, _, _, _, _, tokens, _) => if "prompt" in tokens then tokens["prompt"] else 0
      case MalformedEvent => 0
  }

  function SentOf(outbox: seq<Body>, kind: Kind): nat
  {
    if outbox == [] then 0
    else SentOf(outbox[..|outbox| - 1], kind) + if Names(outbox[|outbox| - 1], kind) then 1 else 0
  }

  function TokensSent(outbox: seq<Body>, kind: Kind): int
  {
    if outbox == [] then 0
    else
      TokensSent(outbox[..|outbox| - 1], kind) + if Names(outbox[|outbox| - 1], kind) then Declared(outbox[|outbox| - 1]) else 0
  }

  lemma SentSnoc(outbox: seq<Body>, body: Body, kind: Kind)
    ensures SentOf(outbox + [body], kind) == SentOf(outbox, kind) + if Names(body, kind) then 1 else 0
    ensures TokensSent(outbox + [body], kind) == TokensSent(outbox, kind) + if Names(body, kind) then Declared(body) else 0
  {
    assert (outbox + [body])[..|outbox|] == outbox;
  }

  /** Never fewer embedding calls are counted than were sent, and if just as many then just their tokens; the
      generation adapter counts exactly what was sent. */
  ghost predicate Tied(b: Books)
  {
    var sent := b.client.outbox;
    && (b.clean ==>
          && SentOf(sent, Embedding) <= b.bge.batchCalls && SentOf(sent, Query) <= b.bge.queryCalls
          && (b.bge.batchCalls == SentOf(sent, Embedding) ==> b.bge.batchTokens == TokensSent(sent, Embedding))
          && (b.bge.queryCalls == SentOf(sent, Query) ==> b.bge.queryTokens == TokensSent(sent, Query))
          && b.qwen.generationCalls == SentOf(sent, Generation) && b.qwen.repairCalls == SentOf(sent, Repair)
          && b.qwen.promptTokens == TokensSent(sent, Generation) + TokensSent(sent, Repair))
    && b.client.pending.None?
  }

  /** What reaches the ledger was sent as it is. */
  lemma ForwardSends(b: Books, event: Event, raw: Payload, reply: Option<Wire>, maxCalls: nat)
    requires b.client.pending.None? && !event.MalformedEvent?
    ensures var (after, forwarded) := Forward(b, event, raw, reply, maxCalls);
      && after.bge == b.bge && after.qwen == b.qwen && after.client.pending.None?
      && (after.clean ==> b.clean && forwarded)
      && (after.clean ==>
            exists body :: after.client.outbox == b.client.outbox + [body] && Get(body, EventField) == Some(EventValue(event)))
  {
    hide CaptureStep, Observe;
    CaptureStepEffect(b.client, event, raw, reply);
    var acknowledgement := CaptureStep(b.client, event, raw, reply).1;
    if Forward(b, event, raw, reply, maxCalls).0.clean {
      assert acknowledgement.None? || acknowledgement.Some?;
      var body := CaptureRequestBody(b.client, event, raw);
      assert Get(body, EventField) == Some(EventValue(event));
    }
  }

  lemma EmbedTied(b: Books, call: Call, maxCalls: nat)
    requires Tied(b) && call.EmbedCall?
    ensures Tied(Embed(b, call, maxCalls).0)
  {
    hide Forward, SentOf, TokensSent;
    if TextsOk(call.texts, call.query) && !b.bge.closed && call.ready {
      var ordinal := b.bge.ordinal + 1;
      var numbered := b.(bge := Counted(b.bge, call.query, call.tokens).(ordinal := ordinal));
      var event := EmbeddingEventFor(ordinal, call.query, call.texts, call.tokens);
      ForwardSends(numbered, event, Texts(call.texts), call.reply, maxCalls);
      var after := Embed(b, call, maxCalls).0;
      if after.clean {
        var body :| after.client.outbox == b.client.outbox + [body] && Get(body, EventField) == Some(EventValue(event));
        SentByKinds(b.client.outbox, body);
        assert forall kind :: Names(body, kind) <==> kind == if call.query then Query else Embedding;
      }
    }
  }

  lemma SentByKinds(outbox: seq<Body>, body: Body)
    ensures forall kind :: SentOf(outbox + [body], kind) == SentOf(outbox, kind) + if Names(body, kind) then 1 else 0
    ensures forall kind :: TokensSent(outbox + [body], kind)
                           == TokensSent(outbox, kind) + if Names(body, kind) then Declared(body) else 0
  {
    hide Names, Declared;
    forall kind
      ensures SentOf(outbox + [body], kind) == SentOf(outbox, kind) + if Names(body, kind) then 1 else 0
      ensures TokensSent(outbox + [body], kind) == TokensSent(outbox, kind) + if Names(body, kind) then Declared(body) else 0
    {
      SentSnoc(outbox, body, kind);
    }
  }

  lemma GenerateTied(b: Books, call: Call, maxCalls: nat)
    requires Tied(b) && call.GenerateCall?
    ensures Tied(Generate(b, call, maxCalls).0)
  {
    hide Forward, SentOf, TokensSent, PromptOk;
    if PromptOk(call) && !b.qwen.closed {
      var ordinal := b.qwen.ordinal + 1;
      var numbered := b.(qwen := b.qwen.(ordinal := ordinal));
      var event := GenerationEventFor(ordinal, call.repair, call.system, call.user, call.promptTokens, call.maximumOutput);
      ForwardSends(numbered, event, Fields(PromptFields(call.system, call.user)), call.reply, maxCalls);
      var after := Generate(b, call, maxCalls).0;
      if after.clean {
        var body :| after.client.outbox == b.client.outbox + [body] && Get(body, EventField) == Some(EventValue(event));
        SentByKinds(b.client.outbox, body);
        assert forall kind :: Names(body, kind) <==> kind == if call.repair then Repair else Generation;
      }
    }
  }

  lemma {:induction false} ScriptTied(b: Books, script: seq<Attempt>, maxCalls: nat)
    requires Tied(b)
    ensures Tied(RunScript(b, script, maxCalls).0)
    decreases |script|
  {
    hide Tied, Embed, Generate;
    if script != [] {
      var call := script[0].call;
      match call {
        case EmbedCall(_, _, _, _, _, _) => EmbedTied(b, call, maxCalls);
        case GenerateCall(_, _, _, _, _, _, _, _, _) => GenerateTied(b, call, maxCalls);
        case ObserveCall(_) => ObserveTied(b, call, maxCalls);
      }
      ScriptTied(Perform(b, call, maxCalls).0, script[1..], maxCalls);
    }
  }

  lemma ObserveTied(b: Books, call: Call, maxCalls: nat)
    requires Tied(b) && call.ObserveCall?
    ensures Tied(Perform(b, call, maxCalls).0)
  {
    hide SentOf, TokensSent, Observe;
  }

  lemma {:induction false} VisitsTied(b: Books, visits: seq<Visit>, maxCalls: nat)
    requires Tied(b)
    ensures Tied(RunPhase(b, visits, maxCalls).0)
    decreases |visits|
  {
    hide RunScript, SentOf, TokensSent;
    if visits != [] && visits[0].onTime {
      ScriptTied(OpenCase(b, visits[0].name), visits[0].script, maxCalls);
      VisitsTied(RunVisit(b, visits[0], maxCalls).0, visits[1..], maxCalls);
    }
  }

  lemma WorkTied(b: Books, plan: Plan, maxCalls: nat)
    requires Tied(b)
    ensures Tied(Work(b, plan, maxCalls).0)
  {
    hide RunScript, RunPhase, SentOf, TokensSent;
    ScriptTied(b, plan.prepare, maxCalls);
    var prepared := RunScript(b, plan.prepare, maxCalls).0;
    VisitsTied(prepared, plan.first, maxCalls);
    VisitsTied(CloseEmbedding(RunPhase(prepared, plan.first, maxCalls).0), plan.second, maxCalls);
  }

  /** With the ledger sealed, a script that keeps the books clean has sent nothing. */
  lemma {:induction false} SealedCleanSendsNothing(b: Books, script: seq<Attempt>, maxCalls: nat)
    requires b.ledger.closed
    ensures var after := RunScript(b, script, maxCalls).0;
      after.clean ==> b.clean && after.client.outbox == b.client.outbox
    decreases |script|
  {
    hide CaptureStep, LedgerAdmits;
    if script != [] {
      SealedCleanSendsNothing(Perform(b, script[0].call, maxCalls).0, script[1..], maxCalls);
    }
  }

  /** The tokens that the entries of one kind record. */
  function TokensLogged(log: seq<Digest>, kind: Kind): int
  {
    if log == [] then 0
    else
      var last := log[|log| - 1];
      TokensLogged(log[..|log| - 1], kind)
      + if last.CaptureDigest? && last.event.kind == kind then
          (match last.event.counts
           case EmbeddingCounts(_, _, tokens) => tokens
           case GenerationCounts(_, _, prompt, _) => prompt)
        else 0
  }

  lemma RecordedTokens(body: Body, sequence: int, entry: Digest, kind: Kind)
    requires RecordedAs(body, sequence, entry)
    ensures entry.CaptureDigest? && (entry.event.kind == kind <==> Names(body, kind))
    ensures Declared(body) == match entry.event.counts
                              case EmbeddingCounts(_, _, tokens) => tokens
                              case GenerationCounts(_, _, prompt, _) => prompt
  {
    assert (body - {SessionField, Sequence})[EventField] == body[EventField];
  }

  lemma {:induction false} LoggedIsSent(outbox: seq<Body>, log: seq<Digest>, kind: Kind)
    requires |outbox| == |log| && forall k :: 0 <= k < |log| ==> RecordedAs(outbox[k], k + 1, log[k])
    ensures KindCount(log, kind) == SentOf(outbox, kind) && TokensLogged(log, kind) == TokensSent(outbox, kind)
    decreases |log|
  {
    hide RecordedAs, Names, Declared;
    if log != [] {
      var n := |log| - 1;
      forall k | 0 <= k < n ensures RecordedAs(outbox[..n][k], k + 1, log[..n][k]) {
        assert RecordedAs(outbox[k], k + 1, log[k]);
      }
      LoggedIsSent(outbox[..n], log[..n], kind);
      RecordedTokens(outbox[n], n + 1, log[n], kind);
    }
  }

  /** When no request was lost and none was forged: the kind counts in the evidence are the adapters' own counters,
      kind by kind, and the tokens that the log records are the tokens that the adapters counted. */
  lemma EvidenceAgreesWithProviders(start: Books, plan: Plan, names: seq<string>, maxCalls: nat, worked: Books,
                                    final: Books, after: Client, actions: seq<Action>, i: nat)
    returns (j: nat)
    requires Completed(start, plan, names, maxCalls, worked, final, after) && final.clean
    requires i in After(actions).clients && After(actions).clients[i] == after
    ensures var w := After(actions);
      && Linked(w, i, j) && w.collectors[j].phase.Sealed? && w.collectors[j].evidence.Some?
      && var log, kinds := w.collectors[j].log, w.collectors[j].evidence.value.kindCounts;
      && Lookup(kinds, Embedding) == worked.bge.batchCalls && Lookup(kinds, Query) == worked.bge.queryCalls
      && Lookup(kinds, Generation) == worked.qwen.generationCalls && Lookup(kinds, Repair) == worked.qwen.repairCalls
      && TokensLogged(log, Embedding) == worked.bge.batchTokens && TokensLogged(log, Query) == worked.bge.queryTokens
      && TokensLogged(log, Generation) + TokensLogged(log, Repair) == worked.qwen.promptTokens
  {
    hide Inv, Finish, Work, RecordedAs, SealedBy, Completed, EntryOk;
    j := LogIsSent(start, plan, names, maxCalls, worked, final, after, actions, i);
    EvidenceMeans(actions, j);
    var log := After(actions).collectors[j].log;
    forall kind ensures KindCount(log, kind) == SentOf(final.client.outbox, kind)
                        && TokensLogged(log, kind) == TokensSent(final.client.outbox, kind) {
      LoggedIsSent(final.client.outbox, log, kind);
    }
    CountersAreSent(start, plan, names, maxCalls, worked, final, after);
  }

  lemma CountersAreSent(start: Books, plan: Plan, names: seq<string>, maxCalls: nat, worked: Books, final: Books,
                        after: Client)
    requires Completed(start, plan, names, maxCalls, worked, final, after) && final.clean
    requires var sent := final.client.outbox;
      SentOf(sent, Embedding) + SentOf(sent, Query) + SentOf(sent, Generation) + SentOf(sent, Repair) == |sent|
    ensures var sent := final.client.outbox;
      && SentOf(sent, Embedding) == worked.bge.batchCalls && SentOf(sent, Query) == worked.bge.queryCalls
      && SentOf(sent, Generation) == worked.qwen.generationCalls && SentOf(sent, Repair) == worked.qwen.repairCalls
      && TokensSent(sent, Embedding) == worked.bge.batchTokens && TokensSent(sent, Query) == worked.bge.queryTokens
      && TokensSent(sent, Generation) + TokensSent(sent, Repair) == worked.qwen.promptTokens
  {
    var sent := final.client.outbox;
    assert Tied(start);
    hide Work, SealedBy, RunScript, SentOf, TokensSent, KnownModel;
    WorkTied(start, plan, maxCalls);
    SealedCleanSendsNothing(worked.(ledger := worked.ledger.(closed := true)), plan.finalize, maxCalls);
    FreshSound(start);
    WorkSound(start, plan, maxCalls);
    assert Clean(worked);
  }
}
