/** The runner's mutable objects and its `execute` program, tied to the functions of BenchmarkRun. */
module BenchmarkObjects {
  import opened Outcomes
  import opened CaptureFrames
  import opened CaptureProtocol
  import opened ProviderCalls
  import opened CaptureNetwork
  import opened CaptureAgreement
  import opened BenchmarkRun
  import opened BenchmarkPack
  import opened BenchmarkGuarantees

  class ObservedLedger {
    const maxCalls: nat
    var activeCase: Option<string>
    var events: map<string, seq<Digest>>
    var calls: nat
    var requestsClosed: bool

    ghost function State(): Ledger
      reads this
    {
      Ledger(calls, events, activeCase, requestsClosed)
    }

    constructor (maxCalls: nat)
      ensures State() == Ledger(0, map[], None, false) && this.maxCalls == maxCalls
    {
      this.maxCalls := maxCalls;
      activeCase, events, calls, requestsClosed := None, map[], 0, false;
    }

    method SelectCase(name: string)
      modifies this
      ensures State() == Select(old(State()), name)
    {
      activeCase := Some(name);
      if name !in events {
        events := events[name := []];
      }
    }

    method ObserveEvent(e: LedgerEvent) returns (observed: bool)
      modifies this
      ensures (State(), observed) == Observe(old(State()), e, maxCalls)
    {
      if requestsClosed || activeCase.None? || !LedgerAdmits(e) {
        return false;
      }
      calls := calls + 1;
      if calls > maxCalls {
        return false;
      }
      var name := activeCase.value;
      events := events[name := (if name in events then events[name] else []) + [e.capture.value]];
      return true;
    }

    method SealRequests()
      modifies this`requestsClosed
      ensures State() == old(State()).(closed := true)
    {
      requestsClosed := true;
    }

    /** One record for each case, or none when some case was never observed or has too many events. */
    method RecordsFor(names: seq<string>) returns (records: Option<seq<LedgerRecord>>)
      ensures records.Some? <==> forall k :: 0 <= k < |names| ==> 1 <= |EventsOf(State(), names[k])| <= 10_000
      ensures records.Some? ==> records.value == Records(State(), names)
    {
      var result: seq<LedgerRecord> := [];
      for k := 0 to |names|
        invariant |result| == k
        invariant forall i :: 0 <= i < k ==> 1 <= |EventsOf(State(), names[i])| <= MAX_RECORDS
        invariant forall i :: 0 <= i < k ==>
                    result[i] == LedgerRecord(names[i], EventsDigest(EventsOf(State(), names[i])))
      {
        var observed := if names[k] in events then events[names[k]] else [];
        if observed == [] || |observed| > MAX_RECORDS {
          return None;
        }
        result := result + [LedgerRecord(names[k], EventsDigest(observed))];
      }
      return Some(result);
    }
  }

  /** Both adapters forward a request to the capture client and then to the observer. */
  method ForwardRequest(client: CaptureClient, ledger: ObservedLedger, event: Event, raw: Payload,
                        reply: Option<Wire>, ghost b: Books)
    returns (forwarded: bool, ghost after: Books)
    requires b == b.(ledger := ledger.State(), client := client.State())
    modifies client, ledger
    ensures (after, forwarded) == Forward(b, event, raw, reply, ledger.maxCalls)
    ensures after.ledger == ledger.State() && after.client == client.State()
  {
    hide CaptureStep, Observe;
    ghost var acknowledged := CaptureStep(client.State(), event, raw, reply).1;
    var acknowledgement := client.Capture(event, raw, reply);
    assert acknowledged.None? || acknowledged.Some?;
    if acknowledgement.Err? {
      return false, b.(client := client.State(), clean := false);
    }
    forwarded := ledger.ObserveEvent(LedgerEvent(event, Some(acknowledgement.value)));
    after := b.(client := client.State(), ledger := ledger.State(), clean := b.clean && forwarded);
  }

  class LocalBgeProvider {
    const client: CaptureClient
    const ledger: ObservedLedger
    var requestOrdinal: nat
    var batchCalls: nat
    var batchTokens: nat
    var queryCalls: nat
    var queryTokens: nat
    var isClosed: bool

    ghost function State(): Bge
      reads this
    {
      Bge(requestOrdinal, batchCalls, batchTokens, queryCalls, queryTokens, isClosed)
    }

    constructor (client: CaptureClient, ledger: ObservedLedger)
      ensures State() == Bge(0, 0, 0, 0, 0, false) && this.client == client && this.ledger == ledger
    {
      this.client, this.ledger := client, ledger;
      requestOrdinal, batchCalls, batchTokens, queryCalls, queryTokens, isClosed := 0, 0, 0, 0, 0, false;
    }

    method Close()
      modifies this`isClosed
      ensures State() == old(State()).(closed := true)
    {
      isClosed := true;
    }

    /** `embed` and `embed_one`: count the call, then encode. */
    method EmbedTexts(texts: seq<string>, query: bool, tokens: nat, ready: bool, reply: Option<Wire>, modelOk: bool,
                      ghost b: Books)
      returns (raised: bool, ghost after: Books)
      requires b == b.(bge := State(), ledger := ledger.State(), client := client.State())
      modifies this, client, ledger
      ensures (after, raised) == Embed(b, EmbedCall(texts, query, tokens, ready, reply, modelOk), ledger.maxCalls)
      ensures after.bge == State() && after.ledger == ledger.State() && after.client == client.State()
    {
      hide Forward, EmbeddingEventFor;
      if !TextsOk(texts, query) {
        return true, b;
      }
      if query {
        queryCalls, queryTokens := queryCalls + 1, queryTokens + tokens;
      } else {
        batchCalls, batchTokens := batchCalls + 1, batchTokens + tokens;
      }
      if isClosed || !ready {
        return true, b.(bge := State());
      }
      requestOrdinal := requestOrdinal + 1;
      var event := EmbeddingEventFor(requestOrdinal, query, texts, tokens);
      var forwarded;
      forwarded, after := ForwardRequest(client, ledger, event, Texts(texts), reply, b.(bge := State()));
      ForwardKeepsAdapters(b.(bge := State()), event, Texts(texts), reply, ledger.maxCalls);
      raised := !forwarded || !modelOk;
    }
  }

  lemma ForwardKeepsAdapters(b: Books, event: Event, raw: Payload, reply: Option<Wire>, maxCalls: nat)
    ensures Forward(b, event, raw, reply, maxCalls).0.bge == b.bge
    ensures Forward(b, event, raw, reply, maxCalls).0.qwen == b.qwen
  {
    hide CaptureStep, Observe;
  }

  class LocalQwenClient {
    const client: CaptureClient
    const ledger: ObservedLedger
    var requestOrdinal: nat
    var generationCalls: nat
    var repairCalls: nat
    var promptTokens: nat
    var generatedTokens: nat
    var isClosed: bool

    ghost function State(): Qwen
      reads this
    {
      Qwen(requestOrdinal, generationCalls, repairCalls, promptTokens, generatedTokens, isClosed)
    }

    constructor (client: CaptureClient, ledger: ObservedLedger)
      ensures State() == Qwen(0, 0, 0, 0, 0, false) && this.client == client && this.ledger == ledger
    {
      this.client, this.ledger := client, ledger;
      requestOrdinal, generationCalls, repairCalls, promptTokens, generatedTokens, isClosed := 0, 0, 0, 0, 0, false;
    }

    method Close()
      modifies this`isClosed
      ensures State() == old(State()).(closed := true)
    {
      isClosed := true;
    }

    /** `_generate_request`: capture and observe, count, then run the model. */
    method GenerateRequest(call: Call, ghost b: Books) returns (raised: bool, ghost after: Books)
      requires call.GenerateCall?
      requires b == b.(qwen := State(), ledger := ledger.State(), client := client.State())
      modifies this, client, ledger
      ensures (after, raised) == Generate(b, call, ledger.maxCalls)
      ensures after.qwen == State() && after.ledger == ledger.State() && after.client == client.State()
      ensures after.bge == b.bge
    {
      hide Forward, PromptOk, GenerationEventFor;
      if !PromptOk(call) || isClosed {
        return true, b;
      }
      requestOrdinal := requestOrdinal + 1;
      var event := GenerationEventFor(requestOrdinal, call.repair, call.system, call.user, call.promptTokens,
                                      call.maximumOutput);
      var raw := Fields(PromptFields(call.system, call.user));
      var forwarded;
      forwarded, after := ForwardRequest(client, ledger, event, raw, call.reply, b.(qwen := State()));
      ForwardKeepsAdapters(b.(qwen := State()), event, raw, call.reply, ledger.maxCalls);
      if !forwarded {
        return true, after;
      }
      if call.repair {
        repairCalls := repairCalls + 1;
      } else {
        generationCalls := generationCalls + 1;
      }
      promptTokens := promptTokens + call.promptTokens;
      if call.modelOk {
        generatedTokens := generatedTokens + call.outputTokens;
      }
      after := after.(qwen := State());
      raised := !call.modelOk;
    }
  }

  /** The objects one run of `execute` works on. */
  class Runner {
    const client: CaptureClient
    const ledger: ObservedLedger
    const embedding: LocalBgeProvider
    const generation: LocalQwenClient
    ghost var clean: bool

    ghost predicate Wired()
    {
      && embedding.client == client && embedding.ledger == ledger
      && generation.client == client && generation.ledger == ledger
    }

    ghost function State(): Books
      reads this, client, ledger, embedding, generation
    {
      Books(ledger.State(), embedding.State(), generation.State(), client.State(), clean)
    }

    constructor (client: CaptureClient, maxCalls: nat)
      ensures Wired() && this.client == client && ledger.maxCalls == maxCalls
      ensures fresh(ledger) && fresh(embedding) && fresh(generation)
      ensures State() == Books(Ledger(0, map[], None, false), Bge(0, 0, 0, 0, 0, false),
                               Qwen(0, 0, 0, 0, 0, false), client.State(), true)
    {
      this.client := client;
      var observed := new ObservedLedger(maxCalls);
      ledger := observed;
      embedding := new LocalBgeProvider(client, observed);
      generation := new LocalQwenClient(client, observed);
      clean := true;
    }

    /** A call of the executor on the adapters, or on the observer it was handed. */
    method PerformCall(call: Call) returns (raised: bool)
      requires Wired()
      modifies this, client, ledger, embedding, generation
      ensures (State(), raised) == Perform(old(State()), call, ledger.maxCalls)
    {
      hide Embed, Generate, Observe;
      ghost var after: Books;
      match call
      case EmbedCall(texts, query, tokens, ready, reply, modelOk) =>
        raised, after := embedding.EmbedTexts(texts, query, tokens, ready, reply, modelOk, State());
        EmbedKeepsQwen(old(State()), call, ledger.maxCalls);
        clean := after.clean;
      case GenerateCall(_, _, _, _, _, _, _, _, _) =>
        raised, after := generation.GenerateRequest(call, State());
        clean := after.clean;
      case ObserveCall(event) =>
        var observed := ledger.ObserveEvent(event);
        clean, raised := false, !observed;
    }

    static lemma EmbedKeepsQwen(b: Books, call: Call, maxCalls: nat)
      requires call.EmbedCall?
      ensures Embed(b, call, maxCalls).0.qwen == b.qwen
    {
      hide CaptureStep, Observe;
    }

    /** The executor's calls in one hook, until an exception reaches the runner. */
    method RunCalls(script: seq<Attempt>) returns (failed: bool)
      requires Wired()
      modifies this, client, ledger, embedding, generation
      ensures (State(), failed) == RunScript(old(State()), script, ledger.maxCalls)
    {
      hide Perform;
      var k := 0;
      assert script[0..] == script;
      while k < |script|
        invariant 0 <= k <= |script|
        invariant RunScript(State(), script[k..], ledger.maxCalls) == RunScript(old(State()), script, ledger.maxCalls)
      {
        assert script[k..][0] == script[k] && script[k..][1..] == script[k + 1..];
        var raised := PerformCall(script[k].call);
        if raised && !script[k].swallowed {
          return true;
        }
        k := k + 1;
      }
      return false;
    }

    method RunCase(v: Visit) returns (ok: bool)
      requires Wired() && v.name != ""
      modifies this, client, ledger, embedding, generation
      ensures (State(), ok) == RunVisit(old(State()), v, ledger.maxCalls)
    {
      hide RunScript;
      if !v.onTime {
        return false;
      }
      ledger.SelectCase(v.name);
      client.Select(v.name);
      var failed := RunCalls(v.script);
      ok := !failed && v.returned && v.stillOnTime;
    }

    /** Both phases, or the single one: the first phase queues a handle for each case, the second takes
        the handles in order.  `first` and `second` say what the executor does for each case. */
    method WorkThrough(plan: Plan) returns (ok: bool)
      requires Wired()
      requires forall k :: 0 <= k < |plan.first| ==> plan.first[k].name != ""
      requires forall k :: 0 <= k < |plan.second| ==> plan.second[k].name != ""
      requires plan.phased ==> |plan.second| == |plan.first|
      modifies this, client, ledger, embedding, generation
      ensures (State(), ok) == Work(old(State()), plan, ledger.maxCalls)
    {
      hide RunScript, RunVisit;
      var failed := RunCalls(plan.prepare);
      if failed || !plan.prepared {
        return false;
      }
      ghost var prepared := State();
      var handles: seq<nat> := [];
      var k := 0;
      assert plan.first[0..] == plan.first;
      while k < |plan.first|
        invariant 0 <= k <= |plan.first|
        invariant |handles| == k && forall n :: 0 <= n < k ==> handles[n] == n
        invariant RunPhase(State(), plan.first[k..], ledger.maxCalls) == RunPhase(prepared, plan.first, ledger.maxCalls)
      {
        assert plan.first[k..][0] == plan.first[k] && plan.first[k..][1..] == plan.first[k + 1..];
        var visited := RunCase(plan.first[k]);
        if !visited {
          return false;
        }
        handles := handles + [k];
        k := k + 1;
      }
      if !plan.phased {
        return true;
      }
      if !plan.embeddingCloses {
        return false;
      }
      embedding.Close();
      ghost var switched := State();
      k := 0;
      assert plan.second[0..] == plan.second;
      while handles != []
        invariant 0 <= k <= |plan.second|
        invariant |handles| == |plan.second| - k && forall n :: 0 <= n < |handles| ==> handles[n] == k + n
        invariant RunPhase(State(), plan.second[k..], ledger.maxCalls)
                  == RunPhase(switched, plan.second, ledger.maxCalls)
      {
        var handle := handles[0];
        handles := handles[1..];
        assert plan.second[k..][0] == plan.second[handle] && plan.second[k..][1..] == plan.second[k + 1..];
        var visited := RunCase(plan.second[handle]);
        if !visited {
          return false;
        }
        k := k + 1;
      }
      return true;
    }

    /** The `finally` part of the lifecycle, which runs whether the work succeeded or not. */
    method Conclude(plan: Plan) returns (ok: bool)
      requires Wired()
      modifies this, client, ledger, embedding, generation
      ensures (State(), ok) == Finish(old(State()), plan, ledger.maxCalls)
    {
      hide RunScript;
      ledger.SealRequests();
      var failed := RunCalls(plan.finalize);
      generation.Close();
      embedding.Close();
      ok := !failed && plan.finalized && plan.closes;
    }

    /** The gate: the client has asked to seal only if the ledger is frozen, and it is frozen only once the
        request ledger is sealed and both providers are closed. */
    ghost predicate Gated(pack: LocalBenchmarkPack)
      reads this, client, ledger, embedding, generation, pack
    {
      && (AskedToSeal(client.State()) || client.State().labels.Some? ==> pack.ledgerFrozen)
      && (pack.ledgerFrozen ==> ledger.State().closed && embedding.State().closed && generation.State().closed)
    }

    /** The lifecycle up to the closed providers, with the usage counted before they are closed. */
    method Lifecycle(plan: Plan, cases: seq<Case>, packUnchanged: bool)
      returns (ok: bool, usage: Usage, ghost worked: Books, ghost final: Books)
      requires Wired() && Fresh(State()) && PlanCovers(plan, cases)
      modifies this, client, ledger, embedding, generation
      ensures worked == Work(old(State()), plan, ledger.maxCalls).0
      ensures State() == final == Finish(worked, plan, ledger.maxCalls).0
      ensures usage == UsageOf(worked)
      ensures ok ==> packUnchanged && UsageOk(worked, plan)
                     && Work(old(State()), plan, ledger.maxCalls).1 && Finish(worked, plan, ledger.maxCalls).1
    {
      hide Work, Finish, Fresh;
      var worksOut := WorkThrough(plan);
      worked := State();
      var usageOk := plan.attested
                     && embedding.batchCalls + embedding.queryCalls + generation.generationCalls
                        + generation.repairCalls == ledger.calls;
      usage := Usage(ledger.calls, embedding.batchTokens + embedding.queryTokens + generation.promptTokens,
                     generation.generatedTokens);
      var concluded := Conclude(plan);
      final := State();
      ok := worksOut && packUnchanged && usageOk && concluded;
    }

    method FreezeLedger(cases: seq<Case>, pack: LocalBenchmarkPack, disk: Disk) returns (frozen: Result<Digest>)
      requires pack.Valid() && pack.executions == Some(cases) && !pack.ledgerFrozen
      modifies pack
      ensures pack.Valid() && (pack.ledgerFrozen <==> frozen.Ok?)
      ensures frozen.Ok? ==>
        && frozen.value == LedgerDigestOf(Records(ledger.State(), CaseIds(cases)))
        && pack.requestLedger == Some(frozen.value)
        && (forall k :: 0 <= k < |cases| ==> 1 <= |EventsOf(ledger.State(), CaseIds(cases)[k])| <= MAX_RECORDS)
        && RecordsCover(Records(ledger.State(), CaseIds(cases)), cases)
    {
      hide RecordsCover, LedgerDigestOf, CasesOk;
      var records := ledger.RecordsFor(CaseIds(cases));
      if records.None? {
        return Err("each case requires an observed provider request");
      }
      frozen := pack.FreezeRequestLedger(records.value, disk);
      if frozen.Err? {
        return Err("private benchmark pack changed or failed its frozen-ledger gate");
      }
    }

    /** The sealed part: freeze the ledger, seal the request stream, read the labels. */
    method Release(cases: seq<Case>, pack: LocalBenchmarkPack, disks: DiskReadings, reply: Option<Wire>)
      returns (released: Result<(Digest, Labels, seq<Label>)>)
      requires Wired() && pack.Valid() && pack.executions == Some(cases) && Gated(pack) && !pack.ledgerFrozen
      requires ledger.State().closed && embedding.State().closed && generation.State().closed
      modifies client, pack
      ensures pack.Valid() && Gated(pack)
      ensures pack.ledgerFrozen ==> pack.requestLedger == Some(LedgerDigestOf(Records(ledger.State(), CaseIds(cases))))
      ensures released.Ok? ==>
        && pack.ledgerFrozen && pack.requestLedger == Some(released.value.0)
        && (forall k :: 0 <= k < |cases| ==> 1 <= |EventsOf(ledger.State(), CaseIds(cases)[k])| <= MAX_RECORDS)
        && RecordsCover(Records(ledger.State(), CaseIds(cases)), cases)
        && MaySend(old(client.State())) && old(client.State()).count == ledger.State().calls
        && client.State() == SealStep(old(client.State()), ledger.State().calls, reply)
        && client.State().labels == Some(released.value.1)
        && Some(released.value.2) == disks.parsed && LabelsBound(cases, released.value.2)
    {
      hide SealStep, LabelsBound, RecordsCover, LedgerDigestOf, CasesOk, AskedToSeal, Records;
      var frozen := FreezeLedger(cases, pack, disks.atFreeze);
      if frozen.Err? {
        return Err(frozen.reason);
      }
      var answer := client.SealAndReadLabels(ledger.calls, reply);
      if answer.Err? {
        return Err("private benchmark pack changed or failed its frozen-ledger gate");
      }
      var labels := pack.LoadLabelsPayload(answer.value.golden, disks.parsed, disks.atLabels);
      if labels.Err? {
        return Err("private benchmark pack changed or failed its frozen-ledger gate");
      }
      return Ok((frozen.value, answer.value, labels.value));
    }

    /** The whole run in capture mode.  The report exists only if every step went through. */
    method Execute(plan: Plan, cases: seq<Case>, pack: LocalBenchmarkPack, disks: DiskReadings,
                   reply: Option<Wire>, limits: Limits)
      returns (report: Result<RunReport>, ghost worked: Books, ghost final: Books)
      requires Wired() && Fresh(State())
      requires pack.Valid() && pack.executions == Some(cases) && !pack.ledgerFrozen
      requires PlanCovers(plan, cases)
      modifies this, client, ledger, embedding, generation, pack
      ensures pack.Valid()
      // On every exit:
      ensures Gated(pack)
      ensures pack.ledgerFrozen ==> pack.requestLedger == Some(LedgerDigestOf(Records(final.ledger, CaseIds(cases))))
      ensures report.Ok? ==>
        && Completed(old(State()), plan, CaseIds(cases), ledger.maxCalls, worked, final, client.State())
        && State() == final.(client := client.State())
        && pack.ledgerFrozen && RecordsCover(Records(final.ledger, CaseIds(cases)), cases)
        && client.State().labels.Some?
        && report.value == RunReport(pack.requestLedger.value, worked.ledger.calls, client.State().labels.value,
                                     report.value.labels)
        && Some(report.value.labels) == disks.parsed && LabelsBound(cases, report.value.labels)
        && disks.atUsage.cases == disks.atEnd.cases == cases
        && worked.ledger.calls <= limits.maxProviderCalls
        && worked.bge.batchTokens + worked.bge.queryTokens + worked.qwen.promptTokens <= limits.maxInputTokens
        && worked.qwen.generatedTokens <= limits.maxOutputTokens
        && limits.onTime && limits.stillOnTime
    {
      hide Work, Finish, Fresh, SealStep, SealedBy, LabelsBound, RecordsCover, LedgerDigestOf, CasesOk, AskedToSeal;
      ghost var start := State();
      var ok, usage;
      ok, usage, worked, final := Lifecycle(plan, cases, disks.atUsage.cases == cases);
      BeforeTheGate(start, plan, ledger.maxCalls);
      if !ok || !limits.onTime {
        return Err("production benchmark lifecycle failed"), worked, final;
      }
      var released := Release(cases, pack, disks, reply);
      if released.Err? {
        return Err(released.reason), worked, final;
      }
      var (frozen, capture, labels) := released.value;
      if disks.atEnd.cases != cases {
        return Err("private benchmark pack changed during execution"), worked, final;
      }
      if !limits.stillOnTime {
        return Err("benchmark duration budget exceeded"), worked, final;
      }
      if usage.calls > limits.maxProviderCalls || usage.inputTokens > limits.maxInputTokens
         || usage.outputTokens > limits.maxOutputTokens {
        return Err("local provider usage budget exceeded"), worked, final;
      }
      SealStepSeals(final.client, final.ledger.calls, reply);
      return Ok(RunReport(frozen, usage.calls, capture, labels)), worked, final;
    }
  }

  lemma SealStepSeals(c: Client, expected: int, reply: Option<Wire>)
    ensures var after := SealStep(c, expected, reply);
      && (MaySend(c) && expected == c.count ==> SealedBy(c, after))
      && (!MaySend(c) || expected != c.count ==> after == c)
  {
  }

  /** However the lifecycle went: when it is over, nothing has been sealed or read yet, and everything is closed. */
  lemma BeforeTheGate(start: Books, plan: Plan, maxCalls: nat)
    requires Fresh(start)
    ensures var worked := Work(start, plan, maxCalls).0;
      var final := Finish(worked, plan, maxCalls).0;
      && !AskedToSeal(final.client) && final.client.labels.None?
      && final.ledger.closed && final.bge.closed && final.qwen.closed && final.ledger.calls == worked.ledger.calls
  {
    hide Work, Finish, RunScript, KnownModel;
    FreshSound(start);
    WorkSound(start, plan, maxCalls);
    var worked := Work(start, plan, maxCalls).0;
    FinishSound(worked, plan, maxCalls);
    RunReadsNoLabels(start, plan, maxCalls);
    FinishCloses(worked, plan, maxCalls);
    SoundHasNotAsked(Finish(worked, plan, maxCalls).0);
  }

  lemma SoundHasNotAsked(b: Books)
    requires Sound(b)
    ensures !AskedToSeal(b.client)
  {
    forall m | 0 <= m < |b.client.outbox| ensures Get(b.client.outbox[m], Command) == Some(Text("capture")) {
      assert b.client.outbox[m] in b.client.outbox;
    }
  }

  lemma FinishCloses(b: Books, plan: Plan, maxCalls: nat)
    ensures var after := Finish(b, plan, maxCalls).0;
      after.ledger.closed && after.bge.closed && after.qwen.closed && after.ledger.calls == b.ledger.calls
  {
    hide RunScript;
    LedgerUnmoved(b, plan, maxCalls);
  }

  /** The one-way gate over both sides.  If the collector that is linked to the runner's client has opened the
      golden file, whether or not its answer ever arrived, then the runner's ledger is frozen, its request
      ledger is sealed and both its providers are closed. */
  lemma GoldenMeansFrozen(runner: Runner, pack: LocalBenchmarkPack, actions: seq<Action>, i: nat, j: nat)
    requires runner.Gated(pack)
    requires Linked(After(actions), i, j) && After(actions).clients[i] == runner.client.State()
    requires After(actions).collectors[j].goldenOpened
    ensures pack.ledgerFrozen
    ensures runner.ledger.requestsClosed && runner.embedding.isClosed && runner.generation.isClosed
  {
    hide AskedToSeal, Inv;
    if !AskedToSeal(After(actions).clients[i]) {
      ClosedUntilAsked(actions, i, j);
    }
  }

  /** While the executor is at work, even while one of its captures waits for an answer, the golden file is closed. */
  lemma ClosedWhileWorking(b: Books, event: Event, raw: Payload, actions: seq<Action>, i: nat, j: nat)
    requires Sound(b) && EventModelOk(event) && Linked(After(actions), i, j)
    requires var c := After(actions).clients[i];
      || c == b.client
      || (MaySend(b.client) && b.client.selected.Some?
          && c == Sent(b.client, CaptureRequest, CaptureRequestBody(b.client, event, raw)))
    ensures !After(actions).collectors[j].goldenOpened
  {
    hide KnownModel, Inv;
    var c := After(actions).clients[i];
    SoundHasNotAsked(b);
    forall m | 0 <= m < |c.outbox| ensures Get(c.outbox[m], Command) != Some(Text("seal")) {
      assert m < |b.client.outbox| ==> c.outbox[m] == b.client.outbox[m];
    }
    ClosedUntilAsked(actions, i, j);
  }

  /** What the pack's members hold when the run reads them again, and what the golden bytes parse to. */
  datatype DiskReadings = DiskReadings(atUsage: Disk, atFreeze: Disk, atLabels: Disk, atEnd: Disk,
                                       parsed: Option<seq<Label>>)

  datatype Usage = Usage(calls: nat, inputTokens: nat, outputTokens: nat)

  function UsageOf(b: Books): Usage
  {
    Usage(b.ledger.calls, b.bge.batchTokens + b.bge.queryTokens + b.qwen.promptTokens, b.qwen.generatedTokens)
  }

  datatype Limits = Limits(maxProviderCalls: nat, maxInputTokens: nat, maxOutputTokens: nat, onTime: bool,
                           stillOnTime: bool)

  datatype RunReport = RunReport(requestLedger: Digest, providerCalls: nat, capture: Labels, labels: seq<Label>)

  /** The plan says what the executor does for each case, in the order of the cases. */
  ghost predicate PlanCovers(plan: Plan, cases: seq<Case>)
  {
    && |plan.first| == |cases| && (plan.phased ==> |plan.second| == |cases|)
    && (forall k :: 0 <= k < |cases| ==> cases[k].id != "" && plan.first[k].name == cases[k].id)
    && (forall k :: 0 <= k < |plan.second| ==> k < |cases| && plan.second[k].name == cases[k].id)
  }
}
