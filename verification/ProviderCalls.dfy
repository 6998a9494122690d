/** What one provider call does to the adapter's counters, the capture client and the observed ledger.

    The case executor is arbitrary: it is a script of calls with, for each, what the outside world
    answered and whether the executor swallowed the exception if the call raised one. */
module ProviderCalls {
  import opened Outcomes
  import opened CaptureFrames
  import opened CaptureProtocol

  const BGE_MODEL := "BAAI/bge-m3"
  const BGE_REVISION := "5617a9f61b028005a4858fdac845db406aefb181"
  const BGE_IDENTITY := BGE_MODEL + "@" + BGE_REVISION
  const QWEN_MODEL := "Qwen/Qwen2.5-1.5B-Instruct"
  const QWEN_REVISION := "989aa7980e4cf806f80c7fef2b1adb7bc71aa306"
  const QWEN_IDENTITY := QWEN_MODEL + "@" + QWEN_REVISION

  // ---- The observed ledger ----

  datatype Ledger = Ledger(calls: nat, events: map<string, seq<Digest>>, active: Option<string>, closed: bool)

  /** A provider event with the acknowledgement that capture mode adds to it. */
  datatype LedgerEvent = LedgerEvent(event: Event, capture: Option<Digest>)

  predicate LedgerAdmits(e: LedgerEvent)
  {
    && e.capture.Some?
    && match e.event
       case MalformedEvent => false
       case EmbeddingEvent(ordinal, kind, model, items, bytes, tokens, _) =>
         1 <= ordinal && (kind.Embedding? || kind.Query?) && model == BGE_IDENTITY
         && 1 <= items && 0 <= bytes && 0 <= tokens
       case GenerationEvent(ordinal, kind, model, names, bytes, tokens, _) =>
         1 <= ordinal && (kind.Generation? || kind.Repair?) && model == QWEN_IDENTITY
         && 1 <= |names| <= 32 && "" !in names
         && bytes.Keys == (set name | name in names) && (forall name :: name in bytes ==> 0 <= bytes[name])
         && tokens.Keys == {"prompt", "maximum_output"} && (forall name :: name in tokens ==> 0 <= tokens[name])
  }

  function EventsOf(l: Ledger, name: string): seq<Digest>
  {
    if name in l.events then l.events[name] else []
  }

  function Select(l: Ledger, name: string): Ledger
  {
    l.(active := Some(name), events := l.events[name := EventsOf(l, name)])
  }

  /** The ledger after one observation, and whether the observation went through. */
  function Observe(l: Ledger, e: LedgerEvent, maxCalls: nat): (Ledger, bool)
  {
    if l.closed || l.active.None? || !LedgerAdmits(e) then (l, false)
    else if l.calls + 1 > maxCalls then (l.(calls := l.calls + 1), false)
    else
      var name := l.active.value;
      (l.(calls := l.calls + 1, events := l.events[name := EventsOf(l, name) + [e.capture.value]]), true)
  }

  // ---- The adapters ----

  datatype Bge = Bge(ordinal: nat, batchCalls: nat, batchTokens: nat, queryCalls: nat, queryTokens: nat, closed: bool)

  datatype Qwen = Qwen(ordinal: nat, generationCalls: nat, repairCalls: nat, promptTokens: nat,
                       generatedTokens: nat, closed: bool)

  /** `clean` says that no request was lost between an adapter and the ledger, and none was forged. */
  datatype Books = Books(ledger: Ledger, bge: Bge, qwen: Qwen, client: Client, clean: bool)

  datatype Call =
    | EmbedCall(texts: seq<string>, query: bool, tokens: nat, ready: bool, reply: Option<Wire>, modelOk: bool)
    | GenerateCall(system: string, user: string, repair: bool, promptTokens: nat, maximumOutput: nat,
                   withinLimits: bool, reply: Option<Wire>, outputTokens: nat, modelOk: bool)
    | ObserveCall(event: LedgerEvent)

  datatype Attempt = Attempt(call: Call, swallowed: bool)

  function EmbeddingEventFor(ordinal: nat, query: bool, texts: seq<string>, tokens: nat): Event
  {
    EmbeddingEvent(ordinal, if query then Query else Embedding, BGE_IDENTITY, |texts|, TotalUtf8(texts), tokens,
                   PayloadDigest(Texts(texts)))
  }

  function PromptFields(system: string, user: string): map<string, string>
  {
    map["system" := system, "user" := user]
  }

  function GenerationEventFor(ordinal: nat, repair: bool, system: string, user: string, promptTokens: nat,
                              maximumOutput: nat): Event
  {
    GenerationEvent(ordinal, if repair then Repair else Generation, QWEN_IDENTITY, ["system", "user"],
                    map["system" := Utf8Length(system), "user" := Utf8Length(user)],
                    map["prompt" := promptTokens, "maximum_output" := maximumOutput],
                    PayloadDigest(Fields(PromptFields(system, user))))
  }

  /** Capture first, then the ledger's observer, as both adapters do before they run their model. */
  function Forward(b: Books, event: Event, raw: Payload, reply: Option<Wire>, maxCalls: nat): (Books, bool)
  {
    var (client, acknowledgement) := CaptureStep(b.client, event, raw, reply);
    if acknowledgement.None? then (b.(client := client, clean := false), false)
    else
      var (ledger, observed) := Observe(b.ledger, LedgerEvent(event, acknowledgement), maxCalls);
      (b.(client := client, ledger := ledger, clean := b.clean && observed), observed)
  }

  predicate TextsOk(texts: seq<string>, query: bool)
  {
    texts != [] && "" !in texts && (query ==> |texts| == 1)
  }

  function Counted(bge: Bge, query: bool, tokens: nat): Bge
  {
    if query then bge.(queryCalls := bge.queryCalls + 1, queryTokens := bge.queryTokens + tokens)
    else bge.(batchCalls := bge.batchCalls + 1, batchTokens := bge.batchTokens + tokens)
  }

  /** The embedding adapter counts the call before it looks whether it is closed. */
  function Embed(b: Books, call: Call, maxCalls: nat): (Books, bool)
    requires call.EmbedCall?
  {
    if !TextsOk(call.texts, call.query) then (b, true)
    else
      var counted := b.(bge := Counted(b.bge, call.query, call.tokens));
      if b.bge.closed || !call.ready then (counted, true)
      else
        var ordinal := b.bge.ordinal + 1;
        var numbered := counted.(bge := counted.bge.(ordinal := ordinal));
        var (after, forwarded) := Forward(numbered, EmbeddingEventFor(ordinal, call.query, call.texts, call.tokens),
                                          Texts(call.texts), call.reply, maxCalls);
        (after, !forwarded || !call.modelOk)
  }

  predicate PromptOk(call: Call)
    requires call.GenerateCall?
  {
    !Blank(call.system) && !Blank(call.user) && call.withinLimits && 1 <= call.promptTokens
  }

  /** The generation adapter counts the call once its request has been captured and observed. */
  function Generate(b: Books, call: Call, maxCalls: nat): (Books, bool)
    requires call.GenerateCall?
  {
    if !PromptOk(call) || b.qwen.closed then (b, true)
    else
      var ordinal := b.qwen.ordinal + 1;
      var (after, forwarded) := Forward(b.(qwen := b.qwen.(ordinal := ordinal)),
                                        GenerationEventFor(ordinal, call.repair, call.system, call.user,
                                                           call.promptTokens, call.maximumOutput),
                                        Fields(PromptFields(call.system, call.user)), call.reply, maxCalls);
      if !forwarded then (after, true)
      else
        var q := after.qwen;
        var counted := q.(generationCalls := q.generationCalls + (if call.repair then 0 else 1),
                          repairCalls := q.repairCalls + (if call.repair then 1 else 0),
                          promptTokens := q.promptTokens + call.promptTokens,
                          generatedTokens := q.generatedTokens + (if call.modelOk then call.outputTokens else 0));
        (after.(qwen := counted), !call.modelOk)
  }

  /** The books after one call, and whether the call raised. */
  function Perform(b: Books, call: Call, maxCalls: nat): (Books, bool)
  {
    match call
    case EmbedCall(_, _, _, _, _, _) => Embed(b, call, maxCalls)
    case GenerateCall(_, _, _, _, _, _, _, _, _) => Generate(b, call, maxCalls)
    case ObserveCall(event) =>
      var (ledger, observed) := Observe(b.ledger, event, maxCalls);
      (b.(ledger := ledger, clean := false), !observed)
  }

  /** Runs a script until an exception reaches the runner; says whether one did. */
  function RunScript(b: Books, script: seq<Attempt>, maxCalls: nat): (Books, bool)
    decreases |script|
  {
    if script == [] then (b, false)
    else
      var (after, raised) := Perform(b, script[0].call, maxCalls);
      if raised && !script[0].swallowed then (after, true)
      else RunScript(after, script[1..], maxCalls)
  }

  function CounterCalls(b: Books): nat
  {
    b.bge.batchCalls + b.bge.queryCalls + b.qwen.generationCalls + b.qwen.repairCalls
  }

  // ---- Emitted events are admitted by both sides ----

  lemma IdentitiesOk()
    ensures !Blank(BGE_IDENTITY) && |BGE_IDENTITY| <= 200
    ensures !Blank(QWEN_IDENTITY) && |QWEN_IDENTITY| <= 200
    ensures BGE_IDENTITY != QWEN_IDENTITY
  {
    assert BGE_IDENTITY[|BGE_MODEL|] == '@' && QWEN_IDENTITY[|QWEN_MODEL|] == '@';
    assert |BGE_IDENTITY| == 52 && |QWEN_IDENTITY| == 67;
  }

  /** Every embedding event passes the collector's normalisation and the ledger's checks. */
  lemma EmbeddingAdmitted(ordinal: nat, query: bool, texts: seq<string>, tokens: nat, caseId: Digest,
                          sequence: int, acknowledgement: Digest)
    requires 1 <= ordinal && TextsOk(texts, query)
    ensures var event := EmbeddingEventFor(ordinal, query, texts, tokens);
      && NormalizeEvent(event, Texts(texts), caseId, sequence).Ok?
      && LedgerAdmits(LedgerEvent(event, Some(acknowledgement)))
  {
    IdentitiesOk();
  }

  lemma SystemBeforeUser()
    ensures SortedListing(["system", "user"], {"system", "user"})
  {
    var names := ["system", "user"];
    assert StringLess(names[0], names[1]);
    assert (set name | name in names) == {"system", "user"};
  }

  lemma GenerationNormalizes(ordinal: nat, repair: bool, system: string, user: string, promptTokens: nat,
                             maximumOutput: nat, caseId: Digest, sequence: int)
    requires 1 <= ordinal
    ensures var event := GenerationEventFor(ordinal, repair, system, user, promptTokens, maximumOutput);
      NormalizeEvent(event, Fields(PromptFields(system, user)), caseId, sequence).Ok?
  {
    IdentitiesOk();
    SystemBeforeUser();
    hide Blank, SortedListing;
    var fields := PromptFields(system, user);
    assert fields.Keys == {"system", "user"};
    var event := GenerationEventFor(ordinal, repair, system, user, promptTokens, maximumOutput);
    assert event.byteCounts == map name | name in fields :: Utf8Length(fields[name]);
    assert MetadataOk(ordinal, QWEN_IDENTITY);
  }

  lemma GenerationLedgerAdmits(ordinal: nat, repair: bool, system: string, user: string, promptTokens: nat,
                               maximumOutput: nat, acknowledgement: Digest)
    requires 1 <= ordinal
    ensures var event := GenerationEventFor(ordinal, repair, system, user, promptTokens, maximumOutput);
      LedgerAdmits(LedgerEvent(event, Some(acknowledgement)))
  {
    var event := GenerationEventFor(ordinal, repair, system, user, promptTokens, maximumOutput);
    assert (set name | name in event.fieldNames) == {"system", "user"};
    assert event.fieldNames[0] != "" && event.fieldNames[1] != "";
  }

  /** Every generation or repair event does too. */
  lemma GenerationAdmitted(ordinal: nat, repair: bool, system: string, user: string, promptTokens: nat,
                           maximumOutput: nat, caseId: Digest, sequence: int, acknowledgement: Digest)
    requires 1 <= ordinal
    ensures var event := GenerationEventFor(ordinal, repair, system, user, promptTokens, maximumOutput);
      && NormalizeEvent(event, Fields(PromptFields(system, user)), caseId, sequence).Ok?
      && LedgerAdmits(LedgerEvent(event, Some(acknowledgement)))
  {
    GenerationNormalizes(ordinal, repair, system, user, promptTokens, maximumOutput, caseId, sequence);
    GenerationLedgerAdmits(ordinal, repair, system, user, promptTokens, maximumOutput, acknowledgement);
  }
}
