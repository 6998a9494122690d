/** What a completed benchmark run guarantees, joining the runner's books with the collector's log. */
module BenchmarkGuarantees {
  import opened Outcomes
  import opened CaptureFrames
  import opened CaptureProtocol
  import opened CaptureNetwork
  import opened CaptureAgreement
  import opened ProviderCalls
  import opened BenchmarkRun
  import opened BenchmarkPack

  /** A run that reaches its report: `worked` are the books at the usage check, `final` the books once
      everything is closed, and `after` the client once the sealed answer has been read. */
  ghost predicate Completed(start: Books, plan: Plan, names: seq<string>, maxCalls: nat,
                            worked: Books, final: Books, after: Client)
  {
    && Fresh(start)
    && Work(start, plan, maxCalls) == (worked, true)
    && UsageOk(worked, plan)
    && Finish(worked, plan, maxCalls) == (final, true)
    && (forall k :: 0 <= k < |names| ==> 1 <= |EventsOf(final.ledger, names[k])| <= MAX_RECORDS)
    && final.ledger.calls == final.client.count
    && MaySend(final.client) && after.labels.Some? && SealedBy(final.client, after)
  }

  /** `after` is the client once a seal request over its own count has been answered. */
  ghost predicate SealedBy(c: Client, after: Client)
    requires MaySend(c)
  {
    exists reply :: after == Receive(Sent(c, SealRequest(c.count), SealRequestBody(c, c.count)), reply)
  }

  lemma SealedByEffect(c: Client, after: Client)
    requires MaySend(c) && SealedBy(c, after) && c.labels.None? && after.labels.Some?
    ensures after.count == c.count && after.acked == c.acked && after.link == c.link
    ensures after.outbox == c.outbox + [SealRequestBody(c, c.count)]
    ensures after.reused == (c.reused || c.failed)
  {
    var reply :| after == Receive(Sent(c, SealRequest(c.count), SealRequestBody(c, c.count)), reply);
  }

  /** The client's labels are set by the sealed answer and by nothing else. */
  lemma {:induction false} ScriptReadsNoLabels(b: Books, script: seq<Attempt>, maxCalls: nat)
    requires b.client.labels.None? && b.client.pending.None?
    ensures var c := RunScript(b, script, maxCalls).0.client; c.labels.None? && c.pending.None?
    decreases |script|
  {
    hide LedgerAdmits;
    if script != [] {
      CallReadsNoLabels(b, script[0].call, maxCalls);
      ScriptReadsNoLabels(Perform(b, script[0].call, maxCalls).0, script[1..], maxCalls);
    }
  }

  lemma CaptureReadsNoLabels(c: Client, event: Event, raw: Payload, reply: Option<Wire>)
    requires c.labels.None? && c.pending.None?
    ensures var d := CaptureStep(c, event, raw, reply).0; d.labels.None? && d.pending.None?
  {
  }

  lemma CallReadsNoLabels(b: Books, call: Call, maxCalls: nat)
    requires b.client.labels.None? && b.client.pending.None?
    ensures var c := Perform(b, call, maxCalls).0.client; c.labels.None? && c.pending.None?
  {
    hide CaptureStep, Observe;
    forall event, raw, reply ensures var d := CaptureStep(b.client, event, raw, reply).0;
                                     d.labels.None? && d.pending.None? {
      CaptureReadsNoLabels(b.client, event, raw, reply);
    }
  }

  lemma {:induction false} PhaseReadsNoLabels(b: Books, visits: seq<Visit>, maxCalls: nat)
    requires b.client.labels.None? && b.client.pending.None?
    ensures var c := RunPhase(b, visits, maxCalls).0.client; c.labels.None? && c.pending.None?
    decreases |visits|
  {
    hide RunScript;
    if visits != [] && visits[0].onTime {
      ScriptReadsNoLabels(OpenCase(b, visits[0].name), visits[0].script, maxCalls);
      PhaseReadsNoLabels(RunVisit(b, visits[0], maxCalls).0, visits[1..], maxCalls);
    }
  }

  lemma RunReadsNoLabels(start: Books, plan: Plan, maxCalls: nat)
    requires start.client.labels.None? && start.client.pending.None?
    ensures Finish(Work(start, plan, maxCalls).0, plan, maxCalls).0.client.labels.None?
  {
    hide RunScript, RunPhase;
    ScriptReadsNoLabels(start, plan.prepare, maxCalls);
    var prepared := RunScript(start, plan.prepare, maxCalls).0;
    PhaseReadsNoLabels(prepared, plan.first, maxCalls);
    var visited := RunPhase(prepared, plan.first, maxCalls).0;
    PhaseReadsNoLabels(CloseEmbedding(visited), plan.second, maxCalls);
    var worked := Work(start, plan, maxCalls).0;
    ScriptReadsNoLabels(worked.(ledger := worked.ledger.(closed := true)), plan.finalize, maxCalls);
  }

  /** The entries of a log that name one case. */
  function FilterCase(log: seq<Digest>, caseId: Digest): seq<Digest>
  {
    if log == [] then []
    else
      var n := |log| - 1;
      FilterCase(log[..n], caseId) + (if log[n].CaptureDigest? && log[n].event.caseId == caseId then [log[n]] else [])
  }

  /** Entries computed from the requests in order name the same cases as the requests. */
  lemma {:induction false} FilterMatchesSent(outbox: seq<Body>, log: seq<Digest>, caseId: Digest)
    requires |outbox| == |log|
    requires forall k :: 0 <= k < |log| ==> RecordedAs(outbox[k], k + 1, log[k])
    ensures AckedFor(outbox, log, caseId) == FilterCase(log, caseId)
    decreases |log|
  {
    hide RecordedAs;
    if log != [] {
      var n := |log| - 1;
      forall k | 0 <= k < n ensures RecordedAs(outbox[..n][k], k + 1, log[..n][k]) {
        assert RecordedAs(outbox[k], k + 1, log[k]);
      }
      FilterMatchesSent(outbox[..n], log[..n], caseId);
      RecordedCase(outbox[n], n + 1, log[n]);
    }
  }

  lemma RecordedCase(body: Body, sequence: int, entry: Digest)
    requires RecordedAs(body, sequence, entry)
    ensures entry.CaptureDigest? && entry.event.caseId == CaseOf(body)
  {
  }

  /** Both models together account for a log whose requests all came through the adapters. */
  lemma {:induction false} ModelsPartition(log: seq<Digest>)
    requires forall k :: 0 <= k < |log| ==>
               log[k].CaptureDigest? && log[k].event.model in {BGE_IDENTITY, QWEN_IDENTITY}
    ensures ModelCount(log, BGE_IDENTITY) + ModelCount(log, QWEN_IDENTITY) == |log|
    decreases |log|
  {
    IdentitiesOk();
    if log != [] {
      ModelsPartition(log[..|log| - 1]);
    }
  }

  lemma RecordedModel(body: Body, sequence: int, entry: Digest)
    requires RecordedAs(body, sequence, entry) && KnownModel(body)
    ensures entry.CaptureDigest? && entry.event.model in {BGE_IDENTITY, QWEN_IDENTITY}
  {
    assert (body - {SessionField, Sequence})[EventField] == body[EventField];
  }

  lemma LogModelsKnown(c: Client, log: seq<Digest>, sealBody: Body)
    requires forall body :: body in c.outbox ==> KnownModel(body)
    requires Get(sealBody, Command) == Some(Text("seal"))
    requires forall k :: 0 <= k < |log| ==> Backed(c.outbox + [sealBody], k + 1, log[k])
    ensures forall k :: 0 <= k < |log| ==>
              log[k].CaptureDigest? && log[k].event.model in {BGE_IDENTITY, QWEN_IDENTITY}
  {
    hide KnownModel;
    forall k | 0 <= k < |log|
      ensures log[k].CaptureDigest? && log[k].event.model in {BGE_IDENTITY, QWEN_IDENTITY}
    {
      assert Backed(c.outbox + [sealBody], k + 1, log[k]);
      var m :| 0 <= m < |c.outbox| + 1 && RecordedAs((c.outbox + [sealBody])[m], k + 1, log[k]);
      if m == |c.outbox| {
        assert false;
      } else {
        assert c.outbox[m] in c.outbox;
        RecordedModel(c.outbox[m], k + 1, log[k]);
      }
    }
  }

  /** Whatever the executor did: the runner's call count, the provider counters at the usage check, the
      client's request count, the length of the collector's log, its kind counters, its per-model
      ordinals, the count in the sealed answer, and in the evidence file both the count and the sum of the
      kind counts are all the same number, and it is not zero. */
  lemma CountsAgree(start: Books, plan: Plan, names: seq<string>, maxCalls: nat, worked: Books, final: Books,
                    after: Client, actions: seq<Action>, i: nat)
    returns (j: nat)
    requires Completed(start, plan, names, maxCalls, worked, final, after)
    requires i in After(actions).clients && After(actions).clients[i] == after
    ensures var w := After(actions);
      && Linked(w, i, j) && w.collectors[j].phase.Sealed? && w.collectors[j].evidence.Some?
      && var log := w.collectors[j].log;
      && 0 < |log| == worked.ledger.calls == CounterCalls(worked) == final.client.count
         == after.labels.value.requestCount == w.collectors[j].evidence.value.requestCount
      && Lookup(w.collectors[j].kindCounts, Embedding) + Lookup(w.collectors[j].kindCounts, Query)
         + Lookup(w.collectors[j].kindCounts, Generation) + Lookup(w.collectors[j].kindCounts, Repair) == |log|
      && var evidence := w.collectors[j].evidence.value;
      && EvidenceTrue(w.collectors[j])
      && Lookup(evidence.kindCounts, Embedding) + Lookup(evidence.kindCounts, Query)
         + Lookup(evidence.kindCounts, Generation) + Lookup(evidence.kindCounts, Repair) == |log|
      && Lookup(w.collectors[j].ordinals, BGE_IDENTITY) + Lookup(w.collectors[j].ordinals, QWEN_IDENTITY) == |log|
  {
    hide Inv, Work, Finish, Sound, UsageOk, BooksOk, EntryOk;
    LabelsMeanSealed(actions, i);
    var w := After(actions);
    j := after.link.value.session.collector;
    CollectorBooks(actions, j);
    EvidenceMeans(actions, j);
    hide EvidenceTrue;
    LedgerUnmoved(worked, plan, maxCalls);
    SealedCounts(start, plan, names, maxCalls, worked, final, after);
    ModelsOfRun(start, plan, names, maxCalls, worked, final, after, actions, i, j);
    ModelsPartition(w.collectors[j].log);
  }

  lemma SealedCounts(start: Books, plan: Plan, names: seq<string>, maxCalls: nat, worked: Books, final: Books,
                     after: Client)
    requires Completed(start, plan, names, maxCalls, worked, final, after)
    ensures after.count == final.client.count == final.ledger.calls && worked.ledger.calls == CounterCalls(worked)
    ensures after.acked == final.client.acked && Sound(final)
    ensures MaySend(final.client)
    ensures after.outbox == final.client.outbox + [SealRequestBody(final.client, final.client.count)]
    ensures after.reused == (final.client.reused || final.client.failed)
  {
    hide Work, Finish, Sound, SealedBy;
    FreshSound(start);
    WorkSound(start, plan, maxCalls);
    FinishSound(worked, plan, maxCalls);
    RunReadsNoLabels(start, plan, maxCalls);
    SealedByEffect(final.client, after);
  }

  lemma LedgerUnmoved(worked: Books, plan: Plan, maxCalls: nat)
    ensures Finish(worked, plan, maxCalls).0.ledger == worked.ledger.(closed := true)
  {
    hide RunScript;
    SealedLedgerFixed(worked.(ledger := worked.ledger.(closed := true)), plan.finalize, maxCalls);
  }

  lemma ModelsOfRun(start: Books, plan: Plan, names: seq<string>, maxCalls: nat, worked: Books, final: Books,
                    after: Client, actions: seq<Action>, i: nat, j: nat)
    requires Completed(start, plan, names, maxCalls, worked, final, after)
    requires i in After(actions).clients && After(actions).clients[i] == after
    requires Linked(After(actions), i, j) && After(actions).collectors[j].log != []
    ensures var log := After(actions).collectors[j].log;
      forall k :: 0 <= k < |log| ==>
        log[k].CaptureDigest? && log[k].event.model in {BGE_IDENTITY, QWEN_IDENTITY}
  {
    hide Inv, Work, Finish, KnownModel, RecordedAs, SealedBy;
    SealedCounts(start, plan, names, maxCalls, worked, final, after);
    var k := LogAgreesWithClient(actions, j);
    PairingIsInjective(actions, i, k, j, j);
    LogModelsKnown(final.client, After(actions).collectors[j].log,
                   SealRequestBody(final.client, final.client.count));
  }

  /** When no request was lost between an adapter and the ledger and none was forged, the collector's log records
      the captures of the run one by one. */
  lemma LogIsSent(start: Books, plan: Plan, names: seq<string>, maxCalls: nat, worked: Books, final: Books,
                  after: Client, actions: seq<Action>, i: nat)
    returns (j: nat)
    requires Completed(start, plan, names, maxCalls, worked, final, after) && final.clean
    requires i in After(actions).clients && After(actions).clients[i] == after
    ensures var w := After(actions);
      && Linked(w, i, j) && w.collectors[j].phase.Sealed? && Clean(final)
      && var log, sent := w.collectors[j].log, final.client.outbox;
      && |log| == |sent| && log == final.client.acked && log != []
      && forall n :: 0 <= n < |log| ==> RecordedAs(sent[n], n + 1, log[n])
  {
    hide Inv, Work, Finish, KnownModel, RecordedAs, SealedBy;
    LabelsMeanSealed(actions, i);
    var w := After(actions);
    j := after.link.value.session.collector;
    SealedCounts(start, plan, names, maxCalls, worked, final, after);
    var k := LogAgreesWithClient(actions, j);
    PairingIsInjective(actions, i, k, j, j);
    var log, sent := w.collectors[j].log, final.client.outbox;
    assert Clean(final);
    forall n | 0 <= n < |log| ensures RecordedAs(sent[n], n + 1, log[n]) {
      assert RecordedAs(after.outbox[n], n + 1, log[n]);
      assert after.outbox[n] == sent[n];
    }
  }

  /** When no request was lost between an adapter and the ledger and none was forged: each case's events
      in the ledger are exactly the collector's log filtered to that case, in the log's order although
      the two phases visit the case at different times, and the adapters' own ordinals add up to the
      length of the log. */
  lemma EventsAreFilteredLog(start: Books, plan: Plan, names: seq<string>, maxCalls: nat, worked: Books,
                             final: Books, after: Client, actions: seq<Action>, i: nat)
    returns (j: nat)
    requires Completed(start, plan, names, maxCalls, worked, final, after) && final.clean
    requires i in After(actions).clients && After(actions).clients[i] == after
    ensures var w := After(actions);
      && Linked(w, i, j) && w.collectors[j].phase.Sealed?
      && var log := w.collectors[j].log;
      && (forall name :: EventsOf(final.ledger, name) == FilterCase(log, CaseDigest(name)))
      && final.bge.ordinal + final.qwen.ordinal == |log|
  {
    hide Inv, Work, Finish, KnownModel, RecordedAs, SealedBy, Completed;
    j := LogIsSent(start, plan, names, maxCalls, worked, final, after, actions, i);
    var log, sent := After(actions).collectors[j].log, final.client.outbox;
    forall name ensures EventsOf(final.ledger, name) == FilterCase(log, CaseDigest(name)) {
      FilterMatchesSent(sent, log, CaseDigest(name));
    }
  }

  // ---- Executors that are faithful ----

  /** The executor lets failures of its calls reach the runner and does not call the observer itself. */
  predicate Faithful(script: seq<Attempt>)
  {
    forall k :: 0 <= k < |script| ==> !script[k].swallowed && !script[k].call.ObserveCall?
  }

  predicate FaithfulPlan(plan: Plan)
  {
    && Faithful(plan.prepare) && Faithful(plan.finalize)
    && (forall k :: 0 <= k < |plan.first| ==> Faithful(plan.first[k].script))
    && (forall k :: 0 <= k < |plan.second| ==> Faithful(plan.second[k].script))
  }

  /** A provider call that loses a request raises. */
  lemma LosingCallRaises(b: Books, call: Call, maxCalls: nat)
    requires !call.ObserveCall? && b.clean
    ensures var (after, raised) := Perform(b, call, maxCalls); !raised ==> after.clean
  {
    hide CaptureStep, LedgerAdmits;
  }

  lemma {:induction false} FaithfulScriptClean(b: Books, script: seq<Attempt>, maxCalls: nat)
    requires Faithful(script) && b.clean
    ensures var (after, failed) := RunScript(b, script, maxCalls); !failed ==> after.clean
    decreases |script|
  {
    hide Perform;
    if script != [] {
      LosingCallRaises(b, script[0].call, maxCalls);
      if !Perform(b, script[0].call, maxCalls).1 {
        FaithfulScriptClean(Perform(b, script[0].call, maxCalls).0, script[1..], maxCalls);
      }
    }
  }

  lemma {:induction false} FaithfulPhaseClean(b: Books, visits: seq<Visit>, maxCalls: nat)
    requires b.clean && forall k :: 0 <= k < |visits| ==> Faithful(visits[k].script)
    ensures var (after, ok) := RunPhase(b, visits, maxCalls); ok ==> after.clean
    decreases |visits|
  {
    hide RunScript, Faithful;
    if visits != [] && visits[0].onTime {
      FaithfulScriptClean(OpenCase(b, visits[0].name), visits[0].script, maxCalls);
      var (after, ok) := RunVisit(b, visits[0], maxCalls);
      if ok {
        FaithfulPhaseClean(after, visits[1..], maxCalls);
      }
    }
  }

  lemma FaithfulRunClean(start: Books, plan: Plan, maxCalls: nat)
    requires FaithfulPlan(plan) && start.clean
    requires Work(start, plan, maxCalls).1 && Finish(Work(start, plan, maxCalls).0, plan, maxCalls).1
    ensures Finish(Work(start, plan, maxCalls).0, plan, maxCalls).0.clean
  {
    hide RunScript, RunPhase, Faithful;
    FaithfulScriptClean(start, plan.prepare, maxCalls);
    var prepared := RunScript(start, plan.prepare, maxCalls).0;
    FaithfulPhaseClean(prepared, plan.first, maxCalls);
    var visited := RunPhase(prepared, plan.first, maxCalls).0;
    if plan.phased {
      FaithfulPhaseClean(CloseEmbedding(visited), plan.second, maxCalls);
    }
    var worked := Work(start, plan, maxCalls).0;
    FaithfulScriptClean(worked.(ledger := worked.ledger.(closed := true)), plan.finalize, maxCalls);
  }

  /** Every completed run of a faithful executor files every request under the case it was made for. */
  lemma FaithfulRunFilesExactly(start: Books, plan: Plan, names: seq<string>, maxCalls: nat, worked: Books,
                                final: Books, after: Client, actions: seq<Action>, i: nat)
    returns (j: nat)
    requires Completed(start, plan, names, maxCalls, worked, final, after) && FaithfulPlan(plan)
    requires i in After(actions).clients && After(actions).clients[i] == after
    ensures var w := After(actions);
      && Linked(w, i, j) && w.collectors[j].phase.Sealed?
      && var log := w.collectors[j].log;
      && (forall name :: EventsOf(final.ledger, name) == FilterCase(log, CaseDigest(name)))
      && final.bge.ordinal + final.qwen.ordinal == |log|
  {
    hide Inv, Work, Finish, SealedBy, FaithfulPlan;
    FaithfulRunClean(start, plan, maxCalls);
    j := EventsAreFilteredLog(start, plan, names, maxCalls, worked, final, after, actions, i);
  }

  // ---- Nothing is refused while nothing is lost ----

  lemma RecordedNames(body: Body, sequence: int, entry: Digest, model: string)
    requires RecordedAs(body, sequence, entry)
    ensures entry.CaptureDigest? && (entry.event.model == model <==> NamesModel(body, model))
  {
    assert (body - {SessionField, Sequence})[EventField] == body[EventField];
  }

  lemma {:induction false} LogCountsSent(outbox: seq<Body>, log: seq<Digest>, model: string)
    requires |outbox| == |log| && forall k :: 0 <= k < |log| ==> RecordedAs(outbox[k], k + 1, log[k])
    ensures ModelCount(log, model) == SentFor(outbox, model)
    decreases |log|
  {
    hide RecordedAs, NamesModel;
    if log != [] {
      var n := |log| - 1;
      forall k | 0 <= k < n ensures RecordedAs(outbox[..n][k], k + 1, log[..n][k]) {
        assert RecordedAs(outbox[k], k + 1, log[k]);
      }
      LogCountsSent(outbox[..n], log[..n], model);
      RecordedNames(outbox[n], n + 1, log[n], model);
    }
  }

  /** While nothing was lost, the collector knows exactly the client's requests, and the adapters' ordinals are
      the collector's. */
  lemma LogIsWhole(b: Books, actions: seq<Action>, i: nat, j: nat)
    requires Sound(b) && b.clean && Linked(After(actions), i, j) && After(actions).clients[i] == b.client
    ensures var s := After(actions).collectors[j];
      && |s.log| == b.client.count && s.log == b.client.acked && s.expected == |s.log| + 1
      && MaySend(b.client) && s.session == b.client.link.value.session
      && Lookup(s.ordinals, BGE_IDENTITY) == b.bge.ordinal && Lookup(s.ordinals, QWEN_IDENTITY) == b.qwen.ordinal
  {
    var w := After(actions);
    InvAfter(actions);
    RunKeepsBooks(Initial, actions);
    assert ClientOk(w, i) && CollectorOk(w, j) && PairOk(w, j) && BooksOk(w.collectors[j]);
    BackedInOrder(w.collectors[j], b.client);
    hide RecordedAs, KnownModel, Backed, EntryOk;
    var log := w.collectors[j].log;
    assert log[..|log|] == log;
    LogCountsSent(b.client.outbox, log, BGE_IDENTITY);
    LogCountsSent(b.client.outbox, log, QWEN_IDENTITY);
  }

  /** The event that a call captures next, and the value it describes. */
  function NextEvent(b: Books, call: Call): Event
    requires !call.ObserveCall?
  {
    if call.EmbedCall? then EmbeddingEventFor(b.bge.ordinal + 1, call.query, call.texts, call.tokens)
    else
      GenerationEventFor(b.qwen.ordinal + 1, call.repair, call.system, call.user, call.promptTokens, call.maximumOutput)
  }

  function NextRaw(call: Call): Payload
    requires !call.ObserveCall?
  {
    if call.EmbedCall? then Texts(call.texts) else Fields(PromptFields(call.system, call.user))
  }

  /** As long as no request was lost and the limit is not reached, the collector records and acknowledges the next
      request of either adapter. */
  lemma NextRequestIsRecorded(b: Books, actions: seq<Action>, i: nat, j: nat, call: Call, files: Files)
    returns (safe: SafeEvent)
    requires Sound(b) && b.clean && Linked(After(actions), i, j) && After(actions).clients[i] == b.client
    requires Serves(After(actions).collectors[j]) && |After(actions).collectors[j].log| < MAX_REQUESTS
    requires b.client.selected.Some? && !call.ObserveCall? && (call.EmbedCall? ==> TextsOk(call.texts, call.query))
    ensures MaySend(b.client)
    ensures Handle(After(actions).collectors[j], RequestWire(b.client, NextEvent(b, call), NextRaw(call)), files)
            == Step(Recorded(After(actions).collectors[j], safe),
                    Some(AcknowledgementOf(b.client, CaptureDigest(safe))))
  {
    LogIsWhole(b, actions, i, j);
    hide Sound, NextEvent, NextRaw, TextsOk, Handle, Recorded, RequestWire, AcknowledgementOf, After, Lookup;
    safe := NextIsRecorded(b, After(actions).collectors[j], call, files);
  }

  lemma NextIsRecorded(b: Books, s: Collector, call: Call, files: Files) returns (safe: SafeEvent)
    requires MaySend(b.client) && b.client.selected.Some? && Serves(s)
    requires s.key == Some(b.client.link.value.key) && s.session == b.client.link.value.session
    requires s.expected == |s.log| + 1 == b.client.count + 1 && |s.log| < MAX_REQUESTS
    requires Lookup(s.ordinals, BGE_IDENTITY) == b.bge.ordinal && Lookup(s.ordinals, QWEN_IDENTITY) == b.qwen.ordinal
    requires !call.ObserveCall? && (call.EmbedCall? ==> TextsOk(call.texts, call.query))
    ensures Handle(s, RequestWire(b.client, NextEvent(b, call), NextRaw(call)), files)
            == Step(Recorded(s, safe), Some(AcknowledgementOf(b.client, CaptureDigest(safe))))
  {
    hide NextEvent, NextRaw, TextsOk, Handle, Recorded, RequestWire, AcknowledgementOf, NormalizeEvent;
    var c := b.client;
    safe := NextIsNormal(b, call, c.selected.value, c.count + 1);
    HandledRequest(c, s, NextEvent(b, call), NextRaw(call), safe, files);
  }

  lemma NextIsNormal(b: Books, call: Call, caseId: Digest, sequence: int) returns (safe: SafeEvent)
    requires !call.ObserveCall? && (call.EmbedCall? ==> TextsOk(call.texts, call.query))
    ensures NormalizeEvent(NextEvent(b, call), NextRaw(call), caseId, sequence) == Ok(safe)
    ensures if call.EmbedCall? then safe.model == BGE_IDENTITY && safe.ordinal == b.bge.ordinal + 1
            else safe.model == QWEN_IDENTITY && safe.ordinal == b.qwen.ordinal + 1
    ensures safe.caseId == caseId
  {
    if call.EmbedCall? {
      EmbeddingAdmitted(b.bge.ordinal + 1, call.query, call.texts, call.tokens, caseId, sequence, Arbitrary(""));
    } else {
      GenerationNormalizes(b.qwen.ordinal + 1, call.repair, call.system, call.user, call.promptTokens,
                           call.maximumOutput, caseId, sequence);
    }
    safe := NormalizeEvent(NextEvent(b, call), NextRaw(call), caseId, sequence).value;
  }
}
