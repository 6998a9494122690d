/** The same executor under other answers: it makes the same calls, sends the same requests and fails at the same
    calls; only what the acknowledgements are differs. */
module BenchmarkReplies {
  import opened Outcomes
  import opened CaptureFrames
  import opened CaptureProtocol
  import opened CaptureAgreement
  import opened CaptureExchange
  import opened ProviderCalls
  import opened BenchmarkRun
  import opened BenchmarkGuarantees
  import opened BenchmarkNetwork
  import opened BenchmarkFiling
  import opened BenchmarkPlay

  // ---- The same calls with other answers ----

  function WithReply(call: Call, reply: Option<Wire>): Call
  {
    match call
    case EmbedCall(texts, query, tokens, ready, _, modelOk) => EmbedCall(texts, query, tokens, ready, reply, modelOk)
    case GenerateCall(system, user, repair, promptTokens, maximumOutput, withinLimits, _, outputTokens, modelOk) =>
      GenerateCall(system, user, repair, promptTokens, maximumOutput, withinLimits, reply, outputTokens, modelOk)
    case ObserveCall(_) => call
  }

  /** A call that was acknowledged is answered with the next entry of the log, any other is not answered. */
  function Reanswered(b: Books, call: Call, log: seq<Digest>, maxCalls: nat): Call
  {
    var after := Perform(b, call, maxCalls).0;
    if after.client.count == b.client.count + 1 && Live(b.client) && b.client.count < |log| then
      WithReply(call, Some(AcknowledgementOf(b.client, log[b.client.count])))
    else WithReply(call, None)
  }

  function ReansweredScript(b: Books, script: seq<Attempt>, log: seq<Digest>, maxCalls: nat): seq<Attempt>
    decreases |script|
  {
    if script == [] then []
    else
      var (after, raised) := Perform(b, script[0].call, maxCalls);
      [Attempt(Reanswered(b, script[0].call, log, maxCalls), script[0].swallowed)]
      + if raised && !script[0].swallowed then script[1..] else ReansweredScript(after, script[1..], log, maxCalls)
  }

  function ReansweredPhase(b: Books, visits: seq<Visit>, log: seq<Digest>, maxCalls: nat): seq<Visit>
    decreases |visits|
  {
    if visits == [] then []
    else
      var v := visits[0];
      [v.(script := ReansweredScript(OpenCase(b, v.name), v.script, log, maxCalls))]
      + ReansweredPhase(RunVisit(b, v, maxCalls).0, visits[1..], log, maxCalls)
  }

  /** The plan of an executor that does the same, under a channel that answers as the log says. */
  function ReansweredPlan(b: Books, plan: Plan, log: seq<Digest>, maxCalls: nat): Plan
  {
    var prepared := RunScript(b, plan.prepare, maxCalls).0;
    var visited := RunPhase(prepared, plan.first, maxCalls).0;
    var worked := Work(b, plan, maxCalls).0;
    plan.(prepare := ReansweredScript(b, plan.prepare, log, maxCalls),
          first := ReansweredPhase(prepared, plan.first, log, maxCalls),
          second := ReansweredPhase(CloseEmbedding(visited), plan.second, log, maxCalls),
          finalize := ReansweredScript(worked.(ledger := worked.ledger.(closed := true)), plan.finalize, log, maxCalls))
  }

  /** The same books but for what the acknowledgements are. */
  ghost predicate Alike(b: Books, b': Books, log: seq<Digest>)
  {
    && b.client.count == |b.client.acked| <= |log|
    && b'.bge == b.bge && b'.qwen == b.qwen && b'.client == b.client.(acked := log[..b.client.count])
    && b'.ledger == b.ledger.(events := b'.ledger.events)
    && (forall name :: |EventsOf(b'.ledger, name)| == |EventsOf(b.ledger, name)|)
    && b.client.pending.None?
  }

  /** A client's step on an answer of each kind. */
  lemma AnsweredStep(c: Client, event: Event, raw: Payload, reply: Option<Wire>)
    requires c.pending.None? && c.count == |c.acked|
    ensures var (d, acknowledgement) := CaptureStep(c, event, raw, reply);
      && (acknowledgement.Some? ==>
            MaySend(c) && c.selected.Some?
            && d == c.(outbox := c.outbox + [CaptureRequestBody(c, event, raw)], count := c.count + 1,
                       acked := c.acked + [acknowledgement.value], reused := c.reused || c.failed))
      && (acknowledgement.None? && d.count == c.count ==> d == CaptureStep(c, event, raw, None).0)
      && (acknowledgement.None? && d.count != c.count ==> d.count == c.count + 1 && d.acked == c.acked)
      && CaptureStep(c, event, raw, None).1.None? && CaptureStep(c, event, raw, None).0.count == c.count
      && CaptureStep(c, event, raw, None).0.acked == c.acked
  {
  }

  /** Capturing with the other answer: the same step but for the acknowledgement. */
  lemma StepAlike(c: Client, c': Client, event: Event, raw: Payload, reply: Option<Wire>, log: seq<Digest>)
    returns (reply': Option<Wire>)
    requires c.pending.None? && c.count == |c.acked| <= |log| && c' == c.(acked := log[..c.count])
    requires var d := CaptureStep(c, event, raw, reply).0; d.count == |d.acked| <= |log|
    ensures var d := CaptureStep(c, event, raw, reply).0;
      reply' == if d.count == c.count + 1 && Live(c) && c.count < |log| then
                  Some(AcknowledgementOf(c, log[c.count])) else None
    ensures var (d, a) := CaptureStep(c, event, raw, reply);
      var (d', a') := CaptureStep(c', event, raw, reply');
      && d' == d.(acked := log[..d.count]) && (a.Some? <==> a'.Some?)
      && (a.Some? ==> MaySend(c) && c.selected.Some? && c.count < |log| && d.count == c.count + 1)
      && (a.None? ==> d.count == c.count && reply'.None?)
  {
    var (d, a) := CaptureStep(c, event, raw, reply);
    AnsweredStep(c, event, raw, reply);
    if a.Some? {
      reply' := Some(AcknowledgementOf(c, log[c.count]));
      AcknowledgementTaken(c', event, raw, log[c.count]);
      assert log[..c.count] + [log[c.count]] == log[..c.count + 1];
    } else {
      reply' := None;
    }
  }

  lemma ForwardAlike(b: Books, b': Books, event: Event, raw: Payload, reply: Option<Wire>, log: seq<Digest>,
                     maxCalls: nat)
    returns (reply': Option<Wire>)
    requires Alike(b, b', log)
    requires var c := Forward(b, event, raw, reply, maxCalls).0.client; c.count == |c.acked| <= |log|
    ensures var c, d := b.client, Forward(b, event, raw, reply, maxCalls).0.client;
      reply' == if d.count == c.count + 1 && Live(c) && c.count < |log| then
                  Some(AcknowledgementOf(c, log[c.count])) else None
    ensures var (after, ok) := Forward(b, event, raw, reply, maxCalls);
      var (after', ok') := Forward(b', event, raw, reply', maxCalls);
      Alike(after, after', log) && ok' == ok
    ensures AnsweredFrom(b'.client, Capturing(event, raw, reply'), log)
  {
    hide CaptureStep, LedgerAdmits, AcknowledgementOf;
    CaptureStepCases(b.client, event, raw, reply);
    reply' := StepAlike(b.client, b'.client, event, raw, reply, log);
    AcknowledgementSame(b.client, b'.client, log);
    var (d, a) := CaptureStep(b.client, event, raw, reply);
    var (d', a') := CaptureStep(b'.client, event, raw, reply');
    if a.Some? {
      ObserveAlike(b.ledger, b'.ledger, event, a.value, a'.value, maxCalls);
    }
  }

  lemma ObserveAlike(l: Ledger, l': Ledger, event: Event, x: Digest, y: Digest, maxCalls: nat)
    requires l' == l.(events := l'.events) && forall name :: |EventsOf(l', name)| == |EventsOf(l, name)|
    ensures var (after, ok) := Observe(l, LedgerEvent(event, Some(x)), maxCalls);
      var (after', ok') := Observe(l', LedgerEvent(event, Some(y)), maxCalls);
      && ok' == ok && after' == after.(events := after'.events)
      && forall name :: |EventsOf(after', name)| == |EventsOf(after, name)|
  {
    AdmitsAnyCapture(event, x, y);
    hide LedgerAdmits;
    var after := Observe(l, LedgerEvent(event, Some(x)), maxCalls).0;
    var after' := Observe(l', LedgerEvent(event, Some(y)), maxCalls).0;
    forall name ensures |EventsOf(after', name)| == |EventsOf(after, name)| {
      assert |EventsOf(l', name)| == |EventsOf(l, name)|;
      assert l.active.Some? ==> |EventsOf(l', l.active.value)| == |EventsOf(l, l.active.value)|;
    }
  }

  lemma AdmitsAnyCapture(event: Event, x: Digest, y: Digest)
    ensures LedgerAdmits(LedgerEvent(event, Some(x))) == LedgerAdmits(LedgerEvent(event, Some(y)))
  {
  }

  lemma AcknowledgementSame(c: Client, c': Client, log: seq<Digest>)
    requires c'.link == c.link && c'.count == c.count && c'.phase == c.phase
    ensures Live(c) && c.count < |log| ==> AcknowledgementOf(c', log[c.count]) == AcknowledgementOf(c, log[c.count])
  {
  }

  lemma OneAnswered(c: Client, op: Operation, log: seq<Digest>)
    requires AnsweredFrom(c, op, log)
    ensures WellAnswered(c, [op], log)
  {
    assert [op][1..] == [];
  }

  // A provider call in three parts: whether it gets to its capture, the books it captures with, and what it
  // makes of the outcome.

  predicate Reaches(b: Books, call: Call)
    requires !call.ObserveCall?
  {
    if call.EmbedCall? then TextsOk(call.texts, call.query) && !b.bge.closed && call.ready
    else PromptOk(call) && !b.qwen.closed
  }

  function Taken(b: Books, call: Call): Books
    requires !call.ObserveCall?
  {
    if call.EmbedCall? then b.(bge := Counted(b.bge, call.query, call.tokens).(ordinal := b.bge.ordinal + 1))
    else b.(qwen := b.qwen.(ordinal := b.qwen.ordinal + 1))
  }

  function Refused(b: Books, call: Call): Books
    requires !call.ObserveCall?
  {
    if call.EmbedCall? && TextsOk(call.texts, call.query) then b.(bge := Counted(b.bge, call.query, call.tokens)) else b
  }

  function Concluded(b: Books, forwarded: bool, call: Call): (Books, bool)
    requires !call.ObserveCall?
  {
    if call.EmbedCall? then (b, !forwarded || !call.modelOk)
    else if !forwarded then (b, true)
    else
      (b.(qwen := b.qwen.(generationCalls := b.qwen.generationCalls + (if call.repair then 0 else 1),
                          repairCalls := b.qwen.repairCalls + (if call.repair then 1 else 0),
                          promptTokens := b.qwen.promptTokens + call.promptTokens,
                          generatedTokens := b.qwen.generatedTokens + (if call.modelOk then call.outputTokens else 0))),
       !call.modelOk)
  }

  lemma PerformIs(b: Books, call: Call, maxCalls: nat)
    requires !call.ObserveCall?
    ensures Perform(b, call, maxCalls)
            == if Reaches(b, call) then
                 var (after, forwarded) := Forward(Taken(b, call), NextEvent(b, call), NextRaw(call), call.reply,
                                                   maxCalls);
                 Concluded(after, forwarded, call)
               else (Refused(b, call), true)
    ensures CallOps(b, call)
            == if Reaches(b, call) then [Capturing(NextEvent(b, call), NextRaw(call), call.reply)] else []
  {
    hide Forward, EmbeddingEventFor, GenerationEventFor, TextsOk, PromptOk;
  }

  lemma PartsAlike(b: Books, b': Books, call: Call, reply: Option<Wire>, log: seq<Digest>)
    requires Alike(b, b', log) && !call.ObserveCall?
    ensures var call' := WithReply(call, reply);
      && !call'.ObserveCall? && call'.reply == reply
      && (Reaches(b', call') <==> Reaches(b, call)) && NextEvent(b', call') == NextEvent(b, call)
      && NextRaw(call') == NextRaw(call)
      && Alike(Taken(b, call), Taken(b', call'), log) && Alike(Refused(b, call), Refused(b', call'), log)
    ensures Taken(b, call).client == Refused(b, call).client == b.client
    ensures Taken(b', WithReply(call, reply)).client == b'.client
  {
    hide EmbeddingEventFor, GenerationEventFor, TextsOk, Blank;
  }

  lemma ConcludedAlike(b: Books, b': Books, forwarded: bool, call: Call, reply: Option<Wire>, log: seq<Digest>)
    requires Alike(b, b', log) && !call.ObserveCall?
    ensures var call' := WithReply(call, reply);
      && !call'.ObserveCall?
      && Alike(Concluded(b, forwarded, call).0, Concluded(b', forwarded, call').0, log)
      && Concluded(b, forwarded, call).1 == Concluded(b', forwarded, call').1
    ensures Concluded(b, forwarded, call).0.client == b.client
  {
  }

  /** A provider call that gets the other answer does the same. */
  lemma CallAlike(b: Books, b': Books, call: Call, log: seq<Digest>, maxCalls: nat)
    requires Alike(b, b', log) && !call.ObserveCall?
    requires var c := Perform(b, call, maxCalls).0.client; c.count == |c.acked| <= |log|
    ensures var (after, raised) := Perform(b, call, maxCalls);
      var call' := Reanswered(b, call, log, maxCalls);
      var (after', raised') := Perform(b', call', maxCalls);
      && Alike(after, after', log) && raised' == raised && !call'.ObserveCall?
      && WellAnswered(b'.client, CallOps(b', call'), log)
  {
    var call' := Reanswered(b, call, log, maxCalls);
    PerformIs(b, call, maxCalls);
    PartsAlike(b, b', call, call'.reply, log);
    PerformIs(b', call', maxCalls);
    NoneAnswered(b'.client, log);
    hide Forward, Perform, CallOps, AcknowledgementOf, WellAnswered, AnsweredFrom, Reaches, Taken, Refused, Concluded,
         NextEvent, NextRaw, Alike, EmbeddingEventFor, GenerationEventFor;
    if Reaches(b, call) {
      var (after, forwarded) := Forward(Taken(b, call), NextEvent(b, call), NextRaw(call), call.reply, maxCalls);
      ConcludedClient(after, forwarded, call);
      var reply' := ReachingAlike(b, b', call, log, maxCalls);
    }
  }

  lemma ReachingAlike(b: Books, b': Books, call: Call, log: seq<Digest>, maxCalls: nat) returns (reply': Option<Wire>)
    requires Alike(b, b', log) && !call.ObserveCall? && Reaches(b, call)
    requires var c := Forward(Taken(b, call), NextEvent(b, call), NextRaw(call), call.reply, maxCalls).0.client;
      c.count == |c.acked| <= |log|
    ensures var c, d := b.client,
                        Forward(Taken(b, call), NextEvent(b, call), NextRaw(call), call.reply, maxCalls).0.client;
      reply' == if d.count == c.count + 1 && Live(c) && c.count < |log| then
                  Some(AcknowledgementOf(c, log[c.count])) else None
    ensures var call' := WithReply(call, reply');
      !call'.ObserveCall? &&
      var event, raw := NextEvent(b, call), NextRaw(call);
      var (after, ok) := Forward(Taken(b, call), event, raw, call.reply, maxCalls);
      var (after', ok') := Forward(Taken(b', call'), event, raw, reply', maxCalls);
      && Alike(Concluded(after, ok, call).0, Concluded(after', ok', call').0, log)
      && Concluded(after, ok, call).1 == Concluded(after', ok', call').1
      && WellAnswered(b'.client, [Capturing(event, raw, reply')], log)
  {
    hide Forward, AcknowledgementOf, WellAnswered, AnsweredFrom, Taken, Concluded, NextEvent, NextRaw, Alike;
    PartsAlike(b, b', call, None, log);
    var event, raw := NextEvent(b, call), NextRaw(call);
    var n' := Taken(b', WithReply(call, None));
    var (after, forwarded) := Forward(Taken(b, call), event, raw, call.reply, maxCalls);
    reply' := ForwardAlike(Taken(b, call), n', event, raw, call.reply, log, maxCalls);
    PartsAlike(b, b', call, reply', log);
    TakenSame(b', call, None, reply');
    ConcludedAlike(after, Forward(n', event, raw, reply', maxCalls).0, forwarded, call, reply', log);
    OneAnswered(b'.client, Capturing(event, raw, reply'), log);
  }

  lemma TakenSame(b: Books, call: Call, x: Option<Wire>, y: Option<Wire>)
    requires !call.ObserveCall?
    ensures !WithReply(call, x).ObserveCall? && !WithReply(call, y).ObserveCall?
    ensures Taken(b, WithReply(call, x)) == Taken(b, WithReply(call, y))
  {
  }

  lemma ConcludedClient(b: Books, forwarded: bool, call: Call)
    requires !call.ObserveCall?
    ensures Concluded(b, forwarded, call).0.client == b.client
  {
  }

  lemma NoneAnswered(c: Client, log: seq<Digest>)
    ensures WellAnswered(c, [], log)
  {
  }

  lemma {:induction false} WellAnsweredAppend(c: Client, first: seq<Operation>, second: seq<Operation>,
                                              log: seq<Digest>)
    requires WellAnswered(c, first, log) && WellAnswered(AllOperated(c, first), second, log)
    ensures WellAnswered(c, first + second, log)
    decreases |first|
  {
    hide Operated, AnsweredFrom;
    if first == [] {
      assert first + second == second;
    } else {
      assert (first + second)[0] == first[0] && (first + second)[1..] == first[1..] + second;
      WellAnsweredAppend(Operated(c, first[0]), first[1..], second, log);
    }
  }

  // ---- The same run with other answers ----

  /** Numbers that were used up without an acknowledgement are never made up for. */
  ghost predicate Progress(b: Books, after: Books)
  {
    && after.client.pending.None? && |after.client.acked| <= after.client.count && b.client.count <= after.client.count
    && b.client.count - |b.client.acked| <= after.client.count - |after.client.acked|
  }

  lemma CallProgress(b: Books, call: Call, maxCalls: nat)
    requires b.client.pending.None? && |b.client.acked| <= b.client.count
    ensures Progress(b, Perform(b, call, maxCalls).0)
  {
    hide CaptureStep, Observe;
    forall event, raw, reply ensures var d := CaptureStep(b.client, event, raw, reply).0;
        && d.pending.None? && |d.acked| <= d.count && b.client.count <= d.count
        && b.client.count - |b.client.acked| <= d.count - |d.acked| {
      CaptureStepCases(b.client, event, raw, reply);
      assert CaptureStep(b.client, event, raw, reply).1.None? || CaptureStep(b.client, event, raw, reply).1.Some?;
    }
  }

  lemma {:induction false} ScriptProgress(b: Books, script: seq<Attempt>, maxCalls: nat)
    requires b.client.pending.None? && |b.client.acked| <= b.client.count
    ensures Progress(b, RunScript(b, script, maxCalls).0)
    decreases |script|
  {
    hide Perform;
    if script != [] {
      CallProgress(b, script[0].call, maxCalls);
      ScriptProgress(Perform(b, script[0].call, maxCalls).0, script[1..], maxCalls);
    }
  }

  lemma {:induction false} PhaseProgress(b: Books, visits: seq<Visit>, maxCalls: nat)
    requires b.client.pending.None? && |b.client.acked| <= b.client.count
    ensures Progress(b, RunPhase(b, visits, maxCalls).0)
    decreases |visits|
  {
    hide RunScript;
    if visits != [] && visits[0].onTime {
      ScriptProgress(OpenCase(b, visits[0].name), visits[0].script, maxCalls);
      PhaseProgress(RunVisit(b, visits[0], maxCalls).0, visits[1..], maxCalls);
    }
  }

  /** Every number was used for an acknowledgement, and the log has an entry for each. */
  ghost predicate Settled(b: Books, log: seq<Digest>)
  {
    b.client.pending.None? && b.client.count == |b.client.acked| <= |log|
  }

  lemma SettledBefore(b: Books, after: Books, log: seq<Digest>)
    requires b.client.pending.None? && |b.client.acked| <= b.client.count && Progress(b, after) && Settled(after, log)
    ensures Settled(b, log)
  {
  }

  lemma {:induction false} ScriptAlike(b: Books, b': Books, script: seq<Attempt>, log: seq<Digest>, maxCalls: nat)
    requires Alike(b, b', log) && Unforged(script) && Settled(RunScript(b, script, maxCalls).0, log)
    ensures var script' := ReansweredScript(b, script, log, maxCalls);
      var (after, failed) := RunScript(b, script, maxCalls);
      var (after', failed') := RunScript(b', script', maxCalls);
      && Alike(after, after', log) && failed' == failed && Unforged(script')
      && WellAnswered(b'.client, ScriptOps(b', script', maxCalls), log)
    decreases |script|
  {
    hide Perform, CallOps, Reanswered, WellAnswered, AllOperated;
    if script == [] {
      NoneAnswered(b'.client, log);
    } else {
      var (next, raised) := Perform(b, script[0].call, maxCalls);
      var stops := raised && !script[0].swallowed;
      AlikeSettled(b, b', log);
      CallProgress(b, script[0].call, maxCalls);
      if !stops {
        ScriptProgress(next, script[1..], maxCalls);
        SettledBefore(next, RunScript(next, script[1..], maxCalls).0, log);
      }
      CallAlike(b, b', script[0].call, log, maxCalls);
      var call' := Reanswered(b, script[0].call, log, maxCalls);
      var next' := Perform(b', call', maxCalls).0;
      var script' := ReansweredScript(b, script, log, maxCalls);
      var rest' := if stops then script[1..] else ReansweredScript(next, script[1..], log, maxCalls);
      assert script'[0] == Attempt(call', script[0].swallowed) && script'[1..] == rest';
      if !stops {
        ScriptAlike(next, next', script[1..], log, maxCalls);
      }
      CallOperates(b', call', maxCalls);
      var later := if stops then [] else ScriptOps(next', rest', maxCalls);
      NoneAnswered(next'.client, log);
      WellAnsweredAppend(b'.client, CallOps(b', call'), later, log);
    }
  }

  lemma AlikeSettled(b: Books, b': Books, log: seq<Digest>)
    requires Alike(b, b', log)
    ensures Settled(b, log)
  {
  }

  lemma OpenAlike(b: Books, b': Books, name: string, log: seq<Digest>)
    requires Alike(b, b', log)
    ensures Alike(OpenCase(b, name), OpenCase(b', name), log)
    ensures OpenCase(b', name).client == Operated(b'.client, Choose(name))
  {
    var after, after' := OpenCase(b, name), OpenCase(b', name);
    forall n ensures |EventsOf(after'.ledger, n)| == |EventsOf(after.ledger, n)| {
      assert |EventsOf(b'.ledger, n)| == |EventsOf(b.ledger, n)|;
    }
  }

  lemma CloseAlike(b: Books, b': Books, log: seq<Digest>, bge: bool, qwen: bool, ledger: bool)
    requires Alike(b, b', log)
    ensures Alike(b.(bge := b.bge.(closed := bge), qwen := b.qwen.(closed := qwen),
                     ledger := b.ledger.(closed := ledger)),
                  b'.(bge := b'.bge.(closed := bge), qwen := b'.qwen.(closed := qwen),
                      ledger := b'.ledger.(closed := ledger)),
                  log)
  {
    assert forall name :: EventsOf(b.ledger.(closed := ledger), name) == EventsOf(b.ledger, name);
    assert forall name :: EventsOf(b'.ledger.(closed := ledger), name) == EventsOf(b'.ledger, name);
  }

  lemma {:induction false} PhaseAlike(b: Books, b': Books, visits: seq<Visit>, log: seq<Digest>, maxCalls: nat)
    requires Alike(b, b', log) && (forall k :: 0 <= k < |visits| ==> Unforged(visits[k].script))
    requires Settled(RunPhase(b, visits, maxCalls).0, log)
    ensures var visits' := ReansweredPhase(b, visits, log, maxCalls);
      var (after, ok) := RunPhase(b, visits, maxCalls);
      var (after', ok') := RunPhase(b', visits', maxCalls);
      && Alike(after, after', log) && ok' == ok
      && WellAnswered(b'.client, PhaseOps(b', visits', maxCalls), log)
    decreases |visits|
  {
    hide RunScript, ScriptOps, ReansweredScript, WellAnswered, AllOperated, Unforged, Operated;
    NoneAnswered(b'.client, log);
    if visits != [] {
      var v := visits[0];
      var visits' := ReansweredPhase(b, visits, log, maxCalls);
      var v' := v.(script := ReansweredScript(OpenCase(b, v.name), v.script, log, maxCalls));
      assert visits'[0] == v';
      assert visits'[1..] == ReansweredPhase(RunVisit(b, v, maxCalls).0, visits[1..], log, maxCalls);
      if v.onTime {
        var (next, ok) := RunVisit(b, v, maxCalls);
        AlikeSettled(b, b', log);
        OpenAlike(b, b', v.name, log);
        ScriptProgress(OpenCase(b, v.name), v.script, maxCalls);
        if ok {
          PhaseProgress(next, visits[1..], maxCalls);
          SettledBefore(next, RunPhase(next, visits[1..], maxCalls).0, log);
        }
        ScriptAlike(OpenCase(b, v.name), OpenCase(b', v.name), v.script, log, maxCalls);
        var next' := RunVisit(b', v', maxCalls).0;
        if ok {
          PhaseAlike(next, next', visits[1..], log, maxCalls);
        }
        VisitAnswered(b', v', if ok then PhaseOps(next', visits'[1..], maxCalls) else [], log, maxCalls);
      }
    }
  }

  lemma VisitAnswered(b: Books, v: Visit, later: seq<Operation>, log: seq<Digest>, maxCalls: nat)
    requires v.onTime
    requires WellAnswered(OpenCase(b, v.name).client, ScriptOps(OpenCase(b, v.name), v.script, maxCalls), log)
    requires later == [] || WellAnswered(RunVisit(b, v, maxCalls).0.client, later, log)
    ensures WellAnswered(b.client, [Choose(v.name)] + ScriptOps(OpenCase(b, v.name), v.script, maxCalls) + later, log)
  {
    hide RunScript, ScriptOps;
    var choose: seq<Operation> := [Choose(v.name)];
    var script := ScriptOps(OpenCase(b, v.name), v.script, maxCalls);
    OneAnswered(b.client, Choose(v.name), log);
    assert choose[1..] == [] && AllOperated(b.client, choose) == OpenCase(b, v.name).client;
    ScriptOperates(OpenCase(b, v.name), v.script, maxCalls);
    NoneAnswered(RunVisit(b, v, maxCalls).0.client, log);
    hide WellAnswered;
    WellAnsweredAppend(b.client, choose, script, log);
    OperatedAppend(b.client, choose, script);
    WellAnsweredAppend(b.client, choose + script, later, log);
  }

  /** The same executor, call by call; only the answers may differ. */
  ghost predicate SameScript(script: seq<Attempt>, other: seq<Attempt>)
  {
    |other| == |script| && forall k :: 0 <= k < |script| ==>
      other[k].swallowed == script[k].swallowed && WithReply(other[k].call, None) == WithReply(script[k].call, None)
  }

  ghost predicate SameVisits(visits: seq<Visit>, others: seq<Visit>)
  {
    |others| == |visits| && forall k :: 0 <= k < |visits| ==>
      others[k] == visits[k].(script := others[k].script) && SameScript(visits[k].script, others[k].script)
  }

  ghost predicate SameCalls(plan: Plan, other: Plan)
  {
    && other == plan.(prepare := other.prepare, first := other.first, second := other.second,
                      finalize := other.finalize)
    && SameScript(plan.prepare, other.prepare) && SameVisits(plan.first, other.first)
    && SameVisits(plan.second, other.second) && SameScript(plan.finalize, other.finalize)
  }

  lemma {:induction false} ReansweredSame(b: Books, script: seq<Attempt>, log: seq<Digest>, maxCalls: nat)
    ensures SameScript(script, ReansweredScript(b, script, log, maxCalls))
    decreases |script|
  {
    hide Perform, AcknowledgementOf;
    if script != [] {
      ReansweredSame(Perform(b, script[0].call, maxCalls).0, script[1..], log, maxCalls);
      assert script == [script[0]] + script[1..];
    }
  }

  lemma {:induction false} ReansweredVisits(b: Books, visits: seq<Visit>, log: seq<Digest>, maxCalls: nat)
    ensures SameVisits(visits, ReansweredPhase(b, visits, log, maxCalls))
    decreases |visits|
  {
    hide RunVisit, ReansweredScript, SameScript;
    if visits != [] {
      ReansweredSame(OpenCase(b, visits[0].name), visits[0].script, log, maxCalls);
      ReansweredVisits(RunVisit(b, visits[0], maxCalls).0, visits[1..], log, maxCalls);
      assert visits == [visits[0]] + visits[1..];
    }
  }

  lemma ReansweredPlanSame(b: Books, plan: Plan, log: seq<Digest>, maxCalls: nat)
    ensures SameCalls(plan, ReansweredPlan(b, plan, log, maxCalls))
  {
    hide RunScript, RunPhase, Work, ReansweredScript, ReansweredPhase, SameScript, SameVisits;
    var prepared := RunScript(b, plan.prepare, maxCalls).0;
    var visited := RunPhase(prepared, plan.first, maxCalls).0;
    var worked := Work(b, plan, maxCalls).0;
    ReansweredSame(b, plan.prepare, log, maxCalls);
    ReansweredVisits(prepared, plan.first, log, maxCalls);
    ReansweredVisits(CloseEmbedding(visited), plan.second, log, maxCalls);
    ReansweredSame(worked.(ledger := worked.ledger.(closed := true)), plan.finalize, log, maxCalls);
  }

  lemma SameScriptUnforged(script: seq<Attempt>, other: seq<Attempt>)
    requires SameScript(script, other) && Unforged(script)
    ensures Unforged(other)
  {
    forall k | 0 <= k < |other| ensures !other[k].call.ObserveCall? {
      assert WithReply(other[k].call, None) == WithReply(script[k].call, None);
    }
  }

  lemma SameCallsUnforged(plan: Plan, other: Plan)
    requires SameCalls(plan, other) && UnforgedPlan(plan)
    ensures UnforgedPlan(other)
  {
    hide SameScript, Unforged;
    SameScriptUnforged(plan.prepare, other.prepare);
    SameScriptUnforged(plan.finalize, other.finalize);
    forall k | 0 <= k < |other.first| ensures Unforged(other.first[k].script) {
      SameScriptUnforged(plan.first[k].script, other.first[k].script);
    }
    forall k | 0 <= k < |other.second| ensures Unforged(other.second[k].script) {
      SameScriptUnforged(plan.second[k].script, other.second[k].script);
    }
  }

  lemma WorkProgress(b: Books, plan: Plan, maxCalls: nat)
    requires b.client.pending.None? && |b.client.acked| <= b.client.count
    ensures var prepared := RunScript(b, plan.prepare, maxCalls).0;
      var visited := RunPhase(prepared, plan.first, maxCalls).0;
      var worked := Work(b, plan, maxCalls).0;
      && Progress(b, prepared) && Progress(prepared, visited)
      && Progress(b, worked)
      && Progress(worked, Finish(worked, plan, maxCalls).0)
  {
    hide RunScript, RunPhase;
    ScriptProgress(b, plan.prepare, maxCalls);
    var prepared := RunScript(b, plan.prepare, maxCalls).0;
    PhaseProgress(prepared, plan.first, maxCalls);
    var visited := RunPhase(prepared, plan.first, maxCalls).0;
    PhaseProgress(CloseEmbedding(visited), plan.second, maxCalls);
    var worked := Work(b, plan, maxCalls).0;
    ScriptProgress(worked.(ledger := worked.ledger.(closed := true)), plan.finalize, maxCalls);
  }

  lemma CloseEmbeddingAlike(b: Books, b': Books, log: seq<Digest>)
    requires Alike(b, b', log)
    ensures Alike(CloseEmbedding(b), CloseEmbedding(b'), log)
  {
    CloseAlike(b, b', log, true, b.qwen.closed, b.ledger.closed);
    assert CloseEmbedding(b) == b.(bge := b.bge.(closed := true), qwen := b.qwen.(closed := b.qwen.closed),
                                   ledger := b.ledger.(closed := b.ledger.closed));
    assert CloseEmbedding(b') == b'.(bge := b'.bge.(closed := true), qwen := b'.qwen.(closed := b.qwen.closed),
                                     ledger := b'.ledger.(closed := b.ledger.closed));
  }

  /** The work of a run that went through, with other answers. */
  lemma WorkAlike(b: Books, plan: Plan, log: seq<Digest>, maxCalls: nat)
    requires Alike(b, b, log) && UnforgedPlan(plan) && Work(b, plan, maxCalls).1
    requires Settled(Work(b, plan, maxCalls).0, log)
    ensures var plan' := ReansweredPlan(b, plan, log, maxCalls);
      && Work(b, plan', maxCalls).1 && Alike(Work(b, plan, maxCalls).0, Work(b, plan', maxCalls).0, log)
      && WellAnswered(b.client, WorkOps(b, plan', maxCalls), log)
  {
    hide RunScript, RunPhase, ScriptOps, PhaseOps, WellAnswered, Unforged, ReansweredScript, ReansweredPhase, Alike,
         Progress;
    var plan' := ReansweredPlan(b, plan, log, maxCalls);
    WorkSettled(b, plan, log, maxCalls);
    var prepared := RunScript(b, plan.prepare, maxCalls).0;
    var prepared' := RunScript(b, plan'.prepare, maxCalls).0;
    ScriptAlike(b, b, plan.prepare, log, maxCalls);
    var visited := RunPhase(prepared, plan.first, maxCalls).0;
    var visited' := RunPhase(prepared', plan'.first, maxCalls).0;
    PhaseAlike(prepared, prepared', plan.first, log, maxCalls);
    var prepare, first := ScriptOps(b, plan'.prepare, maxCalls), PhaseOps(prepared', plan'.first, maxCalls);
    ScriptOperates(b, plan'.prepare, maxCalls);
    PhaseOperates(prepared', plan'.first, maxCalls);
    var second: seq<Operation> := [];
    NoneAnswered(visited'.client, log);
    if plan.phased {
      CloseEmbeddingAlike(visited, visited', log);
      PhaseAlike(CloseEmbedding(visited), CloseEmbedding(visited'), plan.second, log, maxCalls);
      second := PhaseOps(CloseEmbedding(visited'), plan'.second, maxCalls);
    }
    WellAnsweredAppend(prepared'.client, first, second, log);
    WellAnsweredAppend(b.client, prepare, first + second, log);
    assert WorkOps(b, plan', maxCalls) == prepare + (first + second);
  }

  lemma WorkSettled(b: Books, plan: Plan, log: seq<Digest>, maxCalls: nat)
    requires Settled(b, log) || Alike(b, b, log)
    requires Work(b, plan, maxCalls).1 && Settled(Work(b, plan, maxCalls).0, log)
    ensures var prepared := RunScript(b, plan.prepare, maxCalls).0;
      Settled(prepared, log) && Settled(RunPhase(prepared, plan.first, maxCalls).0, log)
  {
    hide RunScript, RunPhase;
    ScriptProgress(b, plan.prepare, maxCalls);
    var prepared := RunScript(b, plan.prepare, maxCalls).0;
    PhaseProgress(prepared, plan.first, maxCalls);
    var visited := RunPhase(prepared, plan.first, maxCalls).0;
    PhaseProgress(CloseEmbedding(visited), plan.second, maxCalls);
  }

  /** The whole run up to the closed providers, with other answers. */
  lemma RunAlike(b: Books, plan: Plan, log: seq<Digest>, maxCalls: nat)
    requires Alike(b, b, log) && UnforgedPlan(plan) && Work(b, plan, maxCalls).1
    requires var worked := Work(b, plan, maxCalls).0;
      Finish(worked, plan, maxCalls).1 && Settled(Finish(worked, plan, maxCalls).0, log)
    ensures var plan' := ReansweredPlan(b, plan, log, maxCalls);
      var worked, worked' := Work(b, plan, maxCalls).0, Work(b, plan', maxCalls).0;
      && Work(b, plan', maxCalls).1 && Finish(worked', plan', maxCalls).1
      && Alike(worked, worked', log) && Alike(Finish(worked, plan, maxCalls).0, Finish(worked', plan', maxCalls).0, log)
      && WellAnswered(b.client, RunOps(b, plan', maxCalls), log)
  {
    var plan' := ReansweredPlan(b, plan, log, maxCalls);
    var worked, worked' := Work(b, plan, maxCalls).0, Work(b, plan', maxCalls).0;
    AlikeSettled(b, b, log);
    WorkProgress(b, plan, maxCalls);
    SettledBefore(worked, Finish(worked, plan, maxCalls).0, log);
    WorkAlike(b, plan, log, maxCalls);
    hide Work, WorkOps, RunScript, ScriptOps, WellAnswered, Unforged, ReansweredScript, ReansweredPhase, Alike,
         Progress;
    CloseLedgerAlike(worked, worked', log);
    var closing := worked.(ledger := worked.ledger.(closed := true));
    var closing' := worked'.(ledger := worked'.ledger.(closed := true));
    FinishScript(worked, plan, maxCalls);
    ScriptAlike(closing, closing', plan.finalize, log, maxCalls);
    CloseProvidersAlike(RunScript(closing, plan.finalize, maxCalls).0,
                        RunScript(closing', plan'.finalize, maxCalls).0, log);
    WorkOperates(b, plan', maxCalls);
    WellAnsweredAppend(b.client, WorkOps(b, plan', maxCalls), ScriptOps(closing', plan'.finalize, maxCalls), log);
  }

  lemma FinishScript(worked: Books, plan: Plan, maxCalls: nat)
    ensures var closing := worked.(ledger := worked.ledger.(closed := true));
      Finish(worked, plan, maxCalls).0.client == RunScript(closing, plan.finalize, maxCalls).0.client
  {
    hide RunScript;
  }

  lemma CloseLedgerAlike(b: Books, b': Books, log: seq<Digest>)
    requires Alike(b, b', log)
    ensures Alike(b.(ledger := b.ledger.(closed := true)), b'.(ledger := b'.ledger.(closed := true)), log)
  {
    CloseAlike(b, b', log, b.bge.closed, b.qwen.closed, true);
    assert b.(ledger := b.ledger.(closed := true))
           == b.(bge := b.bge.(closed := b.bge.closed), qwen := b.qwen.(closed := b.qwen.closed),
                 ledger := b.ledger.(closed := true));
    assert b'.(ledger := b'.ledger.(closed := true))
           == b'.(bge := b'.bge.(closed := b.bge.closed), qwen := b'.qwen.(closed := b.qwen.closed),
                  ledger := b'.ledger.(closed := true));
  }

  lemma CloseProvidersAlike(b: Books, b': Books, log: seq<Digest>)
    requires Alike(b, b', log)
    ensures Alike(b.(bge := b.bge.(closed := true), qwen := b.qwen.(closed := true)),
                  b'.(bge := b'.bge.(closed := true), qwen := b'.qwen.(closed := true)), log)
  {
    CloseAlike(b, b', log, true, true, b.ledger.closed);
    assert b.ledger.(closed := b.ledger.closed) == b.ledger && b'.ledger.(closed := b.ledger.closed) == b'.ledger;
  }
}
