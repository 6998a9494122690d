/** The runner on the network: whatever its executor does, its client goes through actions of the network, as
    long as the answers it gets are ones the channel can deliver. */
module BenchmarkNetwork {
  import opened Outcomes
  import opened CaptureFrames
  import opened CaptureProtocol
  import opened CaptureNetwork
  import opened CaptureAgreement
  import opened ProviderCalls
  import opened BenchmarkRun

  // ---- What a run asks of its client ----

  datatype Operation =
    | Choose(name: string)
    | Capturing(event: Event, raw: Payload, reply: Option<Wire>)
    | Sealing(expected: int, reply: Option<Wire>)

  function Operated(c: Client, op: Operation): Client
  {
    match op
    case Choose(name) => c.(selected := Some(CaseDigest(name)))
    case Capturing(event, raw, reply) => CaptureStep(c, event, raw, reply).0
    case Sealing(expected, reply) => SealStep(c, expected, reply)
  }

  function AllOperated(c: Client, ops: seq<Operation>): Client
    decreases |ops|
  {
    if ops == [] then c else AllOperated(Operated(c, ops[0]), ops[1..])
  }

  lemma {:induction false} OperatedAppend(c: Client, first: seq<Operation>, second: seq<Operation>)
    ensures AllOperated(c, first + second) == AllOperated(AllOperated(c, first), second)
    decreases |first|
  {
    hide Operated;
    if first == [] {
      assert first + second == second;
    } else {
      assert (first + second)[0] == first[0] && (first + second)[1..] == first[1..] + second;
      OperatedAppend(Operated(c, first[0]), first[1..], second);
    }
  }

  /** The capture that a call makes, if it gets that far. */
  function CallOps(b: Books, call: Call): seq<Operation>
  {
    match call
    case EmbedCall(texts, query, tokens, ready, reply, _) =>
      if TextsOk(texts, query) && !b.bge.closed && ready then
        [Capturing(EmbeddingEventFor(b.bge.ordinal + 1, query, texts, tokens), Texts(texts), reply)]
      else []
    case GenerateCall(system, user, repair, promptTokens, maximumOutput, _, reply, _, _) =>
      if PromptOk(call) && !b.qwen.closed then
        [Capturing(GenerationEventFor(b.qwen.ordinal + 1, repair, system, user, promptTokens, maximumOutput),
                   Fields(PromptFields(system, user)), reply)]
      else []
    case ObserveCall(_) => []
  }

  function ScriptOps(b: Books, script: seq<Attempt>, maxCalls: nat): seq<Operation>
    decreases |script|
  {
    if script == [] then []
    else
      var (after, raised) := Perform(b, script[0].call, maxCalls);
      CallOps(b, script[0].call)
      + if raised && !script[0].swallowed then [] else ScriptOps(after, script[1..], maxCalls)
  }

  function PhaseOps(b: Books, visits: seq<Visit>, maxCalls: nat): seq<Operation>
    decreases |visits|
  {
    if visits == [] || !visits[0].onTime then []
    else
      var (after, ok) := RunVisit(b, visits[0], maxCalls);
      [Choose(visits[0].name)] + ScriptOps(OpenCase(b, visits[0].name), visits[0].script, maxCalls)
      + if ok then PhaseOps(after, visits[1..], maxCalls) else []
  }

  function WorkOps(b: Books, plan: Plan, maxCalls: nat): seq<Operation>
  {
    var (prepared, failed) := RunScript(b, plan.prepare, maxCalls);
    ScriptOps(b, plan.prepare, maxCalls)
    + if failed || !plan.prepared then []
      else
        var (visited, ok) := RunPhase(prepared, plan.first, maxCalls);
        PhaseOps(prepared, plan.first, maxCalls)
        + if !ok || !plan.phased || !plan.embeddingCloses then []
          else PhaseOps(CloseEmbedding(visited), plan.second, maxCalls)
  }

  /** Everything the client is asked to do up to the closed providers. */
  function RunOps(b: Books, plan: Plan, maxCalls: nat): seq<Operation>
  {
    var worked := Work(b, plan, maxCalls).0;
    WorkOps(b, plan, maxCalls) + ScriptOps(worked.(ledger := worked.ledger.(closed := true)), plan.finalize, maxCalls)
  }

  lemma CallOperates(b: Books, call: Call, maxCalls: nat)
    ensures Perform(b, call, maxCalls).0.client == AllOperated(b.client, CallOps(b, call))
  {
    hide CaptureStep, Observe, EmbeddingEventFor, GenerationEventFor, TextsOk, PromptOk;
    var ops := CallOps(b, call);
    if ops != [] {
      assert ops[1..] == [];
      assert AllOperated(b.client, ops) == Operated(b.client, ops[0]);
    }
  }

  lemma {:induction false} ScriptOperates(b: Books, script: seq<Attempt>, maxCalls: nat)
    ensures RunScript(b, script, maxCalls).0.client == AllOperated(b.client, ScriptOps(b, script, maxCalls))
    decreases |script|
  {
    hide Perform, CallOps;
    if script != [] {
      var (after, raised) := Perform(b, script[0].call, maxCalls);
      var rest := if raised && !script[0].swallowed then [] else ScriptOps(after, script[1..], maxCalls);
      CallOperates(b, script[0].call, maxCalls);
      OperatedAppend(b.client, CallOps(b, script[0].call), rest);
      ScriptOperates(after, script[1..], maxCalls);
    }
  }

  lemma {:induction false} PhaseOperates(b: Books, visits: seq<Visit>, maxCalls: nat)
    ensures RunPhase(b, visits, maxCalls).0.client == AllOperated(b.client, PhaseOps(b, visits, maxCalls))
    decreases |visits|
  {
    hide RunScript, ScriptOps;
    if visits != [] && visits[0].onTime {
      var v := visits[0];
      var (after, ok) := RunVisit(b, v, maxCalls);
      var choose: seq<Operation> := [Choose(v.name)];
      var script := ScriptOps(OpenCase(b, v.name), v.script, maxCalls);
      var rest := if ok then PhaseOps(after, visits[1..], maxCalls) else [];
      assert choose[1..] == [];
      assert AllOperated(b.client, choose) == OpenCase(b, v.name).client;
      OperatedAppend(b.client, choose, script);
      OperatedAppend(b.client, choose + script, rest);
      ScriptOperates(OpenCase(b, v.name), v.script, maxCalls);
      PhaseOperates(after, visits[1..], maxCalls);
    }
  }

  lemma WorkOperates(b: Books, plan: Plan, maxCalls: nat)
    ensures Work(b, plan, maxCalls).0.client == AllOperated(b.client, WorkOps(b, plan, maxCalls))
  {
    hide RunScript, RunPhase, ScriptOps, PhaseOps;
    var (prepared, failed) := RunScript(b, plan.prepare, maxCalls);
    var prepare := ScriptOps(b, plan.prepare, maxCalls);
    ScriptOperates(b, plan.prepare, maxCalls);
    if failed || !plan.prepared {
      assert WorkOps(b, plan, maxCalls) == prepare;
    } else {
      var (visited, ok) := RunPhase(prepared, plan.first, maxCalls);
      var first := PhaseOps(prepared, plan.first, maxCalls);
      PhaseOperates(prepared, plan.first, maxCalls);
      var second := if !ok || !plan.phased || !plan.embeddingCloses then []
                    else PhaseOps(CloseEmbedding(visited), plan.second, maxCalls);
      PhaseOperates(CloseEmbedding(visited), plan.second, maxCalls);
      OperatedAppend(b.client, prepare, first + second);
      OperatedAppend(prepared.client, first, second);
    }
  }

  lemma RunOperates(b: Books, plan: Plan, maxCalls: nat)
    ensures var worked := Work(b, plan, maxCalls).0;
      Finish(worked, plan, maxCalls).0.client == AllOperated(b.client, RunOps(b, plan, maxCalls))
  {
    hide RunScript, Work, WorkOps, ScriptOps;
    WorkOperates(b, plan, maxCalls);
    var worked := Work(b, plan, maxCalls).0;
    var closing := worked.(ledger := worked.ledger.(closed := true));
    ScriptOperates(closing, plan.finalize, maxCalls);
    OperatedAppend(b.client, WorkOps(b, plan, maxCalls), ScriptOps(closing, plan.finalize, maxCalls));
  }

  // ---- The same on the network ----

  /** Actions of the other parties and of the channel. */
  predicate Elsewhere(i: nat, actions: seq<Action>)
  {
    forall k :: 0 <= k < |actions| ==>
      match actions[k]
      case DeliverReady(i', _) => i' != i
      case SelectCase(i', _) => i' != i
      case SendCapture(i', _, _) => i' != i
      case SendSeal(i', _) => i' != i
      case DeliverReply(i', _) => i' != i
      case _ => true
  }

  lemma {:induction false} ElsewhereKeepsClient(w: World, i: nat, actions: seq<Action>)
    requires i in w.clients && Elsewhere(i, actions)
    ensures i in Run(w, actions).clients && Run(w, actions).clients[i] == w.clients[i]
    decreases |actions|
  {
    hide Handle, Welcome;
    if actions != [] {
      var v := Next(w, actions[0]);
      assert i in v.clients && v.clients[i] == w.clients[i];
      ElsewhereKeepsClient(v, i, actions[1..]);
    }
  }

  function Opening(i: nat, op: Operation): Action
  {
    match op
    case Choose(name) => SelectCase(i, name)
    case Capturing(event, raw, _) => SendCapture(i, event, raw)
    case Sealing(expected, _) => SendSeal(i, expected)
  }

  function ReplyTo(op: Operation): Option<Wire>
  {
    if op.Choose? then None else op.reply
  }

  /** One operation and what goes on elsewhere until its answer arrives. */
  function Exchange(i: nat, op: Operation, between: seq<Action>): seq<Action>
  {
    [Opening(i, op)] + between + (if op.Choose? then [] else [DeliverReply(i, ReplyTo(op))])
  }

  /** By the time a request is answered, the channel can deliver the answer. */
  ghost predicate Answerable(w: World, i: nat, op: Operation, between: seq<Action>)
  {
    && Elsewhere(i, between)
    && var v := Run(Next(w, Opening(i, op)), between);
       ReplyTo(op).Some? && i in v.clients && v.clients[i].pending.Some? ==> Deliverable(ReplyTo(op).value, v.tags)
  }

  lemma OpeningThenReply(w: World, i: nat, op: Operation, v: World)
    requires i in w.clients && w.clients[i].pending.None? && i in v.clients
    requires v.clients[i] == Next(w, Opening(i, op)).clients[i]
    requires ReplyTo(op).Some? && v.clients[i].pending.Some? ==> Deliverable(ReplyTo(op).value, v.tags)
    ensures !op.Choose? ==> Next(v, DeliverReply(i, ReplyTo(op))).clients[i] == Operated(w.clients[i], op)
    ensures op.Choose? ==> v.clients[i] == Operated(w.clients[i], op)
    ensures Operated(w.clients[i], op).pending.None?
  {
    hide ReplyAccepted;
  }

  lemma ExchangeOperates(w: World, i: nat, op: Operation, between: seq<Action>)
    requires i in w.clients && w.clients[i].pending.None? && Answerable(w, i, op, between)
    ensures var v := Run(w, Exchange(i, op, between));
      i in v.clients && v.clients[i] == Operated(w.clients[i], op) && v.clients[i].pending.None?
  {
    hide Next, Operated, Elsewhere;
    var begun := Next(w, Opening(i, op));
    OpeningKeepsClient(w, i, op);
    ElsewhereKeepsClient(begun, i, between);
    var v := Run(begun, between);
    OpeningThenReply(w, i, op, v);
    var first: seq<Action> := [Opening(i, op)];
    var last := if op.Choose? then [] else [DeliverReply(i, ReplyTo(op))];
    RunAppend(w, first + between, last);
    RunAppend(w, first, between);
    assert first[1..] == [] && Run(w, first) == begun;
    if !op.Choose? {
      assert last[1..] == [] && Run(v, last) == Next(v, DeliverReply(i, ReplyTo(op)));
      ReplyKeepsDomain(v, i, ReplyTo(op));
    }
  }

  lemma OpeningKeepsClient(w: World, i: nat, op: Operation)
    requires i in w.clients
    ensures i in Next(w, Opening(i, op)).clients
  {
  }

  lemma ReplyKeepsDomain(w: World, i: nat, reply: Option<Wire>)
    requires i in w.clients
    ensures i in Next(w, DeliverReply(i, reply)).clients
  {
  }

  function Exchanges(i: nat, ops: seq<Operation>, betweens: seq<seq<Action>>): seq<Action>
    requires |betweens| == |ops|
    decreases |ops|
  {
    if ops == [] then [] else Exchange(i, ops[0], betweens[0]) + Exchanges(i, ops[1..], betweens[1..])
  }

  ghost predicate AllAnswerable(w: World, i: nat, ops: seq<Operation>, betweens: seq<seq<Action>>)
    requires |betweens| == |ops|
    decreases |ops|
  {
    ops == [] || (&& Answerable(w, i, ops[0], betweens[0])
                  && AllAnswerable(Run(w, Exchange(i, ops[0], betweens[0])), i, ops[1..], betweens[1..]))
  }

  lemma {:induction false} ExchangesOperate(w: World, i: nat, ops: seq<Operation>, betweens: seq<seq<Action>>)
    requires |betweens| == |ops| && i in w.clients && w.clients[i].pending.None?
    requires AllAnswerable(w, i, ops, betweens)
    ensures var v := Run(w, Exchanges(i, ops, betweens));
      i in v.clients && v.clients[i] == AllOperated(w.clients[i], ops)
    decreases |ops|
  {
    hide Answerable, Exchange, Operated;
    if ops != [] {
      var first := Exchange(i, ops[0], betweens[0]);
      ExchangeOperates(w, i, ops[0], betweens[0]);
      ExchangesOperate(Run(w, first), i, ops[1..], betweens[1..]);
      RunAppend(w, first, Exchanges(i, ops[1..], betweens[1..]));
    }
  }

  /** A run is a run of the network: if every answer its client gets is one that the channel can deliver by then,
      the network has a run that takes the client from where it starts to where the run leaves it, sealed answer
      included.  Everything proved of the client in all network runs therefore holds of it. */
  lemma RunIsNetworkRun(before: seq<Action>, i: nat, start: Books, plan: Plan, maxCalls: nat, expected: int,
                        reply: Option<Wire>, betweens: seq<seq<Action>>)
    requires i in After(before).clients && After(before).clients[i] == start.client && start.client.pending.None?
    requires var ops := RunOps(start, plan, maxCalls) + [Sealing(expected, reply)];
      |betweens| == |ops| && AllAnswerable(After(before), i, ops, betweens)
    ensures var ops := RunOps(start, plan, maxCalls) + [Sealing(expected, reply)];
      var w := After(before + Exchanges(i, ops, betweens));
      var final := Finish(Work(start, plan, maxCalls).0, plan, maxCalls).0;
      i in w.clients && w.clients[i] == SealStep(final.client, expected, reply)
  {
    hide RunOps, Work, Finish, SealStep, AllAnswerable, Exchanges;
    var sealing: seq<Operation> := [Sealing(expected, reply)];
    var ops := RunOps(start, plan, maxCalls) + sealing;
    ExchangesOperate(After(before), i, ops, betweens);
    RunAppend(Initial, before, Exchanges(i, ops, betweens));
    RunOperates(start, plan, maxCalls);
    OperatedAppend(start.client, RunOps(start, plan, maxCalls), sealing);
    assert sealing[1..] == [];
  }
}
