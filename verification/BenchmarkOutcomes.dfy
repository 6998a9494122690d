/** What a channel can make of the requests of a run: exactly which logs, and so exactly when it can bring about a
    completed run whose books are wrong. */
module BenchmarkOutcomes {
  import opened Outcomes
  import opened CaptureFrames
  import opened CaptureProtocol
  import opened CaptureNetwork
  import opened CaptureAgreement
  import opened CaptureReuse
  import opened CaptureExchange
  import opened ProviderCalls
  import opened BenchmarkRun
  import opened BenchmarkGuarantees
  import opened BenchmarkNetwork
  import opened BenchmarkFiling
  import opened BenchmarkMisfiling
  import opened BenchmarkPlay
  import opened BenchmarkReplies

  // ---- Exactly which logs, and exactly which runs can be misfiled ----

  /** A completed run on the network. */
  datatype Outcome = Outcome(plan: Plan, worked: Books, final: Books, after: Client, actions: seq<Action>)

  ghost predicate Happens(b: Bindings, names: seq<string>, maxCalls: nat, o: Outcome)
  {
    && Completed(StartOf(b), o.plan, names, maxCalls, o.worked, o.final, o.after) && o.worked.ledger.calls <= maxCalls
    && Linked(After(o.actions), 0, 0) && After(o.actions).clients[0] == o.after
  }

  function LogOf(o: Outcome): seq<Digest>
  {
    var w := After(o.actions);
    if 0 in w.collectors then w.collectors[0].log else []
  }

  ghost predicate FiledExactly(o: Outcome)
  {
    forall name :: EventsOf(o.final.ledger, name) == FilterCase(LogOf(o), CaseDigest(name))
  }

  /** The executor does the same, the same requests are sent, and as many are acknowledged. */
  ghost predicate SameRequests(plan: Plan, final: Books, o: Outcome)
  {
    && SameCalls(plan, o.plan) && o.final.client.outbox == final.client.outbox
    && o.final.client.count == final.client.count
  }

  lemma GreetedInPlay(b: Bindings, log: seq<Digest>)
    ensures InPlay(Greeted(b), b, StartOf(b).client, log) && StartOf(b).client.pending.None?
    ensures Fresh(StartOf(b)) && Alike(StartOf(b), StartOf(b), log)
  {
    StartTalks(b);
    assert log[..0] == [];
  }

  lemma CompletedSettled(start: Books, plan: Plan, names: seq<string>, maxCalls: nat, worked: Books, final: Books,
                         after: Client, log: seq<Digest>)
    requires Completed(start, plan, names, maxCalls, worked, final, after) && UnforgedPlan(plan)
    requires worked.ledger.calls <= maxCalls && |log| == final.client.count
    ensures Settled(final, log) && Work(start, plan, maxCalls) == (worked, true)
    ensures Finish(worked, plan, maxCalls) == (final, true)
  {
    hide Work, Finish, SealedBy, UsageOk;
    RunBooked(start, plan, maxCalls);
    LedgerUnmoved(worked, plan, maxCalls);
  }

  /** Alike books end a run alike. */
  lemma CompletedAlike(b: Bindings, plan: Plan, plan': Plan, names: seq<string>, maxCalls: nat, worked: Books,
                       worked': Books,
                       final: Books, final': Books, after: Client, after': Client, reply: Wire, log: seq<Digest>)
    requires Completed(StartOf(b), plan, names, maxCalls, worked, final, after)
    requires Alike(worked, worked', log) && Alike(final, final', log) && plan'.attested == plan.attested
    requires Work(StartOf(b), plan', maxCalls) == (worked', true) && Finish(worked', plan', maxCalls) == (final', true)
    requires MaySend(final'.client) && after' == SealStep(final'.client, final'.client.count, Some(reply))
             && after'.labels.Some?
    ensures Completed(StartOf(b), plan', names, maxCalls, worked', final', after')
  {
    hide Work, Finish, Receive, Fresh;
    assert SealedBy(final'.client, after');
    forall k | 0 <= k < |names| ensures 1 <= |EventsOf(final'.ledger, names[k])| <= BenchmarkPack.MAX_RECORDS {
      assert |EventsOf(final'.ledger, names[k])| == |EventsOf(final.ledger, names[k])|;
    }
  }

  /** Every log that can be written from the requests of a run is written in some run of the same executor. */
  lemma PossibleLogHappens(b: Bindings, golden: Bytes, plan: Plan, names: seq<string>, maxCalls: nat, worked: Books,
                           final: Books, after: Client, log: seq<Digest>)
    returns (o: Outcome)
    requires GoldenDigest(golden) == b.goldenSha && 0 < |golden| <= MAX_GOLDEN_BYTES
    requires Completed(StartOf(b), plan, names, maxCalls, worked, final, after) && UnforgedPlan(plan)
    requires worked.ledger.calls <= maxCalls
    requires 0 < |log| == final.client.count && PossibleLog(final.client.outbox, log)
    ensures Happens(b, names, maxCalls, o) && SameRequests(plan, final, o) && LogOf(o) == log
  {
    hide Work, Finish, Completed, RunOps, WellAnswered, InPlay, PossibleLog, UnforgedPlan, SameCalls, Talking, Run,
         SealStep, Greeted;
    var start := StartOf(b);
    CompletedSettled(start, plan, names, maxCalls, worked, final, after, log);
    GreetedInPlay(b, log);
    RunAlike(start, plan, log, maxCalls);
    var plan' := ReansweredPlan(start, plan, log, maxCalls);
    ReansweredPlanSame(start, plan, log, maxCalls);
    var worked' := Work(start, plan', maxCalls).0;
    var final' := Finish(worked', plan', maxCalls).0;
    RunOperates(start, plan', maxCalls);
    var steps, w := PlayAll(Greeted(b), b, start.client, RunOps(start, plan', maxCalls), log);
    InPlayEnds(w, b, final'.client, log);
    TalkingBound(w, b, golden);
    var sealing, reply := SealedExchange(w, b, golden);
    GreetingRuns(b);
    var before := Meeting(b)[..4];
    RunAppend(Initial, before, steps);
    RunAppend(Initial, before + steps, sealing);
    var after' := SealStep(final'.client, final'.client.count, Some(reply));
    CompletedAlike(b, plan, plan', names, maxCalls, worked, worked', final, final', after, after', reply, log);
    o := Outcome(plan', worked', final', after', before + steps + sealing);
    SameCallsAttested(plan, plan');
  }

  lemma SameCallsAttested(plan: Plan, other: Plan)
    requires SameCalls(plan, other)
    ensures other.attested == plan.attested
  {
  }

  lemma InPlayEnds(w: World, b: Bindings, c: Client, log: seq<Digest>)
    requires InPlay(w, b, c, log) && |log| == c.count
    ensures Talking(w, b) && w.clients[0] == c && w.collectors[0].log == log
  {
  }

  /** The log of every run that sends these requests is one that can be written from them. */
  lemma OutcomeIsPossible(b: Bindings, names: seq<string>, maxCalls: nat, o: Outcome)
    requires Happens(b, names, maxCalls, o) && UnforgedPlan(o.plan)
    ensures PossibleLog(o.final.client.outbox, LogOf(o)) && 0 < |LogOf(o)| == o.final.client.count
  {
    hide UnforgedPlan, FiledFor, FilterCase;
    var j := FiledLog(StartOf(b), o.plan, names, maxCalls, o.worked, o.final, o.after, o.actions, 0);
    assert j == 0;
    var j' := CountsAgree(StartOf(b), o.plan, names, maxCalls, o.worked, o.final, o.after, o.actions, 0);
    assert j' == 0;
    hide Completed, Linked, Backed;
    RunKeepsBooks(Initial, o.actions);
    assert BooksOk(After(o.actions).collectors[0]);
  }

  /** Exactly which logs the runs of an executor can have, given the requests that one of them sent: the logs that can
      be written from these requests. */
  lemma LogsExactly(b: Bindings, golden: Bytes, plan: Plan, names: seq<string>, maxCalls: nat, worked: Books,
                    final: Books, after: Client, log: seq<Digest>)
    requires GoldenDigest(golden) == b.goldenSha && 0 < |golden| <= MAX_GOLDEN_BYTES
    requires Completed(StartOf(b), plan, names, maxCalls, worked, final, after) && UnforgedPlan(plan)
    requires worked.ledger.calls <= maxCalls
    ensures (exists o :: Happens(b, names, maxCalls, o) && SameRequests(plan, final, o) && LogOf(o) == log)
            <==> 0 < |log| == final.client.count && PossibleLog(final.client.outbox, log)
  {
    hide Completed, Happens, UnforgedPlan, SameCalls, PossibleLog, LogOf;
    if o :| Happens(b, names, maxCalls, o) && SameRequests(plan, final, o) && LogOf(o) == log {
      SameCallsUnforged(plan, o.plan);
      OutcomeIsPossible(b, names, maxCalls, o);
    }
    if 0 < |log| == final.client.count && PossibleLog(final.client.outbox, log) {
      var o := PossibleLogHappens(b, golden, plan, names, maxCalls, worked, final, after, log);
    }
  }

  /** Some entry of the log is for another case than the request that its acknowledgement answers. */
  ghost predicate CrossesCases(outbox: seq<Body>, log: seq<Digest>)
  {
    exists k :: 0 <= k < |log| && log[k].CaptureDigest? && log[k].event.caseId != FiledCase(outbox, k + 1)
  }

  lemma MisfiledCrosses(b: Bindings, names: seq<string>, maxCalls: nat, o: Outcome)
    requires Happens(b, names, maxCalls, o) && UnforgedPlan(o.plan)
    ensures FiledExactly(o) <==> !CrossesCases(o.final.client.outbox, LogOf(o))
  {
    hide UnforgedPlan, FilterCase, FiledCase;
    var j := FilesExactlyIff(StartOf(b), o.plan, names, maxCalls, o.worked, o.final, o.after, o.actions, 0);
    assert j == 0;
    OutcomeIsPossible(b, names, maxCalls, o);
    hide Completed, Backed;
    assert forall k :: 0 <= k < |LogOf(o)| ==> EntryOk(LogOf(o), k);
  }

  /** A log that can be written from all requests of a client, with such an entry. */
  ghost predicate WrongLog(c: Client, log: seq<Digest>)
  {
    |log| == c.count && PossibleLog(c.outbox, log) && CrossesCases(c.outbox, log)
  }

  /** Exactly when a channel can bring about a completed run whose books are wrong, for every executor that forges
      nothing, whatever failures it swallows: when some log that can be written from the requests it sends has an
      entry for another case than the request which that number was used for last. */
  lemma MisfilingExactly(b: Bindings, golden: Bytes, plan: Plan, names: seq<string>, maxCalls: nat, worked: Books,
                         final: Books, after: Client)
    requires GoldenDigest(golden) == b.goldenSha && 0 < |golden| <= MAX_GOLDEN_BYTES
    requires Completed(StartOf(b), plan, names, maxCalls, worked, final, after) && UnforgedPlan(plan)
    requires worked.ledger.calls <= maxCalls
    ensures (exists o :: Happens(b, names, maxCalls, o) && SameRequests(plan, final, o) && !FiledExactly(o))
            <==> exists log :: WrongLog(final.client, log)
  {
    hide Completed, Happens, UnforgedPlan, SameCalls, PossibleLog, LogOf, FiledExactly, CrossesCases;
    if o :| Happens(b, names, maxCalls, o) && SameRequests(plan, final, o) && !FiledExactly(o) {
      SameCallsUnforged(plan, o.plan);
      OutcomeIsPossible(b, names, maxCalls, o);
      MisfiledCrosses(b, names, maxCalls, o);
      assert WrongLog(final.client, LogOf(o));
    }
    if log :| WrongLog(final.client, log) {
      CrossingIsNotEmpty(final.client.outbox, log);
      var o := PossibleLogHappens(b, golden, plan, names, maxCalls, worked, final, after, log);
      SameCallsUnforged(plan, o.plan);
      MisfiledCrosses(b, names, maxCalls, o);
    }
  }

  lemma CrossingIsNotEmpty(outbox: seq<Body>, log: seq<Digest>)
    requires CrossesCases(outbox, log)
    ensures log != []
  {
  }

  // ---- What this means for a failed request followed by another ----

  function ModelOf(body: Body): string
  {
    if EventField in body && body[EventField].EventValue? && !body[EventField].event.MalformedEvent? then
      body[EventField].event.model
    else ""
  }

  function OrdinalOf(body: Body): int
  {
    if EventField in body && body[EventField].EventValue? && !body[EventField].event.MalformedEvent? then
      body[EventField].event.ordinal
    else 0
  }

  function OrdinalTaken(b: Books, model: string): nat
  {
    if model == BGE_IDENTITY then b.bge.ordinal else b.qwen.ordinal
  }

  /** Along the requests, the ordinals of each model grow, and none is beyond the adapter's own. */
  ghost predicate Rising(b: Books)
  {
    && b.client.pending.None?
    && (forall m :: 0 <= m < |b.client.outbox| ==> RisenTo(b, b.client.outbox[m]))
    && (forall m, n :: 0 <= m < n < |b.client.outbox| && ModelOf(b.client.outbox[m]) == ModelOf(b.client.outbox[n]) ==>
          OrdinalOf(b.client.outbox[m]) < OrdinalOf(b.client.outbox[n]))
  }

  ghost predicate RisenTo(b: Books, body: Body)
  {
    ModelOf(body) in {BGE_IDENTITY, QWEN_IDENTITY} && 1 <= OrdinalOf(body) <= OrdinalTaken(b, ModelOf(body))
  }

  lemma RequestModel(c: Client, event: Event, raw: Payload)
    requires MaySend(c) && c.selected.Some? && !event.MalformedEvent?
    ensures var body := CaptureRequestBody(c, event, raw);
      ModelOf(body) == event.model && OrdinalOf(body) == event.ordinal
  {
  }

  lemma ForwardRising(b: Books, n: Books, event: Event, raw: Payload, reply: Option<Wire>, maxCalls: nat)
    requires Rising(b) && EventModelOk(event) && n.client == b.client
    requires event.ordinal == OrdinalTaken(n, event.model) == OrdinalTaken(b, event.model) + 1
    requires OrdinalTaken(b, BGE_IDENTITY) <= OrdinalTaken(n, BGE_IDENTITY)
             && OrdinalTaken(b, QWEN_IDENTITY) <= OrdinalTaken(n, QWEN_IDENTITY)
    ensures Rising(Forward(n, event, raw, reply, maxCalls).0)
  {
    IdentitiesOk();
    CaptureStepCases(b.client, event, raw, reply);
    var d := CaptureStep(b.client, event, raw, reply).0;
    var after := Forward(n, event, raw, reply, maxCalls).0;
    ForwardKeepsAll(n, event, raw, reply, maxCalls);
    hide CaptureStep, Observe, Forward, CaptureRequestBody, ModelOf, OrdinalOf, BGE_IDENTITY, QWEN_IDENTITY;
    if d != b.client {
      RequestModel(b.client, event, raw);
    }
  }

  lemma ForwardKeepsAll(b: Books, event: Event, raw: Payload, reply: Option<Wire>, maxCalls: nat)
    ensures var after := Forward(b, event, raw, reply, maxCalls).0;
      after.qwen == b.qwen && after.bge == b.bge && after.client == CaptureStep(b.client, event, raw, reply).0
  {
    hide CaptureStep, Observe;
  }

  lemma CallRising(b: Books, call: Call, maxCalls: nat)
    requires Rising(b) && !call.ObserveCall?
    ensures Rising(Perform(b, call, maxCalls).0)
  {
    PerformIs(b, call, maxCalls);
    IdentitiesOk();
    NextEventIs(b, call);
    if Reaches(b, call) {
      ForwardRising(b, Taken(b, call), NextEvent(b, call), NextRaw(call), call.reply, maxCalls);
    }
    hide Forward, Perform, NextEvent, NextRaw, ModelOf, OrdinalOf, Reaches, BGE_IDENTITY, QWEN_IDENTITY;
  }

  lemma NextEventIs(b: Books, call: Call)
    requires !call.ObserveCall?
    ensures var event := NextEvent(b, call);
      && EventModelOk(event)
      && event.ordinal == OrdinalTaken(Taken(b, call), event.model) == OrdinalTaken(b, event.model) + 1
    ensures Taken(b, call).client == b.client
  {
    IdentitiesOk();
  }

  lemma SameRising(b: Books, after: Books)
    requires Rising(b) && after.client.outbox == b.client.outbox && after.client.pending.None?
    requires after.bge.ordinal == b.bge.ordinal && after.qwen.ordinal == b.qwen.ordinal
    ensures Rising(after)
  {
    hide ModelOf, OrdinalOf;
  }

  lemma {:induction false} ScriptRising(b: Books, script: seq<Attempt>, maxCalls: nat)
    requires Rising(b) && Unforged(script)
    ensures Rising(RunScript(b, script, maxCalls).0)
    decreases |script|
  {
    hide Rising, Perform;
    if script != [] {
      CallRising(b, script[0].call, maxCalls);
      ScriptRising(Perform(b, script[0].call, maxCalls).0, script[1..], maxCalls);
    }
  }

  lemma {:induction false} PhaseRising(b: Books, visits: seq<Visit>, maxCalls: nat)
    requires Rising(b) && forall k :: 0 <= k < |visits| ==> Unforged(visits[k].script)
    ensures Rising(RunPhase(b, visits, maxCalls).0)
    decreases |visits|
  {
    hide RunScript, Unforged, ModelOf, OrdinalOf;
    if visits != [] && visits[0].onTime {
      SameRising(b, OpenCase(b, visits[0].name));
      ScriptRising(OpenCase(b, visits[0].name), visits[0].script, maxCalls);
      PhaseRising(RunVisit(b, visits[0], maxCalls).0, visits[1..], maxCalls);
    }
  }

  lemma RunRising(start: Books, plan: Plan, maxCalls: nat)
    requires Fresh(start) && UnforgedPlan(plan)
    ensures Rising(Finish(Work(start, plan, maxCalls).0, plan, maxCalls).0)
  {
    hide RunScript, RunPhase, Unforged, ModelOf, OrdinalOf;
    ScriptRising(start, plan.prepare, maxCalls);
    var prepared := RunScript(start, plan.prepare, maxCalls).0;
    PhaseRising(prepared, plan.first, maxCalls);
    var visited := RunPhase(prepared, plan.first, maxCalls).0;
    SameRising(visited, CloseEmbedding(visited));
    PhaseRising(CloseEmbedding(visited), plan.second, maxCalls);
    var worked := Work(start, plan, maxCalls).0;
    var closing := worked.(ledger := worked.ledger.(closed := true));
    SameRising(worked, closing);
    ScriptRising(closing, plan.finalize, maxCalls);
    SameRising(RunScript(closing, plan.finalize, maxCalls).0, Finish(worked, plan, maxCalls).0);
  }

  /** The ordinals of a model in a log leave no gap. */
  lemma {:induction false} OrdinalLogged(log: seq<Digest>, n: nat, model: string, ordinal: nat) returns (j: nat)
    requires n <= |log| && (forall k :: 0 <= k < n ==> EntryOk(log, k)) && 1 <= ordinal <= ModelCount(log[..n], model)
    ensures j < n && log[j].CaptureDigest? && log[j].event.model == model && log[j].event.ordinal == ordinal
    decreases n
  {
    assert log[..n][..n - 1] == log[..n - 1] && log[..n][n - 1] == log[n - 1];
    assert EntryOk(log, n - 1);
    if log[n - 1].event.model == model && log[n - 1].event.ordinal == ordinal {
      j := n - 1;
    } else {
      j := OrdinalLogged(log, n - 1, model, ordinal);
    }
  }

  lemma RecordedFields(body: Body, sequence: int, entry: Digest)
    requires RecordedAs(body, sequence, entry)
    ensures entry.CaptureDigest? && entry.event.model == ModelOf(body) && entry.event.ordinal == OrdinalOf(body)
    ensures Get(body, Sequence) == Some(Number(sequence))
  {
    assert (body - {SessionField, Sequence})[EventField] == body[EventField];
  }

  lemma BackedFields(outbox: seq<Body>, sequence: int, entry: Digest) returns (q: nat)
    requires Backed(outbox, sequence, entry)
    ensures q < |outbox| && RecordedAs(outbox[q], sequence, entry) && Get(outbox[q], Sequence) == Some(Number(sequence))
    ensures entry.CaptureDigest? && entry.event.model == ModelOf(outbox[q])
            && entry.event.ordinal == OrdinalOf(outbox[q])
    ensures entry.event.caseId == CaseOf(outbox[q])
  {
    hide ModelOf, OrdinalOf, CaseOf;
    q :| 0 <= q < |outbox| && RecordedAs(outbox[q], sequence, entry);
    RecordedFields(outbox[q], sequence, entry);
    RecordedCase(outbox[q], sequence, entry);
  }

  lemma SameOrdinalSame(b: Books, m: nat, q: nat)
    requires Rising(b) && m < |b.client.outbox| && q < |b.client.outbox|
    requires ModelOf(b.client.outbox[m]) == ModelOf(b.client.outbox[q])
    requires OrdinalOf(b.client.outbox[m]) == OrdinalOf(b.client.outbox[q])
    ensures m == q
  {
    hide ModelOf, OrdinalOf;
  }

  /** A request is never logged in place of an earlier one of the same model under the same sequence number. */
  lemma LaterNotLogged(b: Books, log: seq<Digest>, s: nat, m: nat, n: nat)
    requires Rising(b) && PossibleLog(b.client.outbox, log) && 1 <= s <= |log|
    requires m < n < |b.client.outbox| && ModelOf(b.client.outbox[m]) == ModelOf(b.client.outbox[n])
    requires Get(b.client.outbox[m], Sequence) == Some(Number(s))
    ensures !RecordedAs(b.client.outbox[n], s, log[s - 1])
  {
    var outbox := b.client.outbox;
    assert RisenTo(b, outbox[m]) && OrdinalOf(outbox[m]) < OrdinalOf(outbox[n]);
    hide ModelOf, OrdinalOf, CaseOf, RecordedAs, Rising, BGE_IDENTITY, QWEN_IDENTITY;
    hide PossibleLog, Get, RisenTo;
    if RecordedAs(outbox[n], s, log[s - 1]) {
      RecordedFields(outbox[n], s, log[s - 1]);
      NextOfModel(outbox, log, s);
      var q := EarlierEntry(outbox, log, s, ModelOf(outbox[m]), OrdinalOf(outbox[m]));
      SameOrdinalSame(b, m, q);
    }
  }

  lemma NextOfModel(outbox: seq<Body>, log: seq<Digest>, s: nat)
    requires PossibleLog(outbox, log) && 1 <= s <= |log| && log[s - 1].CaptureDigest?
    ensures log[s - 1].event.ordinal == ModelCount(log[..s - 1], log[s - 1].event.model) + 1
  {
    assert EntryOk(log, s - 1);
  }

  lemma EarlierEntry(outbox: seq<Body>, log: seq<Digest>, s: nat, model: string, ordinal: nat) returns (q: nat)
    requires PossibleLog(outbox, log) && 1 <= s <= |log| && 1 <= ordinal <= ModelCount(log[..s - 1], model)
    ensures q < |outbox| && ModelOf(outbox[q]) == model && OrdinalOf(outbox[q]) == ordinal
    ensures Get(outbox[q], Sequence) != Some(Number(s))
  {
    hide ModelOf, OrdinalOf, CaseOf, RecordedAs;
    var j := OrdinalLogged(log, s - 1, model, ordinal);
    q := BackedFields(outbox, j + 1, log[j]);
  }

  lemma RetryCrosses(b: Books, log: seq<Digest>, s: nat, m: nat)
    requires Rising(b) && PossibleLog(b.client.outbox, log) && 1 <= s <= |log|
    requires AnsweredBefore(b.client.outbox, s, m)
    ensures CrossesCases(b.client.outbox, log)
  {
    var outbox, n := b.client.outbox, AnsweredAt(b.client.outbox, s);
    LaterNotLogged(b, log, s, m, n);
    assert Backed(outbox, s, log[s - 1]);
    hide ModelOf, OrdinalOf, RecordedAs, CaseOf, Rising, PossibleLog, Backed;
    var p := BackedFields(outbox, s, log[s - 1]);
    assert p != n && p <= n;
    assert log[s - 1].event.caseId != FiledCase(outbox, s);
  }

  /** Request `m` failed under number `s`, the request answered under it is of the same model, and it is for another
      case than every request that failed under the number. */
  ghost predicate AnsweredBefore(outbox: seq<Body>, s: nat, m: nat)
  {
    var n := AnsweredAt(outbox, s);
    && m < n && Get(outbox[m], Sequence) == Some(Number(s)) && ModelOf(outbox[m]) == ModelOf(outbox[n])
    && forall p :: 0 <= p < n && Get(outbox[p], Sequence) == Some(Number(s)) ==> CaseOf(outbox[p]) != CaseOf(outbox[n])
  }

  /** When a swallowed failure is followed by a request of the same model under the same number, for another case
      than every failed one, then no completed run whatever files exactly: the collector accepts only the first of
      them, and its acknowledgement answers the last. */
  lemma SameModelRetryMisfiles(b: Bindings, names: seq<string>, maxCalls: nat, o: Outcome, s: nat, m: nat)
    requires Happens(b, names, maxCalls, o) && UnforgedPlan(o.plan) && 1 <= s <= o.final.client.count
    requires AnsweredBefore(o.final.client.outbox, s, m)
    ensures !FiledExactly(o)
  {
    hide UnforgedPlan, FiledExactly, CrossesCases, PossibleLog, Rising, AnsweredBefore, Happens, LogOf;
    OutcomeIsPossible(b, names, maxCalls, o);
    MisfiledCrosses(b, names, maxCalls, o);
    OutcomeRises(b, names, maxCalls, o);
    RetryCrosses(o.final, LogOf(o), s, m);
  }

  lemma OutcomeRises(b: Bindings, names: seq<string>, maxCalls: nat, o: Outcome)
    requires Happens(b, names, maxCalls, o) && UnforgedPlan(o.plan)
    ensures Rising(o.final)
  {
    hide Work, Finish, SealedBy, UsageOk, Rising, UnforgedPlan;
    RunRising(StartOf(b), o.plan, maxCalls);
  }

  /** It takes the same model: a failed embedding in one case, followed by two generations in another, is such a pair
      too, but no log that can be written from these requests is misfiled. */
  lemma MixedNeedNotMisfile(a: string, c: string, session: Digest, texts: seq<string>, tokens: nat,
                            system: string, user: string, repair: bool, prompt: nat, maximum: nat)
    returns (outbox: seq<Body>)
    requires a != c
    ensures Mixed(outbox)
    ensures forall log :: |log| == 2 && PossibleLog(outbox, log) ==> !CrossesCases(outbox, log)
  {
    var raw := Fields(PromptFields(system, user));
    var first := CaptureBody(CaseDigest(a), EmbeddingEventFor(1, false, texts, tokens), Texts(texts), session, 1);
    var second := CaptureBody(CaseDigest(c), GenerationEventFor(1, repair, system, user, prompt, maximum), raw,
                              session, 1);
    var third := CaptureBody(CaseDigest(c), GenerationEventFor(2, repair, system, user, prompt, maximum), raw,
                             session, 2);
    outbox := [first, second, third];
    IdentitiesOk();
    assert CaseOf(first) == CaseDigest(a) && CaseOf(second) == CaseOf(third) == CaseDigest(c);
    assert ModelOf(first) == BGE_IDENTITY && ModelOf(second) == ModelOf(third) == QWEN_IDENTITY
           && OrdinalOf(third) == 2;
    assert Get(outbox[0], Sequence) == Get(outbox[1], Sequence) && CaseOf(outbox[0]) != CaseOf(outbox[1]);
    hide EmbeddingEventFor, GenerationEventFor, CaseOf, ModelOf, OrdinalOf, PossibleLog, CrossesCases, BGE_IDENTITY,
         QWEN_IDENTITY;
    forall log | |log| == 2 && PossibleLog(outbox, log) ensures !CrossesCases(outbox, log) {
      OtherModelFails(outbox, log);
    }
  }

  /** The first of three requests, alone with its model, cannot be logged: the third would leave a gap. */
  lemma OtherModelFails(outbox: seq<Body>, log: seq<Digest>)
    requires |outbox| == 3 && Get(outbox[0], Sequence) == Get(outbox[1], Sequence) == Some(Number(1))
    requires Get(outbox[2], Sequence) == Some(Number(2)) && CaseOf(outbox[1]) == CaseOf(outbox[2])
    requires ModelOf(outbox[0]) != ModelOf(outbox[1]) == ModelOf(outbox[2]) && OrdinalOf(outbox[2]) == 2
    requires |log| == 2 && PossibleLog(outbox, log)
    ensures !CrossesCases(outbox, log)
  {
    hide RecordedAs, CaseOf, ModelOf, OrdinalOf, PossibleLog, FiledCase, Get, EntryOk, Backed, CrossesCases, AnsweredAt;
    FiledSecond(outbox);
    PossibleTwo(outbox, log);
    var q := BackedFields(outbox, 2, log[1]);
    assert q == 2;
    var p := BackedFields(outbox, 1, log[0]);
    OneBefore(log);
    assert p == 1;
    NeitherCrosses(outbox, log);
  }

  lemma PossibleTwo(outbox: seq<Body>, log: seq<Digest>)
    requires |log| == 2 && PossibleLog(outbox, log)
    ensures EntryOk(log, 1) && Backed(outbox, 1, log[0]) && Backed(outbox, 2, log[1])
  {
    hide EntryOk, Backed;
    assert Backed(outbox, 0 + 1, log[0]) && Backed(outbox, 1 + 1, log[1]);
  }

  lemma NeitherCrosses(outbox: seq<Body>, log: seq<Digest>)
    requires |log| == 2 && log[0].CaptureDigest? && log[1].CaptureDigest?
    requires log[0].event.caseId == FiledCase(outbox, 1) && log[1].event.caseId == FiledCase(outbox, 2)
    ensures !CrossesCases(outbox, log)
  {
    hide FiledCase;
  }

  lemma OneBefore(log: seq<Digest>)
    requires |log| == 2 && EntryOk(log, 1) && log[0].CaptureDigest?
    ensures log[1].CaptureDigest? && (log[1].event.ordinal == 2 ==> log[0].event.model == log[1].event.model)
  {
    assert log[..1] == [log[0]];
    OneEntryCount(log[0], log[1].event.model);
  }

  lemma OneEntryCount(entry: Digest, model: string)
    ensures ModelCount([entry], model) == if entry.CaptureDigest? && entry.event.model == model then 1 else 0
  {
  }

  lemma FiledSecond(outbox: seq<Body>)
    requires |outbox| == 3 && Get(outbox[0], Sequence) == Get(outbox[1], Sequence) == Some(Number(1))
    requires Get(outbox[2], Sequence) == Some(Number(2))
    ensures FiledCase(outbox, 1) == CaseOf(outbox[1]) && FiledCase(outbox, 2) == CaseOf(outbox[2])
  {
    assert AnsweredAt(outbox, 1) == 1 && AnsweredAt(outbox, 2) == 2;
  }
}
