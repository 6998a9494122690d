/** Which completed runs file every logged request under the case it was made for, exactly, for executors that
    may swallow any failure of their calls. */
module BenchmarkFiling {
  import opened Outcomes
  import opened CaptureFrames
  import opened CaptureProtocol
  import opened CaptureNetwork
  import opened CaptureAgreement
  import opened ProviderCalls
  import opened BenchmarkRun
  import opened BenchmarkGuarantees

  // ---- The request that an acknowledgement answered ----

  /** The last request that was sent under a sequence number, or -1: the one whose answer was accepted. */
  function AnsweredAt(outbox: seq<Body>, sequence: int): (m: int)
    ensures -1 <= m < |outbox|
    ensures m >= 0 ==> Get(outbox[m], Sequence) == Some(Number(sequence))
    ensures forall k :: m < k < |outbox| ==> Get(outbox[k], Sequence) != Some(Number(sequence))
  {
    if outbox == [] then -1
    else
      var n := |outbox| - 1;
      if Get(outbox[n], Sequence) == Some(Number(sequence)) then n else AnsweredAt(outbox[..n], sequence)
  }

  /** The case that this request was made for. */
  function FiledCase(outbox: seq<Body>, sequence: int): Digest
  {
    var m := AnsweredAt(outbox, sequence);
    if m >= 0 then CaseOf(outbox[m]) else Arbitrary("")
  }

  /** The acknowledgements that answered requests of one case, in order. */
  function FiledFor(outbox: seq<Body>, acked: seq<Digest>, caseId: Digest): seq<Digest>
  {
    if acked == [] then []
    else
      var n := |acked|;
      FiledFor(outbox, acked[..n - 1], caseId) + (if FiledCase(outbox, n) == caseId then [acked[n - 1]] else [])
  }

  lemma {:induction false} FiledForSent(outbox: seq<Body>, acked: seq<Digest>, body: Body, sequence: int, caseId: Digest)
    requires Get(body, Sequence) == Some(Number(sequence)) && |acked| < sequence
    ensures FiledFor(outbox + [body], acked, caseId) == FiledFor(outbox, acked, caseId)
    decreases |acked|
  {
    if acked != [] {
      FiledForSent(outbox, acked[..|acked| - 1], body, sequence, caseId);
      assert (outbox + [body])[..|outbox|] == outbox;
    }
  }

  lemma FiledForAcked(outbox: seq<Body>, acked: seq<Digest>, body: Body, acknowledgement: Digest, caseId: Digest)
    requires Get(body, Sequence) == Some(Number(|acked| + 1))
    ensures FiledFor(outbox + [body], acked + [acknowledgement], caseId)
            == FiledFor(outbox, acked, caseId) + (if CaseOf(body) == caseId then [acknowledgement] else [])
  {
    FiledForSent(outbox, acked, body, |acked| + 1, caseId);
    assert (acked + [acknowledgement])[..|acked|] == acked;
  }

  // ---- What holds of the books as long as no event is forged ----

  /** Every acknowledgement is filed under the case of the request it answered. */
  ghost predicate Filed(b: Books)
  {
    && |b.client.acked| == b.client.count == b.ledger.calls
    && forall name :: EventsOf(b.ledger, name) == FiledFor(b.client.outbox, b.client.acked, CaseDigest(name))
  }

  ghost predicate SentWithin(c: Client)
  {
    forall body :: body in c.outbox ==>
      CaseOf(body).CaseDigest? && exists n :: 1 <= n <= c.count + 1 && Get(body, Sequence) == Some(Number(n))
  }

  /** An acknowledgement that was not filed shows in the counts for good. */
  ghost predicate Booked(b: Books, maxCalls: nat)
  {
    && b.client.pending.None? && SameCase(b) && SentWithin(b.client)
    && b.ledger.calls <= b.client.count
    && (b.ledger.calls == b.client.count && b.ledger.calls <= maxCalls ==> Filed(b))
  }

  /** What one capture does to the client: nothing, or one more request, answered or not. */
  lemma CaptureStepCases(c: Client, event: Event, raw: Payload, reply: Option<Wire>)
    requires c.pending.None?
    ensures var (d, acknowledgement) := CaptureStep(c, event, raw, reply);
      && d.pending.None? && d.selected == c.selected
      && (d != c ==> MaySend(c) && c.selected.Some? && d.outbox == c.outbox + [CaptureRequestBody(c, event, raw)])
      && (acknowledgement.None? ==> d.acked == c.acked && c.count <= d.count <= c.count + 1)
      && (acknowledgement.Some? ==> d != c && d.count == c.count + 1 && d.acked == c.acked + [acknowledgement.value])
  {
    var (d, acknowledgement) := CaptureStep(c, event, raw, reply);
    if acknowledgement.Some? {
      assert d.outbox != c.outbox;
    }
  }

  lemma RequestFields(c: Client, event: Event, raw: Payload)
    requires MaySend(c) && c.selected.Some?
    ensures var body := CaptureRequestBody(c, event, raw);
      CaseOf(body) == c.selected.value && Get(body, Sequence) == Some(Number(c.count + 1))
  {
  }

  lemma SentOneMore(c: Client, d: Client, event: Event, raw: Payload)
    requires SentWithin(c) && MaySend(c) && c.selected.Some? && c.selected.value.CaseDigest?
    requires d.outbox == c.outbox + [CaptureRequestBody(c, event, raw)] && c.count <= d.count
    ensures SentWithin(d)
  {
    RequestFields(c, event, raw);
    hide CaptureRequestBody, CaseOf;
    forall body | body in d.outbox
      ensures CaseOf(body).CaseDigest? && exists n :: 1 <= n <= d.count + 1 && Get(body, Sequence) == Some(Number(n))
    {
      if body in c.outbox {
        var n :| 1 <= n <= c.count + 1 && Get(body, Sequence) == Some(Number(n));
        assert n <= d.count + 1;
      } else {
        assert Get(body, Sequence) == Some(Number(c.count + 1));
      }
    }
  }

  /** A request that was lost is filed nowhere, and takes no filed one away. */
  lemma LostIsNotFiled(b: Books, after: Books, event: Event, raw: Payload)
    requires Filed(b) && MaySend(b.client) && b.client.selected.Some?
    requires after.ledger == b.ledger && after.client.acked == b.client.acked && after.client.count == b.client.count
    requires after.client.outbox == b.client.outbox + [CaptureRequestBody(b.client, event, raw)]
    ensures Filed(after)
  {
    var c, body := b.client, CaptureRequestBody(b.client, event, raw);
    RequestFields(c, event, raw);
    hide FiledFor;
    forall name ensures EventsOf(after.ledger, name) == FiledFor(after.client.outbox, c.acked, CaseDigest(name)) {
      FiledForSent(c.outbox, c.acked, body, c.count + 1, CaseDigest(name));
    }
  }

  lemma ObservedIsFiled(b: Books, after: Books, event: Event, raw: Payload, acknowledgement: Digest, maxCalls: nat)
    requires Filed(b) && SameCase(b) && MaySend(b.client) && b.client.selected.Some?
    requires Observe(b.ledger, LedgerEvent(event, Some(acknowledgement)), maxCalls) == (after.ledger, true)
    requires after.client.count == b.client.count + 1 && after.client.acked == b.client.acked + [acknowledgement]
    requires after.client.outbox == b.client.outbox + [CaptureRequestBody(b.client, event, raw)]
    ensures Filed(after)
  {
    var c, body := b.client, CaptureRequestBody(b.client, event, raw);
    RequestFields(c, event, raw);
    hide FiledFor, CaseOf, LedgerAdmits;
    forall name ensures EventsOf(after.ledger, name) == FiledFor(after.client.outbox, after.client.acked, CaseDigest(name)) {
      FiledForAcked(c.outbox, c.acked, body, acknowledgement, CaseDigest(name));
    }
  }

  lemma ForwardBooked(b: Books, event: Event, raw: Payload, reply: Option<Wire>, maxCalls: nat)
    requires Booked(b, maxCalls)
    ensures Booked(Forward(b, event, raw, reply, maxCalls).0, maxCalls)
  {
    hide CaptureStep, Filed, SentWithin, CaptureRequestBody, LedgerAdmits;
    var c := b.client;
    CaptureStepCases(c, event, raw, reply);
    var (d, acknowledgement) := CaptureStep(c, event, raw, reply);
    var (after, forwarded) := Forward(b, event, raw, reply, maxCalls);
    assert acknowledgement.None? || acknowledgement.Some?;
    if d != c {
      SentOneMore(c, d, event, raw);
      if b.ledger.calls == c.count && c.count <= maxCalls {
        if acknowledgement.None? && d.count == c.count {
          LostIsNotFiled(b, after, event, raw);
        } else if acknowledgement.Some? && forwarded {
          ObservedIsFiled(b, after, event, raw, acknowledgement.value, maxCalls);
        }
      }
    } else {
      BookedSame(b, after, maxCalls);
    }
  }

  /** Only ledger, client and the selected case matter. */
  lemma BookedSame(b: Books, after: Books, maxCalls: nat)
    requires Booked(b, maxCalls) && after.client == b.client
    requires after.ledger == b.ledger.(closed := after.ledger.closed)
    ensures Booked(after, maxCalls)
  {
    assert forall name :: EventsOf(after.ledger, name) == EventsOf(b.ledger, name);
  }

  lemma SelectBooked(b: Books, name: string, maxCalls: nat)
    requires Booked(b, maxCalls)
    ensures Booked(OpenCase(b, name), maxCalls)
  {
    var after := OpenCase(b, name);
    assert forall n :: EventsOf(after.ledger, n) == EventsOf(b.ledger, n);
  }

  lemma PerformBooked(b: Books, call: Call, maxCalls: nat)
    requires Booked(b, maxCalls) && !call.ObserveCall?
    ensures Booked(Perform(b, call, maxCalls).0, maxCalls)
  {
    hide Booked, Forward, EmbeddingEventFor, GenerationEventFor, TextsOk, PromptOk;
    if call.EmbedCall? {
      var counted := b.(bge := Counted(b.bge, call.query, call.tokens));
      var numbered := counted.(bge := counted.bge.(ordinal := b.bge.ordinal + 1));
      BookedSame(b, counted, maxCalls);
      BookedSame(b, numbered, maxCalls);
      ForwardBooked(numbered, EmbeddingEventFor(b.bge.ordinal + 1, call.query, call.texts, call.tokens),
                    Texts(call.texts), call.reply, maxCalls);
    } else {
      var numbered := b.(qwen := b.qwen.(ordinal := b.qwen.ordinal + 1));
      BookedSame(b, numbered, maxCalls);
      var event := GenerationEventFor(b.qwen.ordinal + 1, call.repair, call.system, call.user, call.promptTokens,
                                      call.maximumOutput);
      var raw := Fields(PromptFields(call.system, call.user));
      ForwardBooked(numbered, event, raw, call.reply, maxCalls);
      var forwarded := Forward(numbered, event, raw, call.reply, maxCalls).0;
      BookedSame(forwarded, Perform(b, call, maxCalls).0.(ledger := forwarded.ledger, client := forwarded.client), maxCalls);
    }
  }

  /** The executor may swallow failures, but does not call the observer itself. */
  predicate Unforged(script: seq<Attempt>)
  {
    forall k :: 0 <= k < |script| ==> !script[k].call.ObserveCall?
  }

  predicate UnforgedPlan(plan: Plan)
  {
    && Unforged(plan.prepare) && Unforged(plan.finalize)
    && (forall k :: 0 <= k < |plan.first| ==> Unforged(plan.first[k].script))
    && (forall k :: 0 <= k < |plan.second| ==> Unforged(plan.second[k].script))
  }

  lemma {:induction false} ScriptBooked(b: Books, script: seq<Attempt>, maxCalls: nat)
    requires Booked(b, maxCalls) && Unforged(script)
    ensures Booked(RunScript(b, script, maxCalls).0, maxCalls)
    decreases |script|
  {
    hide Booked, Perform;
    if script != [] {
      PerformBooked(b, script[0].call, maxCalls);
      ScriptBooked(Perform(b, script[0].call, maxCalls).0, script[1..], maxCalls);
    }
  }

  lemma {:induction false} PhaseBooked(b: Books, visits: seq<Visit>, maxCalls: nat)
    requires Booked(b, maxCalls) && forall k :: 0 <= k < |visits| ==> Unforged(visits[k].script)
    ensures Booked(RunPhase(b, visits, maxCalls).0, maxCalls)
    decreases |visits|
  {
    hide Booked, RunScript, OpenCase, Unforged;
    if visits != [] && visits[0].onTime {
      SelectBooked(b, visits[0].name, maxCalls);
      ScriptBooked(OpenCase(b, visits[0].name), visits[0].script, maxCalls);
      PhaseBooked(RunVisit(b, visits[0], maxCalls).0, visits[1..], maxCalls);
    }
  }

  lemma FreshBooked(b: Books, maxCalls: nat)
    requires Fresh(b)
    ensures Booked(b, maxCalls)
  {
  }

  lemma RunBooked(start: Books, plan: Plan, maxCalls: nat)
    requires Fresh(start) && UnforgedPlan(plan)
    ensures var worked := Work(start, plan, maxCalls).0; Booked(Finish(worked, plan, maxCalls).0, maxCalls)
  {
    FreshBooked(start, maxCalls);
    hide Booked, RunScript, RunPhase, Fresh, Unforged;
    ScriptBooked(start, plan.prepare, maxCalls);
    var prepared := RunScript(start, plan.prepare, maxCalls).0;
    PhaseBooked(prepared, plan.first, maxCalls);
    var visited := RunPhase(prepared, plan.first, maxCalls).0;
    BookedSame(visited, CloseEmbedding(visited), maxCalls);
    PhaseBooked(CloseEmbedding(visited), plan.second, maxCalls);
    var worked := Work(start, plan, maxCalls).0;
    var closing := worked.(ledger := worked.ledger.(closed := true));
    BookedSame(worked, closing, maxCalls);
    ScriptBooked(closing, plan.finalize, maxCalls);
    BookedSame(RunScript(closing, plan.finalize, maxCalls).0, Finish(worked, plan, maxCalls).0, maxCalls);
  }

  // ---- Comparing the ledger with the log ----

  lemma {:induction false} FilteredSame(outbox: seq<Body>, log: seq<Digest>, caseId: Digest)
    requires forall k :: 0 <= k < |log| ==> log[k].CaptureDigest? && log[k].event.caseId == FiledCase(outbox, k + 1)
    ensures FiledFor(outbox, log, caseId) == FilterCase(log, caseId)
    decreases |log|
  {
    hide FiledCase;
    if log != [] {
      FilteredSame(outbox, log[..|log| - 1], caseId);
    }
  }

  lemma {:induction false} FiledHas(outbox: seq<Body>, acked: seq<Digest>, k: nat)
    requires k < |acked|
    ensures acked[k] in FiledFor(outbox, acked, FiledCase(outbox, k + 1))
    decreases |acked|
  {
    hide FiledCase;
    if k < |acked| - 1 {
      FiledHas(outbox, acked[..|acked| - 1], k);
    }
  }

  lemma {:induction false} FilteredNames(log: seq<Digest>, caseId: Digest)
    ensures forall entry :: entry in FilterCase(log, caseId) ==> entry.CaptureDigest? && entry.event.caseId == caseId
    decreases |log|
  {
    if log != [] {
      FilteredNames(log[..|log| - 1], caseId);
    }
  }

  /** What a completed run without forged events has in common with the log of its collector. */
  lemma FiledLog(start: Books, plan: Plan, names: seq<string>, maxCalls: nat, worked: Books, final: Books,
                 after: Client, actions: seq<Action>, i: nat)
    returns (j: nat)
    requires Completed(start, plan, names, maxCalls, worked, final, after) && UnforgedPlan(plan)
    requires worked.ledger.calls <= maxCalls
    requires i in After(actions).clients && After(actions).clients[i] == after
    ensures Linked(After(actions), i, j) && After(actions).collectors[j].phase.Sealed?
    ensures var log, outbox := After(actions).collectors[j].log, final.client.outbox;
      && log == final.client.acked && after.outbox == outbox + [SealRequestBody(final.client, final.client.count)]
      && SentWithin(final.client)
      && (forall name :: EventsOf(final.ledger, name) == FiledFor(outbox, log, CaseDigest(name)))
      && (forall k :: 0 <= k < |log| ==> log[k].CaptureDigest? && Backed(outbox, k + 1, log[k]))
  {
    hide Inv, Work, Finish, Sound, SealedBy, RecordedAs, UsageOk;
    LabelsMeanSealed(actions, i);
    j := after.link.value.session.collector;
    var log := After(actions).collectors[j].log;
    SealedCounts(start, plan, names, maxCalls, worked, final, after);
    LedgerUnmoved(worked, plan, maxCalls);
    RunBooked(start, plan, maxCalls);
    var k := LogAgreesWithClient(actions, j);
    PairingIsInjective(actions, i, k, j, j);
    forall n | 0 <= n < |log| ensures log[n].CaptureDigest? && Backed(final.client.outbox, n + 1, log[n]) {
      assert Backed(after.outbox, n + 1, log[n]);
      BackedByCapture(final.client, n + 1, log[n]);
    }
  }

  lemma BackedByCapture(c: Client, sequence: int, entry: Digest)
    requires MaySend(c) && Backed(c.outbox + [SealRequestBody(c, c.count)], sequence, entry)
    ensures entry.CaptureDigest? && Backed(c.outbox, sequence, entry)
  {
    var sent := c.outbox + [SealRequestBody(c, c.count)];
    var m :| 0 <= m < |sent| && RecordedAs(sent[m], sequence, entry);
    assert m < |c.outbox| && RecordedAs(c.outbox[m], sequence, entry);
  }

  lemma FiledCaseIsDigest(c: Client, entry: Digest, sequence: int)
    requires SentWithin(c) && Backed(c.outbox, sequence, entry)
    ensures FiledCase(c.outbox, sequence).CaseDigest?
  {
    var m :| 0 <= m < |c.outbox| && RecordedAs(c.outbox[m], sequence, entry);
    var n := AnsweredAt(c.outbox, sequence);
    assert n >= m;
    assert c.outbox[n] in c.outbox;
  }

  /** Exactly when a completed run files every logged request under the case it was made for: when each log entry
      names the case of the request that its acknowledgement answered. */
  lemma FilesExactlyIff(start: Books, plan: Plan, names: seq<string>, maxCalls: nat, worked: Books, final: Books,
                        after: Client, actions: seq<Action>, i: nat)
    returns (j: nat)
    requires Completed(start, plan, names, maxCalls, worked, final, after) && UnforgedPlan(plan)
    requires worked.ledger.calls <= maxCalls
    requires i in After(actions).clients && After(actions).clients[i] == after
    ensures Linked(After(actions), i, j) && After(actions).collectors[j].phase.Sealed?
    ensures var log := After(actions).collectors[j].log;
      (forall name :: EventsOf(final.ledger, name) == FilterCase(log, CaseDigest(name)))
      <==> forall k :: 0 <= k < |log| ==>
             log[k].CaptureDigest? && log[k].event.caseId == FiledCase(final.client.outbox, k + 1)
  {
    hide Completed, UnforgedPlan, FiledCase, FiledFor, FilterCase;
    j := FiledLog(start, plan, names, maxCalls, worked, final, after, actions, i);
    var log, outbox := After(actions).collectors[j].log, final.client.outbox;
    hide SentWithin, Backed;
    if forall name :: EventsOf(final.ledger, name) == FilterCase(log, CaseDigest(name)) {
      forall k | 0 <= k < |log| ensures log[k].event.caseId == FiledCase(outbox, k + 1) {
        FiledCaseIsDigest(final.client, log[k], k + 1);
        var name := FiledCase(outbox, k + 1).caseId;
        FiledHas(outbox, log, k);
        FilteredNames(log, CaseDigest(name));
        assert EventsOf(final.ledger, name) == FilterCase(log, CaseDigest(name));
      }
    }
    if forall k :: 0 <= k < |log| ==> log[k].event.caseId == FiledCase(outbox, k + 1) {
      forall name ensures EventsOf(final.ledger, name) == FilterCase(log, CaseDigest(name)) {
        FilteredSame(outbox, log, CaseDigest(name));
      }
    }
  }

  /** Two requests under one sequence number for different cases: one failed in a case and the next one of the
      client was made for another case. */
  ghost predicate Mixed(outbox: seq<Body>)
  {
    exists m, n :: 0 <= m < n < |outbox| && Get(outbox[m], Sequence) == Get(outbox[n], Sequence)
                   && CaseOf(outbox[m]) != CaseOf(outbox[n])
  }

  /** A misfiled request is the earlier one of such a pair: it was logged, and its late acknowledgement answered
      the later one. */
  lemma MisfiledWasMixed(outbox: seq<Body>, sequence: int, entry: Digest)
    requires Backed(outbox, sequence, entry) && entry.CaptureDigest? && entry.event.caseId != FiledCase(outbox, sequence)
    ensures exists m :: 0 <= m < AnsweredAt(outbox, sequence) && RecordedAs(outbox[m], sequence, entry)
                        && Get(outbox[m], Sequence) == Get(outbox[AnsweredAt(outbox, sequence)], Sequence)
                        && CaseOf(outbox[m]) != CaseOf(outbox[AnsweredAt(outbox, sequence)])
  {
    var m :| 0 <= m < |outbox| && RecordedAs(outbox[m], sequence, entry);
    var n := AnsweredAt(outbox, sequence);
    RecordedCase(outbox[m], sequence, entry);
    assert Get(outbox[m], Sequence) == Some(Number(sequence));
    hide RecordedAs, CaseOf;
    assert m <= n;
  }

  /** An executor may swallow what it likes: as long as no failed request is followed by one of another case, every
      completed run files every request exactly, whatever the channel did. */
  lemma UnmixedRunFilesExactly(start: Books, plan: Plan, names: seq<string>, maxCalls: nat, worked: Books, final: Books,
                               after: Client, actions: seq<Action>, i: nat)
    returns (j: nat)
    requires Completed(start, plan, names, maxCalls, worked, final, after) && UnforgedPlan(plan)
    requires worked.ledger.calls <= maxCalls && !Mixed(final.client.outbox)
    requires i in After(actions).clients && After(actions).clients[i] == after
    ensures Linked(After(actions), i, j) && After(actions).collectors[j].phase.Sealed?
    ensures forall name :: EventsOf(final.ledger, name) == FilterCase(After(actions).collectors[j].log, CaseDigest(name))
  {
    hide Completed, UnforgedPlan, FiledCase, FilterCase;
    j := FilesExactlyIff(start, plan, names, maxCalls, worked, final, after, actions, i);
    var j' := FiledLog(start, plan, names, maxCalls, worked, final, after, actions, i);
    assert j' == j;
    var log, outbox := After(actions).collectors[j].log, final.client.outbox;
    hide RecordedAs, Backed, CaseOf, Linked, Get;
    forall k | 0 <= k < |log| ensures log[k].event.caseId == FiledCase(outbox, k + 1) {
      if log[k].event.caseId != FiledCase(outbox, k + 1) {
        MisfiledWasMixed(outbox, k + 1, log[k]);
      }
    }
  }

  // ---- On a stream that loses no frame ----

  lemma SealedByTurn(c: Collector, wire: Wire, files: Files)
    requires Serves(c) && !Handle(c, wire, files).state.phase.Aborted?
    ensures Get(wire.body, Sequence) == Some(Number(c.expected))
    ensures var d := Handle(c, wire, files).state;
      && (d.phase.Sealed? ==> Get(wire.body, Command) == Some(Text("seal")))
      && (!d.phase.Sealed? ==> Serves(d) && d.expected == c.expected + 1 && Get(wire.body, Command) == Some(Text("capture")))
  {
    hide NormalizeCapture;
  }

  /** A collector that sealed a stream took its frames one by one, each under the next sequence number, up to
      the first request to seal. */
  lemma {:induction false} SealedStream(c: Collector, frames: seq<Wire>, files: Files) returns (n: nat)
    requires Serves(c) && ServeAll(c, frames, files).0.phase.Sealed?
    ensures n < |frames| && Get(frames[n].body, Command) == Some(Text("seal"))
    ensures forall k :: 0 <= k <= n ==> Get(frames[k].body, Sequence) == Some(Number(c.expected + k))
    ensures forall k :: 0 <= k < n ==> Get(frames[k].body, Command) == Some(Text("capture"))
    decreases |frames|
  {
    hide Handle;
    n := 0;
    if frames != [] {
      SealedByTurn(c, frames[0], files);
      var d := Handle(c, frames[0], files).state;
      if !d.phase.Sealed? {
        var rest := SealedStream(d, frames[1..], files);
        n := rest + 1;
      }
    }
  }

  /** On a stream that delivers every frame in order, a second frame under the same sequence number ends the
      collector: every completed run files every request exactly, whatever the executor swallowed. */
  lemma StreamedRunFilesExactly(start: Books, plan: Plan, names: seq<string>, maxCalls: nat, worked: Books, final: Books,
                                after: Client, actions: seq<Action>, i: nat, j: nat,
                                listening: Collector, frames: seq<Wire>, files: Files)
    requires Completed(start, plan, names, maxCalls, worked, final, after) && UnforgedPlan(plan)
    requires worked.ledger.calls <= maxCalls
    requires Linked(After(actions), i, j) && After(actions).clients[i] == after
    requires Serves(listening) && After(actions).collectors[j] == ServeAll(listening, frames, files).0
    requires |frames| == |after.outbox| && forall k :: 0 <= k < |frames| ==> frames[k].body == after.outbox[k]
    ensures forall name :: EventsOf(final.ledger, name) == FilterCase(After(actions).collectors[j].log, CaseDigest(name))
  {
    hide Completed, UnforgedPlan, ServeAll, FilterCase;
    var j' := FiledLog(start, plan, names, maxCalls, worked, final, after, actions, i);
    assert j' == j;
    var n := SealedStream(listening, frames, files);
    var outbox := final.client.outbox;
    RunSendsCaptures(start, plan, names, maxCalls, worked, final, after);
    assert forall k :: 0 <= k < |outbox| ==> outbox[k] in outbox && frames[k].body == outbox[k];
    hide CaseOf, SentWithin, Backed;
    forall k | 0 <= k < |outbox| ensures Get(outbox[k], Sequence) == Some(Number(listening.expected + k)) {
      assert k < n;
    }
    assert !Mixed(outbox);
    var j'' := UnmixedRunFilesExactly(start, plan, names, maxCalls, worked, final, after, actions, i);
    assert j'' == j;
  }

  lemma RunSendsCaptures(start: Books, plan: Plan, names: seq<string>, maxCalls: nat, worked: Books, final: Books,
                         after: Client)
    requires Completed(start, plan, names, maxCalls, worked, final, after)
    ensures forall body :: body in final.client.outbox ==> Get(body, Command) == Some(Text("capture"))
  {
    hide Work, Finish, SealedBy, UsageOk;
    SealedCounts(start, plan, names, maxCalls, worked, final, after);
  }
}
