/** Bringing about a given log: a channel that delivers just the requests it is computed from, and answers each
    capture with the next entry of the log or not at all. */
module BenchmarkPlay {
  import opened Outcomes
  import opened CaptureFrames
  import opened CaptureProtocol
  import opened CaptureNetwork
  import opened CaptureAgreement
  import opened CaptureReuse
  import opened CaptureExchange
  import opened BenchmarkNetwork

  /** A log that the collector could write from these requests: entry k is computed from a request that was sent
      under sequence k + 1, and each model's ordinals read 1, 2, 3, ... */
  ghost predicate PossibleLog(outbox: seq<Body>, log: seq<Digest>)
  {
    |log| <= MAX_REQUESTS && forall k :: 0 <= k < |log| ==> EntryOk(log, k) && Backed(outbox, k + 1, log[k])
  }

  /** Each capture is answered with the next entry of the log, or not at all. */
  ghost predicate WellAnswered(c: Client, ops: seq<Operation>, log: seq<Digest>)
    decreases |ops|
  {
    ops == [] || (AnsweredFrom(c, ops[0], log) && WellAnswered(Operated(c, ops[0]), ops[1..], log))
  }

  ghost predicate AnsweredFrom(c: Client, op: Operation, log: seq<Digest>)
  {
    match op
    case Choose(_) => true
    case Capturing(_, _, reply) =>
      reply.Some? ==>
        MaySend(c) && c.selected.Some? && c.count < |log| && reply == Some(AcknowledgementOf(c, log[c.count]))
    case Sealing(_, _) => false
  }

  /** No request has a sequence number above the next one. */
  ghost predicate Numbered(c: Client)
  {
    forall body: Body :: body in c.outbox ==>
      Sequence in body && body[Sequence].Number? && body[Sequence].number <= c.count + 1
  }

  lemma OperatedEffect(c: Client, op: Operation, log: seq<Digest>)
    requires c.pending.None? && AnsweredFrom(c, op, log) && c.count == |c.acked|
    ensures var d := Operated(c, op);
      && d.pending.None? && d.link == c.link && d.phase == c.phase && d.bindings == c.bindings && d.count == |d.acked|
      && d.challenge == c.challenge && d.labels == c.labels
      && match op
         case Choose(name) => d == c.(selected := Some(CaseDigest(name)))
         case Capturing(event, raw, reply) =>
           if !MaySend(c) || c.selected.None? then d == c
           else d.outbox == c.outbox + [CaptureRequestBody(c, event, raw)]
                && d.count == c.count + (if reply.Some? then 1 else 0)
         case Sealing(_, _) => true
  {
    if op.Capturing? && op.reply.Some? {
      AcknowledgementTaken(c, op.event, op.raw, log[c.count]);
    }
  }

  lemma NextNumbered(c: Client, event: Event, raw: Payload)
    requires MaySend(c) && c.selected.Some?
    ensures var body := CaptureRequestBody(c, event, raw);
      Sequence in body && body[Sequence] == Number(c.count + 1)
  {
  }

  /** Whatever is asked later is numbered after what was answered. */
  lemma {:induction false} LaterRequests(c: Client, ops: seq<Operation>, log: seq<Digest>)
    requires c.pending.None? && c.count == |c.acked| && WellAnswered(c, ops, log)
    ensures var d := AllOperated(c, ops);
      && c.outbox <= d.outbox && c.count <= d.count
      && forall m :: |c.outbox| <= m < |d.outbox| ==>
           Sequence in d.outbox[m] && d.outbox[m][Sequence].Number? && c.count < d.outbox[m][Sequence].number
    decreases |ops|
  {
    hide AnsweredFrom, Operated, CaptureRequestBody;
    if ops != [] {
      var op, d := ops[0], Operated(c, ops[0]);
      OperatedEffect(c, op, log);
      AnsweredKind(c, op, log);
      LaterRequests(d, ops[1..], log);
      if op.Capturing? && MaySend(c) && c.selected.Some? {
        NextNumbered(c, op.event, op.raw);
      }
    }
  }

  lemma AnsweredKind(c: Client, op: Operation, log: seq<Digest>)
    requires AnsweredFrom(c, op, log)
    ensures !op.Sealing?
    ensures op.Capturing? && op.reply.Some? ==>
              MaySend(c) && c.selected.Some? && c.count < |log| && op.reply == Some(AcknowledgementOf(c, log[c.count]))
  {
  }

  /** The client and the collector while a log is being brought about. */
  ghost predicate InPlay(w: World, b: Bindings, c: Client, log: seq<Digest>)
  {
    && Talking(w, b) && w.clients[0] == c && c.count == |c.acked| && Numbered(c)
    && var s := w.collectors[0];
    && BooksOk(s) && s.log <= log && c.count <= |s.log| <= c.count + 1
    && (|s.log| == c.count < |log| ==> forall body :: body in c.outbox ==> !RecordedAs(body, c.count + 1, log[c.count]))
    && (|s.log| == c.count + 1 ==> AcknowledgementOf(c, log[c.count]).auth.value in w.tags)
  }

  /** A request that the collector records as the next entry of the log. */
  lemma FitsNext(w: World, b: Bindings, c: Client, log: seq<Digest>, event: Event, raw: Payload)
    returns (safe: SafeEvent)
    requires InPlay(w, b, c, log) && c.selected.Some? && |w.collectors[0].log| == c.count < |log| <= MAX_REQUESTS
    requires EntryOk(log, c.count) && RecordedAs(CaptureRequestBody(c, event, raw), c.count + 1, log[c.count])
    ensures WouldRecord(w, event, raw, safe) && log[c.count] == CaptureDigest(safe)
    ensures safe.sequence == c.count + 1 && safe.kind in {Embedding, Query, Generation, Repair}
  {
    hide NormalizeEvent;
    var body := CaptureRequestBody(c, event, raw);
    var frame := body - {SessionField, Sequence};
    assert frame.Keys == {Command, CaseField, EventField, RawPayload};
    assert NormalizeCapture(frame, c.count + 1) == NormalizeEvent(event, raw, c.selected.value, c.count + 1);
    safe := NormalizeEvent(event, raw, c.selected.value, c.count + 1).value;
    assert w.collectors[0].log == log[..c.count];
  }

  lemma JustSent(w: World, b: Bindings, event: Event, raw: Payload) returns (v: World)
    requires Talking(w, b) && w.clients[0].selected.Some?
    ensures v == Run(w, [SendCapture(0, event, raw)]) && v.collectors == w.collectors && w.tags <= v.tags
    ensures var c := w.clients[0];
      0 in v.clients && v.clients[0] == Sent(c, CaptureRequest, CaptureRequestBody(c, event, raw))
  {
    hide CaptureRequestBody;
    var send := SendCapture(0, event, raw);
    v := Next(w, send);
    assert [send][1..] == [] && Run(w, [send]) == v;
  }

  /** A request that is the next entry of the log is delivered, recorded and acknowledged. */
  lemma PresentedNext(w: World, b: Bindings, c: Client, log: seq<Digest>, event: Event, raw: Payload)
    returns (steps: seq<Action>, v: World, safe: SafeEvent)
    requires InPlay(w, b, c, log) && MaySend(c) && c.selected.Some?
             && |w.collectors[0].log| == c.count < |log| <= MAX_REQUESTS
    requires EntryOk(log, c.count) && RecordedAs(CaptureRequestBody(c, event, raw), c.count + 1, log[c.count])
    ensures v == Run(w, steps) && 0 in v.clients && 0 in v.collectors
    ensures v.clients[0] == Sent(c, CaptureRequest, CaptureRequestBody(c, event, raw))
    ensures v.collectors[0] == Recorded(w.collectors[0], safe) && BooksOk(v.collectors[0])
    ensures v.collectors[0].log == log[..c.count + 1]
    ensures AcknowledgementOf(c, log[c.count]).auth.value in v.tags
  {
    hide RecordedAs, EntryOk, CaptureRequestBody, Recorded, Recordable, Run, AcknowledgementOf, BooksOk;
    var s := w.collectors[0];
    safe := FitsNext(w, b, c, log, event, raw);
    v := SendAndRecord(w, b, event, raw, safe);
    steps := [SendCapture(0, event, raw), DeliverRequest(0, RequestWire(c, event, raw), AnyFiles)];
    RecordKeepsBooks(s, safe);
    RecordedLog(s, safe);
    assert s.log + [log[c.count]] == log[..c.count + 1];
  }

  /** The collector's side of a request in play: it is delivered exactly if it is the next entry of the log. */
  lemma Presented(w: World, b: Bindings, c: Client, log: seq<Digest>, event: Event, raw: Payload)
    returns (steps: seq<Action>, v: World)
    requires InPlay(w, b, c, log) && MaySend(c) && c.selected.Some? && |log| <= MAX_REQUESTS
    requires forall k :: 0 <= k < |log| ==> EntryOk(log, k)
    ensures v == Run(w, steps) && 0 in v.clients && 0 in v.collectors
    ensures v.clients[0] == Sent(c, CaptureRequest, CaptureRequestBody(c, event, raw))
    ensures var s, s' := w.collectors[0], v.collectors[0];
      && BooksOk(s') && s'.log <= log && (s' == s || exists safe :: s' == Recorded(s, safe))
      && |s.log| <= |s'.log| <= c.count + 1
      && (|s'.log| == c.count < |log| ==> !RecordedAs(CaptureRequestBody(c, event, raw), c.count + 1, log[c.count]))
      && (|s'.log| == c.count + 1 ==> AcknowledgementOf(c, log[c.count]).auth.value in v.tags)
  {
    hide BooksOk, RecordedAs, EntryOk, CaptureRequestBody, Recorded, AcknowledgementOf, Run;
    var s := w.collectors[0];
    if |s.log| == c.count < |log| && RecordedAs(CaptureRequestBody(c, event, raw), c.count + 1, log[c.count]) {
      var safe;
      steps, v, safe := PresentedNext(w, b, c, log, event, raw);
    } else {
      v := JustSent(w, b, event, raw);
      steps := [SendCapture(0, event, raw)];
    }
  }

  lemma RecordedLog(s: Collector, safe: SafeEvent)
    ensures Recorded(s, safe).log == s.log + [CaptureDigest(safe)]
  {
  }

  /** One capture of the run, answered as the log says. */
  lemma PlayCapture(w: World, b: Bindings, c: Client, ops: seq<Operation>, log: seq<Digest>)
    returns (steps: seq<Action>, v: World)
    requires InPlay(w, b, c, log) && ops != [] && ops[0].Capturing? && c.selected.Some? && c.pending.None?
    requires WellAnswered(c, ops, log) && PossibleLog(AllOperated(c, ops).outbox, log)
    ensures v == Run(w, steps) && InPlay(v, b, Operated(c, ops[0]), log)
  {
    hide RecordedAs, BooksOk, EntryOk, CaptureRequestBody, WellAnswered, CaptureStep, Recorded;
    var op, d := ops[0], Operated(c, ops[0]);
    WellAnsweredFirst(c, ops, log);
    AnsweredKind(c, op, log);
    OperatedEffect(c, op, log);
    NextNumbered(c, op.event, op.raw);
    TalkingSends(w, b);
    var first, u := Presented(w, b, c, log, op.event, op.raw);
    if op.reply.Some? {
      SomeRequestRecorded(c, ops, log);
    }
    var last: seq<Action> := [DeliverReply(0, op.reply)];
    v := TakeReply(u, c, op.event, op.raw, op.reply);
    steps := first + last;
    RunAppend(w, first, last);
    TakenKeepsTalking(w, v, b, op.event, op.raw, op.reply);
    PlayedOn(w, b, c, op, log, v);
  }

  /** When an entry is acknowledged, a request that it can be computed from has been sent. */
  lemma SomeRequestRecorded(c: Client, ops: seq<Operation>, log: seq<Digest>)
    requires ops != [] && ops[0].Capturing? && ops[0].reply.Some? && c.pending.None? && c.count == |c.acked|
    requires WellAnswered(c, ops, log) && PossibleLog(AllOperated(c, ops).outbox, log)
    ensures MaySend(c) && c.selected.Some? && c.count < |log|
    ensures exists body :: body in c.outbox + [CaptureRequestBody(c, ops[0].event, ops[0].raw)]
                           && RecordedAs(body, c.count + 1, log[c.count])
  {
    hide CaptureRequestBody, Operated, AnsweredFrom, EntryOk;
    WellAnsweredFirst(c, ops, log);
    AnsweredKind(c, ops[0], log);
    OperatedEffect(c, ops[0], log);
    var d, last := Operated(c, ops[0]), AllOperated(c, ops);
    LaterRequests(d, ops[1..], log);
    assert Backed(last.outbox, c.count + 1, log[c.count]);
    var m :| 0 <= m < |last.outbox| && RecordedAs(last.outbox[m], c.count + 1, log[c.count]);
    assert Get(last.outbox[m], Sequence) == Some(Number(c.count + 1));
    assert m < |d.outbox|;
    assert last.outbox[m] == d.outbox[m] && d.outbox[m] in d.outbox;
  }

  /** After an exchange everything is in place for the next one. */
  lemma PlayedOn(w: World, b: Bindings, c: Client, op: Operation, log: seq<Digest>, v: World)
    requires InPlay(w, b, c, log) && op.Capturing? && c.selected.Some? && c.pending.None? && AnsweredFrom(c, op, log)
    requires Talking(v, b) && v.clients[0] == Operated(c, op)
    requires var s, s' := w.collectors[0], v.collectors[0];
      && BooksOk(s') && s'.log <= log && |s.log| <= |s'.log| <= c.count + 1
      && (|s'.log| == c.count < |log| ==> !RecordedAs(CaptureRequestBody(c, op.event, op.raw), c.count + 1,
                                                      log[c.count]))
      && (|s'.log| == c.count + 1 ==> AcknowledgementOf(c, log[c.count]).auth.value in v.tags)
    requires op.reply.Some? ==>
               exists body :: body in c.outbox + [CaptureRequestBody(c, op.event, op.raw)]
                              && RecordedAs(body, c.count + 1, log[c.count])
    ensures InPlay(v, b, Operated(c, op), log)
  {
    hide BooksOk, EntryOk, CaptureRequestBody, CaptureStep, AnsweredFrom, Operated;
    var d, body := Operated(c, op), CaptureRequestBody(c, op.event, op.raw);
    var s, s' := w.collectors[0], v.collectors[0];
    OperatedEffect(c, op, log);
    AnsweredKind(c, op, log);
    NextNumbered(c, op.event, op.raw);
    assert forall x :: x in d.outbox <==> x in c.outbox || x == body;
    if op.reply.Some? {
      var some :| some in c.outbox + [body] && RecordedAs(some, c.count + 1, log[c.count]);
      assert |s'.log| == c.count + 1;
      var n := d.count + 1;
      assert forall x, entry :: x in d.outbox ==> !RecordedAs(x, n, entry);
    }
  }

  lemma WellAnsweredFirst(c: Client, ops: seq<Operation>, log: seq<Digest>)
    requires WellAnswered(c, ops, log) && ops != []
    ensures AnsweredFrom(c, ops[0], log) && WellAnswered(Operated(c, ops[0]), ops[1..], log)
  {
  }

  lemma TalkingSends(w: World, b: Bindings)
    requires Talking(w, b)
    ensures MaySend(w.clients[0])
  {
  }

  lemma PlayChoose(w: World, b: Bindings, c: Client, op: Operation, log: seq<Digest>)
    returns (steps: seq<Action>, v: World)
    requires InPlay(w, b, c, log) && op.Choose?
    ensures v == Run(w, steps) && InPlay(v, b, Operated(c, op), log)
  {
    hide BooksOk, RecordedAs;
    var choose := SelectCase(0, op.name);
    steps, v := [choose], Next(w, choose);
    assert steps[1..] == [] && Run(w, steps) == v;
  }

  /** All operations of a run, answered as the log says. */
  lemma {:induction false} PlayAll(w: World, b: Bindings, c: Client, ops: seq<Operation>, log: seq<Digest>)
    returns (steps: seq<Action>, v: World)
    requires InPlay(w, b, c, log) && c.pending.None?
    requires WellAnswered(c, ops, log) && PossibleLog(AllOperated(c, ops).outbox, log)
    ensures v == Run(w, steps) && InPlay(v, b, AllOperated(c, ops), log)
    decreases |ops|
  {
    hide InPlay, Operated, AnsweredFrom, PossibleLog, Next;
    steps, v := [], w;
    if ops != [] {
      var op := ops[0];
      WellAnsweredFirst(c, ops, log);
      AnsweredKind(c, op, log);
      InPlayCounts(w, b, c, log);
      OperatedEffect(c, op, log);
      var first, u := [], w;
      if op.Choose? {
        first, u := PlayChoose(w, b, c, op, log);
      } else if c.selected.Some? {
        first, u := PlayCapture(w, b, c, ops, log);
      }
      var rest;
      rest, v := PlayAll(u, b, Operated(c, op), ops[1..], log);
      steps := first + rest;
      RunAppend(w, first, rest);
    }
  }

  lemma InPlayCounts(w: World, b: Bindings, c: Client, log: seq<Digest>)
    requires InPlay(w, b, c, log)
    ensures c.count == |c.acked| && MaySend(c)
  {
  }
}
