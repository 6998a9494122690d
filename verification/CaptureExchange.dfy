/** One client and one collector in conversation: what a single exchange does to both. */
module CaptureExchange {
  import opened Outcomes
  import opened CaptureFrames
  import opened CaptureProtocol
  import opened CaptureNetwork
  import opened CaptureAgreement
  import opened CaptureReuse

  /** Client 0 and collector 0 hold the session key, the collector serves, and the client waits for nothing. */
  ghost predicate Talking(w: World, b: Bindings)
  {
    && 0 in w.clients && 0 in w.collectors
    && var c, s := w.clients[0], w.collectors[0];
    && MaySend(c) && c.link == Some(Link(SessionId(0), TheKey(b))) && c.bindings == b
    && Serves(s) && s.key == Some(TheKey(b)) && s.session == SessionId(0) && s.bindings == b
    && s.expected == |s.log| + 1
  }

  lemma AcknowledgementTaken(c: Client, event: Event, raw: Payload, entry: Digest)
    requires MaySend(c) && c.selected.Some?
    ensures CaptureStep(c, event, raw, Some(AcknowledgementOf(c, entry)))
            == (c.(outbox := c.outbox + [CaptureRequestBody(c, event, raw)], count := c.count + 1,
                   acked := c.acked + [entry], reused := c.reused || c.failed), Some(entry))
  {
    assert CapturedShape(AcknowledgementOf(c, entry).body);
  }

  /** A request that the client is about to send and the collector would record. */
  ghost predicate WouldRecord(w: World, event: Event, raw: Payload, safe: SafeEvent)
  {
    && 0 in w.clients && 0 in w.collectors
    && var c, s := w.clients[0], w.collectors[0];
    && c.selected.Some? && c.count == |s.log|
    && NormalizeEvent(event, raw, c.selected.value, c.count + 1) == Ok(safe) && Recordable(s, Ok(safe))
  }

  /** The client sends, and the collector records and answers. */
  lemma SendAndRecord(w: World, b: Bindings, event: Event, raw: Payload, safe: SafeEvent)
    returns (v: World)
    requires Talking(w, b) && WouldRecord(w, event, raw, safe)
    ensures var c, s := w.clients[0], w.collectors[0];
      && v == Run(w, [SendCapture(0, event, raw), DeliverRequest(0, RequestWire(c, event, raw), AnyFiles)])
      && 0 in v.clients && v.clients[0] == Sent(c, CaptureRequest, CaptureRequestBody(c, event, raw))
      && 0 in v.collectors && v.collectors[0] == Recorded(s, safe)
      && AcknowledgementOf(c, CaptureDigest(safe)).auth.value in v.tags
  {
    hide NormalizeEvent, Handle, Recorded, CaptureRequestBody;
    var c, s := w.clients[0], w.collectors[0];
    var send, deliver := SendCapture(0, event, raw), DeliverRequest(0, RequestWire(c, event, raw), AnyFiles);
    HandledRequest(c, s, event, raw, safe, AnyFiles);
    var u := Next(w, send);
    v := Next(u, deliver);
    assert [send, deliver][1..] == [deliver] && [deliver][1..] == [];
    assert Run(u, [deliver]) == v;
  }

  /** The client takes an answer, or none. */
  lemma TakeReply(w: World, c: Client, event: Event, raw: Payload, reply: Option<Wire>) returns (v: World)
    requires MaySend(c) && c.selected.Some? && 0 in w.clients
    requires w.clients[0] == Sent(c, CaptureRequest, CaptureRequestBody(c, event, raw))
    requires reply.Some? ==> Deliverable(reply.value, w.tags)
    ensures v == Run(w, [DeliverReply(0, reply)])
    ensures v == w.(clients := w.clients[0 := CaptureStep(c, event, raw, reply).0])
  {
    hide Receive, CaptureRequestBody;
    var last := DeliverReply(0, reply);
    v := Next(w, last);
    assert [last][1..] == [] && Run(w, [last]) == v;
  }

  lemma TakenKeepsTalking(w: World, v: World, b: Bindings, event: Event, raw: Payload, reply: Option<Wire>)
    requires Talking(w, b) && w.clients[0].selected.Some? && 0 in v.clients && 0 in v.collectors
    requires v.clients[0] == CaptureStep(w.clients[0], event, raw, reply).0
    requires v.collectors[0] == w.collectors[0] || exists safe :: v.collectors[0] == Recorded(w.collectors[0], safe)
    ensures Talking(v, b)
  {
    hide ReplyAccepted, CaptureRequestBody;
  }

  lemma SealSent(w: World)
    requires 0 in w.clients && MaySend(w.clients[0])
    ensures var c := w.clients[0];
      Next(w, SendSeal(0, c.count)) == WithRequest(w, 0, c, SealRequest(c.count), SealRequestBody(c, c.count))
  {
  }

  lemma RequestDelivered(w: World, wire: Wire, files: Files)
    requires 0 in w.collectors && Serves(w.collectors[0]) && Deliverable(wire, w.tags)
    ensures Next(w, DeliverRequest(0, wire, files)) == WithStep(w, 0, Handle(w.collectors[0], wire, files))
  {
  }

  lemma ReplyDelivered(w: World, reply: Wire)
    requires 0 in w.clients && Live(w.clients[0]) && w.clients[0].pending.Some? && Deliverable(reply, w.tags)
    ensures Next(w, DeliverReply(0, Some(reply))) == WithClient(w, 0, Receive(w.clients[0], Some(reply)))
  {
  }

  /** The sealed exchange: the client asks, the collector opens the golden file and answers, the client reads. */
  lemma SealedExchange(w: World, b: Bindings, golden: Bytes) returns (steps: seq<Action>, reply: Wire)
    requires Talking(w, b) && 0 < |w.collectors[0].log| == w.clients[0].count
    requires GoldenAdmitted(w.collectors[0], Some(golden))
    ensures var c, v := w.clients[0], Run(w, steps);
      && Linked(v, 0, 0) && v.clients[0] == SealStep(c, c.count, Some(reply)) && v.clients[0].labels.Some?
      && v.collectors[0].log == w.collectors[0].log
  {
    var c, s := w.clients[0], w.collectors[0];
    var files := Files(Some(golden), true);
    var body := SealRequestBody(c, c.count);
    var wire := Wire(body, Some(Mac(c.link.value.key, body)));
    SealedReply(c, s, wire, files);
    hide Handle, SealRequestBody, Receive, SealStep, GoldenAdmitted, Next;
    reply := Handle(s, wire, files).answer.value;
    steps := [SendSeal(0, c.count), DeliverRequest(0, wire, files), DeliverReply(0, Some(reply))];
    SealSent(w);
    var u1 := WithRequest(w, 0, c, SealRequest(c.count), body);
    RequestDelivered(u1, wire, files);
    var u2 := WithStep(u1, 0, Handle(s, wire, files));
    ReplyDelivered(u2, reply);
    var u3 := WithClient(u2, 0, Receive(u2.clients[0], Some(reply)));
    assert steps[1..] == [steps[1], steps[2]] && steps[1..][1..] == [steps[2]];
    assert Run(u2, [steps[2]]) == u3;
  }

  lemma SealedReply(c: Client, s: Collector, wire: Wire, files: Files)
    requires MaySend(c) && Serves(s) && s.key == Some(c.link.value.key) && s.session == c.link.value.session
    requires s.expected == |s.log| + 1 && 0 < |s.log| == c.count
    requires GoldenAdmitted(s, files.golden) && files.evidenceWritable
    requires wire == Wire(SealRequestBody(c, c.count), Some(Mac(c.link.value.key, SealRequestBody(c, c.count))))
    ensures var step := Handle(s, wire, files);
      && step.answer.Some? && step.answer.value.auth.Some? && step.state.log == s.log && step.state.key == s.key
      && var sent := Sent(c, SealRequest(c.count), SealRequestBody(c, c.count));
      && var after := Receive(sent, step.answer);
      after == SealStep(c, c.count, step.answer) && after.labels.Some? && after.link == c.link
  {
    var frame := wire.body - {SessionField, Sequence};
    assert frame.Keys == {Command, ExpectedCount};
    assert RequestAccepted(s, wire);
    var answer := SealedBody(files.golden.value, s.log, s.session, s.expected);
    assert Handle(s, wire, files).answer == Some(Wire(answer, Some(Mac(s.key.value, answer))));
    assert SealedShape(answer, c.count);
  }
}
