/** Using a client again after a failed request: the next request reuses the sequence number of the
    lost one, so the log need not record the requests in the order they were sent, and an
    acknowledgement need not belong to the request it answers. */
module CaptureReuse {
  import opened Outcomes
  import opened CaptureFrames
  import opened CaptureProtocol
  import opened CaptureNetwork
  import opened CaptureAgreement

  const TheKey := (b: Bindings) => SessionKey(ClientChallenge(0), ServerChallenge(0), SessionId(0), b)
  const AnyFiles := Files(None, false)

  function FirstBody(event: Event, raw: Payload): Body
  {
    CaptureBody(CaseDigest("case"), event, raw, SessionId(0), 1)
  }

  /** One client and one collector meet over a channel that behaves. */
  function Meeting(b: Bindings): seq<Action>
  {
    [StartCollector(0, b), StartClient(0, b),
     DeliverHello(0, HelloWire(NewClient(ClientChallenge(0), b))),
     DeliverReady(0, ReadyWire(NewCollector(0, b), ClientChallenge(0))),
     SelectCase(0, "case")]
  }

  /** The first request times out, and the same client object sends a second one. */
  function Retry(e1: Event, raw1: Payload, e2: Event, raw2: Payload): seq<Action>
  {
    [SendCapture(0, e1, raw1), DeliverReply(0, None), SendCapture(0, e2, raw2)]
  }

  function Met(b: Bindings): World
  {
    var c := NewClient(ClientChallenge(0), b).(phase := Connected, link := Some(Link(SessionId(0), TheKey(b))),
                                              selected := Some(CaseDigest("case")));
    var s := NewCollector(0, b).(phase := Serving, key := Some(TheKey(b)));
    World(map[0 := c], map[0 := s],
          AnswerTag(Some(HelloWire(NewClient(ClientChallenge(0), b))))
          + AnswerTag(Some(ReadyWire(NewCollector(0, b), ClientChallenge(0)))))
  }

  function Retried(b: Bindings, e1: Event, raw1: Payload, e2: Event, raw2: Payload): World
  {
    var w := Met(b);
    var c := w.clients[0].(pending := Some(CaptureRequest), outbox := [FirstBody(e1, raw1), FirstBody(e2, raw2)],
                           failed := true, reused := true);
    World(map[0 := c], w.collectors,
          w.tags + {Mac(TheKey(b), FirstBody(e1, raw1))} + {Mac(TheKey(b), FirstBody(e2, raw2))})
  }

  /** The world once the client has been welcomed but has not read the answer yet. */
  function Welcomed(b: Bindings): World
  {
    Met(b).(clients := map[0 := NewClient(ClientChallenge(0), b)])
  }

  lemma WelcomeRuns(b: Bindings)
    ensures Run(Initial, Meeting(b)[..3]) == Welcomed(b)
  {
    var m := Meeting(b)[..3];
    var w1 := Next(Initial, m[0]);
    var w2 := Next(w1, m[1]);
    assert w2.clients == map[0 := NewClient(ClientChallenge(0), b)];
    assert HelloAccepted(w2.collectors[0], m[2].wire);
    var w3 := Next(w2, m[2]);
    assert w3.clients == map[0 := NewClient(ClientChallenge(0), b)];
    assert w3.collectors == Met(b).collectors;
    assert w3.tags == Met(b).tags;
    assert w3 == Welcomed(b);
    assert m[1..] == [m[1], m[2]] && m[1..][1..] == [m[2]];
    assert Run(w2, [m[2]]) == w3;
  }

  /** The world once both hold the session key, before a case is selected. */
  function Greeted(b: Bindings): World
  {
    Met(b).(clients := map[0 := Met(b).clients[0].(selected := None)])
  }

  lemma GreetingRuns(b: Bindings)
    ensures After(Meeting(b)[..4]) == Greeted(b)
  {
    var m := Meeting(b);
    WelcomeRuns(b);
    RunAppend(Initial, m[..3], [m[3]]);
    assert m[..4] == m[..3] + [m[3]];
    var w3 := Welcomed(b);
    assert ReadyAccepted(w3.clients[0], m[3].wire);
    var w4 := Next(w3, m[3]);
    assert w4.clients == Greeted(b).clients;
    assert [m[3]][1..] == [] && Run(w3, [m[3]]) == w4;
  }

  lemma MeetingRuns(b: Bindings)
    ensures After(Meeting(b)) == Met(b)
  {
    var m := Meeting(b);
    GreetingRuns(b);
    RunAppend(Initial, m[..4], [m[4]]);
    assert m[..4] + [m[4]] == m;
    var w5 := Next(Greeted(b), m[4]);
    assert w5.clients == Met(b).clients;
    assert [m[4]][1..] == [] && Run(Greeted(b), [m[4]]) == w5;
  }

  lemma RetryRuns(b: Bindings, e1: Event, raw1: Payload, e2: Event, raw2: Payload)
    ensures Run(Met(b), Retry(e1, raw1, e2, raw2)) == Retried(b, e1, raw1, e2, raw2)
  {
    var w0 := Met(b);
    var r := Retry(e1, raw1, e2, raw2);
    var w1 := Next(w0, r[0]);
    var w2 := Next(w1, r[1]);
    var w3 := Next(w2, r[2]);
    assert w3.clients[0].outbox == [FirstBody(e1, raw1), FirstBody(e2, raw2)];
    assert w3.clients == map[0 := w3.clients[0]];
    assert w3 == Retried(b, e1, raw1, e2, raw2);
    assert r[1..] == [r[1], r[2]] && r[1..][1..] == [r[2]];
    assert Run(w2, [r[2]]) == w3;
  }

  lemma FirstBodyRecorded(event: Event, raw: Payload)
    requires NormalizeEvent(event, raw, CaseDigest("case"), 1).Ok?
    ensures RecordedAs(FirstBody(event, raw), 1,
                       CaptureDigest(NormalizeEvent(event, raw, CaseDigest("case"), 1).value))
  {
    var frame := FirstBody(event, raw) - {SessionField, Sequence};
    assert frame.Keys == {Command, CaseField, EventField, RawPayload};
  }

  lemma FirstAccepted(b: Bindings, s: Collector, e: Event, raw: Payload)
    requires s == Met(b).collectors[0]
    ensures RequestAccepted(s, Wire(FirstBody(e, raw), Some(Mac(TheKey(b), FirstBody(e, raw)))))
    ensures Serves(s) && s.log == [] && s.expected == 1 && s.ordinals == map[]
    ensures FirstBody(e, raw)[Command] == Text("capture")
  {
  }

  lemma FirstFrame(e: Event, raw: Payload)
    ensures var frame := FirstBody(e, raw) - {SessionField, Sequence};
      && Get(frame, Command) == Some(Text("capture"))
      && NormalizeCapture(frame, 1) == NormalizeEvent(e, raw, CaseDigest("case"), 1)
  {
    hide NormalizeEvent;
    var frame := FirstBody(e, raw) - {SessionField, Sequence};
    assert frame.Keys == {Command, CaseField, EventField, RawPayload};
  }

  lemma FirstOrdinal(e: Event, raw: Payload)
    requires NormalizeEvent(e, raw, CaseDigest("case"), 1).Ok?
    ensures NormalizeEvent(e, raw, CaseDigest("case"), 1).value.ordinal == e.ordinal
  {
  }

  lemma FirstHandled(s: Collector, wire: Wire, e: Event, raw: Payload)
    requires NormalizeEvent(e, raw, CaseDigest("case"), 1).Ok? && e.ordinal == 1
    requires Serves(s) && s.log == [] && s.ordinals == map[]
    requires wire.body == FirstBody(e, raw) && RequestAccepted(s, wire)
    ensures var event := NormalizeEvent(e, raw, CaseDigest("case"), 1);
      Recordable(s, event) && Handle(s, wire, AnyFiles) == Record(s, event)
  {
    FirstFrame(e, raw);
    FirstOrdinal(e, raw);
    hide NormalizeEvent, NormalizeCapture, RequestAccepted, FirstBody;
  }

  /** Delivering a frame that carries sequence 1 records it. */
  lemma DeliveryRecords(b: Bindings, w: World, e: Event, raw: Payload) returns (v: World)
    requires NormalizeEvent(e, raw, CaseDigest("case"), 1).Ok? && e.ordinal == 1
    requires w.collectors == Met(b).collectors && Mac(TheKey(b), FirstBody(e, raw)) in w.tags
    ensures var body := FirstBody(e, raw);
      v == Next(w, DeliverRequest(0, Wire(body, Some(Mac(TheKey(b), body))), AnyFiles))
    ensures var entry := CaptureDigest(NormalizeEvent(e, raw, CaseDigest("case"), 1).value);
      && v.clients == w.clients && 0 in v.collectors
      && v.collectors[0].key == Some(TheKey(b)) && v.collectors[0].log == [entry]
      && Mac(TheKey(b), CapturedBody(entry, SessionId(0), 1)) in v.tags
  {
    var body := FirstBody(e, raw);
    hide NormalizeCapture, NormalizeEvent, Handle, Recordable, RequestAccepted, RecordedAs, FirstBody;
    FirstAccepted(b, w.collectors[0], e, raw);
    FirstHandled(w.collectors[0], Wire(body, Some(Mac(TheKey(b), body))), e, raw);
    v := Next(w, DeliverRequest(0, Wire(body, Some(Mac(TheKey(b), body))), AnyFiles));
  }

  /** The waiting client takes any acknowledgement of sequence 1 for the answer to its request. */
  lemma ReplyTaken(b: Bindings, w: World, e1: Event, raw1: Payload, e2: Event, raw2: Payload, entry: Digest)
    returns (v: World)
    requires w.clients == Retried(b, e1, raw1, e2, raw2).clients
    requires Mac(TheKey(b), CapturedBody(entry, SessionId(0), 1)) in w.tags
    ensures var answer := CapturedBody(entry, SessionId(0), 1);
      v == Next(w, DeliverReply(0, Some(Wire(answer, Some(Mac(TheKey(b), answer))))))
    ensures v.collectors == w.collectors && 0 in v.clients && v.clients[0].link == w.clients[0].link
    ensures v.clients[0].outbox == w.clients[0].outbox && v.clients[0].acked == [entry]
  {
    var answer := CapturedBody(entry, SessionId(0), 1);
    var wire := Wire(answer, Some(Mac(TheKey(b), answer)));
    assert CapturedShape(answer);
    assert ReplyAccepted(w.clients[0], wire);
    v := Next(w, DeliverReply(0, Some(wire)));
  }

  lemma DifferentPayloadsDiffer(e1: Event, raw1: Payload, e2: Event, raw2: Payload, entry: Digest)
    requires NormalizeEvent(e1, raw1, CaseDigest("case"), 1).Ok?
    requires NormalizeEvent(e2, raw2, CaseDigest("case"), 1).Ok?
    requires raw1 != raw2 && entry == CaptureDigest(NormalizeEvent(e2, raw2, CaseDigest("case"), 1).value)
    ensures !RecordedAs(FirstBody(e1, raw1), 1, entry)
  {
    FirstBodyRecorded(e1, raw1);
    var first, second := NormalizeEvent(e1, raw1, CaseDigest("case"), 1), NormalizeEvent(e2, raw2, CaseDigest("case"), 1);
    assert first.value.payload == PayloadDigest(raw1) && second.value.payload == PayloadDigest(raw2);
  }

  lemma RetryReached(b: Bindings, e1: Event, raw1: Payload, e2: Event, raw2: Payload)
    ensures After(Meeting(b) + Retry(e1, raw1, e2, raw2)) == Retried(b, e1, raw1, e2, raw2)
  {
    hide Met, Retried, Meeting, Retry;
    MeetingRuns(b);
    RetryRuns(b, e1, raw1, e2, raw2);
    RunAppend(Initial, Meeting(b), Retry(e1, raw1, e2, raw2));
  }

  /** Two requests numbered first by their adapters, the first of which was not answered in time:
      the channel may deliver only the second, and then the log does not begin with what was sent
      first. */
  lemma ReuseBreaksOrder(b: Bindings, e1: Event, raw1: Payload, e2: Event, raw2: Payload) returns (actions: seq<Action>)
    requires NormalizeEvent(e1, raw1, CaseDigest("case"), 1).Ok?
    requires NormalizeEvent(e2, raw2, CaseDigest("case"), 1).Ok? && e2.ordinal == 1
    requires raw1 != raw2
    ensures var w := After(actions);
      && Linked(w, 0, 0) && w.collectors[0].log != []
      && !LogIsPrefixOfSent(w.collectors[0], w.clients[0])
  {
    hide NormalizeEvent, Next, RecordedAs, FirstBody;
    var start := Meeting(b) + Retry(e1, raw1, e2, raw2);
    var body := FirstBody(e2, raw2);
    var delivery := DeliverRequest(0, Wire(body, Some(Mac(TheKey(b), body))), AnyFiles);
    RetryReached(b, e1, raw1, e2, raw2);
    var w := Retried(b, e1, raw1, e2, raw2);
    var v := DeliveryRecords(b, w, e2, raw2);
    actions := start + [delivery];
    RunAppend(Initial, start, [delivery]);
    assert After(actions) == v;
    assert v.clients[0].outbox[0] == FirstBody(e1, raw1);
    DifferentPayloadsDiffer(e1, raw1, e2, raw2, v.collectors[0].log[0]);
  }

  /** The late answer to the lost request is taken for the answer to the second one: the client
      returns, for the second request, the digest of the first. */
  lemma ReuseMisattributes(b: Bindings, e1: Event, raw1: Payload, e2: Event, raw2: Payload) returns (actions: seq<Action>)
    requires NormalizeEvent(e1, raw1, CaseDigest("case"), 1).Ok? && e1.ordinal == 1
    ensures var w := After(actions);
      && Linked(w, 0, 0)
      && w.clients[0].outbox == [FirstBody(e1, raw1), FirstBody(e2, raw2)]
      && w.clients[0].acked == [CaptureDigest(NormalizeEvent(e1, raw1, CaseDigest("case"), 1).value)]
  {
    hide NormalizeEvent, Next, FirstBody, CapturedBody;
    var start := Meeting(b) + Retry(e1, raw1, e2, raw2);
    var entry := CaptureDigest(NormalizeEvent(e1, raw1, CaseDigest("case"), 1).value);
    var body, answer := FirstBody(e1, raw1), CapturedBody(entry, SessionId(0), 1);
    var delivery := DeliverRequest(0, Wire(body, Some(Mac(TheKey(b), body))), AnyFiles);
    var reply := DeliverReply(0, Some(Wire(answer, Some(Mac(TheKey(b), answer)))));
    RetryReached(b, e1, raw1, e2, raw2);
    var w := Retried(b, e1, raw1, e2, raw2);
    var v := DeliveryRecords(b, w, e1, raw1);
    var u := ReplyTaken(b, v, e1, raw1, e2, raw2, entry);
    actions := start + [delivery, reply];
    RunAppend(Initial, start, [delivery, reply]);
    assert [delivery, reply][1..] == [reply];
    assert Run(v, [reply]) == u;
    assert After(actions) == u;
  }
}
