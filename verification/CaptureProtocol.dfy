/** The two ends of the request-capture protocol: the benchmark's client object and the collector's
    serving loop.  Each is written as the program is, and tied to a transition function on values. */
module CaptureProtocol {
  import opened Outcomes
  import opened CaptureFrames

  // ---- The client ----

  datatype Request = CaptureRequest | SealRequest(expected: int)

  datatype ClientPhase = Greeting | Connected | Closed

  /** What a completed handshake leaves the client with. */
  datatype Link = Link(session: Digest, key: Key)

  /** What a sealed answer hands to the runner. */
  datatype Labels = Labels(golden: Bytes, orderedDigest: Digest, requestCount: int)

  /** `outbox` is every request body the client ever sent and `acked` every acknowledgement it
      returned; `failed` says that some request raised, `reused` that one was sent after that. */
  datatype Client = Client(
    challenge: Digest, bindings: Bindings, phase: ClientPhase, link: Option<Link>, selected: Option<Digest>, count: nat,
    pending: Option<Request>, outbox: seq<Body>, acked: seq<Digest>, labels: Option<Labels>,
    failed: bool, reused: bool)

  function NewClient(challenge: Digest, bindings: Bindings): Client
  {
    Client(challenge, bindings, Greeting, None, None, 0, None, [], [], None, false, false)
  }

  function HelloWire(c: Client): Wire
  {
    var hello := HelloBody(c.challenge, c.bindings);
    Wire(hello, Some(Mac(Nonce, hello)))
  }

  predicate ReadyAccepted(c: Client, wire: Wire)
  {
    && wire.body.Keys == {Status, SessionField, ServerChallengeField}
    && wire.body[Status] == Text("ready")
    && wire.body[SessionField].Sha?
    && wire.body[ServerChallengeField].Sha?
    && wire.auth == Some(Mac(Nonce, ReadyBinding(wire.body, c.challenge, c.bindings)))
  }

  /** End of the constructor: the handshake answer is checked and the session key derived. */
  function Greet(c: Client, wire: Wire): Client
    requires c.phase.Greeting?
  {
    if !ReadyAccepted(c, wire) then c.(phase := Closed)
    else
      var session := wire.body[SessionField].digest;
      var server := wire.body[ServerChallengeField].digest;
      c.(phase := Connected, link := Some(Link(session, SessionKey(c.challenge, server, session, c.bindings))))
  }

  predicate Live(c: Client)
  {
    c.phase.Connected? && c.link.Some?
  }

  predicate MaySend(c: Client)
  {
    Live(c) && c.pending.None?
  }

  function Sent(c: Client, request: Request, body: Body): Client
  {
    c.(pending := Some(request), outbox := c.outbox + [body], reused := c.reused || c.failed)
  }

  function CaptureRequestBody(c: Client, event: Event, raw: Payload): Body
    requires Live(c) && c.selected.Some?
  {
    CaptureBody(c.selected.value, event, raw, c.link.value.session, c.count + 1)
  }

  function SealRequestBody(c: Client, expected: int): Body
    requires Live(c)
  {
    SealBody(expected, c.link.value.session, c.count + 1)
  }

  /** The client has sent a request to seal at some time, answered or not. */
  predicate AskedToSeal(c: Client)
  {
    exists m :: 0 <= m < |c.outbox| && Get(c.outbox[m], Command) == Some(Text("seal"))
  }

  predicate ReplyAccepted(c: Client, wire: Wire)
    requires Live(c)
  {
    && Authentic(c.link.value.key, wire)
    && Get(wire.body, SessionField) == Some(Sha(c.link.value.session))
    && Get(wire.body, Sequence) == Some(Number(c.count + 1))
  }

  predicate CapturedShape(body: Body)
  {
    && body.Keys == {Status, CaptureSha, Sequence, SessionField}
    && body[Status] == Text("captured")
  }

  predicate SealedShape(body: Body, expected: int)
  {
    && body.Keys == {Status, GoldenPayload, SessionField, OrderedDigest, RequestCount, Sequence}
    && body[Status] == Text("sealed")
    && body[OrderedDigest].Sha?
    && body[RequestCount] == Number(expected)
    && body[GoldenPayload].GoldenValue?
  }

  function Failure(c: Client): Client
  {
    c.(pending := None, failed := true)
  }

  /** What the client does with the frame (or the silence) that ends its blocking request. */
  function Receive(c: Client, reply: Option<Wire>): Client
    requires Live(c) && c.pending.Some?
  {
    if reply.None? || !ReplyAccepted(c, reply.value) then Failure(c)
    else
      var body := reply.value.body;
      match c.pending.value
      case CaptureRequest =>
        if !CapturedShape(body) then Failure(c)
        else if !body[CaptureSha].Sha? then Failure(c).(count := c.count + 1)
        else c.(pending := None, count := c.count + 1, acked := c.acked + [body[CaptureSha].digest])
      case SealRequest(expected) =>
        if !SealedShape(body, expected) then Failure(c)
        else c.(pending := None, phase := Closed,
                labels := Some(Labels(body[GoldenPayload].golden, body[OrderedDigest].digest, expected)))
  }

  /** The client's `capture`: the state it is left in and the acknowledgement, if it returned one. */
  function CaptureStep(c: Client, event: Event, raw: Payload, reply: Option<Wire>): (Client, Option<Digest>)
  {
    if !MaySend(c) || c.selected.None? then (c, None)
    else
      var d := Receive(Sent(c, CaptureRequest, CaptureRequestBody(c, event, raw)), reply);
      (d, if |d.acked| == |c.acked| + 1 then Some(d.acked[|c.acked|]) else None)
  }

  /** The client's `seal_and_read_labels`. */
  function SealStep(c: Client, expected: int, reply: Option<Wire>): Client
  {
    if !MaySend(c) || expected != c.count then c
    else Receive(Sent(c, SealRequest(expected), SealRequestBody(c, expected)), reply)
  }

  /** The blocking client.  `reply` is what the channel delivers while the request waits. */
  class CaptureClient {
    const challenge: Digest
    const bindings: Bindings
    var caseId: Option<Digest>
    var requestCount: nat
    var link: Option<Link>
    var open: bool
    ghost var outbox: seq<Body>
    ghost var acked: seq<Digest>
    ghost var labels: Option<Labels>
    ghost var failed: bool
    ghost var reused: bool

    /** The abstract client between two requests. */
    ghost function State(): Client
      reads this
    {
      Client(challenge, bindings, if open then Connected else Closed, link, caseId,
             requestCount, None, outbox, acked, labels, failed, reused)
    }

    constructor (challenge: Digest, bindings: Bindings, reply: Wire)
      ensures this.challenge == challenge && this.bindings == bindings
      ensures State() == Greet(NewClient(challenge, bindings), reply)
    {
      this.challenge := challenge;
      this.bindings := bindings;
      caseId, requestCount := None, 0;
      outbox, acked, labels, failed, reused := [], [], None, false, false;
      var accepted := ReadyAccepted(NewClient(challenge, bindings), reply);
      open := accepted;
      if accepted {
        var session := reply.body[SessionField].digest;
        link := Some(Link(session, SessionKey(challenge, reply.body[ServerChallengeField].digest, session, bindings)));
      } else {
        link := None;
      }
    }

    method Select(name: string)
      requires name != ""
      modifies this`caseId
      ensures State() == old(State()).(selected := Some(CaseDigest(name)))
    {
      caseId := Some(CaseDigest(name));
    }

    /** Sends one authenticated body and checks the answer's tag, session and sequence. */
    method Send(body: Body, ghost request: Request, reply: Option<Wire>) returns (response: Result<Body>)
      requires open && link.Some?
      modifies this`outbox, this`failed, this`reused
      ensures var waiting := Sent(old(State()), request, body);
        && (response.Ok? <==> reply.Some? && ReplyAccepted(waiting, reply.value))
        && (response.Ok? ==> response.value == reply.value.body && State() == waiting.(pending := None))
        && (response.Err? ==> State() == Failure(waiting))
    {
      outbox := outbox + [body];
      reused := reused || failed;
      if reply.None? {
        response := Err("capture collector is unavailable");
      } else if reply.value.auth != Some(Mac(link.value.key, reply.value.body)) {
        response := Err("capture acknowledgement authentication failed");
      } else if Get(reply.value.body, SessionField) != Some(Sha(link.value.session))
             || Get(reply.value.body, Sequence) != Some(Number(requestCount + 1)) {
        response := Err("capture acknowledgement session is invalid");
      } else {
        response := Ok(reply.value.body);
      }
      failed := failed || response.Err?;
    }

    method Capture(event: Event, raw: Payload, reply: Option<Wire>) returns (acknowledgement: Result<Digest>)
      modifies this
      ensures var (state, acknowledged) := CaptureStep(old(State()), event, raw, reply);
        && State() == state
        && (acknowledgement.Ok? <==> acknowledged.Some?)
        && (acknowledgement.Ok? ==> acknowledged == Some(acknowledgement.value))
    {
      hide ReplyAccepted;
      if caseId.None? {
        return Err("capture request has no selected case");
      }
      if !open || link.None? {
        return Err("capture collector is unavailable");
      }
      var body := CaptureBody(caseId.value, event, raw, link.value.session, requestCount + 1);
      ghost var waiting := Sent(State(), CaptureRequest, body);
      var response := Send(body, CaptureRequest, reply);
      if response.Err? {
        return Err(response.reason);
      }
      if !CapturedShape(response.value) {
        failed := true;
        return Err("capture acknowledgement is malformed");
      }
      requestCount := requestCount + 1;
      if !response.value[CaptureSha].Sha? {
        failed := true;
        return Err("capture acknowledgement binding is invalid");
      }
      acked := acked + [response.value[CaptureSha].digest];
      acknowledgement := Ok(response.value[CaptureSha].digest);
    }

    method SealAndReadLabels(expected: int, reply: Option<Wire>) returns (answer: Result<Labels>)
      modifies this
      ensures State() == SealStep(old(State()), expected, reply)
      ensures answer.Ok? ==> expected == old(requestCount) && labels == Some(answer.value) && MaySend(old(State()))
    {
      hide ReplyAccepted;
      if expected != requestCount {
        return Err("capture client request count mismatch");
      }
      if !open || link.None? {
        return Err("capture collector is unavailable");
      }
      var body := SealBody(expected, link.value.session, requestCount + 1);
      var response := Send(body, SealRequest(expected), reply);
      if response.Err? {
        return Err(response.reason);
      }
      if !SealedShape(response.value, expected) {
        failed := true;
        return Err("capture seal acknowledgement is malformed");
      }
      answer := Ok(Labels(response.value[GoldenPayload].golden, response.value[OrderedDigest].digest, expected));
      open := false;
      labels := Some(answer.value);
    }
  }

  // ---- The collector ----

  datatype CollectorPhase = Listening | Serving | Sealed | Aborted

  datatype Evidence = Evidence(
    bindings: Bindings, requestCount: nat, kindCounts: map<Kind, nat>, orderedDigest: Digest, session: Digest)

  /** `session` and `challenge` are the values the collector drew; `goldenOpened` says that the
      golden file has been read. */
  datatype Collector = Collector(
    session: Digest, challenge: Digest, bindings: Bindings, phase: CollectorPhase, key: Option<Key>, log: seq<Digest>,
    kindCounts: map<Kind, nat>, ordinals: map<string, nat>, expected: nat, goldenOpened: bool,
    evidence: Option<Evidence>)

  predicate Serves(c: Collector)
  {
    c.phase.Serving? && c.key.Some?
  }

  /** The golden file as the collector can read it, and whether the evidence file can be created. */
  datatype Files = Files(golden: Option<Bytes>, evidenceWritable: bool)

  function NewCollector(id: nat, bindings: Bindings): Collector
  {
    Collector(SessionId(id), ServerChallenge(id), bindings, Listening, None, [], map[], map[], 1, false, None)
  }

  function Abort(c: Collector): Collector
  {
    c.(phase := Aborted)
  }

  predicate HelloAccepted(c: Collector, wire: Wire)
  {
    && wire.body.Keys == {Command, ClientChallengeField, BindingsField}
    && wire.body[Command] == Text("hello")
    && wire.body[ClientChallengeField].Sha?
    && Authentic(Nonce, wire)
    && wire.body[BindingsField] == BindingsValue(c.bindings)
  }

  function ReadyWire(c: Collector, client: Digest): Wire
  {
    var ready := ReadyBody(c.session, c.challenge);
    Wire(ready, Some(Mac(Nonce, ReadyBinding(ready, client, c.bindings))))
  }

  /** A collector after one frame, with the answer it sent if it did not raise. */
  datatype Step = Step(state: Collector, answer: Option<Wire>)

  function Welcome(c: Collector, wire: Wire): Step
    requires c.phase.Listening?
  {
    if !HelloAccepted(c, wire) then Step(Abort(c), None)
    else
      var client := wire.body[ClientChallengeField].digest;
      Step(c.(phase := Serving, key := Some(SessionKey(client, c.challenge, c.session, c.bindings))),
           Some(ReadyWire(c, client)))
  }

  function Lookup<K>(counts: map<K, nat>, key: K): nat
  {
    if key in counts then counts[key] else 0
  }

  function Recorded(c: Collector, event: SafeEvent): Collector
  {
    c.(log := c.log + [CaptureDigest(event)],
       kindCounts := c.kindCounts[event.kind := Lookup(c.kindCounts, event.kind) + 1],
       ordinals := c.ordinals[event.model := Lookup(c.ordinals, event.model) + 1],
       expected := c.expected + 1)
  }

  predicate Recordable(c: Collector, event: Result<SafeEvent>)
  {
    |c.log| < MAX_REQUESTS && event.Ok? && event.value.ordinal == Lookup(c.ordinals, event.value.model) + 1
  }

  function Record(c: Collector, event: Result<SafeEvent>): Step
    requires Serves(c)
  {
    if !Recordable(c, event) then Step(Abort(c), None)
    else
      var answer := CapturedBody(CaptureDigest(event.value), c.session, c.expected);
      Step(Recorded(c, event.value), Some(Wire(answer, Some(Mac(c.key.value, answer)))))
  }

  function EvidenceOf(c: Collector): Evidence
  {
    Evidence(c.bindings, |c.log|, c.kindCounts, LedgerDigest(c.log), c.session)
  }

  predicate GoldenAdmitted(c: Collector, golden: Option<Bytes>)
  {
    && golden.Some?
    && 0 < |golden.value| <= MAX_GOLDEN_BYTES
    && GoldenDigest(golden.value) == c.bindings.goldenSha
  }

  function Close(c: Collector, frame: Body, files: Files): Step
    requires Serves(c)
  {
    if frame.Keys != {Command, ExpectedCount} || frame[ExpectedCount] != Number(|c.log|) || c.log == [] then
      Step(Abort(c), None)
    else
      var reading := c.(goldenOpened := true);
      if !GoldenAdmitted(c, files.golden) || !files.evidenceWritable then Step(Abort(reading), None)
      else
        var answer := SealedBody(files.golden.value, c.log, c.session, c.expected);
        Step(reading.(phase := Sealed, evidence := Some(EvidenceOf(c))),
             Some(Wire(answer, Some(Mac(c.key.value, answer)))))
  }

  predicate RequestAccepted(c: Collector, wire: Wire)
    requires Serves(c)
  {
    && Authentic(c.key.value, wire)
    && Get(wire.body, SessionField) == Some(Sha(c.session))
    && Get(wire.body, Sequence) == Some(Number(c.expected))
  }

  /** One turn of the serving loop. */
  function Handle(c: Collector, wire: Wire, files: Files): Step
    requires Serves(c)
  {
    if !RequestAccepted(c, wire) then Step(Abort(c), None)
    else
      var frame := wire.body - {SessionField, Sequence};
      if Get(frame, Command) == Some(Text("capture")) then Record(c, NormalizeCapture(frame, |c.log| + 1))
      else if Get(frame, Command) == Some(Text("seal")) then Close(c, frame, files)
      else Step(Abort(c), None)
  }

  /** The serving loop over a whole stream of frames: final state and answers. */
  function ServeAll(c: Collector, frames: seq<Wire>, files: Files): (Collector, seq<Wire>)
    decreases |frames|
  {
    if !Serves(c) then (c, [])
    else if frames == [] then (Abort(c), [])
    else
      var step := Handle(c, frames[0], files);
      var (last, answers) := ServeAll(step.state, frames[1..], files);
      (last, if step.answer.Some? then [step.answer.value] + answers else answers)
  }

  /** Serving from the frame at `next` is one turn and then serving from the frame after it. */
  lemma ServeTurn(c: Collector, frames: seq<Wire>, next: nat, files: Files)
    requires Serves(c) && next < |frames|
    ensures var step := Handle(c, frames[next], files);
      var rest := ServeAll(step.state, frames[next + 1..], files);
      && ServeAll(c, frames[next..], files)
         == (rest.0, if step.answer.Some? then [step.answer.value] + rest.1 else rest.1)
      && (!Serves(step.state) ==> rest == (step.state, []))
  {
    assert frames[next..][0] == frames[next] && frames[next..][1..] == frames[next + 1..];
  }

  /** The mutable state of the serving loop. */
  class CollectorLoop {
    const session: Digest
    const challenge: Digest
    const bindings: Bindings
    const sessionKey: Key
    var eventHashes: seq<Digest>
    var kindCounts: map<Kind, nat>
    var ordinals: map<string, nat>
    var expectedSequence: nat

    /** The abstract collector while the loop runs. */
    ghost function State(): Collector
      reads this
    {
      Collector(session, challenge, bindings, Serving, Some(sessionKey), eventHashes, kindCounts, ordinals,
                expectedSequence, false, None)
    }

    constructor (id: nat, bindings: Bindings, client: Digest)
      ensures State() == NewCollector(id, bindings).(
                           phase := Serving, key := Some(SessionKey(client, ServerChallenge(id), SessionId(id), bindings)))
    {
      session, challenge := SessionId(id), ServerChallenge(id);
      this.bindings := bindings;
      sessionKey := SessionKey(client, ServerChallenge(id), SessionId(id), bindings);
      eventHashes, kindCounts, ordinals, expectedSequence := [], map[], map[], 1;
    }

    method RecordEvent(normalized: Result<SafeEvent>) returns (answer: Option<Wire>)
      modifies this
      ensures var step := Record(old(State()), normalized);
        && answer == step.answer
        && (answer.Some? ==> State() == step.state)
        && (answer.None? ==> State() == old(State()) && step.state == Abort(State()))
    {
      if |eventHashes| >= MAX_REQUESTS || normalized.Err?
         || normalized.value.ordinal != Lookup(ordinals, normalized.value.model) + 1 {
        return None;
      }
      var event := normalized.value;
      ordinals := ordinals[event.model := event.ordinal];
      var entry := CaptureDigest(event);
      var body := CapturedBody(entry, session, expectedSequence);
      answer := Some(Wire(body, Some(Mac(sessionKey, body))));
      eventHashes, expectedSequence := eventHashes + [entry], expectedSequence + 1;
      kindCounts := kindCounts[event.kind := Lookup(kindCounts, event.kind) + 1];
    }

    method SealRequests(frame: Body, files: Files) returns (evidence: Option<Evidence>, answer: Option<Wire>)
      ensures var step := Close(State(), frame, files);
        && answer == step.answer
        && evidence == step.state.evidence
        && (answer.Some? <==> step.state.phase.Sealed?)
        && (answer.Some? <==> evidence.Some?)
    {
      if frame.Keys != {Command, ExpectedCount} || frame[ExpectedCount] != Number(|eventHashes|) || eventHashes == [] {
        return None, None;
      }
      var golden := files.golden;
      if golden.None? || !(0 < |golden.value| <= MAX_GOLDEN_BYTES)
         || GoldenDigest(golden.value) != bindings.goldenSha || !files.evidenceWritable {
        return None, None;
      }
      var body := SealedBody(golden.value, eventHashes, session, expectedSequence);
      evidence := Some(Evidence(bindings, |eventHashes|, kindCounts, LedgerDigest(eventHashes), session));
      answer := Some(Wire(body, Some(Mac(sessionKey, body))));
    }

    /** One turn of the loop: tag, session and sequence first, then the command. */
    method Turn(wire: Wire, files: Files) returns (answer: Option<Wire>, evidence: Option<Evidence>)
      modifies this
      ensures var step := Handle(old(State()), wire, files);
        && answer == step.answer
        && (evidence.Some? <==> step.state.phase.Sealed?)
        && (evidence.Some? ==> answer.Some? && evidence == step.state.evidence)
        && (answer.Some? && evidence.None? ==> State() == step.state)
        && (answer.None? ==> step.state.phase.Aborted?)
    {
      if wire.auth != Some(Mac(sessionKey, wire.body))
         || Get(wire.body, SessionField) != Some(Sha(session))
         || Get(wire.body, Sequence) != Some(Number(expectedSequence)) {
        return None, None;
      }
      var frame := wire.body - {SessionField, Sequence};
      if Get(frame, Command) == Some(Text("capture")) {
        answer := RecordEvent(NormalizeCapture(frame, |eventHashes| + 1));
        evidence := None;
      } else if Get(frame, Command) == Some(Text("seal")) {
        evidence, answer := SealRequests(frame, files);
      } else {
        answer, evidence := None, None;
      }
    }

    /** The loop `while not sealed`: one frame a turn, until the sealed answer or a refusal. */
    method Drain(frames: seq<Wire>, files: Files) returns (answers: seq<Wire>, evidence: Option<Evidence>)
      modifies this
      ensures var (last, sent) := ServeAll(old(State()), frames, files);
        && answers == sent
        && (evidence.Some? <==> last.phase.Sealed?)
        && (evidence.Some? ==> evidence == last.evidence)
    {
      ghost var (last, sent) := ServeAll(State(), frames, files);
      ghost var remaining := sent;
      answers, evidence := [], None;
      var next := 0;
      assert frames[0..] == frames;
      while next < |frames|
        invariant 0 <= next <= |frames|
        invariant ServeAll(State(), frames[next..], files) == (last, remaining)
        invariant sent == answers + remaining && evidence.None?
      {
        ServeTurn(State(), frames, next, files);
        ghost var step := Handle(State(), frames[next], files);
        var answer;
        answer, evidence := Turn(frames[next], files);
        next := next + 1;
        if answer.None? {
          return;
        }
        remaining := ServeAll(step.state, frames[next..], files).1;
        answers := answers + [answer.value];
        if evidence.Some? {
          return;
        }
      }
    }
  }

  /** The collector program: a handshake, then captures until the sealed answer has been sent. */
  method Serve(id: nat, bindings: Bindings, frames: seq<Wire>, files: Files)
    returns (evidence: Result<Evidence>, answers: seq<Wire>)
    ensures frames == [] ==> evidence.Err? && answers == []
    ensures frames != [] ==>
      var welcome := Welcome(NewCollector(id, bindings), frames[0]);
      var (last, rest) := ServeAll(welcome.state, frames[1..], files);
      && answers == (if welcome.answer.Some? then [welcome.answer.value] + rest else [])
      && (evidence.Ok? <==> last.phase.Sealed?)
      && (evidence.Ok? ==> last.evidence == Some(evidence.value))
  {
    if frames == [] {
      return Err("capture protocol frame is malformed"), [];
    }
    var welcome := Welcome(NewCollector(id, bindings), frames[0]);
    if welcome.answer.None? {
      return Err("capture handshake failed"), [];
    }
    var loop := new CollectorLoop(id, bindings, frames[0].body[ClientChallengeField].digest);
    var rest, record := loop.Drain(frames[1..], files);
    answers := [welcome.answer.value] + rest;
    evidence := if record.Some? then Ok(record.value) else Err("capture frame is not admitted");
  }
}
