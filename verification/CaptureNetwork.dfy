/** Any number of clients and collectors sharing the nonce, over a channel that may drop, duplicate,
    reorder, replay, reflect or rewrite frames, but cannot make a tag under a key it does not hold. */
module CaptureNetwork {
  import opened Outcomes
  import opened CaptureFrames
  import opened CaptureProtocol

  /** `tags` are the authentication tags the honest programs have put on the wire so far. */
  datatype World = World(clients: map<nat, Client>, collectors: map<nat, Collector>, tags: set<Tag>)

  datatype Action =
    | StartCollector(j: nat, bindings: Bindings)
    | StartClient(i: nat, bindings: Bindings)
    | DeliverHello(j: nat, wire: Wire)
    | DeliverReady(i: nat, wire: Wire)
    | SelectCase(i: nat, name: string)
    | SendCapture(i: nat, event: Event, raw: Payload)
    | SendSeal(i: nat, expected: int)
    | DeliverRequest(j: nat, wire: Wire, files: Files)
    | DeliverReply(i: nat, reply: Option<Wire>)

  /** The channel delivers bodies of its choice, but only tags it has seen or tags of its own. */
  predicate Deliverable(wire: Wire, tags: set<Tag>)
  {
    wire.auth.None? || wire.auth.value.OtherTag? || wire.auth.value in tags
  }

  function AnswerTag(answer: Option<Wire>): set<Tag>
  {
    if answer.Some? && answer.value.auth.Some? then {answer.value.auth.value} else {}
  }

  function WithClient(w: World, i: nat, c: Client): World
  {
    w.(clients := w.clients[i := c])
  }

  function WithStep(w: World, j: nat, step: Step): World
  {
    w.(collectors := w.collectors[j := step.state], tags := w.tags + AnswerTag(step.answer))
  }

  function WithRequest(w: World, i: nat, c: Client, request: Request, body: Body): World
    requires Live(c)
  {
    World(w.clients[i := Sent(c, request, body)], w.collectors, w.tags + {Mac(c.link.value.key, body)})
  }

  /** An action that is not enabled leaves the world as it is. */
  function Next(w: World, a: Action): World
  {
    match a
    case StartCollector(j, bindings) =>
      if j in w.collectors then w else w.(collectors := w.collectors[j := NewCollector(j, bindings)])
    case StartClient(i, bindings) =>
      if i in w.clients then w
      else
        var c := NewClient(ClientChallenge(i), bindings);
        World(w.clients[i := c], w.collectors, w.tags + AnswerTag(Some(HelloWire(c))))
    case DeliverHello(j, wire) =>
      if j in w.collectors && w.collectors[j].phase.Listening? && Deliverable(wire, w.tags) then
        WithStep(w, j, Welcome(w.collectors[j], wire))
      else w
    case DeliverReady(i, wire) =>
      if i in w.clients && w.clients[i].phase.Greeting? && Deliverable(wire, w.tags) then
        WithClient(w, i, Greet(w.clients[i], wire))
      else w
    case SelectCase(i, name) =>
      if i in w.clients then WithClient(w, i, w.clients[i].(selected := Some(CaseDigest(name)))) else w
    case SendCapture(i, event, raw) =>
      if i in w.clients && MaySend(w.clients[i]) && w.clients[i].selected.Some? then
        WithRequest(w, i, w.clients[i], CaptureRequest, CaptureRequestBody(w.clients[i], event, raw))
      else w
    case SendSeal(i, expected) =>
      if i in w.clients && MaySend(w.clients[i]) && expected == w.clients[i].count then
        WithRequest(w, i, w.clients[i], SealRequest(expected), SealRequestBody(w.clients[i], expected))
      else w
    case DeliverRequest(j, wire, files) =>
      if j in w.collectors && Serves(w.collectors[j]) && Deliverable(wire, w.tags) then
        WithStep(w, j, Handle(w.collectors[j], wire, files))
      else w
    case DeliverReply(i, reply) =>
      if i in w.clients && Live(w.clients[i]) && w.clients[i].pending.Some?
         && (reply.Some? ==> Deliverable(reply.value, w.tags)) then
        WithClient(w, i, Receive(w.clients[i], reply))
      else w
  }

  const Initial := World(map[], map[], {})

  function Run(w: World, actions: seq<Action>): World
    decreases |actions|
  {
    if actions == [] then w else Run(Next(w, actions[0]), actions[1..])
  }

  // ---- The invariant ----

  /** A request body as the client builds it: a command, its session, and a sequence number within reach. */
  ghost predicate RequestBody(c: Client, body: Body)
  {
    && Command in body.Keys
    && c.link.Some? && Get(body, SessionField) == Some(Sha(c.link.value.session))
    && Sequence in body.Keys && body[Sequence].Number? && 1 <= body[Sequence].number <= c.count + 1
  }

  /** `entry` is the digest the collector computes when `body` arrives as request `sequence`. */
  ghost predicate RecordedAs(body: Body, sequence: int, entry: Digest)
  {
    var event := NormalizeCapture(body - {SessionField, Sequence}, sequence);
    && Get(body, Command) == Some(Text("capture"))
    && Get(body, Sequence) == Some(Number(sequence))
    && event.Ok?
    && entry == CaptureDigest(event.value)
  }

  /** Some request of this client was recorded as `entry` under `sequence`. */
  ghost predicate Backed(outbox: seq<Body>, sequence: int, entry: Digest)
  {
    exists m :: 0 <= m < |outbox| && RecordedAs(outbox[m], sequence, entry)
  }

  /** As long as the object is not used after a failed request, request k carries sequence k + 1. */
  ghost predicate InStep(c: Client)
  {
    && |c.outbox| <= c.count + 1
    && (forall k :: 0 <= k < |c.outbox| ==> Get(c.outbox[k], Sequence) == Some(Number(k + 1)))
    && (c.phase.Connected? && c.pending.None? && !c.failed ==> |c.outbox| == c.count)
    && (c.pending.Some? ==> !c.failed && |c.outbox| == c.count + 1)
    && (c.failed ==> |c.outbox| == c.count + 1)
  }

  ghost predicate Untouched(c: Client)
  {
    c.outbox == [] && c.acked == [] && c.count == 0 && c.pending.None? && c.labels.None?
  }

  ghost predicate OwnKey(c: Client)
    requires c.link.Some?
  {
    var key := c.link.value.key;
    && c.link.value.session.SessionId?
    && key.SessionKey? && key.client == c.challenge && key.session == c.link.value.session && key.bindings == c.bindings
  }

  /** The client holds the key that collector `j` derived when it greeted this client. */
  ghost predicate Linked(w: World, i: nat, j: nat)
  {
    && i in w.clients && j in w.collectors
    && w.clients[i].link.Some?
    && w.clients[i].link.value.session == SessionId(j)
    && w.collectors[j].key == Some(w.clients[i].link.value.key)
  }

  ghost predicate ClientOk(w: World, i: nat)
    requires i in w.clients
  {
    var c := w.clients[i];
    && c.challenge == ClientChallenge(i)
    && (c.link.None? ==> Untouched(c))
    && (c.phase.Connected? ==> c.link.Some?)
    && (c.phase.Greeting? ==> c.link.None?)
    && (c.link.Some? ==> OwnKey(c) && Linked(w, i, c.link.value.session.collector))
    && (forall body :: body in c.outbox ==> RequestBody(c, body))
    && (!c.reused ==> InStep(c))
  }

  ghost predicate CollectorOk(w: World, j: nat)
    requires j in w.collectors
  {
    var c := w.collectors[j];
    && c.session == SessionId(j) && c.challenge == ServerChallenge(j)
    && c.expected == |c.log| + 1
    && (c.phase.Listening? ==> c.key.None?)
    && (c.key.None? ==> c.log == [] && !c.goldenOpened && !c.phase.Sealed?)
    && (c.key.Some? ==> GreetedClient(w, c))
  }

  /** The key names a client that exists and was bound to the same run. */
  ghost predicate GreetedClient(w: World, c: Collector)
    requires c.key.Some?
  {
    var key := c.key.value;
    && key.SessionKey? && key.client.ClientChallenge? && key.client.client in w.clients
    && key == SessionKey(key.client, c.challenge, c.session, c.bindings)
    && w.clients[key.client.client].bindings == c.bindings
  }

  /** The labels are the golden file this collector was bound to, released over its whole log. */
  ghost predicate Released(s: Collector, labels: Labels)
  {
    && GoldenDigest(labels.golden) == s.bindings.goldenSha
    && labels.orderedDigest == LedgerDigest(s.log)
    && labels.requestCount == |s.log|
  }

  /** What ties a collector's log to the client it greeted. */
  ghost predicate PairOk(w: World, j: nat)
    requires j in w.collectors && CollectorOk(w, j)
  {
    var s := w.collectors[j];
    s.key.Some? ==>
      var i := s.key.value.client.client;
      var c := w.clients[i];
      if Linked(w, i, j) then
        && c.count <= |s.log| <= c.count + 1
        && c.acked == s.log[..c.count]
        && (forall k :: 0 <= k < |s.log| ==> Backed(c.outbox, k + 1, s.log[k]))
        && (s.goldenOpened ==> s.log != [] && c.count == |s.log| && !s.phase.Serving? && AskedToSeal(c))
        && (s.phase.Sealed? ==> s.goldenOpened)
        && (c.labels.Some? ==> s.phase.Sealed? && Released(s, c.labels.value))
      else
        s.log == [] && !s.goldenOpened && !s.phase.Sealed?
  }

  ghost predicate HelloTag(w: World, body: Body)
  {
    && body.Keys == {Command, ClientChallengeField, BindingsField}
    && body[ClientChallengeField].Sha? && body[ClientChallengeField].digest.ClientChallenge?
    && var i := body[ClientChallengeField].digest.client;
    && i in w.clients && body == HelloBody(ClientChallenge(i), w.clients[i].bindings)
  }

  ghost predicate ReadyTag(w: World, body: Body)
  {
    && SessionField in body.Keys && body[SessionField].Sha? && body[SessionField].digest.SessionId?
    && var j := body[SessionField].digest.collector;
    && j in w.collectors
    && var c := w.collectors[j];
    && c.key.Some? && c.key.value.SessionKey?
    && body == ReadyBinding(ReadyBody(c.session, c.challenge), c.key.value.client, c.bindings)
  }

  ghost predicate RequestTag(w: World, key: Key, body: Body)
    requires key.SessionKey?
  {
    && key.client.ClientChallenge? && key.client.client in w.clients
    && var c := w.clients[key.client.client];
    && c.link == Some(Link(key.session, key))
    && body in c.outbox
  }

  ghost predicate AnswerBody(s: Collector, body: Body)
  {
    || (exists k :: 0 <= k < |s.log| && body == CapturedBody(s.log[k], s.session, k + 1))
    || (s.phase.Sealed? && exists golden :: GoldenDigest(golden) == s.bindings.goldenSha
                                            && body == SealedBody(golden, s.log, s.session, s.expected))
  }

  ghost predicate AnswerTagOk(w: World, key: Key, body: Body)
    requires key.SessionKey?
  {
    && key.session.SessionId? && key.session.collector in w.collectors
    && w.collectors[key.session.collector].key == Some(key)
    && AnswerBody(w.collectors[key.session.collector], body)
  }

  /** Who can have made a tag: the field sets keep the four kinds of frames apart. */
  ghost predicate TagOk(w: World, t: Tag)
  {
    match t
    case OtherTag(_) => true
    case Mac(key, body) =>
      if key.Nonce? then HelloTag(w, body) || ReadyTag(w, body)
      else RequestTag(w, key, body) || AnswerTagOk(w, key, body)
  }

  ghost predicate Inv(w: World)
  {
    && (forall i :: i in w.clients ==> ClientOk(w, i))
    && (forall j :: j in w.collectors ==> CollectorOk(w, j) && PairOk(w, j))
    && (forall t :: t in w.tags ==> TagOk(w, t))
  }

  // ---- What every step keeps of what was there before ----

  ghost predicate ClientGrows(c: Client, d: Client)
  {
    && d.challenge == c.challenge && d.bindings == c.bindings
    && (c.link.Some? ==> d.link == c.link)
    && c.outbox <= d.outbox && c.count <= d.count
  }

  ghost predicate CollectorGrows(c: Collector, d: Collector)
  {
    && d.session == c.session && d.challenge == c.challenge && d.bindings == c.bindings
    && (c.key.Some? ==> d.key == c.key)
    && c.log <= d.log
    && (c.phase.Sealed? || c.phase.Aborted? ==> d == c)
  }

  ghost predicate Grows(w: World, v: World)
  {
    && (forall i :: i in w.clients ==> i in v.clients && ClientGrows(w.clients[i], v.clients[i]))
    && (forall j :: j in w.collectors ==> j in v.collectors && CollectorGrows(w.collectors[j], v.collectors[j]))
    && w.tags <= v.tags
  }

  lemma ReceiveGrows(c: Client, reply: Option<Wire>)
    requires Live(c) && c.pending.Some?
    ensures ClientGrows(c, Receive(c, reply)) && Receive(c, reply).outbox == c.outbox
  {
  }

  lemma HandleGrows(c: Collector, wire: Wire, files: Files)
    requires Serves(c)
    ensures CollectorGrows(c, Handle(c, wire, files).state)
  {
  }

  lemma ClientStepGrows(w: World, i: nat, c: Client)
    requires i in w.clients && ClientGrows(w.clients[i], c)
    ensures Grows(w, WithClient(w, i, c))
  {
  }

  lemma CollectorStepGrows(w: World, j: nat, step: Step)
    requires j in w.collectors && CollectorGrows(w.collectors[j], step.state)
    ensures Grows(w, WithStep(w, j, step))
  {
  }

  lemma StartCollectorGrows(w: World, j: nat, bindings: Bindings)
    ensures Grows(w, Next(w, StartCollector(j, bindings)))
  {
  }

  lemma StartClientGrows(w: World, i: nat, bindings: Bindings)
    ensures Grows(w, Next(w, StartClient(i, bindings)))
  {
  }

  lemma SendGrows(w: World, i: nat, request: Request, body: Body)
    requires i in w.clients && MaySend(w.clients[i])
    ensures Grows(w, WithRequest(w, i, w.clients[i], request, body))
  {
  }

  lemma DeliverHelloGrows(w: World, j: nat, wire: Wire)
    requires j in w.collectors ==> CollectorOk(w, j)
    ensures Grows(w, Next(w, DeliverHello(j, wire)))
  {
    if Next(w, DeliverHello(j, wire)) != w {
      CollectorStepGrows(w, j, Welcome(w.collectors[j], wire));
    }
  }

  lemma DeliverReadyGrows(w: World, i: nat, wire: Wire)
    requires i in w.clients ==> ClientOk(w, i)
    ensures Grows(w, Next(w, DeliverReady(i, wire)))
  {
    if Next(w, DeliverReady(i, wire)) != w {
      ClientStepGrows(w, i, Greet(w.clients[i], wire));
    }
  }

  lemma NextGrows(w: World, a: Action)
    requires Inv(w)
    ensures Grows(w, Next(w, a))
  {
    match a
    case StartCollector(j, bindings) => StartCollectorGrows(w, j, bindings);
    case StartClient(i, bindings) => StartClientGrows(w, i, bindings);
    case DeliverHello(j, wire) => DeliverHelloGrows(w, j, wire);
    case DeliverReady(i, wire) => DeliverReadyGrows(w, i, wire);
    case SelectCase(i, name) =>
      if Next(w, a) != w {
        ClientStepGrows(w, i, w.clients[i].(selected := Some(CaseDigest(name))));
      }
    case SendCapture(i, event, raw) =>
      if Next(w, a) != w {
        SendGrows(w, i, CaptureRequest, CaptureRequestBody(w.clients[i], event, raw));
      }
    case SendSeal(i, expected) =>
      if Next(w, a) != w {
        SendGrows(w, i, SealRequest(expected), SealRequestBody(w.clients[i], expected));
      }
    case DeliverRequest(j, wire, files) =>
      if Next(w, a) != w {
        HandleGrows(w.collectors[j], wire, files);
        CollectorStepGrows(w, j, Handle(w.collectors[j], wire, files));
      }
    case DeliverReply(i, reply) =>
      if Next(w, a) != w {
        ReceiveGrows(w.clients[i], reply);
        ClientStepGrows(w, i, Receive(w.clients[i], reply));
      }
  }

  lemma TagsStayOk(w: World, v: World, t: Tag)
    requires Grows(w, v) && TagOk(w, t)
    ensures TagOk(v, t)
  {
    if t.Mac? && !t.key.Nonce? && !RequestTag(w, t.key, t.body) {
      var s, s' := w.collectors[t.key.session.collector], v.collectors[t.key.session.collector];
      if k :| 0 <= k < |s.log| && t.body == CapturedBody(s.log[k], s.session, k + 1) {
        assert s'.log[k] == s.log[k];
      }
    }
  }

  // ---- Every step keeps the invariant ----

  lemma ClientStays(w: World, v: World, i: nat)
    requires Grows(w, v) && i in w.clients && ClientOk(w, i)
    requires v.clients[i] == w.clients[i]
    ensures ClientOk(v, i)
  {
  }

  lemma CollectorStays(w: World, v: World, j: nat)
    requires Grows(w, v) && j in w.collectors && CollectorOk(w, j)
    requires v.collectors[j] == w.collectors[j]
    ensures CollectorOk(v, j)
  {
  }

  lemma PairStays(w: World, v: World, j: nat)
    requires Grows(w, v) && j in w.collectors && CollectorOk(w, j) && PairOk(w, j)
    requires v.collectors[j] == w.collectors[j]
    requires w.collectors[j].key.Some? ==>
               var i := w.collectors[j].key.value.client.client; v.clients[i] == w.clients[i]
    ensures CollectorOk(v, j) && PairOk(v, j)
  {
  }

  /** A step of client `i` alone: it is enough to look at that client, its collector and the new tags. */
  lemma ClientStepOk(w: World, v: World, i: nat)
    requires Inv(w) && Grows(w, v) && i in w.clients
    requires v.collectors == w.collectors && v.clients == w.clients[i := v.clients[i]]
    requires ClientOk(v, i)
    requires forall t :: t in v.tags && t !in w.tags ==> TagOk(v, t)
    requires forall j :: j in w.collectors && w.collectors[j].key.Some?
                         && w.collectors[j].key.value.client == ClientChallenge(i)
                         ==> CollectorOk(v, j) && PairOk(v, j)
    ensures Inv(v)
  {
    hide ClientOk, PairOk, TagOk, ClientGrows, CollectorGrows;
    forall k | k in v.clients ensures ClientOk(v, k) {
      if k != i { ClientStays(w, v, k); }
    }
    forall j | j in v.collectors ensures CollectorOk(v, j) && PairOk(v, j) {
      CollectorStays(w, v, j);
      if !(w.collectors[j].key.Some? && w.collectors[j].key.value.client == ClientChallenge(i)) {
        PairStays(w, v, j);
      }
    }
    forall t | t in v.tags ensures TagOk(v, t) {
      if t in w.tags { TagsStayOk(w, v, t); }
    }
  }

  /** A step of collector `j` alone. */
  lemma CollectorStepOk(w: World, v: World, j: nat)
    requires Inv(w) && Grows(w, v) && j in w.collectors
    requires v.clients == w.clients && v.collectors == w.collectors[j := v.collectors[j]]
    requires CollectorOk(v, j) && PairOk(v, j)
    requires forall t :: t in v.tags && t !in w.tags ==> TagOk(v, t)
    ensures Inv(v)
  {
    hide ClientOk, PairOk, TagOk;
    forall i | i in v.clients ensures ClientOk(v, i) { ClientStays(w, v, i); }
    forall k | k in v.collectors ensures CollectorOk(v, k) && PairOk(v, k) {
      if k != j { PairStays(w, v, k); }
    }
    forall t | t in v.tags ensures TagOk(v, t) {
      if t in w.tags { TagsStayOk(w, v, t); }
    }
  }

  lemma StartClientOk(w: World, i: nat, bindings: Bindings)
    requires Inv(w)
    ensures Inv(Next(w, StartClient(i, bindings)))
  {
    hide ClientOk, PairOk, TagOk;
    var v := Next(w, StartClient(i, bindings));
    if v != w {
      StartClientGrows(w, i, bindings);
      FreshClientOk(w, i, bindings);
      forall k | k in v.clients ensures ClientOk(v, k) {
        if k != i { ClientStays(w, v, k); }
      }
      forall j | j in v.collectors ensures CollectorOk(v, j) && PairOk(v, j) { PairStays(w, v, j); }
      forall t | t in v.tags ensures TagOk(v, t) {
        if t in w.tags { TagsStayOk(w, v, t); }
      }
    }
  }

  lemma FreshClientOk(w: World, i: nat, bindings: Bindings)
    requires i !in w.clients
    ensures var v := Next(w, StartClient(i, bindings));
      && ClientOk(v, i)
      && forall t :: t in v.tags && t !in w.tags ==> TagOk(v, t)
  {
    var v := Next(w, StartClient(i, bindings));
    assert HelloTag(v, HelloBody(ClientChallenge(i), bindings));
  }

  lemma StartCollectorOk(w: World, j: nat, bindings: Bindings)
    requires Inv(w)
    ensures Inv(Next(w, StartCollector(j, bindings)))
  {
    var v := Next(w, StartCollector(j, bindings));
    if v != w {
      StartCollectorGrows(w, j, bindings);
      forall i | i in v.clients ensures ClientOk(v, i) { ClientStays(w, v, i); }
      forall k | k in v.collectors ensures CollectorOk(v, k) && PairOk(v, k) {
        if k != j { PairStays(w, v, k); }
      }
      forall t | t in v.tags ensures TagOk(v, t) { TagsStayOk(w, v, t); }
    }
  }

  /** A greeting that passes was built by a client of the same run. */
  lemma HelloIsGenuine(w: World, j: nat, wire: Wire)
    requires Inv(w) && j in w.collectors && Deliverable(wire, w.tags)
    requires HelloAccepted(w.collectors[j], wire)
    ensures var client := wire.body[ClientChallengeField].digest;
      && client.ClientChallenge? && client.client in w.clients
      && w.clients[client.client].bindings == w.collectors[j].bindings
  {
    hide ClientOk, CollectorOk, PairOk;
    assert TagOk(w, wire.auth.value);
    assert ReadyTag(w, wire.body) ==> Status in wire.body.Keys;
  }

  lemma WelcomedOk(w: World, j: nat, wire: Wire)
    requires Inv(w) && j in w.collectors && w.collectors[j].phase.Listening? && Deliverable(wire, w.tags)
    ensures var v := WithStep(w, j, Welcome(w.collectors[j], wire));
      && CollectorOk(v, j) && PairOk(v, j)
      && forall t :: t in v.tags && t !in w.tags ==> TagOk(v, t)
  {
    hide RequestBody, RecordedAs, InStep, TagOk;
    var c := w.collectors[j];
    var v := WithStep(w, j, Welcome(c, wire));
    assert CollectorOk(w, j);
    if HelloAccepted(c, wire) {
      HelloIsGenuine(w, j, wire);
      var client := wire.body[ClientChallengeField].digest;
      assert ClientOk(w, client.client);
      WelcomeTagOk(w, v, j, client);
    }
  }

  lemma WelcomeTagOk(w: World, v: World, j: nat, client: Digest)
    requires j in w.collectors && j in v.collectors && CollectorOk(w, j)
    requires v.collectors[j] == w.collectors[j].(phase := Serving,
               key := Some(SessionKey(client, ServerChallenge(j), SessionId(j), w.collectors[j].bindings)))
    ensures TagOk(v, ReadyWire(w.collectors[j], client).auth.value)
  {
    var c := w.collectors[j];
    assert ReadyTag(v, ReadyBinding(ReadyBody(c.session, c.challenge), client, c.bindings));
  }

  lemma DeliverHelloOk(w: World, j: nat, wire: Wire)
    requires Inv(w)
    ensures Inv(Next(w, DeliverHello(j, wire)))
  {
    hide ClientOk, PairOk, TagOk;
    var v := Next(w, DeliverHello(j, wire));
    if v != w {
      DeliverHelloGrows(w, j, wire);
      WelcomedOk(w, j, wire);
      CollectorStepOk(w, v, j);
    }
  }

  /** An accepted `ready` answer came from the collector it names, greeting this very client. */
  lemma ReadyIsGenuine(w: World, i: nat, wire: Wire)
    requires Inv(w) && i in w.clients && Deliverable(wire, w.tags)
    requires ReadyAccepted(w.clients[i], wire)
    ensures var c := w.clients[i]; var session := wire.body[SessionField].digest;
      && session.SessionId? && session.collector in w.collectors
      && w.collectors[session.collector].key
         == Some(SessionKey(c.challenge, wire.body[ServerChallengeField].digest, session, c.bindings))
  {
    var c := w.clients[i];
    var body := ReadyBinding(wire.body, c.challenge, c.bindings);
    assert TagOk(w, wire.auth.value);
    assert Status in body.Keys;
    assert ReadyTag(w, body);
    var j := body[SessionField].digest.collector;
    var s := w.collectors[j];
    var other := ReadyBinding(ReadyBody(s.session, s.challenge), s.key.value.client, s.bindings);
    assert body == other;
    assert body[ClientChallengeField] == other[ClientChallengeField];
    assert body[BindingsField] == other[BindingsField];
    assert body[ServerChallengeField] == other[ServerChallengeField];
    assert CollectorOk(w, j);
  }

  lemma DeliverReadyOk(w: World, i: nat, wire: Wire)
    requires Inv(w)
    ensures Inv(Next(w, DeliverReady(i, wire)))
  {
    var v := Next(w, DeliverReady(i, wire));
    if v != w {
      DeliverReadyGrows(w, i, wire);
      assert ClientOk(w, i);
      if ReadyAccepted(w.clients[i], wire) {
        ReadyIsGenuine(w, i, wire);
      }
      forall j | j in w.collectors && w.collectors[j].key.Some?
                 && w.collectors[j].key.value.client == ClientChallenge(i)
        ensures CollectorOk(v, j) && PairOk(v, j)
      {
        CollectorStays(w, v, j);
        assert PairOk(w, j) && !Linked(w, i, j);
      }
      ClientStepOk(w, v, i);
    }
  }

  lemma SelectClientOk(w: World, i: nat, name: string)
    requires i in w.clients && ClientOk(w, i)
    ensures ClientOk(WithClient(w, i, w.clients[i].(selected := Some(CaseDigest(name)))), i)
  {
    var v := WithClient(w, i, w.clients[i].(selected := Some(CaseDigest(name))));
    if v.clients[i].link.Some? {
      assert Linked(v, i, v.clients[i].link.value.session.collector);
    }
    assert forall body :: RequestBody(w.clients[i], body) ==> RequestBody(v.clients[i], body);
  }

  lemma SelectCaseOk(w: World, i: nat, name: string)
    requires Inv(w)
    ensures Inv(Next(w, SelectCase(i, name)))
  {
    hide ClientOk, PairOk, TagOk;
    var v := Next(w, SelectCase(i, name));
    if v != w {
      ClientStepGrows(w, i, w.clients[i].(selected := Some(CaseDigest(name))));
      SelectClientOk(w, i, name);
      forall j | j in w.collectors && w.collectors[j].key.Some?
                 && w.collectors[j].key.value.client == ClientChallenge(i)
        ensures CollectorOk(v, j) && PairOk(v, j)
      {
        CollectorStays(w, v, j);
        SameHistoryPair(w, v, i, j);
      }
      ClientStepOk(w, v, i);
    }
  }

  /** Sending more requests takes no backing away. */
  lemma SameHistoryPair(w: World, v: World, i: nat, j: nat)
    requires j in w.collectors && i in w.clients && CollectorOk(w, j) && PairOk(w, j)
    requires w.collectors[j].key.Some? && w.collectors[j].key.value.client == ClientChallenge(i)
    requires v.collectors == w.collectors && i in v.clients && CollectorOk(v, j)
    requires var c, d := w.clients[i], v.clients[i];
      d.link == c.link && c.outbox <= d.outbox && d.count == c.count && d.acked == c.acked && d.labels == c.labels
    ensures PairOk(v, j)
  {
    if Linked(v, i, j) {
      var s := w.collectors[j];
      assert Linked(w, i, j);
      forall k | 0 <= k < |s.log| ensures Backed(v.clients[i].outbox, k + 1, s.log[k]) {
        assert Backed(w.clients[i].outbox, k + 1, s.log[k]);
        var m :| 0 <= m < |w.clients[i].outbox| && RecordedAs(w.clients[i].outbox[m], k + 1, s.log[k]);
        assert v.clients[i].outbox[m] == w.clients[i].outbox[m];
      }
      if AskedToSeal(w.clients[i]) {
        var m :| 0 <= m < |w.clients[i].outbox| && Get(w.clients[i].outbox[m], Command) == Some(Text("seal"));
        assert v.clients[i].outbox[m] == w.clients[i].outbox[m];
      }
    }
  }

  lemma SentOk(c: Client, request: Request, body: Body)
    requires MaySend(c) && RequestBody(c, body) && body[Sequence] == Number(c.count + 1)
    requires forall b :: b in c.outbox ==> RequestBody(c, b)
    requires !c.reused ==> InStep(c)
    ensures var d := Sent(c, request, body);
      && (forall b :: b in d.outbox ==> RequestBody(d, b))
      && (!d.reused ==> InStep(d))
  {
    var d := Sent(c, request, body);
    forall b | b in d.outbox ensures RequestBody(d, b) {
      if b != body { assert b in c.outbox; }
    }
  }

  lemma SendClientOk(w: World, i: nat, request: Request, body: Body)
    requires i in w.clients && MaySend(w.clients[i]) && ClientOk(w, i)
    requires RequestBody(w.clients[i], body) && body[Sequence] == Number(w.clients[i].count + 1)
    ensures var v := WithRequest(w, i, w.clients[i], request, body);
      ClientOk(v, i) && TagOk(v, Mac(w.clients[i].link.value.key, body))
  {
    hide RequestBody, InStep, HelloTag, ReadyTag, AnswerTagOk;
    var c := w.clients[i];
    var v := WithRequest(w, i, c, request, body);
    SentOk(c, request, body);
    assert Linked(v, i, c.link.value.session.collector);
    assert v.clients[i].outbox[|c.outbox|] == body;
    assert RequestTag(v, c.link.value.key, body);
  }

  lemma SendOk(w: World, i: nat, request: Request, body: Body)
    requires Inv(w) && i in w.clients && MaySend(w.clients[i])
    requires RequestBody(w.clients[i], body) && body[Sequence] == Number(w.clients[i].count + 1)
    ensures Inv(WithRequest(w, i, w.clients[i], request, body))
  {
    hide ClientOk, PairOk, TagOk;
    var v := WithRequest(w, i, w.clients[i], request, body);
    SendGrows(w, i, request, body);
    SendClientOk(w, i, request, body);
    forall j | j in w.collectors && w.collectors[j].key.Some?
               && w.collectors[j].key.value.client == ClientChallenge(i)
      ensures CollectorOk(v, j) && PairOk(v, j)
    {
      CollectorStays(w, v, j);
      SameHistoryPair(w, v, i, j);
    }
    ClientStepOk(w, v, i);
  }

  /** A frame the collector accepts as a request was sent by the client it greeted. */
  lemma RequestIsGenuine(w: World, j: nat, wire: Wire)
    requires Inv(w) && j in w.collectors && Serves(w.collectors[j]) && Deliverable(wire, w.tags)
    requires RequestAccepted(w.collectors[j], wire) && Command in wire.body.Keys
    ensures CollectorOk(w, j)
    ensures var i := w.collectors[j].key.value.client.client;
      Linked(w, i, j) && wire.body in w.clients[i].outbox
  {
    var key := w.collectors[j].key.value;
    assert CollectorOk(w, j) && TagOk(w, wire.auth.value);
    if AnswerTagOk(w, key, wire.body) {
      AnswersCarryNoCommand(w.collectors[j], wire.body);
    }
  }

  lemma AnswersCarryNoCommand(s: Collector, body: Body)
    requires AnswerBody(s, body)
    ensures Command !in body.Keys
  {
  }

  /** A request accepted by the collector bears the next sequence, so nothing is missing before it. */
  lemma RequestIsNext(w: World, i: nat, j: nat, wire: Wire)
    requires Inv(w) && Linked(w, i, j) && CollectorOk(w, j) && PairOk(w, j)
    requires w.collectors[j].key.Some? && w.collectors[j].key.value.client == ClientChallenge(i)
    requires Serves(w.collectors[j]) && RequestAccepted(w.collectors[j], wire) && wire.body in w.clients[i].outbox
    ensures w.clients[i].count == |w.collectors[j].log|
  {
    assert ClientOk(w, i) && RequestBody(w.clients[i], wire.body);
  }

  /** What a turn on an accepted capture does: it refuses, or it records and acknowledges one entry. */
  lemma CaptureTurn(c: Collector, wire: Wire, files: Files) returns (entry: Digest)
    requires Serves(c) && c.expected == |c.log| + 1 && RequestAccepted(c, wire) && Get(wire.body, Command) == Some(Text("capture"))
    ensures var step := Handle(c, wire, files);
      || step == Step(Abort(c), None)
      || (&& RecordedAs(wire.body, |c.log| + 1, entry)
          && step.state == c.(log := c.log + [entry], kindCounts := step.state.kindCounts,
                              ordinals := step.state.ordinals, expected := c.expected + 1)
          && var answer := CapturedBody(entry, c.session, c.expected);
             step.answer == Some(Wire(answer, Some(Mac(c.key.value, answer)))))
  {
    var event := NormalizeCapture(wire.body - {SessionField, Sequence}, |c.log| + 1);
    entry := if event.Ok? then CaptureDigest(event.value) else Arbitrary("");
  }

  /** What a turn on an accepted seal does: it refuses, or it closes a log that is not empty. */
  lemma SealTurn(c: Collector, wire: Wire, files: Files)
    requires Serves(c) && RequestAccepted(c, wire) && Get(wire.body, Command) == Some(Text("seal"))
    ensures var step := Handle(c, wire, files);
      || step == Step(Abort(c), None)
      || (c.log != [] && step == Step(Abort(c.(goldenOpened := true)), None))
      || (&& c.log != []
          && step.state == c.(phase := Sealed, goldenOpened := true, evidence := Some(EvidenceOf(c)))
          && files.golden.Some? && GoldenDigest(files.golden.value) == c.bindings.goldenSha
          && var answer := SealedBody(files.golden.value, c.log, c.session, c.expected);
             step.answer == Some(Wire(answer, Some(Mac(c.key.value, answer)))))
  {
  }

  /** The collector's state after a turn on a request of the client it greeted. */
  lemma CollectorTurnOk(w: World, i: nat, j: nat, step: Step, body: Body)
    requires Inv(w) && Linked(w, i, j) && w.clients[i].count == |w.collectors[j].log|
    requires CollectorOk(w, j) && w.collectors[j].key.Some? && w.collectors[j].key.value.client == ClientChallenge(i)
    requires CollectorGrows(w.collectors[j], step.state) && step.state.key == w.collectors[j].key
    requires step.state.expected == |step.state.log| + 1
    requires var c, d := w.collectors[j], step.state;
      && (d.log == c.log || (d.log == c.log + [d.log[|c.log|]] && RecordedAs(body, |c.log| + 1, d.log[|c.log|])))
      && body in w.clients[i].outbox
      && (d.goldenOpened ==> d.log != [] && d.log == c.log && !d.phase.Serving? && Get(body, Command) == Some(Text("seal")))
      && (d.phase.Sealed? ==> d.goldenOpened) && !d.phase.Listening? && !c.phase.Sealed?
    requires AnswerTag(step.answer) == {}
             || (&& step.answer.Some? && AnswerTag(step.answer) == {Mac(step.state.key.value, step.answer.value.body)}
                 && AnswerBody(step.state, step.answer.value.body))
    ensures Inv(WithStep(w, j, step))
  {
    var v := WithStep(w, j, step);
    var d := step.state;
    CollectorStepGrows(w, j, step);
    CollectorTurnPair(w, i, j, step, body);
    hide CollectorGrows, CollectorOk, PairOk, ClientOk, RecordedAs, AnswerBody;
    if AnswerTag(step.answer) != {} {
      assert AnswerTagOk(v, d.key.value, step.answer.value.body);
    }
    CollectorStepOk(w, v, j);
  }

  lemma CollectorTurnPair(w: World, i: nat, j: nat, step: Step, body: Body)
    requires Inv(w) && Linked(w, i, j) && w.clients[i].count == |w.collectors[j].log|
    requires CollectorOk(w, j) && w.collectors[j].key.Some? && w.collectors[j].key.value.client == ClientChallenge(i)
    requires CollectorGrows(w.collectors[j], step.state) && step.state.key == w.collectors[j].key
    requires step.state.expected == |step.state.log| + 1
    requires var c, d := w.collectors[j], step.state;
      && (d.log == c.log || (d.log == c.log + [d.log[|c.log|]] && RecordedAs(body, |c.log| + 1, d.log[|c.log|])))
      && body in w.clients[i].outbox
      && (d.goldenOpened ==> d.log != [] && d.log == c.log && !d.phase.Serving? && Get(body, Command) == Some(Text("seal")))
      && (d.phase.Sealed? ==> d.goldenOpened) && !d.phase.Listening? && !c.phase.Sealed?
    ensures var v := WithStep(w, j, step); Linked(v, i, j) && CollectorOk(v, j) && PairOk(v, j)
    ensures step.state.key.value.SessionKey? && step.state.key.value.session == SessionId(j)
  {
    hide RecordedAs, ClientOk, TagOk;
    var v := WithStep(w, j, step);
    var c, d := w.collectors[j], step.state;
    assert PairOk(w, j) && Linked(v, i, j);
    forall k | 0 <= k < |d.log| ensures Backed(v.clients[i].outbox, k + 1, d.log[k]) {
      if k < |c.log| { assert Backed(w.clients[i].outbox, k + 1, c.log[k]); }
    }
  }

  lemma DeliverCaptureOk(w: World, j: nat, wire: Wire, files: Files)
    requires Inv(w) && j in w.collectors && Serves(w.collectors[j]) && Deliverable(wire, w.tags)
    requires RequestAccepted(w.collectors[j], wire) && Get(wire.body, Command) == Some(Text("capture"))
    ensures Inv(WithStep(w, j, Handle(w.collectors[j], wire, files)))
  {
    var c := w.collectors[j];
    RequestIsGenuine(w, j, wire);
    assert PairOk(w, j);
    RequestIsNext(w, c.key.value.client.client, j, wire);
    hide Inv, Handle, Record, RequestAccepted;
    var entry := CaptureTurn(c, wire, files);
    var step := Handle(c, wire, files);
    if step.answer.Some? {
      assert step.state.log[|c.log|] == entry;
      assert AnswerBody(step.state, step.answer.value.body);
    }
    CollectorTurnOk(w, c.key.value.client.client, j, step, wire.body);
  }

  lemma DeliverSealOk(w: World, j: nat, wire: Wire, files: Files)
    requires Inv(w) && j in w.collectors && Serves(w.collectors[j]) && Deliverable(wire, w.tags)
    requires RequestAccepted(w.collectors[j], wire) && Get(wire.body, Command) == Some(Text("seal"))
    ensures Inv(WithStep(w, j, Handle(w.collectors[j], wire, files)))
  {
    var c := w.collectors[j];
    RequestIsGenuine(w, j, wire);
    assert PairOk(w, j);
    RequestIsNext(w, c.key.value.client.client, j, wire);
    SealTurn(c, wire, files);
    var step := Handle(c, wire, files);
    if step.answer.Some? {
      assert AnswerBody(step.state, step.answer.value.body);
    }
    CollectorTurnOk(w, c.key.value.client.client, j, step, wire.body);
  }

  lemma OtherwiseAborts(c: Collector, wire: Wire, files: Files)
    requires Serves(c)
    requires !(RequestAccepted(c, wire) && Get(wire.body, Command) in {Some(Text("capture")), Some(Text("seal"))})
    ensures Handle(c, wire, files) == Step(Abort(c), None)
  {
    hide NormalizeCapture, RequestAccepted;
  }

  lemma DeliverRequestOk(w: World, j: nat, wire: Wire, files: Files)
    requires Inv(w)
    ensures Inv(Next(w, DeliverRequest(j, wire, files)))
  {
    hide ClientOk, PairOk, TagOk, Handle, RequestAccepted;
    var v := Next(w, DeliverRequest(j, wire, files));
    if v != w {
      var c := w.collectors[j];
      var accepted := RequestAccepted(c, wire);
      if accepted && Get(wire.body, Command) == Some(Text("capture")) {
        DeliverCaptureOk(w, j, wire, files);
      } else if accepted && Get(wire.body, Command) == Some(Text("seal")) {
        DeliverSealOk(w, j, wire, files);
      } else {
        OtherwiseAborts(c, wire, files);
        CollectorStepGrows(w, j, Handle(c, wire, files));
        AbortOk(w, v, j);
      }
    }
  }

  lemma AbortOk(w: World, v: World, j: nat)
    requires Inv(w) && Grows(w, v) && j in w.collectors && Serves(w.collectors[j])
    requires v == w.(collectors := w.collectors[j := Abort(w.collectors[j])])
    ensures Inv(v)
  {
    assert CollectorOk(w, j) && PairOk(w, j);
    var i := w.collectors[j].key.value.client.client;
    assert Linked(v, i, j) <==> Linked(w, i, j);
    CollectorStepOk(w, v, j);
  }

  /** An acknowledgement the client accepts was made by its collector, from the entry it logged. */
  lemma ReplyIsGenuine(w: World, i: nat, wire: Wire)
    requires Inv(w) && i in w.clients && Live(w.clients[i]) && Deliverable(wire, w.tags)
    requires ReplyAccepted(w.clients[i], wire) && Command !in wire.body.Keys
    ensures var link := w.clients[i].link.value;
      && link.session.SessionId? && Linked(w, i, link.session.collector)
      && CollectorOk(w, link.session.collector)
      && AnswerBody(w.collectors[link.session.collector], wire.body)
  {
    var c := w.clients[i];
    assert ClientOk(w, i) && TagOk(w, wire.auth.value);
    var j := c.link.value.session.collector;
    assert CollectorOk(w, j);
    if RequestTag(w, c.link.value.key, wire.body) {
      RequestsCarryCommand(w, c.link.value.key, wire.body);
    }
  }

  lemma RequestsCarryCommand(w: World, key: Key, body: Body)
    requires Inv(w) && key.SessionKey? && RequestTag(w, key, body)
    ensures Command in body.Keys
  {
    assert ClientOk(w, key.client.client);
  }

  /** What the client makes of a reply: an error, an acknowledgement of its next entry, or the labels. */
  lemma ReceiveTurn(c: Client, wire: Wire, s: Collector)
    requires Live(c) && c.pending.Some? && ReplyAccepted(c, wire) && AnswerBody(s, wire.body)
    ensures ReplyEffect(c, Receive(c, Some(wire)), s)
  {
    AnswerMeansLogged(s, wire.body, c);
  }

  /** A reply changes the client only in step with its collector's log. */
  ghost predicate ReplyEffect(c: Client, d: Client, s: Collector)
  {
    || d == Failure(c)
    || (c.count < |s.log| && d == c.(pending := None, count := c.count + 1, acked := c.acked + [s.log[c.count]]))
    || (s.phase.Sealed? && d.labels.Some? && Released(s, d.labels.value)
        && d == c.(pending := None, phase := Closed, labels := d.labels))
  }

  lemma ReplyPairOk(w: World, v: World, i: nat, j: nat, d: Client)
    requires i in w.clients && v == WithClient(w, i, d) && Linked(w, i, j)
    requires CollectorOk(w, j) && PairOk(w, j) && CollectorOk(v, j)
    requires w.collectors[j].key.value.client == ClientChallenge(i)
    requires ReplyEffect(w.clients[i], d, w.collectors[j])
    ensures PairOk(v, j)
  {
    hide RecordedAs, RequestBody, InStep;
    var c, s := w.clients[i], w.collectors[j];
    if d.count == c.count + 1 {
      assert s.log[..c.count + 1] == s.log[..c.count] + [s.log[c.count]];
    }
  }

  lemma UnlinkedPairOk(w: World, v: World, i: nat, j: nat)
    requires v.collectors == w.collectors && j in w.collectors
    requires CollectorOk(w, j) && PairOk(w, j) && CollectorOk(v, j)
    requires w.collectors[j].key.Some? && w.collectors[j].key.value.client == ClientChallenge(i)
    requires !Linked(w, i, j) && !Linked(v, i, j)
    ensures PairOk(v, j)
  {
  }

  lemma ReplyClientOk(w: World, v: World, i: nat, j: nat, d: Client)
    requires i in w.clients && ClientOk(w, i) && Live(w.clients[i]) && w.clients[i].pending.Some?
    requires Linked(w, i, j) && v == WithClient(w, i, d) && ReplyEffect(w.clients[i], d, w.collectors[j])
    ensures ClientOk(v, i)
  {
    hide PairOk;
    var c := w.clients[i];
    assert Linked(v, i, j);
    forall body | body in d.outbox ensures RequestBody(d, body) { assert RequestBody(c, body); }
  }

  /** A client step on its own collector's answer. */
  lemma ClientTurnOk(w: World, i: nat, j: nat, d: Client)
    requires Inv(w) && i in w.clients && Live(w.clients[i]) && w.clients[i].pending.Some? && Linked(w, i, j)
    requires ReplyEffect(w.clients[i], d, w.collectors[j])
    ensures Inv(WithClient(w, i, d))
  {
    var v := WithClient(w, i, d);
    ClientStepGrows(w, i, d);
    assert ClientOk(w, i);
    ReplyClientOk(w, v, i, j, d);
    forall k | k in w.collectors && w.collectors[k].key.Some?
               && w.collectors[k].key.value.client == ClientChallenge(i)
      ensures CollectorOk(v, k) && PairOk(v, k)
    {
      CollectorStays(w, v, k);
      assert CollectorOk(w, k) && PairOk(w, k);
      if k == j { ReplyPairOk(w, v, i, j, d); } else { UnlinkedPairOk(w, v, i, k); }
    }
    ClientStepOk(w, v, i);
  }

  lemma ReplyHasEffect(w: World, i: nat, reply: Option<Wire>) returns (j: nat)
    requires Inv(w) && i in w.clients && Live(w.clients[i]) && w.clients[i].pending.Some?
    requires reply.Some? ==> Deliverable(reply.value, w.tags)
    ensures Linked(w, i, j) && ReplyEffect(w.clients[i], Receive(w.clients[i], reply), w.collectors[j])
  {
    hide PairOk, TagOk, RequestBody, InStep, AnswerBody, ReplyAccepted;
    var c := w.clients[i];
    assert ClientOk(w, i);
    j := c.link.value.session.collector;
    if reply.Some? && ReplyAccepted(c, reply.value) && Command !in reply.value.body.Keys {
      ReplyIsGenuine(w, i, reply.value);
      ReceiveTurn(c, reply.value, w.collectors[j]);
    } else {
      assert Receive(c, reply) == Failure(c);
    }
  }

  lemma DeliverReplyOk(w: World, i: nat, reply: Option<Wire>)
    requires Inv(w)
    ensures Inv(Next(w, DeliverReply(i, reply)))
  {
    hide ClientOk, PairOk, TagOk, Receive, ReplyEffect;
    var v := Next(w, DeliverReply(i, reply));
    if v != w {
      var j := ReplyHasEffect(w, i, reply);
      ClientTurnOk(w, i, j, Receive(w.clients[i], reply));
    }
  }

  /** Reading an answer: a `captured` one names the entry at its sequence, a `sealed` one a sealed log. */
  lemma AnswerMeansLogged(s: Collector, body: Body, c: Client)
    requires AnswerBody(s, body) && Get(body, Sequence) == Some(Number(c.count + 1))
    ensures CapturedShape(body) ==> c.count < |s.log| && body[CaptureSha] == Sha(s.log[c.count])
    ensures forall expected :: SealedShape(body, expected) ==>
              && s.phase.Sealed? && GoldenDigest(body[GoldenPayload].golden) == s.bindings.goldenSha
              && body[OrderedDigest] == Sha(LedgerDigest(s.log)) && expected == |s.log|
  {
    if k :| 0 <= k < |s.log| && body == CapturedBody(s.log[k], s.session, k + 1) {
      assert body[Sequence] == Number(k + 1);
      assert body[Status] == Text("captured");
    } else {
      var golden :| GoldenDigest(golden) == s.bindings.goldenSha
                    && body == SealedBody(golden, s.log, s.session, s.expected);
      assert body[Status] == Text("sealed");
      assert body[GoldenPayload] == GoldenValue(golden);
      assert body[OrderedDigest] == Sha(LedgerDigest(s.log)) && body[RequestCount] == Number(|s.log|);
    }
  }

  lemma NextOk(w: World, a: Action)
    requires Inv(w)
    ensures Inv(Next(w, a))
  {
    hide ClientOk, PairOk, TagOk;
    match a
    case StartCollector(j, bindings) => StartCollectorOk(w, j, bindings);
    case StartClient(i, bindings) => StartClientOk(w, i, bindings);
    case DeliverHello(j, wire) => DeliverHelloOk(w, j, wire);
    case DeliverReady(i, wire) => DeliverReadyOk(w, i, wire);
    case SelectCase(i, name) => SelectCaseOk(w, i, name);
    case SendCapture(i, event, raw) =>
      if Next(w, a) != w {
        SendOk(w, i, CaptureRequest, CaptureRequestBody(w.clients[i], event, raw));
      }
    case SendSeal(i, expected) =>
      if Next(w, a) != w {
        SendOk(w, i, SealRequest(expected), SealRequestBody(w.clients[i], expected));
      }
    case DeliverRequest(j, wire, files) => DeliverRequestOk(w, j, wire, files);
    case DeliverReply(i, reply) => DeliverReplyOk(w, i, reply);
  }

  lemma RunOk(w: World, actions: seq<Action>)
    requires Inv(w)
    ensures Inv(Run(w, actions))
    decreases |actions|
  {
    if actions != [] {
      NextOk(w, actions[0]);
      RunOk(Next(w, actions[0]), actions[1..]);
    }
  }
}
