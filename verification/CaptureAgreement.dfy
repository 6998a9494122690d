/** What whole runs of the capture protocol guarantee, and what they do not. */
module CaptureAgreement {
  import opened Outcomes
  import opened CaptureFrames
  import opened CaptureProtocol
  import opened CaptureNetwork

  /** The world after any sequence of actions of the parties and the channel. */
  function After(actions: seq<Action>): World
  {
    Run(Initial, actions)
  }

  lemma InvAfter(actions: seq<Action>)
    ensures Inv(After(actions))
  {
    RunOk(Initial, actions);
  }

  lemma {:induction false} RunAppend(w: World, first: seq<Action>, second: seq<Action>)
    ensures Run(w, first + second) == Run(Run(w, first), second)
    decreases |first|
  {
    if first == [] {
      assert first + second == second;
    } else {
      assert (first + second)[0] == first[0] && (first + second)[1..] == first[1..] + second;
      RunAppend(Next(w, first[0]), first[1..], second);
    }
  }

  lemma {:induction false} RunGrows(w: World, actions: seq<Action>)
    requires Inv(w)
    ensures Grows(w, Run(w, actions)) && Inv(Run(w, actions))
    decreases |actions|
  {
    hide ClientOk, PairOk, CollectorOk, TagOk, Next;
    if actions != [] {
      NextOk(w, actions[0]);
      NextGrows(w, actions[0]);
      RunGrows(Next(w, actions[0]), actions[1..]);
      GrowsTransitive(w, Next(w, actions[0]), Run(w, actions));
    }
  }

  lemma GrowsTransitive(u: World, v: World, w: World)
    requires Grows(u, v) && Grows(v, w)
    ensures Grows(u, w)
  {
  }

  /** The log records, in order, the requests this client sent first, second, third, ... */
  ghost predicate LogIsPrefixOfSent(s: Collector, c: Client)
  {
    |s.log| <= |c.outbox| && forall k :: 0 <= k < |s.log| ==> RecordedAs(c.outbox[k], k + 1, s.log[k])
  }

  /** A collector with a non-empty log greeted one client, which holds its session key; that client's
      acknowledgements are the log's own entries, at most one entry is not acknowledged yet, and
      every entry was computed from a request the client sent under that very sequence number. */
  lemma LogAgreesWithClient(actions: seq<Action>, j: nat) returns (i: nat)
    requires j in After(actions).collectors && After(actions).collectors[j].log != []
    ensures var w := After(actions);
      && i in w.clients && Linked(w, i, j)
      && var c, s := w.clients[i], w.collectors[j];
      && c.count <= |s.log| <= c.count + 1
      && c.acked == s.log[..c.count]
      && (forall k :: 0 <= k < |s.log| ==> Backed(c.outbox, k + 1, s.log[k]))
      && (!c.reused ==> LogIsPrefixOfSent(s, c))
  {
    var w := After(actions);
    InvAfter(actions);
    assert CollectorOk(w, j) && PairOk(w, j);
    i := w.collectors[j].key.value.client.client;
    assert ClientOk(w, i);
    if !w.clients[i].reused {
      BackedInOrder(w.collectors[j], w.clients[i]);
    }
  }

  lemma BackedInOrder(s: Collector, c: Client)
    requires InStep(c) && forall k :: 0 <= k < |s.log| ==> Backed(c.outbox, k + 1, s.log[k])
    ensures LogIsPrefixOfSent(s, c)
  {
    forall k | 0 <= k < |s.log| ensures k < |c.outbox| && RecordedAs(c.outbox[k], k + 1, s.log[k]) {
      assert Backed(c.outbox, k + 1, s.log[k]);
      var m :| 0 <= m < |c.outbox| && RecordedAs(c.outbox[m], k + 1, s.log[k]);
      assert Get(c.outbox[m], Sequence) == Some(Number(m + 1));
    }
    if s.log != [] {
      var last := s.log[|s.log| - 1];
    }
  }

  /** A greeted client and its collector are paired one to one. */
  lemma PairingIsInjective(actions: seq<Action>, i: nat, i': nat, j: nat, j': nat)
    requires Linked(After(actions), i, j) && Linked(After(actions), i', j')
    ensures i == i' <==> j == j'
  {
    InvAfter(actions);
    var w := After(actions);
    assert ClientOk(w, i) && ClientOk(w, i');
  }

  /** The one-way gate.  If the golden file has been opened, the log is not empty, every entry was
      acknowledged, the client had asked to seal, and whatever happens next adds nothing to it: not to
      the collector, not to the client's count or acknowledgements. */
  lemma GoldenOpensOnce(before: seq<Action>, later: seq<Action>, j: nat)
    requires j in After(before).collectors && After(before).collectors[j].goldenOpened
    ensures var w, v := After(before), After(before + later);
      && j in v.collectors && v.collectors[j] == w.collectors[j] && w.collectors[j].log != []
      && exists i :: i in w.clients && i in v.clients && Linked(w, i, j) && Linked(v, i, j)
                     && w.clients[i].count == v.clients[i].count == |w.collectors[j].log|
                     && w.clients[i].acked == v.clients[i].acked == w.collectors[j].log
                     && AskedToSeal(w.clients[i])
  {
    var w, v := After(before), After(before + later);
    InvAfter(before);
    RunAppend(Initial, before, later);
    RunGrows(w, later);
    assert CollectorOk(w, j) && PairOk(w, j);
    assert CollectorOk(v, j) && PairOk(v, j);
    var i := w.collectors[j].key.value.client.client;
    assert Linked(v, i, j);
    var s := w.collectors[j];
    assert s.log[..|s.log|] == s.log;
  }

  /** As long as a client has sent nothing but captures, its collector has not opened the golden file. */
  lemma ClosedUntilAsked(actions: seq<Action>, i: nat, j: nat)
    requires Linked(After(actions), i, j) && !AskedToSeal(After(actions).clients[i])
    ensures !After(actions).collectors[j].goldenOpened
  {
    var w := After(actions);
    InvAfter(actions);
    assert CollectorOk(w, j) && PairOk(w, j) && ClientOk(w, i);
  }

  lemma SealedPair(w: World, i: nat)
    requires Inv(w) && i in w.clients && w.clients[i].labels.Some?
    ensures var c := w.clients[i];
      && c.link.Some? && c.link.value.session.SessionId?
      && var j := c.link.value.session.collector;
      && Linked(w, i, j)
      && var s := w.collectors[j];
      && s.phase.Sealed? && s.log != [] && c.acked == s.log && c.count == |s.log|
      && Released(s, c.labels.value) && s.bindings == c.bindings
  {
    hide Backed, RequestBody, InStep, TagOk;
    assert ClientOk(w, i);
    var j := w.clients[i].link.value.session.collector;
    assert CollectorOk(w, j) && PairOk(w, j);
    assert w.collectors[j].log[..|w.collectors[j].log|] == w.collectors[j].log;
  }

  /** Labels reach a client only from its own collector, sealed over exactly the requests the client
      had acknowledged, with the digest and count that the collector put in its evidence. */
  lemma LabelsMeanSealed(actions: seq<Action>, i: nat)
    requires i in After(actions).clients && After(actions).clients[i].labels.Some?
    ensures var w := After(actions);
      var c := w.clients[i];
      && c.link.Some? && c.link.value.session.SessionId?
      && var j := c.link.value.session.collector;
      && Linked(w, i, j)
      && var s, labels := w.collectors[j], c.labels.value;
      && s.phase.Sealed? && EvidenceTrue(s) && s.evidence == Some(EvidenceOf(s))
      && c.acked == s.log && s.log != []
      && labels.requestCount == s.evidence.value.requestCount == c.count
      && labels.orderedDigest == s.evidence.value.orderedDigest == LedgerDigest(c.acked)
      && GoldenDigest(labels.golden) == c.bindings.goldenSha
  {
    var w := After(actions);
    InvAfter(actions);
    RunKeepsBooks(Initial, actions);
    SealedPair(w, i);
    hide Inv, BooksOk, After;
    var j := w.clients[i].link.value.session.collector;
    assert EvidenceOk(w.collectors[j]) && Released(w.collectors[j], w.clients[i].labels.value);
  }

  // ---- A request and its acknowledgement ----

  function RequestWire(c: Client, event: Event, raw: Payload): Wire
    requires Live(c) && c.selected.Some?
  {
    Wire(CaptureRequestBody(c, event, raw), Some(Mac(c.link.value.key, CaptureRequestBody(c, event, raw))))
  }

  /** The collector's acknowledgement of the client's next sequence number. */
  function AcknowledgementOf(c: Client, entry: Digest): Wire
    requires Live(c)
  {
    var answer := CapturedBody(entry, c.link.value.session, c.count + 1);
    Wire(answer, Some(Mac(c.link.value.key, answer)))
  }

  /** Delivered in turn, a request that fits is recorded and acknowledged. */
  lemma HandledRequest(c: Client, s: Collector, event: Event, raw: Payload, safe: SafeEvent, files: Files)
    requires MaySend(c) && c.selected.Some? && Serves(s)
    requires s.key == Some(c.link.value.key) && s.session == c.link.value.session
    requires s.expected == |s.log| + 1 == c.count + 1
    requires NormalizeEvent(event, raw, c.selected.value, c.count + 1) == Ok(safe) && Recordable(s, Ok(safe))
    ensures Handle(s, RequestWire(c, event, raw), files)
            == Step(Recorded(s, safe), Some(AcknowledgementOf(c, CaptureDigest(safe))))
  {
    hide NormalizeEvent, Recordable;
    var body := CaptureRequestBody(c, event, raw);
    var frame := body - {SessionField, Sequence};
    assert frame.Keys == {Command, CaseField, EventField, RawPayload};
    assert NormalizeCapture(frame, c.count + 1) == NormalizeEvent(event, raw, c.selected.value, c.count + 1);
    assert RequestAccepted(s, RequestWire(c, event, raw));
  }

  // ---- The collector's own books ----

  /** How many entries of the log name this model. */
  function ModelCount(log: seq<Digest>, model: string): nat
  {
    if log == [] then 0
    else
      var last := log[|log| - 1];
      ModelCount(log[..|log| - 1], model) + (if last.CaptureDigest? && last.event.model == model then 1 else 0)
  }

  function KindCount(log: seq<Digest>, kind: Kind): nat
  {
    if log == [] then 0
    else
      var last := log[|log| - 1];
      KindCount(log[..|log| - 1], kind) + (if last.CaptureDigest? && last.event.kind == kind then 1 else 0)
  }

  /** Entry k is request k + 1, of a known kind, numbered next for its model. */
  ghost predicate EntryOk(log: seq<Digest>, k: nat)
    requires k < |log|
  {
    && log[k].CaptureDigest?
    && log[k].event.sequence == k + 1
    && log[k].event.kind in {Embedding, Query, Generation, Repair}
    && log[k].event.ordinal == ModelCount(log[..k], log[k].event.model) + 1
  }

  ghost predicate BooksOk(c: Collector)
  {
    && c.expected == |c.log| + 1 <= MAX_REQUESTS + 1
    && (forall k :: 0 <= k < |c.log| ==> EntryOk(c.log, k))
    && (forall model :: Lookup(c.ordinals, model) == ModelCount(c.log, model))
    && (forall kind :: Lookup(c.kindCounts, kind) == KindCount(c.log, kind))
    && (forall kind :: kind in c.kindCounts ==> c.kindCounts[kind] > 0)
  }

  /** The evidence is true of the log: its length, how many entries there are of each kind, and its ordered digest,
      for this session and these bindings. */
  ghost predicate EvidenceTrue(c: Collector)
  {
    && c.evidence.Some?
    && var e := c.evidence.value;
    && e.session == c.session && e.bindings == c.bindings
    && e.requestCount == |c.log| && e.orderedDigest == LedgerDigest(c.log)
    && (forall kind :: Lookup(e.kindCounts, kind) == KindCount(c.log, kind))
    && (forall kind :: kind in e.kindCounts <==> KindCount(c.log, kind) > 0)
  }

  ghost predicate EvidenceOk(c: Collector)
  {
    (c.evidence.Some? <==> c.phase.Sealed?) && (c.phase.Sealed? ==> EvidenceTrue(c) && c.evidence == Some(EvidenceOf(c)))
  }

  lemma NormalizedKind(frame: Body, sequence: int)
    ensures var event := NormalizeCapture(frame, sequence);
      event.Ok? ==> event.value.sequence == sequence && event.value.kind in {Embedding, Query, Generation, Repair}
  {
  }

  lemma RecordKeepsBooks(c: Collector, event: SafeEvent)
    requires BooksOk(c) && Recordable(c, Ok(event))
    requires event.sequence == |c.log| + 1 && event.kind in {Embedding, Query, Generation, Repair}
    ensures BooksOk(Recorded(c, event))
  {
    var d := Recorded(c, event);
    assert d.log[..|c.log|] == c.log;
    forall k | 0 <= k < |d.log| ensures EntryOk(d.log, k) {
      assert d.log[..k] == c.log[..k];
      if k < |c.log| { assert EntryOk(c.log, k); }
    }
  }

  lemma HandleKeepsEvidence(c: Collector, wire: Wire, files: Files)
    requires Serves(c) && BooksOk(c) && EvidenceOk(c)
    ensures EvidenceOk(Handle(c, wire, files).state)
  {
    hide NormalizeCapture, RequestAccepted, Recordable, GoldenAdmitted, KindCount, ModelCount, EntryOk;
  }

  /** A turn records one entry or leaves the books alone. */
  lemma HandleMovesBooks(c: Collector, wire: Wire, files: Files)
    requires Serves(c)
    ensures var event, d := NormalizeCapture(wire.body - {SessionField, Sequence}, |c.log| + 1), Handle(c, wire, files).state;
      || (Recordable(c, event) && d == Recorded(c, event.value))
      || (d.log == c.log && d.expected == c.expected && d.ordinals == c.ordinals && d.kindCounts == c.kindCounts)
  {
    hide NormalizeCapture, RequestAccepted, Recordable, Recorded, GoldenAdmitted;
  }

  lemma SameBooks(c: Collector, d: Collector)
    requires BooksOk(c)
    requires d.log == c.log && d.expected == c.expected && d.ordinals == c.ordinals && d.kindCounts == c.kindCounts
    ensures BooksOk(d)
  {
  }

  lemma HandleKeepsBooks(c: Collector, wire: Wire, files: Files)
    requires Serves(c) && BooksOk(c) && EvidenceOk(c)
    ensures BooksOk(Handle(c, wire, files).state) && EvidenceOk(Handle(c, wire, files).state)
  {
    HandleKeepsEvidence(c, wire, files);
    HandleMovesBooks(c, wire, files);
    var frame := wire.body - {SessionField, Sequence};
    var event, d := NormalizeCapture(frame, |c.log| + 1), Handle(c, wire, files).state;
    NormalizedKind(frame, |c.log| + 1);
    hide Handle, NormalizeCapture, BooksOk, EvidenceOk, Recorded;
    if Recordable(c, event) && d == Recorded(c, event.value) {
      RecordKeepsBooks(c, event.value);
    } else {
      SameBooks(c, d);
    }
  }

  ghost predicate AllBooksOk(w: World)
  {
    forall j :: j in w.collectors ==> BooksOk(w.collectors[j]) && EvidenceOk(w.collectors[j])
  }

  lemma NextKeepsBooks(w: World, a: Action)
    requires AllBooksOk(w)
    ensures AllBooksOk(Next(w, a))
  {
    match a {
      case StartCollector(j, bindings) => NewBooks(j, bindings);
      case DeliverHello(j, wire) =>
        if j in w.collectors && w.collectors[j].phase.Listening? {
          WelcomeKeepsBooks(w.collectors[j], wire);
        }
      case DeliverRequest(j, wire, files) =>
        if j in w.collectors && Serves(w.collectors[j]) {
          HandleKeepsBooks(w.collectors[j], wire, files);
        }
      case _ =>
    }
    hide BooksOk, EvidenceOk, Welcome, Handle, Greet, Receive, Deliverable, SealRequestBody, CaptureRequestBody;
  }

  lemma NewBooks(id: nat, bindings: Bindings)
    ensures var c := NewCollector(id, bindings); BooksOk(c) && EvidenceOk(c)
  {
  }

  lemma WelcomeKeepsBooks(c: Collector, wire: Wire)
    requires c.phase.Listening? && BooksOk(c) && EvidenceOk(c)
    ensures var d := Welcome(c, wire).state; BooksOk(d) && EvidenceOk(d)
  {
    hide HelloAccepted, EntryOk, KindCount, ModelCount;
  }

  lemma {:induction false} RunKeepsBooks(w: World, actions: seq<Action>)
    requires AllBooksOk(w)
    ensures AllBooksOk(Run(w, actions))
    decreases |actions|
  {
    if actions != [] {
      NextKeepsBooks(w, actions[0]);
      RunKeepsBooks(Next(w, actions[0]), actions[1..]);
    }
  }

  /** The four kinds partition the log. */
  lemma {:induction false} KindsPartition(log: seq<Digest>)
    requires forall k :: 0 <= k < |log| ==>
               log[k].CaptureDigest? && log[k].event.kind in {Embedding, Query, Generation, Repair}
    ensures KindCount(log, Embedding) + KindCount(log, Query) + KindCount(log, Generation) + KindCount(log, Repair)
            == |log|
    decreases |log|
  {
    if log != [] {
      KindsPartition(log[..|log| - 1]);
    }
  }

  /** In every run: the next sequence is one past the log, the ordinals of each model read 1, 2, 3, ...
      in log order, and the four kind counters add up to the length of the log. */
  lemma CollectorBooks(actions: seq<Action>, j: nat)
    requires j in After(actions).collectors
    ensures var c := After(actions).collectors[j];
      && c.expected == |c.log| + 1
      && (forall k :: 0 <= k < |c.log| ==> EntryOk(c.log, k))
      && (forall model :: Lookup(c.ordinals, model) == ModelCount(c.log, model))
      && Lookup(c.kindCounts, Embedding) + Lookup(c.kindCounts, Query) + Lookup(c.kindCounts, Generation)
         + Lookup(c.kindCounts, Repair) == |c.log|
  {
    RunKeepsBooks(Initial, actions);
    KindsOfBooks(After(actions).collectors[j]);
  }

  lemma KindsOfBooks(c: Collector)
    requires forall k :: 0 <= k < |c.log| ==> EntryOk(c.log, k)
    ensures KindCount(c.log, Embedding) + KindCount(c.log, Query) + KindCount(c.log, Generation)
            + KindCount(c.log, Repair) == |c.log|
  {
    forall k | 0 <= k < |c.log|
      ensures c.log[k].CaptureDigest? && c.log[k].event.kind in {Embedding, Query, Generation, Repair}
    {
      assert EntryOk(c.log, k);
    }
    KindsPartition(c.log);
  }

  /** The evidence of every sealed collector in every run: its kind counts are those of the log and add up to its
      request count, and it is of this session and these bindings.  Without a seal there is no evidence. */
  lemma EvidenceMeans(actions: seq<Action>, j: nat)
    requires j in After(actions).collectors
    ensures var s := After(actions).collectors[j];
      && (s.evidence.Some? <==> s.phase.Sealed?)
      && (s.evidence.Some? ==>
            && EvidenceTrue(s)
            && var e := s.evidence.value;
               Lookup(e.kindCounts, Embedding) + Lookup(e.kindCounts, Query) + Lookup(e.kindCounts, Generation)
               + Lookup(e.kindCounts, Repair) == e.requestCount)
  {
    RunKeepsBooks(Initial, actions);
    var s := After(actions).collectors[j];
    assert BooksOk(s) && EvidenceOk(s);
    hide EntryOk, KindCount;
    KindsOfBooks(s);
  }

  lemma {:induction false} StreamKeepsBooks(c: Collector, frames: seq<Wire>, files: Files)
    requires BooksOk(c) && EvidenceOk(c)
    ensures BooksOk(ServeAll(c, frames, files).0) && EvidenceOk(ServeAll(c, frames, files).0)
    ensures ServeAll(c, frames, files).0.session == c.session && ServeAll(c, frames, files).0.bindings == c.bindings
    decreases |frames|
  {
    hide BooksOk, Handle;
    if Serves(c) && frames == [] {
      SameBooks(c, Abort(c));
    } else if Serves(c) {
      HandleKeepsBooks(c, frames[0], files);
      HandleGrows(c, frames[0], files);
      StreamKeepsBooks(Handle(c, frames[0], files).state, frames[1..], files);
    }
  }

  /** The same of the collector program on any stream of frames, without any assumption on who sent them. */
  lemma ServedEvidenceMeans(id: nat, bindings: Bindings, frames: seq<Wire>, files: Files)
    requires frames != []
    ensures var welcome := Welcome(NewCollector(id, bindings), frames[0]);
      var last := ServeAll(welcome.state, frames[1..], files).0;
      && (last.evidence.Some? <==> last.phase.Sealed?)
      && (last.phase.Sealed? ==>
            EvidenceTrue(last) && last.evidence.value.session == SessionId(id) && last.evidence.value.bindings == bindings
            && forall k :: 0 <= k < |last.log| ==> EntryOk(last.log, k))
  {
    var welcome := Welcome(NewCollector(id, bindings), frames[0]).state;
    assert BooksOk(welcome) && EvidenceOk(welcome);
    hide EntryOk, KindCount, ModelCount, Welcome, ServeAll;
    StreamKeepsBooks(welcome, frames[1..], files);
  }
}
