/** The request-capture protocol frame by frame: what a request has to say of its payload to be recorded, which
    frames each side accepts, and what it answers, written out in the fields of the frames. */
module CaptureLaws {
  import opened Outcomes
  import opened CaptureFrames
  import opened CaptureProtocol
  import opened CaptureNetwork
  import opened CaptureAgreement

  // ---- Bytes ----

  lemma {:induction false} Utf8OfJoined(a: string, b: string)
    ensures Utf8Length(a + b) == Utf8Length(a) + Utf8Length(b)
    decreases |a|
  {
    if a == "" {
      assert a + b == b;
    } else {
      assert (a + b)[0] == a[0] && (a + b)[1..] == a[1..] + b;
      Utf8OfJoined(a[1..], b);
    }
  }

  /** UTF-8: one byte below 128, two below 2048, three below 65536, four above. */
  lemma Utf8OfOne(c: char)
    ensures Utf8Length([c]) == var n := c as int; if n < 128 then 1 else if n < 2048 then 2 else if n < 65536 then 3 else 4
  {
    assert [c][1..] == "" && Utf8Length([c][1..]) == 0;
  }

  /** The encoded sizes of the texts, added up from the last one. */
  ghost function ByteSum(items: seq<string>): nat
  {
    if items == [] then 0 else ByteSum(items[..|items| - 1]) + Utf8Length(items[|items| - 1])
  }

  lemma {:induction false} ByteSumCons(item: string, rest: seq<string>)
    ensures ByteSum([item] + rest) == Utf8Length(item) + ByteSum(rest)
    decreases |rest|
  {
    var all := [item] + rest;
    if rest == [] {
      assert all[..0] == [];
    } else {
      ByteSumCons(item, rest[..|rest| - 1]);
      assert all[..|all| - 1] == [item] + rest[..|rest| - 1];
    }
  }

  lemma {:induction false} TotalIsByteSum(items: seq<string>)
    ensures TotalUtf8(items) == ByteSum(items)
    decreases |items|
  {
    if items != [] {
      TotalIsByteSum(items[1..]);
      assert items == [items[0]] + items[1..];
      ByteSumCons(items[0], items[1..]);
    }
  }

  ghost function ValuesOf(entries: map<string, string>, names: seq<string>): (values: seq<string>)
    ensures |values| == |names|
    ensures forall i :: 0 <= i < |names| && names[i] in entries ==> values[i] == entries[names[i]]
  {
    seq(|names|, i requires 0 <= i < |names| => if names[i] in entries then entries[names[i]] else "")
  }

  lemma {:induction false} SumIsByteSum(entries: map<string, string>, bytes: map<string, int>, names: seq<string>)
    requires bytes.Keys == entries.Keys && forall name :: name in entries ==> bytes[name] == Utf8Length(entries[name])
    requires forall name :: name in names ==> name in entries
    ensures SumAt(bytes, names) == ByteSum(ValuesOf(entries, names))
    decreases |names|
  {
    if names != [] {
      SumIsByteSum(entries, bytes, names[1..]);
      assert names[0] in names;
      assert ValuesOf(entries, names) == [entries[names[0]]] + ValuesOf(entries, names[1..]);
      ByteSumCons(entries[names[0]], ValuesOf(entries, names[1..]));
    }
  }

  // ---- What a recorded event says ----

  ghost predicate DescribesCaller(ordinal: int, model: string)
  {
    && 0 < ordinal && |model| <= 200
    && exists i :: 0 <= i < |model| && model[i] != ' ' && model[i] != '\t' && model[i] != '\n' && model[i] != '\r'
  }

  ghost predicate DescribesTexts(event: Event, items: seq<string>)
  {
    && event.EmbeddingEvent? && (event.kind == Embedding || event.kind == Query)
    && items != [] && (forall i :: 0 <= i < |items| ==> items[i] != "")
    && event.itemCount == |items| && event.byteCount == ByteSum(items) && 0 <= event.tokenCount
    && event.payload == PayloadDigest(Texts(items))
  }

  ghost predicate DescribesFields(event: Event, entries: map<string, string>)
  {
    && event.GenerationEvent? && (event.kind == Generation || event.kind == Repair)
    && entries != map[]
    && (forall name :: name in event.fieldNames <==> name in entries)
    && (forall i, j :: 0 <= i < j < |event.fieldNames| ==> StringLess(event.fieldNames[i], event.fieldNames[j]))
    && event.byteCounts.Keys == entries.Keys
    && (forall name :: name in entries ==> event.byteCounts[name] == Utf8Length(entries[name]))
    && event.tokenCounts.Keys == {"prompt", "maximum_output"}
    && 0 <= event.tokenCounts["prompt"] && 0 <= event.tokenCounts["maximum_output"]
    && event.payload == PayloadDigest(Fields(entries))
  }

  /** The counts that are kept of a payload: how many texts or fields, how many bytes, and the tokens. */
  ghost predicate CountsOf(counts: Counts, event: Event, raw: Payload)
  {
    match raw
    case Texts(items) =>
      event.EmbeddingEvent? && counts == EmbeddingCounts(|items|, ByteSum(items), event.tokenCount)
    case Fields(entries) =>
      && event.GenerationEvent? && event.tokenCounts.Keys == {"prompt", "maximum_output"}
      && counts == GenerationCounts(|entries|, ByteSum(ValuesOf(entries, event.fieldNames)), event.tokenCounts["prompt"],
                                    event.tokenCounts["maximum_output"])
  }

  ghost predicate Describes(event: Event, raw: Payload)
  {
    && !event.MalformedEvent? && DescribesCaller(event.ordinal, event.model)
    && match raw
       case Texts(items) => DescribesTexts(event, items)
       case Fields(entries) => DescribesFields(event, entries)
  }

  lemma CallerMeans(ordinal: int, model: string)
    ensures MetadataOk(ordinal, model) <==> DescribesCaller(ordinal, model)
  {
  }

  /** A request is recorded exactly when its event is a true description of its payload, and what is recorded are
      the event's own number, kind and model, the digest of this payload and its true counts. */
  lemma NormalizesExactly(event: Event, raw: Payload, caseId: Digest, sequence: int, safe: SafeEvent)
    ensures NormalizeEvent(event, raw, caseId, sequence) == Ok(safe) <==>
              && Describes(event, raw)
              && (safe.sequence, safe.caseId, safe.ordinal) == (sequence, caseId, event.ordinal)
              && (safe.kind, safe.model, safe.payload) == (event.kind, event.model, PayloadDigest(raw))
              && CountsOf(safe.counts, event, raw)
  {
    hide MetadataOk, DescribesCaller;
    if !event.MalformedEvent? {
      CallerMeans(event.ordinal, event.model);
    }
    if raw.Texts? {
      TextsNormalize(event, raw.items, caseId, sequence, safe);
    } else {
      FieldsNormalize(event, raw.entries, caseId, sequence, safe);
    }
  }

  lemma TextsNormalize(event: Event, items: seq<string>, caseId: Digest, sequence: int, safe: SafeEvent)
    ensures NormalizeEvent(event, Texts(items), caseId, sequence) == Ok(safe) <==>
              && !event.MalformedEvent? && MetadataOk(event.ordinal, event.model) && DescribesTexts(event, items)
              && safe == SafeEvent(sequence, caseId, event.ordinal, event.kind, event.model, PayloadDigest(Texts(items)),
                                   EmbeddingCounts(|items|, ByteSum(items), event.tokenCount))
  {
    TotalIsByteSum(items);
    hide MetadataOk, TotalUtf8, ByteSum;
    NoEmptyText(items);
    if event.EmbeddingEvent? {
      TextsAreChecked(event, items, caseId, sequence);
      hide NormalizeEvent;
    }
  }

  lemma NoEmptyText(items: seq<string>)
    ensures "" in items <==> exists i :: 0 <= i < |items| && items[i] == ""
  {
  }

  lemma TextsAreChecked(event: Event, items: seq<string>, caseId: Digest, sequence: int)
    requires event.EmbeddingEvent?
    ensures var ok := && (event.kind.Embedding? || event.kind.Query?) && MetadataOk(event.ordinal, event.model)
                      && items != [] && "" !in items
                      && event.itemCount == |items| && event.byteCount == TotalUtf8(items) && event.tokenCount >= 0
                      && event.payload == PayloadDigest(Texts(items));
      var r := NormalizeEvent(event, Texts(items), caseId, sequence);
      && (r.Ok? <==> ok)
      && (ok ==> r.value == SafeEvent(sequence, caseId, event.ordinal, event.kind, event.model,
                                      PayloadDigest(Texts(items)),
                                      EmbeddingCounts(|items|, TotalUtf8(items), event.tokenCount)))
  {
    hide MetadataOk, TotalUtf8;
  }

  lemma FieldsNormalize(event: Event, entries: map<string, string>, caseId: Digest, sequence: int, safe: SafeEvent)
    ensures NormalizeEvent(event, Fields(entries), caseId, sequence) == Ok(safe) <==>
              && !event.MalformedEvent? && MetadataOk(event.ordinal, event.model) && DescribesFields(event, entries)
              && safe == SafeEvent(sequence, caseId, event.ordinal, event.kind, event.model, PayloadDigest(Fields(entries)),
                                   GenerationCounts(|entries|, ByteSum(ValuesOf(entries, event.fieldNames)),
                                                    event.tokenCounts["prompt"], event.tokenCounts["maximum_output"]))
  {
    hide MetadataOk, ByteSum, SumAt, Utf8Length, ValuesOf;
    if event.GenerationEvent? {
      FieldsMean(event, entries);
      FieldsAreChecked(event, entries, caseId, sequence);
      hide NormalizeEvent, FieldsChecked;
      if DescribesFields(event, entries) {
        SumIsByteSum(entries, event.byteCounts, event.fieldNames);
      }
      hide DescribesFields;
    }
  }

  lemma FieldsAreChecked(event: Event, entries: map<string, string>, caseId: Digest, sequence: int)
    requires event.GenerationEvent?
    ensures var ok := MetadataOk(event.ordinal, event.model) && FieldsChecked(event, entries);
      var r := NormalizeEvent(event, Fields(entries), caseId, sequence);
      && (r.Ok? <==> ok)
      && (ok ==>
            && (forall name :: name in event.fieldNames ==> name in event.byteCounts)
            && r.value == SafeEvent(sequence, caseId, event.ordinal, event.kind, event.model, PayloadDigest(Fields(entries)),
                 GenerationCounts(|entries|, SumAt(event.byteCounts, event.fieldNames), event.tokenCounts["prompt"],
                                  event.tokenCounts["maximum_output"])))
  {
    hide MetadataOk, SumAt, Utf8Length, StrictlySorted;
  }

  /** The conditions as the program checks them. */
  ghost predicate FieldsChecked(event: Event, entries: map<string, string>)
    requires event.GenerationEvent?
  {
    && (event.kind.Generation? || event.kind.Repair?)
    && entries.Keys != {} && SortedListing(event.fieldNames, entries.Keys)
    && event.byteCounts == (map name | name in entries :: Utf8Length(entries[name]))
    && event.tokenCounts.Keys == {"prompt", "maximum_output"}
    && 0 <= event.tokenCounts["prompt"] && 0 <= event.tokenCounts["maximum_output"]
    && event.payload == PayloadDigest(Fields(entries))
  }

  lemma FieldsMean(event: Event, entries: map<string, string>)
    requires event.GenerationEvent?
    ensures FieldsChecked(event, entries) <==> DescribesFields(event, entries)
  {
    ListingMeans(event.fieldNames, entries.Keys);
    hide SortedListing, Utf8Length;
    assert entries.Keys == {} <==> entries == map[];
    var sizes := map name | name in entries :: Utf8Length(entries[name]);
    assert event.byteCounts == sizes <==>
           event.byteCounts.Keys == entries.Keys
           && forall name :: name in entries ==> event.byteCounts[name] == Utf8Length(entries[name]);
  }

  lemma ListingMeans(names: seq<string>, keys: set<string>)
    ensures SortedListing(names, keys) <==>
              && (forall name :: name in names <==> name in keys)
              && forall i, j :: 0 <= i < j < |names| ==> StringLess(names[i], names[j])
  {
    var listed := set name | name in names;
    assert listed == keys <==> forall name :: name in names <==> name in keys;
  }

  // ---- The collector, frame by frame ----

  ghost predicate SameBut(c: Collector, d: Collector)
  {
    && (d.session, d.challenge, d.bindings, d.key) == (c.session, c.challenge, c.bindings, c.key)
    && d.log == c.log && d.kindCounts == c.kindCounts && d.ordinals == c.ordinals && d.expected == c.expected
  }

  /** The handshake: the collector answers exactly the frames that carry this command, a challenge and its own
      bindings under the shared nonce, and its answer is bound to that challenge. */
  lemma WelcomesExactly(c: Collector, wire: Wire)
    requires c.phase.Listening?
    ensures var step := Welcome(c, wire);
      (exists client: Digest :: wire == HelloFrame(client, c.bindings)) <==> step.answer.Some?
    ensures forall client: Digest :: wire == HelloFrame(client, c.bindings) ==>
      var step, ready := Welcome(c, wire), map[Status := Text("ready"), SessionField := Sha(c.session),
                                               ServerChallengeField := Sha(c.challenge)];
      && step.answer == Some(Wire(ready, Some(Mac(Nonce, ready[ClientChallengeField := Sha(client)]
                                                                [BindingsField := BindingsValue(c.bindings)]))))
      && step.state.phase.Serving?
      && step.state.key == Some(SessionKey(client, c.challenge, c.session, c.bindings))
    ensures Welcome(c, wire).answer.None? ==> Welcome(c, wire).state.phase.Aborted?
  {
    if HelloAccepted(c, wire) {
      var client := wire.body[ClientChallengeField].digest;
      assert wire.body == HelloFrame(client, c.bindings).body;
    }
  }

  ghost function HelloFrame(client: Digest, bindings: Bindings): Wire
  {
    var body: Body := map[Command := Text("hello"), ClientChallengeField := Sha(client),
                          BindingsField := BindingsValue(bindings)];
    Wire(body, Some(Mac(Nonce, body)))
  }

  /** A frame under the session key. */
  ghost function Tagged(key: Key, body: Body): Wire
  {
    Wire(body, Some(Mac(key, body)))
  }

  ghost function Capturing(c: Collector, caseId: Digest, event: Event, raw: Payload): Body
  {
    map[Command := Text("capture"), CaseField := Sha(caseId), EventField := EventValue(event),
        RawPayload := PayloadValue(raw), SessionField := Sha(c.session), Sequence := Number(c.expected)]
  }

  ghost function Sealing(c: Collector, count: int): Body
  {
    map[Command := Text("seal"), ExpectedCount := Number(count), SessionField := Sha(c.session),
        Sequence := Number(c.expected)]
  }

  ghost predicate NextOfModel(c: Collector, event: Event)
  {
    !event.MalformedEvent? && event.ordinal == (if event.model in c.ordinals then c.ordinals[event.model] else 0) + 1
  }

  /** What is kept of a request that is the next one of the log. */
  ghost predicate KeptOf(c: Collector, caseId: Digest, event: Event, raw: Payload, safe: SafeEvent)
    requires !event.MalformedEvent?
  {
    && (safe.sequence, safe.caseId, safe.ordinal) == (|c.log| + 1, caseId, event.ordinal)
    && (safe.kind, safe.model, safe.payload) == (event.kind, event.model, PayloadDigest(raw))
    && CountsOf(safe.counts, event, raw)
  }

  /** A capture frame in turn: it is recorded exactly when its event describes its payload, is the next of its
      model and at most 999,999 came before; then the log grows by its digest and the answer names that digest. */
  lemma CaptureTurn(c: Collector, caseId: Digest, event: Event, raw: Payload, files: Files) returns (safe: SafeEvent)
    requires Serves(c)
    ensures var step := Handle(c, Tagged(c.key.value, Capturing(c, caseId, event, raw)), files);
      && (step.answer.Some? <==> Describes(event, raw) && NextOfModel(c, event) && |c.log| < 1_000_000)
      && (step.answer.None? ==> step.state == c.(phase := Aborted))
      && (step.answer.Some? ==>
            && KeptOf(c, caseId, event, raw, safe) && step.state.log == c.log + [CaptureDigest(safe)]
            && step.answer == Some(Tagged(c.key.value,
                 map[Status := Text("captured"), CaptureSha := Sha(CaptureDigest(safe)),
                     Sequence := Number(c.expected), SessionField := Sha(c.session)])))
  {
    CaptureIsRecord(c, caseId, event, raw, files);
    RecordAnswers(c, NormalizeEvent(event, raw, caseId, |c.log| + 1));
    hide NormalizeEvent, NormalizeCapture, Describes, CountsOf, Handle, Capturing, Record, Recordable;
    var normalized := NormalizeEvent(event, raw, caseId, |c.log| + 1);
    if normalized.Ok? {
      safe := normalized.value;
      NormalizesExactly(event, raw, caseId, |c.log| + 1, safe);
    } else {
      safe := SafeEvent(0, caseId, 0, Embedding, "", caseId, EmbeddingCounts(0, 0, 0));
      if Describes(event, raw) {
        DescribedNormalizes(event, raw, caseId, |c.log| + 1);
      }
    }
  }

  lemma RecordAnswers(c: Collector, event: Result<SafeEvent>)
    requires Serves(c)
    ensures var step := Record(c, event);
      && (step.answer.Some? <==>
            && event.Ok? && |c.log| < 1_000_000
            && event.value.ordinal
               == (if event.value.model in c.ordinals then c.ordinals[event.value.model] else 0) + 1)
      && (step.answer.None? ==> step.state == c.(phase := Aborted))
      && (step.answer.Some? ==>
            && step.state.log == c.log + [CaptureDigest(event.value)]
            && step.answer == Some(Tagged(c.key.value,
                 map[Status := Text("captured"), CaptureSha := Sha(CaptureDigest(event.value)),
                     Sequence := Number(c.expected), SessionField := Sha(c.session)])))
  {
  }

  lemma CaptureIsRecord(c: Collector, caseId: Digest, event: Event, raw: Payload, files: Files)
    requires Serves(c)
    ensures Handle(c, Tagged(c.key.value, Capturing(c, caseId, event, raw)), files)
            == Record(c, NormalizeEvent(event, raw, caseId, |c.log| + 1))
  {
    hide NormalizeEvent, Record;
    var frame := Capturing(c, caseId, event, raw) - {SessionField, Sequence};
    assert frame.Keys == {Command, CaseField, EventField, RawPayload};
  }

  lemma DescribedNormalizes(event: Event, raw: Payload, caseId: Digest, sequence: int)
    requires Describes(event, raw)
    ensures NormalizeEvent(event, raw, caseId, sequence).Ok?
  {
    var counts := match raw
      case Texts(items) => EmbeddingCounts(|items|, ByteSum(items), event.tokenCount)
      case Fields(entries) =>
        GenerationCounts(|entries|, ByteSum(ValuesOf(entries, event.fieldNames)), event.tokenCounts["prompt"],
                         event.tokenCounts["maximum_output"]);
    var safe := SafeEvent(sequence, caseId, event.ordinal, event.kind, event.model, PayloadDigest(raw), counts);
    hide NormalizeEvent, DescribesCaller;
    NormalizesExactly(event, raw, caseId, sequence, safe);
  }

  /** A seal frame in turn: it is answered exactly when it names the number of requests, at least one was recorded,
      the golden file has between 1 and 8,000,000 bytes of the bound digest and the evidence can be written. */
  lemma SealTurn(c: Collector, count: int, files: Files)
    requires Serves(c)
    ensures var step := Handle(c, Tagged(c.key.value, Sealing(c, count)), files);
      && (step.answer.Some? <==>
            && count == |c.log| > 0 && files.evidenceWritable
            && files.golden.Some? && 0 < |files.golden.value| <= 8_000_000
            && GoldenDigest(files.golden.value) == c.bindings.goldenSha)
      && (step.answer.None? ==> step.state.phase.Aborted?)
      && (step.answer.Some? ==>
            && step.state.phase.Sealed? && step.state.goldenOpened && SameBut(c, step.state)
            && step.answer == Some(Tagged(c.key.value,
                 map[Status := Text("sealed"), GoldenPayload := GoldenValue(files.golden.value),
                     SessionField := Sha(c.session), OrderedDigest := Sha(LedgerDigest(c.log)),
                     RequestCount := Number(|c.log|), Sequence := Number(c.expected)])))
      && (step.state.goldenOpened <==> c.goldenOpened || (count == |c.log| > 0))
  {
    var frame := Sealing(c, count) - {SessionField, Sequence};
    assert frame.Keys == {Command, ExpectedCount};
  }

  /** Any other frame ends the collector, with nothing recorded and nothing opened. */
  lemma OtherFramesAbort(c: Collector, wire: Wire, files: Files)
    requires Serves(c)
    ensures || Handle(c, wire, files) == Step(c.(phase := Aborted), None)
            || (exists caseId: Digest, event: Event, raw: Payload ::
                  wire == Tagged(c.key.value, Capturing(c, caseId, event, raw)))
            || exists count: int :: wire == Tagged(c.key.value, Sealing(c, count))
  {
    hide NormalizeEvent;
    if RequestAccepted(c, wire) {
      var body := wire.body;
      var frame := body - {SessionField, Sequence};
      assert body.Keys == frame.Keys + {SessionField, Sequence};
      assert forall field :: field in frame ==> frame[field] == body[field];
      if Get(frame, Command) == Some(Text("capture")) && NormalizeCapture(frame, |c.log| + 1).Ok? {
        var caseId, event, raw := frame[CaseField].digest, frame[EventField].event, frame[RawPayload].payload;
        assert body == Capturing(c, caseId, event, raw);
      }
      if Get(frame, Command) == Some(Text("seal")) && frame.Keys == {Command, ExpectedCount}
         && frame[ExpectedCount].Number? {
        assert body == Sealing(c, frame[ExpectedCount].number);
      }
    }
  }

  // ---- The client, frame by frame ----

  ghost function ReadyFrame(c: Client, session: Digest, server: Digest): Wire
  {
    var body: Body := map[Status := Text("ready"), SessionField := Sha(session), ServerChallengeField := Sha(server)];
    Wire(body, Some(Mac(Nonce, body[ClientChallengeField := Sha(c.challenge)][BindingsField := BindingsValue(c.bindings)])))
  }

  /** The client is connected exactly by an answer that is tagged for its own challenge and bindings. */
  lemma GreetsExactly(c: Client, wire: Wire)
    requires c.phase.Greeting?
    ensures Greet(c, wire).phase.Connected? <==>
              exists session: Digest, server: Digest :: wire == ReadyFrame(c, session, server)
    ensures forall session: Digest, server: Digest :: wire == ReadyFrame(c, session, server) ==>
              Greet(c, wire).link == Some(Link(session, SessionKey(c.challenge, server, session, c.bindings)))
    ensures HelloWire(c) == HelloFrame(c.challenge, c.bindings)
  {
    if ReadyAccepted(c, wire) {
      var session, server := wire.body[SessionField].digest, wire.body[ServerChallengeField].digest;
      assert wire.body == ReadyFrame(c, session, server).body;
      assert wire == ReadyFrame(c, session, server);
    }
  }

  ghost function Acknowledging(c: Client, entry: Digest): Wire
    requires Live(c)
  {
    Tagged(c.link.value.key, map[Status := Text("captured"), CaptureSha := Sha(entry),
                                 Sequence := Number(c.count + 1), SessionField := Sha(c.link.value.session)])
  }

  /** A capture sends one request and returns a digest exactly when the answer acknowledges that digest for this
      session and this request. */
  lemma CapturesExactly(c: Client, event: Event, raw: Payload, reply: Option<Wire>)
    requires MaySend(c) && c.selected.Some?
    ensures var (after, acknowledged) := CaptureStep(c, event, raw, reply);
      && after.outbox == c.outbox + [map[Command := Text("capture"), CaseField := Sha(c.selected.value),
                                         EventField := EventValue(event), RawPayload := PayloadValue(raw),
                                         SessionField := Sha(c.link.value.session), Sequence := Number(c.count + 1)]]
      && (forall entry: Digest :: acknowledged == Some(entry) <==> reply == Some(Acknowledging(c, entry)))
      && (forall entry: Digest :: reply == Some(Acknowledging(c, entry)) ==>
            after.count == c.count + 1 && after.acked == c.acked + [entry])
      && after.labels == c.labels && (after.failed <==> c.failed || acknowledged.None?)
  {
    var waiting := Sent(c, CaptureRequest, CaptureRequestBody(c, event, raw));
    if reply.Some? && ReplyAccepted(waiting, reply.value) && CapturedShape(reply.value.body)
       && reply.value.body[CaptureSha].Sha? {
      assert reply.value.body == Acknowledging(c, reply.value.body[CaptureSha].digest).body;
      assert reply.value == Acknowledging(c, reply.value.body[CaptureSha].digest);
    }
  }

  ghost function Releasing(c: Client, golden: Bytes, ordered: Digest): Wire
    requires Live(c)
  {
    Tagged(c.link.value.key, map[Status := Text("sealed"), GoldenPayload := GoldenValue(golden),
                                 SessionField := Sha(c.link.value.session), OrderedDigest := Sha(ordered),
                                 RequestCount := Number(c.count), Sequence := Number(c.count + 1)])
  }

  /** The client reads labels exactly from an answer that names its own count of requests. */
  lemma ReleasesExactly(c: Client, reply: Option<Wire>, golden: Bytes, ordered: Digest)
    requires MaySend(c) && c.labels.None?
    ensures var after := SealStep(c, c.count, reply);
      && after.outbox == c.outbox + [map[Command := Text("seal"), ExpectedCount := Number(c.count),
                                         SessionField := Sha(c.link.value.session), Sequence := Number(c.count + 1)]]
      && (after.labels == Some(Labels(golden, ordered, c.count)) <==> reply == Some(Releasing(c, golden, ordered)))
      && (after.labels.Some? ==> after.phase.Closed? && after.labels.value.requestCount == c.count)
      && (after.labels.None? ==> after.failed)
      && after.count == c.count && after.acked == c.acked
  {
    var waiting := Sent(c, SealRequest(c.count), SealRequestBody(c, c.count));
    if reply.Some? && ReplyAccepted(waiting, reply.value) && SealedShape(reply.value.body, c.count) {
      var body := reply.value.body;
      assert body == Releasing(c, body[GoldenPayload].golden, body[OrderedDigest].digest).body;
      assert reply.value == Releasing(c, body[GoldenPayload].golden, body[OrderedDigest].digest);
    }
  }

  // ---- The log of a run ----

  /** The entry is the digest of a true account of a payload that this very request carried. */
  ghost predicate TrueOf(body: Body, sequence: nat, entry: Digest)
  {
    && EventField in body && body[EventField].EventValue? && RawPayload in body && body[RawPayload].PayloadValue?
    && CaseField in body && body[CaseField].Sha?
    && entry.CaptureDigest?
    && var event, raw, safe := body[EventField].event, body[RawPayload].payload, entry.event;
    && Describes(event, raw) && CountsOf(safe.counts, event, raw)
    && (safe.sequence, safe.caseId, safe.ordinal) == (sequence, body[CaseField].digest, event.ordinal)
    && (safe.kind, safe.model, safe.payload) == (event.kind, event.model, PayloadDigest(raw))
  }

  lemma RecordedIsTrue(body: Body, sequence: nat, entry: Digest)
    requires RecordedAs(body, sequence, entry)
    ensures TrueOf(body, sequence, entry)
  {
    hide NormalizeEvent, Describes, CountsOf;
    var frame := body - {SessionField, Sequence};
    assert forall field :: field in frame ==> field in body && frame[field] == body[field];
    NormalizesExactly(frame[EventField].event, frame[RawPayload].payload, frame[CaseField].digest, sequence, entry.event);
  }

  /** In every run every entry of a collector's log is a true account of a payload that the one client of its
      session sent under that number: its digest, its size, its kind and its tokens. */
  lemma LogIsTrue(actions: seq<Action>, j: nat) returns (i: nat)
    requires j in After(actions).collectors && After(actions).collectors[j].log != []
    ensures i in After(actions).clients && Linked(After(actions), i, j)
    ensures var sent, log := After(actions).clients[i].outbox, After(actions).collectors[j].log;
      forall k :: 0 <= k < |log| ==> Truly(sent, k + 1, log[k])
  {
    hide Backed, Truly, Run, Inv, LogIsPrefixOfSent;
    i := LogAgreesWithClient(actions, j);
    var sent, log := After(actions).clients[i].outbox, After(actions).collectors[j].log;
    forall k | 0 <= k < |log| ensures Truly(sent, k + 1, log[k]) {
      BackedIsTrue(sent, k + 1, log[k]);
    }
  }

  /** Some request gives the true account. */
  ghost predicate Truly(sent: seq<Body>, sequence: nat, entry: Digest)
  {
    exists m :: 0 <= m < |sent| && TrueOf(sent[m], sequence, entry)
  }

  lemma BackedIsTrue(sent: seq<Body>, sequence: nat, entry: Digest)
    requires Backed(sent, sequence, entry)
    ensures Truly(sent, sequence, entry)
  {
    hide RecordedAs, TrueOf;
    var m :| 0 <= m < |sent| && RecordedAs(sent[m], sequence, entry);
    RecordedIsTrue(sent[m], sequence, entry);
  }
}
