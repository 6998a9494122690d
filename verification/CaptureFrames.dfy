/** The frames of the request-capture protocol, with hashes and tags kept symbolic.

    A digest is a term: two digests are equal exactly when the same function was applied to the
    same value (collision freedom), and a value drawn from the system's random source is named by
    the party that drew it (freshness).  An authentication tag is a term over its key and body, so
    a tag under a key can only be copied from the wire or built by a holder of that key. */
module CaptureFrames {
  import opened Outcomes

  type Bytes = seq<char>

  datatype Kind = Embedding | Query | Generation | Repair | OtherKind(name: string)

  datatype Payload = Texts(items: seq<string>) | Fields(entries: map<string, string>)

  datatype Counts =
    | EmbeddingCounts(items: int, bytes: int, tokens: int)
    | GenerationCounts(fields: int, bytes: int, promptTokens: int, maximumOutputTokens: int)

  /** What the collector keeps of one request: digests and counters, no raw value. */
  datatype SafeEvent = SafeEvent(
    sequence: int, caseId: Digest, ordinal: int, kind: Kind, model: string, payload: Digest, counts: Counts)

  datatype Digest =
    | ClientChallenge(client: nat)
    | ServerChallenge(collector: nat)
    | SessionId(collector: nat)
    | CaseDigest(caseId: string)
    | PayloadDigest(payload: Payload)
    | CaptureDigest(event: SafeEvent)
    | LedgerDigest(entries: seq<Digest>)
    | GoldenDigest(golden: Bytes)
    | EventsDigest(events: seq<Digest>)
    | RequestLedgerDigest(records: seq<LedgerRecord>)
    | Arbitrary(text: string)

  /** One line of the frozen request ledger: a case and the digest of its request events. */
  datatype LedgerRecord = LedgerRecord(id: string, request: Digest)

  /** The provider event as the adapters build it; a dictionary of neither shape is Malformed. */
  datatype Event =
    | EmbeddingEvent(ordinal: int, kind: Kind, model: string, itemCount: int, byteCount: int, tokenCount: int,
                     payload: Digest)
    | GenerationEvent(ordinal: int, kind: Kind, model: string, fieldNames: seq<string>,
                      byteCounts: map<string, int>, tokenCounts: map<string, int>, payload: Digest)
    | MalformedEvent

  datatype Bindings = Bindings(goldenSha: Digest, others: seq<string>)

  datatype Field =
    | Command | ClientChallengeField | BindingsField
    | Status | SessionField | ServerChallengeField | Sequence
    | CaseField | EventField | RawPayload | CaptureSha
    | ExpectedCount | GoldenPayload | OrderedDigest | RequestCount

  datatype Value =
    | Text(text: string)
    | Number(number: int)
    | Sha(digest: Digest)
    | EventValue(event: Event)
    | PayloadValue(payload: Payload)
    | BindingsValue(bindings: Bindings)
    | GoldenValue(golden: Bytes)
    | Junk

  type Body = map<Field, Value>

  /** The pre-shared nonce is the only long-term secret; every session key is derived from it. */
  datatype Key =
    | Nonce
    | SessionKey(client: Digest, server: Digest, session: Digest, bindings: Bindings)

  datatype Tag = Mac(key: Key, body: Body) | OtherTag(text: string)

  /** A frame on the wire: its fields apart from `auth`, and the tag if `auth` is a string. */
  datatype Wire = Wire(body: Body, auth: Option<Tag>)

  const MAX_REQUESTS := 1_000_000
  const MAX_GOLDEN_BYTES := 8_000_000

  predicate Authentic(key: Key, wire: Wire)
  {
    wire.auth == Some(Mac(key, wire.body))
  }

  function Get(body: Body, field: Field): Option<Value>
  {
    if field in body then Some(body[field]) else None
  }

  /** Length of the UTF-8 encoding. */
  function Utf8Length(s: string): nat
  {
    if s == "" then 0
    else
      var c := s[0] as int;
      (if c < 0x80 then 1 else if c < 0x800 then 2 else if c < 0x10000 then 3 else 4) + Utf8Length(s[1..])
  }

  function TotalUtf8(items: seq<string>): nat
  {
    if items == [] then 0 else Utf8Length(items[0]) + TotalUtf8(items[1..])
  }

  predicate StringLess(a: string, b: string)
  {
    if b == "" then false
    else if a == "" then true
    else if a[0] != b[0] then a[0] < b[0]
    else StringLess(a[1..], b[1..])
  }

  lemma {:induction false} StringLessTotal(a: string, b: string)
    ensures a == b || StringLess(a, b) || StringLess(b, a)
    ensures !(StringLess(a, b) && StringLess(b, a)) && !StringLess(a, a)
    decreases |a|
  {
    if a != "" {
      StringLessTotal(a[1..], if b == "" then "" else b[1..]);
      assert a == [a[0]] + a[1..];
      if b != "" { assert b == [b[0]] + b[1..]; }
    }
  }

  lemma {:induction false} StringLessTransitive(a: string, b: string, c: string)
    requires StringLess(a, b) && StringLess(b, c)
    ensures StringLess(a, c)
    decreases |a|
  {
    if a != "" && a[0] == b[0] == c[0] {
      StringLessTransitive(a[1..], b[1..], c[1..]);
    }
  }

  predicate StrictlySorted(names: seq<string>)
  {
    forall i, j :: 0 <= i < j < |names| ==> StringLess(names[i], names[j])
  }

  /** `names` is the sorted list of the keys. */
  predicate SortedListing(names: seq<string>, keys: set<string>)
  {
    && StrictlySorted(names)
    && (set name | name in names) == keys
  }

  function SumAt(counts: map<string, int>, names: seq<string>): int
    requires forall name :: name in names ==> name in counts
  {
    if names == [] then 0 else counts[names[0]] + SumAt(counts, names[1..])
  }

  predicate Blank(s: string)
  {
    forall i :: 0 <= i < |s| ==> s[i] in {' ', '\t', '\n', '\r'}
  }

  predicate MetadataOk(ordinal: int, model: string)
  {
    1 <= ordinal && !Blank(model) && |model| <= 200
  }

  /** Checks one capture request against the value it claims to describe. */
  function NormalizeEvent(event: Event, raw: Payload, caseId: Digest, sequence: int): (r: Result<SafeEvent>)
  {
    match event
    case MalformedEvent => Err("capture request event is malformed")
    case EmbeddingEvent(ordinal, kind, model, items, bytes, tokens, payload) =>
      if !(kind.Embedding? || kind.Query?) then Err("capture request kind or fields are invalid")
      else if !MetadataOk(ordinal, model) then Err("capture request metadata is malformed")
      else if !raw.Texts? || raw.items == [] || "" in raw.items then Err("capture embedding payload is malformed")
      else if items != |raw.items| || bytes != TotalUtf8(raw.items) || tokens < 0 then
        Err("capture embedding metadata does not match payload")
      else if payload != PayloadDigest(raw) then Err("capture payload digest mismatch")
      else Ok(SafeEvent(sequence, caseId, ordinal, kind, model, payload, EmbeddingCounts(items, bytes, tokens)))
    case GenerationEvent(ordinal, kind, model, names, bytes, tokens, payload) =>
      if !(kind.Generation? || kind.Repair?) then Err("capture request kind or fields are invalid")
      else if !MetadataOk(ordinal, model) then Err("capture request metadata is malformed")
      else if !raw.Fields? || raw.entries.Keys == {} || !SortedListing(names, raw.entries.Keys)
              || bytes != (map name | name in raw.entries :: Utf8Length(raw.entries[name]))
              || tokens.Keys != {"prompt", "maximum_output"}
              || tokens["prompt"] < 0 || tokens["maximum_output"] < 0 then
        Err("capture generation payload is malformed")
      else if payload != PayloadDigest(raw) then Err("capture payload digest mismatch")
      else Ok(SafeEvent(sequence, caseId, ordinal, kind, model, payload,
                        GenerationCounts(|raw.entries|, SumAt(bytes, names), tokens["prompt"],
                                         tokens["maximum_output"])))
  }

  /** The capture frame once `session_sha256` and `sequence` have been popped from it. */
  function NormalizeCapture(frame: Body, sequence: int): (r: Result<SafeEvent>)
  {
    if frame.Keys != {Command, CaseField, EventField, RawPayload} then Err("capture request fields are malformed")
    else if !frame[EventField].EventValue? then Err("capture request event is malformed")
    else if !frame[CaseField].Sha? then Err("case id binding is invalid")
    else if !frame[RawPayload].PayloadValue? then Err("capture payload is malformed")
    else NormalizeEvent(frame[EventField].event, frame[RawPayload].payload, frame[CaseField].digest, sequence)
  }

  // The frames the two honest programs build.

  function HelloBody(client: Digest, bindings: Bindings): Body
  {
    map[Command := Text("hello"), ClientChallengeField := Sha(client), BindingsField := BindingsValue(bindings)]
  }

  function ReadyBody(session: Digest, server: Digest): Body
  {
    map[Status := Text("ready"), SessionField := Sha(session), ServerChallengeField := Sha(server)]
  }

  /** What the `ready` tag covers: the response and both values the client chose. */
  function ReadyBinding(body: Body, client: Digest, bindings: Bindings): Body
  {
    body[ClientChallengeField := Sha(client)][BindingsField := BindingsValue(bindings)]
  }

  function CaptureBody(caseId: Digest, event: Event, raw: Payload, session: Digest, sequence: int): Body
  {
    map[Command := Text("capture"), CaseField := Sha(caseId), EventField := EventValue(event),
        RawPayload := PayloadValue(raw), SessionField := Sha(session), Sequence := Number(sequence)]
  }

  function SealBody(expected: int, session: Digest, sequence: int): Body
  {
    map[Command := Text("seal"), ExpectedCount := Number(expected), SessionField := Sha(session),
        Sequence := Number(sequence)]
  }

  function CapturedBody(entry: Digest, session: Digest, sequence: int): Body
  {
    map[Status := Text("captured"), CaptureSha := Sha(entry), Sequence := Number(sequence), SessionField := Sha(session)]
  }

  function SealedBody(golden: Bytes, log: seq<Digest>, session: Digest, sequence: int): Body
  {
    map[Status := Text("sealed"), GoldenPayload := GoldenValue(golden), SessionField := Sha(session),
        OrderedDigest := Sha(LedgerDigest(log)), RequestCount := Number(|log|), Sequence := Number(sequence)]
  }
}
