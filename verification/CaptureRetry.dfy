/** When one more request after a failed one can break the order of the log: exactly when the failed request
    has not been logged. */
module CaptureRetry {
  import opened Outcomes
  import opened CaptureFrames
  import opened CaptureProtocol
  import opened CaptureNetwork
  import opened CaptureAgreement

  // ---- An entry determines the request it was computed from ----

  lemma SortedTail(names: seq<string>, keys: set<string>)
    requires names != [] && SortedListing(names, keys)
    ensures SortedListing(names[1..], keys - {names[0]})
  {
    var tail := names[1..];
    assert names == [names[0]] + tail;
    forall k | 0 <= k < |tail| ensures tail[k] != names[0] {
      StringLessTotal(names[0], tail[k]);
      assert StringLess(names[0], names[k + 1]);
    }
  }

  lemma EmptyListing(names: seq<string>, keys: set<string>)
    requires SortedListing(names, keys)
    ensures names == [] <==> keys == {}
  {
    assert names != [] ==> names[0] in keys;
  }

  lemma HeadIsLeast(names: seq<string>, keys: set<string>, name: string)
    requires SortedListing(names, keys) && names != [] && name in keys
    ensures names[0] in keys && (names[0] == name || StringLess(names[0], name))
  {
    assert name in names;
    var k :| 0 <= k < |names| && names[k] == name;
  }

  /** There is one sorted listing of a set of names. */
  lemma {:induction false} ListingUnique(a: seq<string>, b: seq<string>, keys: set<string>)
    requires SortedListing(a, keys) && SortedListing(b, keys)
    ensures a == b
    decreases |a|
  {
    EmptyListing(a, keys);
    EmptyListing(b, keys);
    if a != [] {
      assert b[0] in keys && a[0] in keys;
      HeadIsLeast(a, keys, b[0]);
      HeadIsLeast(b, keys, a[0]);
      StringLessTotal(a[0], b[0]);
      SortedTail(a, keys);
      SortedTail(b, keys);
      ListingUnique(a[1..], b[1..], keys - {a[0]});
      assert a == [a[0]] + a[1..] && b == [b[0]] + b[1..];
    }
  }

  lemma NormalizedDetermines(e: Event, raw: Payload, caseId: Digest, e': Event, raw': Payload, caseId': Digest,
                             sequence: int)
    requires NormalizeEvent(e, raw, caseId, sequence).Ok?
    requires NormalizeEvent(e', raw', caseId', sequence) == NormalizeEvent(e, raw, caseId, sequence)
    ensures e == e' && raw == raw' && caseId == caseId'
  {
    hide MetadataOk;
    if e.GenerationEvent? && e'.GenerationEvent? {
      ListingUnique(e.fieldNames, e'.fieldNames, raw.entries.Keys);
      assert e.tokenCounts == e'.tokenCounts;
    }
  }

  lemma CapturedFrame(body: Body, sequence: int, entry: Digest)
    requires RecordedAs(body, sequence, entry) && SessionField in body
    ensures body.Keys == {Command, CaseField, EventField, RawPayload, SessionField, Sequence}
    ensures body[EventField].EventValue? && body[RawPayload].PayloadValue? && body[CaseField].Sha?
    ensures body[Command] == Text("capture") && body[Sequence] == Number(sequence)
    ensures var event := NormalizeEvent(body[EventField].event, body[RawPayload].payload, body[CaseField].digest, sequence);
      event.Ok? && entry == CaptureDigest(event.value)
  {
    hide NormalizeEvent;
    var frame := body - {SessionField, Sequence};
    assert body.Keys == frame.Keys + {SessionField, Sequence};
  }

  /** Two requests of one session that are recorded as the same entry are the same request. */
  lemma RecordingIsInjective(a: Body, b: Body, sequence: int, entry: Digest)
    requires RecordedAs(a, sequence, entry) && RecordedAs(b, sequence, entry)
    requires SessionField in a && Get(a, SessionField) == Get(b, SessionField)
    ensures a == b
  {
    CapturedFrame(a, sequence, entry);
    CapturedFrame(b, sequence, entry);
    hide RecordedAs, NormalizeEvent;
    NormalizedDetermines(a[EventField].event, a[RawPayload].payload, a[CaseField].digest,
                         b[EventField].event, b[RawPayload].payload, b[CaseField].digest, sequence);
  }

  // ---- No further sends ----

  /** Whatever happens, client `i` sends nothing. */
  predicate Silent(i: nat, actions: seq<Action>)
  {
    forall k :: 0 <= k < |actions| ==>
      !(actions[k].SendCapture? && actions[k].i == i) && !(actions[k].SendSeal? && actions[k].i == i)
  }

  lemma {:induction false} SilenceKeepsOutbox(w: World, i: nat, actions: seq<Action>)
    requires i in w.clients && Silent(i, actions)
    ensures i in Run(w, actions).clients && Run(w, actions).clients[i].outbox == w.clients[i].outbox
    decreases |actions|
  {
    hide Handle, Welcome, ReplyAccepted;
    if actions != [] {
      var v := Next(w, actions[0]);
      assert i in v.clients && v.clients[i].outbox == w.clients[i].outbox;
      SilenceKeepsOutbox(v, i, actions[1..]);
    }
  }

  /** The log is no longer than the highest sequence number that was ever sent. */
  lemma LogWithinSent(w: World, i: nat, j: nat, n: nat)
    requires Inv(w) && Linked(w, i, j)
    requires forall body: Body :: body in w.clients[i].outbox ==>
               Sequence in body && body[Sequence].Number? && body[Sequence].number <= n
    ensures |w.collectors[j].log| <= n
  {
    var log, outbox := w.collectors[j].log, w.clients[i].outbox;
    assert CollectorOk(w, j) && PairOk(w, j) && ClientOk(w, i);
    if log != [] {
      assert Backed(outbox, |log|, log[|log| - 1]);
      var m :| 0 <= m < |outbox| && RecordedAs(outbox[m], |log|, log[|log| - 1]);
      assert outbox[m] in outbox;
    }
  }

  /** What is known of a client whose last request failed and which was not used since. */
  lemma FailedOnce(w: World, i: nat, j: nat)
    requires Inv(w) && Linked(w, i, j) && w.clients[i].failed && !w.clients[i].reused
    ensures var c, s := w.clients[i], w.collectors[j];
      && |c.outbox| == c.count + 1 && c.count <= |s.log| <= c.count + 1
      && LogIsPrefixOfSent(s, c)
      && s.session == c.link.value.session && s.expected == |s.log| + 1
      && forall body :: body in c.outbox ==> RequestBody(c, body)
  {
    assert ClientOk(w, i) && CollectorOk(w, j) && PairOk(w, j);
    BackedInOrder(w.collectors[j], w.clients[i]);
  }

  /** The next request of the client, and the world once it has been sent. */
  function Resent(w: World, i: nat, event: Event, raw: Payload): World
    requires i in w.clients && MaySend(w.clients[i]) && w.clients[i].selected.Some?
  {
    WithRequest(w, i, w.clients[i], CaptureRequest, CaptureRequestBody(w.clients[i], event, raw))
  }

  /** If the failed request was logged, nothing that follows without a further request breaks the order. */
  lemma LoggedKeepsOrder(w: World, i: nat, j: nat, event: Event, raw: Payload, later: seq<Action>)
    requires Inv(w) && Linked(w, i, j) && MaySend(w.clients[i]) && w.clients[i].selected.Some?
    requires w.clients[i].failed && !w.clients[i].reused && |w.collectors[j].log| == w.clients[i].count + 1
    requires Silent(i, later)
    ensures !OutOfOrder(Run(Resent(w, i, event, raw), later), i, j)
  {
    hide RecordedAs, Next, Run, Inv, Backed;
    var c, s := w.clients[i], w.collectors[j];
    var body := CaptureRequestBody(c, event, raw);
    var u := Resent(w, i, event, raw);
    FailedOnce(w, i, j);
    SendOk(w, i, CaptureRequest, body);
    SilenceKeepsOutbox(u, i, later);
    RunGrows(u, later);
    var v := Run(u, later);
    LogWithinSent(v, i, j, c.count + 1) by {
      forall b: Body | b in v.clients[i].outbox
        ensures Sequence in b && b[Sequence].Number? && b[Sequence].number <= c.count + 1
      {
        assert b in c.outbox || b == body;
      }
    }
    assert v.collectors[j].log == s.log;
    SameLogKeepsOrder(s, c, v.clients[i]);
  }

  lemma SameLogKeepsOrder(s: Collector, c: Client, d: Client)
    requires LogIsPrefixOfSent(s, c) && c.outbox <= d.outbox
    ensures LogIsPrefixOfSent(s, d)
  {
    hide RecordedAs;
    forall k | 0 <= k < |s.log| ensures RecordedAs(d.outbox[k], k + 1, s.log[k]) {
      assert d.outbox[k] == c.outbox[k];
    }
  }

  /** The collector finds the request acceptable: it is the next of its model, within the limit. */
  ghost predicate WellFormed(c: Client, s: Collector, event: Event, raw: Payload)
    requires c.selected.Some?
  {
    Recordable(s, NormalizeEvent(event, raw, c.selected.value, c.count + 1))
  }

  lemma DeliveredIsRecorded(c: Client, s: Collector, event: Event, raw: Payload) returns (wire: Wire)
    requires MaySend(c) && c.selected.Some? && Serves(s) && WellFormed(c, s, event, raw)
    requires s.key == Some(c.link.value.key) && s.session == c.link.value.session
    requires s.expected == |s.log| + 1 == c.count + 1
    ensures wire == RequestWire(c, event, raw)
    ensures var entry := CaptureDigest(NormalizeEvent(event, raw, c.selected.value, c.count + 1).value);
      && RecordedAs(CaptureRequestBody(c, event, raw), c.count + 1, entry)
      && Handle(s, wire, Files(None, false)).state.log == s.log + [entry]
  {
    hide NormalizeEvent, Handle, RequestWire;
    wire := RequestWire(c, event, raw);
    HandledRequest(c, s, event, raw, NormalizeEvent(event, raw, c.selected.value, c.count + 1).value, Files(None, false));
    RequestRecorded(c, event, raw);
  }

  lemma RequestRecorded(c: Client, event: Event, raw: Payload)
    requires MaySend(c) && c.selected.Some?
    requires NormalizeEvent(event, raw, c.selected.value, c.count + 1).Ok?
    ensures RecordedAs(CaptureRequestBody(c, event, raw), c.count + 1,
                       CaptureDigest(NormalizeEvent(event, raw, c.selected.value, c.count + 1).value))
  {
    hide NormalizeEvent;
    var frame := CaptureRequestBody(c, event, raw) - {SessionField, Sequence};
    assert frame.Keys == {Command, CaseField, EventField, RawPayload};
  }

  /** If it was not, delivering only the new request breaks the order at once. */
  lemma UnloggedBreaksOrder(w: World, i: nat, j: nat, event: Event, raw: Payload) returns (later: seq<Action>)
    requires Inv(w) && Linked(w, i, j) && MaySend(w.clients[i]) && w.clients[i].selected.Some?
    requires w.clients[i].failed && !w.clients[i].reused && |w.collectors[j].log| == w.clients[i].count
    requires Serves(w.collectors[j]) && WellFormed(w.clients[i], w.collectors[j], event, raw)
    requires |w.clients[i].outbox| == w.clients[i].count + 1
    requires CaptureRequestBody(w.clients[i], event, raw) != w.clients[i].outbox[w.clients[i].count]
    ensures Silent(i, later)
    ensures OutOfOrder(Run(Resent(w, i, event, raw), later), i, j)
  {
    hide RecordedAs, WellFormed, Handle, PairOk, TagOk, Inv;
    var c, s := w.clients[i], w.collectors[j];
    var body := CaptureRequestBody(c, event, raw);
    FailedOnce(w, i, j);
    var wire := DeliveredIsRecorded(c, s, event, raw);
    var u := Resent(w, i, event, raw);
    assert Deliverable(wire, u.tags);
    var delivery := DeliverRequest(j, wire, Files(None, false));
    later := [delivery];
    var v := Next(u, delivery);
    assert later[1..] == [] && Run(u, later) == v;
    HandleGrows(s, wire, Files(None, false));
    var failed := c.outbox[c.count];
    assert v.clients[i].outbox == c.outbox + [body] && v.clients[i].outbox[c.count] == failed;
    var entry := v.collectors[j].log[c.count];
    assert failed in c.outbox && RequestBody(c, failed);
    if RecordedAs(failed, c.count + 1, entry) {
      RecordingIsInjective(failed, body, c.count + 1, entry);
    }
  }

  /** The log of collector `j` does not begin with what client `i` sent first, second, ... */
  ghost predicate OutOfOrder(w: World, i: nat, j: nat)
  {
    Linked(w, i, j) && !LogIsPrefixOfSent(w.collectors[j], w.clients[i])
  }

  /** For every reachable world: let client `i`, linked to the serving collector `j`, be used again after its
      first failure, for another request that the collector would record.  Without a further request some
      continuation breaks the order of the log exactly when the failed request has not been logged. */
  lemma RetryBreaksExactly(actions: seq<Action>, i: nat, j: nat, event: Event, raw: Payload)
    requires Linked(After(actions), i, j) && Serves(After(actions).collectors[j])
    requires var c := After(actions).clients[i];
      && MaySend(c) && c.selected.Some? && c.failed && !c.reused
      && (|After(actions).collectors[j].log| == c.count ==> WellFormed(c, After(actions).collectors[j], event, raw))
      && |c.outbox| > c.count && CaptureRequestBody(c, event, raw) != c.outbox[c.count]
    ensures (exists later :: Silent(i, later) && OutOfOrder(After(actions + [SendCapture(i, event, raw)] + later), i, j))
            <==> |After(actions).collectors[j].log| == After(actions).clients[i].count
  {
    hide Inv, LogIsPrefixOfSent, WellFormed, OutOfOrder;
    var w := After(actions);
    InvAfter(actions);
    FailedOnce(w, i, j);
    forall later ensures After(actions + [SendCapture(i, event, raw)] + later) == Run(Resent(w, i, event, raw), later) {
      RetryAfter(actions, i, event, raw, later);
    }
    if |w.collectors[j].log| == w.clients[i].count {
      var later := UnloggedBreaksOrder(w, i, j, event, raw);
      assert OutOfOrder(After(actions + [SendCapture(i, event, raw)] + later), i, j);
    } else {
      forall later | Silent(i, later) ensures !OutOfOrder(Run(Resent(w, i, event, raw), later), i, j) {
        LoggedKeepsOrder(w, i, j, event, raw, later);
      }
    }
  }

  lemma RetryAfter(actions: seq<Action>, i: nat, event: Event, raw: Payload, later: seq<Action>)
    requires var w := After(actions); i in w.clients && MaySend(w.clients[i]) && w.clients[i].selected.Some?
    ensures After(actions + [SendCapture(i, event, raw)] + later) == Run(Resent(After(actions), i, event, raw), later)
  {
    var send := SendCapture(i, event, raw);
    RunAppend(Initial, actions + [send], later);
    RunAppend(Initial, actions, [send]);
    assert [send][1..] == [];
    assert Next(After(actions), send) == Resent(After(actions), i, event, raw);
  }
}
