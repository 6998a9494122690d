/** Frames over a socket: canonical text and a newline, received in pieces of any size. */
module FrameTransport {
  import opened Outcomes
  import opened Octets
  import opened Numbers

  const NEWLINE: byte := 10
  const MAX_FRAME_BYTES := 32_000_000
  const BLOCK := 1_048_576

  /** One direction of a connection: the bytes sent and not yet received. */
  class Wire {
    var waiting: Bytes

    constructor ()
      ensures waiting == []
    {
      waiting := [];
    }

    method SendAll(bytes: Bytes)
      modifies this
      ensures waiting == old(waiting) + bytes
    {
      waiting := waiting + bytes;
    }

    /** At least one byte if any is waiting, at most `limit`, and otherwise as many as the network happens to
        deliver; nothing once the sender is done. */
    method Receive(limit: nat, delivered: nat) returns (block: Bytes)
      requires 1 <= limit
      modifies this
      ensures old(waiting) == block + waiting
      ensures |block| <= limit && (block == [] <==> old(waiting) == [])
    {
      var size := Min(|waiting|, Min(limit, if delivered == 0 then 1 else delivered));
      block := waiting[..size];
      waiting := waiting[size..];
    }
  }

  predicate IsFrame(payload: Bytes)
  {
    |payload| + 1 <= MAX_FRAME_BYTES && NEWLINE !in payload
  }

  /** Sends a payload as one frame, unless it is too long. */
  method SendFrame(wire: Wire, payload: Bytes) returns (ok: bool)
    modifies wire
    ensures ok <==> |payload| < 32_000_000
    ensures IsFrame(payload) ==> ok
    ensures wire.waiting == if ok then old(wire.waiting) + payload + [10] else old(wire.waiting)
  {
    if |payload| + 1 > MAX_FRAME_BYTES {
      return false;
    }
    wire.SendAll(payload + [NEWLINE]);
    assert old(wire.waiting) + (payload + [NEWLINE]) == old(wire.waiting) + payload + [NEWLINE];
    return true;
  }

  /** Exactly one newline, at the end. */
  predicate WellFormed(bytes: Bytes)
  {
    bytes != [] && bytes[|bytes| - 1] == NEWLINE && NEWLINE !in bytes[..|bytes| - 1]
  }

  /** Receives one frame, however the network cuts it.  `deliveries` says how many bytes each call may return.
      A frame is received whole and alone: if bytes of a second frame come with it, it is rejected. */
  method ReceiveFrame(wire: Wire, deliveries: nat -> nat) returns (payload: Option<Bytes>)
    modifies wire
    ensures payload.Some? ==>
              && IsFrame(payload.value) && |payload.value| < 32_000_000 && 10 !in payload.value
              && old(wire.waiting) == payload.value + [10] + wire.waiting
    ensures forall p :: IsFrame(p) && old(wire.waiting) == p + [NEWLINE] ==> payload == Some(p) && wire.waiting == []
  {
    var total: Bytes := [];
    var calls := 0;
    var ended := false;
    while !ended
      invariant old(wire.waiting) == total + wire.waiting
      invariant |total| <= MAX_FRAME_BYTES
      invariant !ended ==> NEWLINE !in total
      invariant ended ==> wire.waiting == [] || NEWLINE in total
      decreases !ended, |wire.waiting|
    {
      var block := wire.Receive(Min(BLOCK, MAX_FRAME_BYTES + 1 - |total|), deliveries(calls));
      calls := calls + 1;
      if block == [] {
        ended := true;
      } else {
        total := total + block;
        if |total| > MAX_FRAME_BYTES {
          assert |old(wire.waiting)| > MAX_FRAME_BYTES;
          return None;
        }
        if NEWLINE in block {
          ended := true;
        }
      }
    }
    forall p | IsFrame(p) && old(wire.waiting) == p + [NEWLINE]
      ensures total == p + [NEWLINE] && wire.waiting == [] && WellFormed(total)
    {
      WholeFrame(old(wire.waiting), total, wire.waiting, p);
    }
    if !WellFormed(total) {
      return None;
    }
    payload := Some(total[..|total| - 1]);
    assert total == payload.value + [NEWLINE];
  }

  lemma NewlineAt(waiting: Bytes, p: Bytes, i: nat)
    requires waiting == p + [NEWLINE] && NEWLINE !in p && i < |waiting| && waiting[i] == NEWLINE
    ensures i == |p|
  {
    assert forall k :: 0 <= k < |p| ==> waiting[k] == p[k];
  }

  /** What was received of a single frame, up to a newline or to the end, is that frame. */
  lemma WholeFrame(waiting: Bytes, total: Bytes, rest: Bytes, p: Bytes)
    requires waiting == total + rest && (rest == [] || NEWLINE in total)
    requires IsFrame(p) && waiting == p + [NEWLINE]
    ensures total == p + [NEWLINE] && rest == [] && WellFormed(total)
  {
    assert rest == [] ==> total == waiting && total[|p|] == NEWLINE;
    var i :| 0 <= i < |total| && total[i] == NEWLINE;
    assert waiting[i] == total[i];
    NewlineAt(waiting, p, i);
    assert total == waiting && waiting[..|p|] == p;
  }

  // ---- A conversation ----

  /** Requests and replies strictly alternate, so no receive ever meets a second frame: every request and every
      reply arrives exactly as it was sent, whatever the network does with the pieces. */
  method Converse(requests: seq<Bytes>, reply: Bytes -> Bytes, deliveries: nat -> nat)
    returns (received: seq<Bytes>, replies: seq<Bytes>)
    requires forall i :: 0 <= i < |requests| ==> IsFrame(requests[i]) && IsFrame(reply(requests[i]))
    ensures received == requests
    ensures |replies| == |requests| && forall i :: 0 <= i < |requests| ==> replies[i] == reply(requests[i])
  {
    var toCollector := new Wire();
    var toClient := new Wire();
    received, replies := [], [];
    hide IsFrame;
    for n := 0 to |requests|
      invariant toCollector.waiting == [] && toClient.waiting == []
      invariant received == requests[..n]
      invariant |replies| == n && forall i :: 0 <= i < n ==> replies[i] == reply(requests[i])
    {
      var sent := SendFrame(toCollector, requests[n]);
      var request := ReceiveFrame(toCollector, deliveries);
      assert request == Some(requests[n]);
      received := received + [request.value];
      var answered := SendFrame(toClient, reply(request.value));
      var response := ReceiveFrame(toClient, deliveries);
      assert response == Some(reply(requests[n]));
      replies := replies + [response.value];
    }
  }
}
