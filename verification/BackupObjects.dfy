/** Encrypted objects as bytes: how they are read, stored in pieces and authenticated. */
module BackupObjects {
  import opened Outcomes
  import opened Octets
  import opened Numbers


  const MAX_OBJECTS := 100_000
  const MAX_OBJECT_BYTES := 68_719_476_736
  const MAX_TOTAL_BYTES := 1_099_511_627_776
  const MAX_KEY_BYTES := 1024
  const CHUNK := 1_048_576

  /** The authentication tag of AES-GCM under the encryption key, of a nonce, a name and a ciphertext. */
  type Mac = (Bytes, string, Bytes) -> Bytes

  function Magic(): Bytes
  {
    [67, 86, 69, 78, 67, 49, 0]
  }

  /** The envelope: 7 bytes of magic, 12 of nonce, the ciphertext, 16 of tag over the object's own name. */
  predicate Authentic(mac: Mac, name: string, payload: Bytes)
  {
    && 35 <= |payload|
    && payload[..7] == Magic()
    && payload[|payload| - 16..] == mac(payload[7..19], name, payload[19..|payload| - 16])
  }

  /** An open file. */
  class Stream {
    const data: Bytes
    var position: nat

    constructor (data: Bytes)
      ensures this.data == data && position == 0
    {
      this.data, position := data, 0;
    }

    method Seek(offset: nat)
      modifies this
      ensures position == offset
    {
      position := offset;
    }

    /** At most `count` bytes from the position on, fewer only at the end of the file. */
    method Read(count: nat) returns (chunk: Bytes)
      modifies this
      ensures chunk == Slice(data, old(position), count)
      ensures position == old(position) + |chunk|
    {
      chunk := Slice(data, position, count);
      position := position + |chunk|;
    }
  }

  function Slice(data: Bytes, from: nat, count: nat): Bytes
  {
    if |data| <= from then [] else if |data| <= from + count then data[from..] else data[from..from + count]
  }

  lemma SliceJoins(data: Bytes, start: nat, a: nat, b: nat)
    requires start + a + b <= |data|
    ensures data[start..start + a] + data[start + a..start + a + b] == data[start..start + a + b]
  {
  }

  /** Reads `count` bytes in pieces of at most one mebibyte, or finds the file truncated. */
  method ReadAll(stream: Stream, count: nat) returns (read: Option<Bytes>)
    modifies stream
    ensures read == if old(stream.position) + count <= |stream.data|
                    then Some(stream.data[old(stream.position)..old(stream.position) + count])
                    else if count == 0 then Some([]) else None
  {
    var fed: Bytes := [];
    var remaining: nat := count;
    ghost var start := stream.position;
    while remaining != 0
      invariant |fed| + remaining == count && stream.position == start + |fed|
      invariant fed != [] ==> start + |fed| <= |stream.data| && fed == stream.data[start..start + |fed|]
    {
      var chunk := stream.Read(Min(CHUNK, remaining));
      if chunk == [] {
        return None;
      }
      SliceJoins(stream.data, start, |fed|, |chunk|);
      fed := fed + chunk;
      remaining := remaining - |chunk|;
    }
    if start + count <= |stream.data| {
      assert fed == stream.data[start..start + count];
    }
    return Some(fed);
  }

  /** Reads the envelope in pieces and checks its tag. */
  method AuthenticateEnvelope(mac: Mac, stream: Stream, name: string, size: nat) returns (ok: bool)
    modifies stream
    ensures ok <==> size <= |stream.data| && Authentic(mac, name, stream.data[..size])
  {
    if size < 35 {
      return false;
    }
    stream.Seek(0);
    var magic := stream.Read(7);
    if magic != Magic() {
      return false;
    }
    var nonce := stream.Read(12);
    stream.Seek(size - 16);
    var tag := stream.Read(16);
    if |nonce| != 12 || |tag| != 16 {
      return false;
    }
    assert size <= |stream.data|;
    ghost var whole := stream.data[..size];
    assert whole[..7] == magic && whole[7..19] == nonce && whole[size - 16..] == tag;
    stream.Seek(19);
    var fed := ReadAll(stream, size - 35);
    if fed.None? {
      return false;
    }
    assert fed.value == whole[19..size - 16];
    return tag == mac(nonce, name, fed.value);
  }

  function Joined(chunks: seq<Bytes>): Bytes
  {
    if chunks == [] then [] else Joined(chunks[..|chunks| - 1]) + chunks[|chunks| - 1]
  }

  lemma {:induction false} JoinedGrows(chunks: seq<Bytes>, k: nat)
    requires k <= |chunks|
    ensures |Joined(chunks[..k])| <= |Joined(chunks)|
    decreases |chunks|
  {
    if k < |chunks| {
      JoinedGrows(chunks[..|chunks| - 1], k);
      assert chunks[..|chunks| - 1][..k] == chunks[..k];
    } else {
      assert chunks[..k] == chunks;
    }
  }

  function Head(payload: Bytes): Bytes
  {
    if |payload| <= 7 then payload else payload[..7]
  }

  /** Stores an object that arrives in pieces of any size, and keeps its first seven bytes. */
  method StoreObject(chunks: seq<Bytes>) returns (stored: Option<Bytes>, prefix: Bytes)
    ensures stored == if |Joined(chunks)| <= MAX_OBJECT_BYTES then Some(Joined(chunks)) else None
    ensures stored.Some? ==> prefix == Head(stored.value)
  {
    prefix := [];
    var file: Bytes := [];
    for i := 0 to |chunks|
      invariant file == Joined(chunks[..i]) && prefix == Head(file)
      invariant |file| <= MAX_OBJECT_BYTES
    {
      var chunk := chunks[i];
      assert chunks[..i + 1][..i] == chunks[..i];
      if |prefix| < 7 {
        prefix := prefix + (if |chunk| <= 7 - |prefix| then chunk else chunk[..7 - |prefix|]);
      }
      file := file + chunk;
      if |file| > MAX_OBJECT_BYTES {
        JoinedGrows(chunks, i + 1);
        return None, prefix;
      }
    }
    assert chunks[..|chunks|] == chunks;
    return Some(file), prefix;
  }
}
