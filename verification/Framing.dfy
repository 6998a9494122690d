/** Length-prefixed digest inputs: a domain, then chunks, each behind the eight bytes of its length. */
module Framing {
  import opened Outcomes
  import opened Octets
  import BenchmarkPack
  import opened RealSums

  const LENGTH_BYTES := 8

  predicate Framable(chunk: Bytes)
  {
    |chunk| < Power(LENGTH_BYTES)
  }

  function Framed(chunk: Bytes): Bytes
  {
    BigEndian(|chunk|, LENGTH_BYTES) + chunk
  }

  function FramedAll(chunks: seq<Bytes>): Bytes
  {
    if chunks == [] then [] else Framed(chunks[0]) + FramedAll(chunks[1..])
  }

  ghost predicate AllFramable(chunks: seq<Bytes>)
  {
    forall i :: 0 <= i < |chunks| ==> Framable(chunks[i])
  }

  /** A domain is a text without NUL, closed by a NUL. */
  ghost predicate DomainText(text: Bytes)
  {
    forall i :: 0 <= i < |text| ==> text[i] != 0
  }

  /** What is digested. */
  function Encoded(text: Bytes, chunks: seq<Bytes>): Bytes
  {
    text + [0] + FramedAll(chunks)
  }

  // ---- Reading it back ----

  /** The text before the first NUL, and what follows it. */
  function SplitDomain(bytes: Bytes): Option<(Bytes, Bytes)>
  {
    if bytes == [] then None
    else if bytes[0] == 0 then Some(([], bytes[1..]))
    else
      match SplitDomain(bytes[1..])
      case None => None
      case Some(parts) => Some(([bytes[0]] + parts.0, parts.1))
  }

  function SplitChunks(bytes: Bytes): Option<seq<Bytes>>
    decreases |bytes|
  {
    if bytes == [] then Some([])
    else if |bytes| < LENGTH_BYTES then None
    else
      var n := ValueOf(bytes[..LENGTH_BYTES]);
      if |bytes| < LENGTH_BYTES + n then None
      else
        match SplitChunks(bytes[LENGTH_BYTES + n..])
        case None => None
        case Some(rest) => Some([bytes[LENGTH_BYTES..LENGTH_BYTES + n]] + rest)
  }

  function Decoded(bytes: Bytes): Option<(Bytes, seq<Bytes>)>
  {
    match SplitDomain(bytes)
    case None => None
    case Some(parts) =>
      match SplitChunks(parts.1)
      case None => None
      case Some(chunks) => Some((parts.0, chunks))
  }

  lemma {:induction false} SplitDomainOf(text: Bytes, rest: Bytes)
    requires DomainText(text)
    ensures SplitDomain(text + [0] + rest) == Some((text, rest))
    decreases |text|
  {
    var bytes := text + [0] + rest;
    if text == [] {
      assert bytes == [0] + rest && bytes[1..] == rest;
    } else {
      SplitDomainOf(text[1..], rest);
      assert bytes[0] == text[0] && bytes[1..] == text[1..] + [0] + rest;
      assert [text[0]] + text[1..] == text;
    }
  }

  lemma {:induction false} SplitChunksOf(chunks: seq<Bytes>)
    requires AllFramable(chunks)
    ensures SplitChunks(FramedAll(chunks)) == Some(chunks)
    decreases |chunks|
  {
    if chunks != [] {
      var first, rest := chunks[0], chunks[1..];
      var bytes := FramedAll(chunks);
      SplitChunksOf(rest);
      ValueOfBigEndian(|first|, LENGTH_BYTES);
      assert bytes[..LENGTH_BYTES] == BigEndian(|first|, LENGTH_BYTES);
      assert bytes[LENGTH_BYTES..LENGTH_BYTES + |first|] == first;
      assert bytes[LENGTH_BYTES + |first|..] == FramedAll(rest);
      assert [first] + rest == chunks;
    }
  }

  /** Round trip: the digested bytes give back the domain and the chunks. */
  lemma DecodedOfEncoded(text: Bytes, chunks: seq<Bytes>)
    requires DomainText(text) && AllFramable(chunks)
    ensures Decoded(Encoded(text, chunks)) == Some((text, chunks))
  {
    SplitDomainOf(text, FramedAll(chunks));
    SplitChunksOf(chunks);
  }

  /** So two digest inputs are equal only for the same domain and the same chunks. */
  lemma UniquelyDecodable(a: Bytes, chunks: seq<Bytes>, b: Bytes, others: seq<Bytes>)
    requires DomainText(a) && AllFramable(chunks) && DomainText(b) && AllFramable(others)
    ensures Encoded(a, chunks) == Encoded(b, others) <==> a == b && chunks == others
  {
    DecodedOfEncoded(a, chunks);
    DecodedOfEncoded(b, others);
  }

  // ---- A digest that is fed in place ----

  /** What was fed to the digest so far. */
  class Digest {
    var fed: Bytes

    constructor (text: Bytes)
      ensures fed == text + [0]
    {
      fed := text + [0];
    }

    method Frame(chunk: Bytes)
      modifies this
      ensures fed == old(fed) + Framed(chunk)
    {
      fed := fed + BigEndian(|chunk|, LENGTH_BYTES);
      fed := fed + chunk;
    }
  }

  lemma {:induction false} FramedAllAppend(a: seq<Bytes>, b: seq<Bytes>)
    ensures FramedAll(a + b) == FramedAll(a) + FramedAll(b)
    decreases |a|
  {
    if a == [] {
      assert a + b == b;
    } else {
      FramedAllAppend(a[1..], b);
      hide Framed;
      assert (a + b)[0] == a[0] && (a + b)[1..] == a[1..] + b;
      ConcatAssociates(Framed(a[0]), FramedAll(a[1..]), FramedAll(b));
    }
  }

  // ---- The bundle of the two pack members ----

  const MAX_TOTAL_BYTES := 16_000_000

  /** A member as the bundle names it: path, size and content digest. */
  datatype Member = Member(path: Bytes, size: nat, sha: Bytes)

  function MemberChunks(m: Member): seq<Bytes>
  {
    [m.path, BigEndian(m.size, LENGTH_BYTES), m.sha]
  }

  function BundleChunks(members: seq<Member>): seq<Bytes>
  {
    if members == [] then [] else BundleChunks(members[..|members| - 1]) + MemberChunks(members[|members| - 1])
  }

  function MembersOf(sha: Bytes -> Bytes, paths: seq<Bytes>, payloads: seq<Bytes>): (members: seq<Member>)
    requires |paths| == |payloads|
    ensures |members| == |paths|
    ensures forall i :: 0 <= i < |paths| ==> members[i] == Member(paths[i], |payloads[i]|, sha(payloads[i]))
  {
    seq(|paths|, i requires 0 <= i < |paths| => Member(paths[i], |payloads[i]|, sha(payloads[i])))
  }

  function TotalSize(payloads: seq<Bytes>): nat
  {
    if payloads == [] then 0 else TotalSize(payloads[..|payloads| - 1]) + |payloads[|payloads| - 1]|
  }

  ghost predicate SizesOk(payloads: seq<Bytes>)
  {
    && (forall i :: 0 <= i < |payloads| ==> |payloads[i]| <= BenchmarkPack.MAX_FILE_BYTES)
    && TotalSize(payloads) <= MAX_TOTAL_BYTES
  }

  lemma {:induction false} PrefixSize(payloads: seq<Bytes>, k: nat)
    requires k <= |payloads|
    ensures TotalSize(payloads[..k]) <= TotalSize(payloads)
    decreases |payloads|
  {
    if k < |payloads| {
      PrefixSize(payloads[..|payloads| - 1], k);
      assert payloads[..|payloads| - 1][..k] == payloads[..k];
    } else {
      assert payloads[..k] == payloads;
    }
  }

  lemma ThreeFrames(m: Member)
    ensures FramedAll(MemberChunks(m))
            == Framed(m.path) + Framed(BigEndian(m.size, LENGTH_BYTES)) + Framed(m.sha)
  {
    var two: seq<Bytes>, one: seq<Bytes> := [BigEndian(m.size, LENGTH_BYTES), m.sha], [m.sha];
    assert MemberChunks(m)[1..] == two && two[1..] == one && |one[1..]| == 0;
    assert FramedAll(one) == Framed(m.sha);
    assert FramedAll(two) == Framed(BigEndian(m.size, LENGTH_BYTES)) + Framed(m.sha);
  }

  lemma EncodedSnoc(text: Bytes, members: seq<Member>, m: Member)
    ensures Encoded(text, BundleChunks(members + [m]))
            == Encoded(text, BundleChunks(members)) + FramedAll(MemberChunks(m))
  {
    hide FramedAll, MemberChunks;
    assert (members + [m])[..|members|] == members;
    FramedAllAppend(BundleChunks(members), MemberChunks(m));
  }

  method FrameMember(digest: Digest, m: Member)
    modifies digest
    ensures digest.fed == old(digest.fed) + FramedAll(MemberChunks(m))
  {
    hide Framed, FramedAll;
    digest.Frame(m.path);
    digest.Frame(BigEndian(m.size, LENGTH_BYTES));
    digest.Frame(m.sha);
    ThreeFrames(m);
  }

  lemma EncodedNone(text: Bytes)
    ensures Encoded(text, BundleChunks([])) == text + [0]
  {
  }

  /** Reads the files one by one and digests them. */
  method BundleDescriptor(sha: Bytes -> Bytes, text: Bytes, paths: seq<Bytes>, payloads: seq<Bytes>)
    returns (fed: Option<Bytes>)
    requires |paths| == |payloads|
    ensures fed.Some? <==> (forall i :: 0 <= i < |payloads| ==> |payloads[i]| <= 8_000_000)
                           && TotalSize(payloads) <= 16_000_000
    ensures fed.Some? ==> fed.value == Encoded(text, BundleChunks(MembersOf(sha, paths, payloads)))
  {
    hide Encoded, BundleChunks, FramedAll, MemberChunks;
    var digest := new Digest(text);
    var total := 0;
    ghost var members := MembersOf(sha, paths, payloads);
    EncodedNone(text);
    for n := 0 to |paths|
      invariant digest.fed == Encoded(text, BundleChunks(members[..n]))
      invariant total == TotalSize(payloads[..n])
      invariant forall i :: 0 <= i < n ==> |payloads[i]| <= BenchmarkPack.MAX_FILE_BYTES
      invariant total <= MAX_TOTAL_BYTES
    {
      assert payloads[..n + 1][..n] == payloads[..n];
      assert members[..n + 1] == members[..n] + [members[n]];
      EncodedSnoc(text, members[..n], members[n]);
      if |payloads[n]| > BenchmarkPack.MAX_FILE_BYTES {
        return None;
      }
      total := total + |payloads[n]|;
      if total > MAX_TOTAL_BYTES {
        PrefixSize(payloads, n + 1);
        return None;
      }
      FrameMember(digest, Member(paths[n], |payloads[n]|, sha(payloads[n])));
    }
    assert members[..|paths|] == members && payloads[..|paths|] == payloads;
    return Some(digest.fed);
  }

  /** The same digest from the sizes and content digests of the two members alone. */
  method BundleFromMembers(text: Bytes, execution: Member, golden: Member) returns (fed: Bytes)
    ensures fed == Encoded(text, BundleChunks([execution, golden]))
  {
    hide Encoded, BundleChunks, FramedAll, MemberChunks;
    var digest := new Digest(text);
    EncodedNone(text);
    FrameMember(digest, execution);
    EncodedSnoc(text, [], execution);
    assert [] + [execution] == [execution];
    FrameMember(digest, golden);
    EncodedSnoc(text, [execution], golden);
    assert [execution] + [golden] == [execution, golden];
    return digest.fed;
  }

  /** The digest of the members is that of the files exactly when the members describe the files. */
  lemma SameBundleExactly(sha: Bytes -> Bytes, text: Bytes, paths: seq<Bytes>, payloads: seq<Bytes>,
                          execution: Member, golden: Member)
    requires |paths| == |payloads| == 2 && DomainText(text) && SizesOk(payloads)
    requires Framable(paths[0]) && Framable(paths[1]) && Framable(execution.path) && Framable(golden.path)
    requires forall x :: |sha(x)| == 32
    requires |execution.sha| == 32 && |golden.sha| == 32
    requires execution.size < Power(LENGTH_BYTES) && golden.size < Power(LENGTH_BYTES)
    ensures Encoded(text, BundleChunks(MembersOf(sha, paths, payloads))) == Encoded(text, BundleChunks([execution, golden]))
            <==> MembersOf(sha, paths, payloads) == [execution, golden]
  {
    var files := MembersOf(sha, paths, payloads);
    assert Power(LENGTH_BYTES) > BenchmarkPack.MAX_FILE_BYTES by {
      assert Power(3) == 16_777_216 by { assert Power(1) == 256 && Power(2) == 65_536; }
      assert Power(4) == 256 * Power(3) && Power(5) == 256 * Power(4);
      assert Power(6) == 256 * Power(5) && Power(7) == 256 * Power(6) && Power(8) == 256 * Power(7);
    }
    TwoMembers(files[0], files[1]);
    TwoMembers(execution, golden);
    assert files == [files[0], files[1]];
    UniquelyDecodable(text, BundleChunks(files), text, BundleChunks([execution, golden]));
    if BundleChunks(files) == BundleChunks([execution, golden]) {
      SameMember(files[0], execution);
      SameMember(files[1], golden);
    }
  }

  lemma TwoMembers(a: Member, b: Member)
    requires Framable(a.path) && Framable(b.path) && Framable(a.sha) && Framable(b.sha)
    ensures BundleChunks([a, b]) == [a.path, BigEndian(a.size, LENGTH_BYTES), a.sha, b.path, BigEndian(b.size, LENGTH_BYTES), b.sha]
    ensures AllFramable(BundleChunks([a, b]))
  {
    assert [a, b][..1] == [a] && [a][..0] == [];
    assert BundleChunks([a]) == MemberChunks(a);
    assert Power(LENGTH_BYTES) > LENGTH_BYTES by {
      assert Power(1) == 256;
      assert Power(2) == 256 * Power(1) && Power(3) == 256 * Power(2) && Power(4) == 256 * Power(3);
      assert Power(5) == 256 * Power(4) && Power(6) == 256 * Power(5) && Power(7) == 256 * Power(6);
      assert Power(8) == 256 * Power(7);
    }
  }

  lemma SameMember(a: Member, b: Member)
    requires a.path == b.path && a.sha == b.sha
    requires a.size < Power(LENGTH_BYTES) && b.size < Power(LENGTH_BYTES)
    requires BigEndian(a.size, LENGTH_BYTES) == BigEndian(b.size, LENGTH_BYTES)
    ensures a == b
  {
    ValueOfBigEndian(a.size, LENGTH_BYTES);
    ValueOfBigEndian(b.size, LENGTH_BYTES);
  }
}
