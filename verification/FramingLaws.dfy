/** The digest input of a pack, byte by byte. */
module FramingLaws {
  import opened Octets
  import opened Framing
  import FrameTransport

  /** What can be sent as one frame: fewer than 32,000,000 bytes, none of them a line feed. */
  lemma FramesExactly(payload: Bytes)
    ensures FrameTransport.IsFrame(payload)
            <==> |payload| < 32_000_000 && forall i :: 0 <= i < |payload| ==> payload[i] != 10
  {
  }

  /** The eight bytes of a number below 2^64, the most significant first. */
  lemma DigitsMean(n: nat)
    requires n < 18_446_744_073_709_551_616
    ensures var b := BigEndian(n, 8);
      var first: int, second: int, third: int, fourth: int, fifth: int, sixth: int, seventh: int, eighth: int
        := b[0], b[1], b[2], b[3], b[4], b[5], b[6], b[7];
      n == 72_057_594_037_927_936 * first + 281_474_976_710_656 * second + 1_099_511_627_776 * third
           + 4_294_967_296 * fourth + 16_777_216 * fifth + 65_536 * sixth + 256 * seventh + eighth
  {
    EightBytes();
    var b := BigEndian(n, 8);
    ValueOfBigEndian(n, 8);
    assert b[..7][..6] == b[..6] && b[..6][..5] == b[..5] && b[..5][..4] == b[..4] && b[..4][..3] == b[..3];
    assert b[..3][..2] == b[..2] && b[..2][..1] == b[..1] && b[..1][..0] == [];
    assert ValueOf(b[..1]) == b[0];
    assert ValueOf(b[..2]) == 256 * ValueOf(b[..1]) + b[1];
    assert ValueOf(b[..3]) == 256 * ValueOf(b[..2]) + b[2];
    assert ValueOf(b[..4]) == 256 * ValueOf(b[..3]) + b[3];
    assert ValueOf(b[..5]) == 256 * ValueOf(b[..4]) + b[4];
    assert ValueOf(b[..6]) == 256 * ValueOf(b[..5]) + b[5];
    assert ValueOf(b[..7]) == 256 * ValueOf(b[..6]) + b[6];
  }

  lemma EightBytes()
    ensures Power(8) == 18_446_744_073_709_551_616
  {
    assert Power(1) == 256 && Power(2) == 65_536 && Power(3) == 16_777_216;
    assert Power(4) == 256 * Power(3) && Power(5) == 256 * Power(4);
    assert Power(6) == 256 * Power(5) && Power(7) == 256 * Power(6) && Power(8) == 256 * Power(7);
  }

  /** A chunk below 2^64 bytes is framed by eight bytes of its length, and then itself. */
  lemma FrameMeans(chunk: Bytes)
    ensures Framable(chunk) <==> |chunk| < 18_446_744_073_709_551_616
    ensures Framed(chunk) == BigEndian(|chunk|, 8) + chunk && |Framed(chunk)| == 8 + |chunk|
  {
    EightBytes();
  }

  /** What is digested of a pack: the domain, a NUL, and of each member its path, its size in eight bytes and the
      digest of its content, each behind its own length; the execution member first. */
  lemma BundleMeans(text: Bytes, execution: Member, golden: Member)
    ensures Encoded(text, BundleChunks([execution, golden]))
            == text + [0]
               + (BigEndian(|execution.path|, 8) + execution.path)
               + (BigEndian(8, 8) + BigEndian(execution.size, 8))
               + (BigEndian(|execution.sha|, 8) + execution.sha)
               + (BigEndian(|golden.path|, 8) + golden.path)
               + (BigEndian(8, 8) + BigEndian(golden.size, 8))
               + (BigEndian(|golden.sha|, 8) + golden.sha)
  {
    EncodedNone(text);
    EncodedSnoc(text, [], execution);
    EncodedSnoc(text, [execution], golden);
    assert [] + [execution] == [execution] && [execution] + [golden] == [execution, golden];
    ThreeFrames(execution);
    ThreeFrames(golden);
    hide Encoded, BundleChunks, FramedAll, MemberChunks, BigEndian;
    var e, g := Framed(execution.path) + Framed(BigEndian(execution.size, 8)) + Framed(execution.sha),
                Framed(golden.path) + Framed(BigEndian(golden.size, 8)) + Framed(golden.sha);
    assert Encoded(text, BundleChunks([execution, golden])) == text + [0] + e + g;
    hide Framed;
  }

  /** The size that is limited is that of all members together. */
  lemma {:induction false} SizesAddUp(payload: Bytes, rest: seq<Bytes>)
    ensures TotalSize([]) == 0 && TotalSize([payload] + rest) == |payload| + TotalSize(rest)
    decreases |rest|
  {
    var all := [payload] + rest;
    if rest == [] {
      assert all[..0] == [];
    } else {
      SizesAddUp(payload, rest[..|rest| - 1]);
      assert all[..|all| - 1] == [payload] + rest[..|rest| - 1];
    }
  }
}
