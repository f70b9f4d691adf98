/**
 * What the first bit of a slice says: the access units the sender finds are the frames that
 * H.264 means (Recommendation ITU-T H.264, sections 7.3.1, 7.3.3 and 9.1).
 */
module SliceHeaders {
  import opened Wrappers
  import opened AnnexB

  /** The bits of a byte, most significant first. */
  function ByteBits(b: byte): (bits: seq<bool>)
    ensures |bits| == 8
  {
    [b / 128 % 2 == 1, b / 64 % 2 == 1, b / 32 % 2 == 1, b / 16 % 2 == 1,
     b / 8 % 2 == 1, b / 4 % 2 == 1, b / 2 % 2 == 1, b % 2 == 1]
  }

  function Bits(bytes: seq<byte>): seq<bool> {
    if bytes == [] then [] else ByteBits(bytes[0]) + Bits(bytes[1..])
  }

  function Unsigned(bits: seq<bool>): nat {
    if bits == [] then 0 else 2 * Unsigned(bits[..|bits| - 1]) + if bits[|bits| - 1] then 1 else 0
  }

  function Power(n: nat): (p: nat)
    ensures p > 0 && (n > 0 ==> p > 1)
  {
    if n == 0 then 1 else 2 * Power(n - 1)
  }

  function LeadingZeros(bits: seq<bool>): (z: nat)
    ensures z <= |bits|
  {
    if bits == [] || bits[0] then 0 else 1 + LeadingZeros(bits[1..])
  }

  /** An unsigned Exp-Golomb code: so many zeros, a one, and so many bits more. */
  function ExpGolomb(bits: seq<bool>): Option<nat> {
    var z := LeadingZeros(bits);
    if |bits| < 2 * z + 1 then None else Some(Power(z) - 1 + Unsigned(bits[z + 1..2 * z + 1]))
  }

  /** The type in a NAL's header: its last five bits. */
  function TypeField(nal: Nal): nat
    requires nal != []
  {
    Unsigned(ByteBits(nal[0])[3..])
  }

  /** The macroblock a slice begins with: the first field of its header. */
  function FirstMacroblock(nal: Nal): Option<nat>
    requires nal != []
  {
    ExpGolomb(Bits(nal[1..]))
  }

  const SPS := 7
  const SLICES := {1, 5}

  lemma ZeroIsOneBit(bits: seq<bool>)
    ensures ExpGolomb(bits) == Some(0) <==> bits != [] && bits[0]
  {
  }

  lemma TopBit(b: byte)
    ensures ByteBits(b)[0] <==> b & 0x80 != 0
  {
  }

  /**
   * A NAL starts an access unit exactly if it is a sequence parameter set, or a slice whose first
   * macroblock is its frame's first.
   */
  lemma StartsUnitIffFirstOfFrame(nal: Nal)
    ensures StartsUnit(nal) <==>
              nal != [] && (TypeField(nal) == SPS || (TypeField(nal) in SLICES && FirstMacroblock(nal) == Some(0)))
  {
    if nal != [] {
      TypeIsField(nal[0]);
      ZeroIsOneBit(Bits(nal[1..]));
      if |nal| >= 2 {
        TopBit(nal[1]);
      }
    }
  }

  lemma TypeIsField(b: byte)
    ensures b & 0x1f == 7 <==> Unsigned(ByteBits(b)[3..]) == 7
    ensures b & 0x1f == 1 <==> Unsigned(ByteBits(b)[3..]) == 1
    ensures b & 0x1f == 5 <==> Unsigned(ByteBits(b)[3..]) == 5
  {
    FiveBits(ByteBits(b)[3..]);
  }

  lemma FiveBits(bits: seq<bool>)
    requires |bits| == 5
    ensures Unsigned(bits) == (if bits[0] then 16 else 0) + (if bits[1] then 8 else 0) + (if bits[2] then 4 else 0)
                            + (if bits[3] then 2 else 0) + (if bits[4] then 1 else 0)
  {
    assert bits[..4][..3] == bits[..3] && bits[..3][..2] == bits[..2] && bits[..2][..1] == bits[..1];
    assert bits[..1][..0] == [];
    assert Unsigned(bits[..1]) == if bits[0] then 1 else 0;
    assert Unsigned(bits[..2]) == 2 * Unsigned(bits[..1]) + if bits[1] then 1 else 0;
    assert Unsigned(bits[..3]) == 2 * Unsigned(bits[..2]) + if bits[2] then 1 else 0;
    assert Unsigned(bits[..4]) == 2 * Unsigned(bits[..3]) + if bits[3] then 1 else 0;
  }
}
