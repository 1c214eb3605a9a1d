/**
  What the low-aligned pre-shift and the 24-in-32 kernel do to a value placed
  in a container: the pre-shift moves a low-aligned value to the top of its
  container without changing its reference value, and the 24-in-32 kernel
  reads the first three bytes of the container.
 */
module Alignment {
  import opened Bytes
  import opened Samples
  import opened Buffers

  /**
    A `bits`-bit value `v` stored low in a `width`-byte host-order container
    reads, after the pre-shift by `8 * width - bits`, as `v` at its own depth:
    the pre-shift followed by a native-order reading recovers the value.
   */
  lemma LowAlignedShiftRecovers(v: nat, width: nat, bits: nat, signed: bool, hostBigEndian: bool)
    requires 1 <= bits <= 8 * width && v < Pow2(bits)
    ensures var c := ShiftContainer(BytesOf(v, width, hostBigEndian), 8 * width - bits, hostBigEndian);
      |c| == width && Normalized(c, hostBigEndian, signed) == Normalize(v, bits, signed)
  {
    ScaledNormalize(v, width, bits, signed);
    ShiftAligns(v, width, bits, hostBigEndian);
    NormalizedBytesOf(v * Pow2(8 * width - bits), width, hostBigEndian, signed);
  }

  /** Moving a `bits`-bit value to the top of an `8 * width`-bit word keeps its reference value. */
  lemma ScaledNormalize(v: nat, width: nat, bits: nat, signed: bool)
    requires 1 <= bits <= 8 * width && v < Pow2(bits)
    ensures 0 <= v * Pow2(8 * width - bits) < Pow2(8 * width)
    ensures Normalize(v * Pow2(8 * width - bits), 8 * width, signed) == Normalize(v, bits, signed)
  {
    var s := 8 * width - bits;
    ShiftByPow2Fits(v, bits, s);
    NormalizeScale(v, bits, s, signed);
    assert bits + s == 8 * width;
  }

  lemma NormalizedBytesOf(n: nat, width: nat, bigEndian: bool, signed: bool)
    requires 1 <= width && n < Pow2(8 * width)
    ensures Normalized(BytesOf(n, width, bigEndian), bigEndian, signed) == Normalize(n, 8 * width, signed)
  {
    WordOfBytes(n, width, bigEndian);
  }

  lemma ReverseAppendOne(xs: seq<byte>, x: byte)
    ensures Reverse([x] + xs) == Reverse(xs) + [x]
  {
    assert forall i :: 0 <= i < |xs| + 1 ==> Reverse([x] + xs)[i] == (Reverse(xs) + [x])[i];
  }

  /** The big-endian container of `v * 256` is the big-endian 3-byte container of `v` followed by a zero byte. */
  lemma BigEndianHighAligned24(v: nat)
    requires v < Pow2(24)
    ensures BytesOf(v * 256, 4, true) == BytesOf(v, 3, true) + [0]
  {
    var w := v * 256;
    assert w % 256 == 0 && w / 256 == v;
    assert LittleBytes(w, 4) == [0] + LittleBytes(v, 3);
    ReverseAppendOne(LittleBytes(v, 3), 0);
  }

  /**
    Big-endian 24-in-32: a 24-bit value at the top of a big-endian 4-byte
    container reads, through the 24-in-32 kernel's first three bytes, as that
    value at 24 bits.
   */
  lemma BigEndian24In32Reads(v: nat, signed: bool)
    requires v < Pow2(24)
    ensures Expected(Top24(true, signed), BytesOf(v * 256, 4, true)) == Exact(Normalize(v, 24, signed))
  {
    BigEndianHighAligned24(v);
    var c := BytesOf(v * 256, 4, true);
    assert c[..3] == BytesOf(v, 3, true);
    WordOfBytes(v, 3, true);
  }

  /**
    Little-endian 24-in-32: the kernel still reads bytes 0 to 2, which in a
    little-endian container are the pad byte and the two low bytes of the
    value. The most negative 24-bit value, placed high, reads as 0.
   */
  lemma LittleEndian24In32Example()
    ensures var c := BytesOf(0x80_0000 * 256, 4, false);
      && c == [0, 0, 0, 0x80]
      && Expected(Top24(false, true), c) == Exact(0.0)
      && Pow2(24) == 0x100_0000
      && Normalize(0x80_0000, 24, true) == -1.0
  {
    Pow2Values();
    var c := BytesOf(0x80_0000 * 256, 4, false);
    assert c == [0, 0, 0, 0x80];
    assert c[..3] == [0, 0, 0];
    assert LittleWord([0, 0, 0]) == 0 by {
      assert [0, 0, 0][1..] == [0, 0] && [0, 0][1..] == [0] && [0][1..] == [];
    }
    NormalizeFullScale(0x80_0000, 24, true);
  }
}
