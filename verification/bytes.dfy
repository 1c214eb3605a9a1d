/**
  Bytes, machine words and byte order.

  A container of `n` bytes is read as an unsigned word either least-significant
  byte first (little-endian) or most-significant byte first (big-endian).
  `ByteSwap` is the integer byte reversal the source performs with
  `OSSwapInt16` / `OSSwapInt32` / `OSSwapInt64`.
 */
module Bytes {

  type byte = x: int | 0 <= x < 256
  type uint32 = x: int | 0 <= x < 0x1_0000_0000

  function Pow2(n: nat): (r: nat)
    ensures r >= 1
  {
    if n == 0 then 1 else 2 * Pow2(n - 1)
  }

  lemma {:induction false} Pow2Add(a: nat, b: nat)
    ensures Pow2(a + b) == Pow2(a) * Pow2(b)
  {
    if a > 0 {
      Pow2Add(a - 1, b);
      assert Pow2(a + b) == 2 * Pow2(a - 1 + b);
    }
  }

  lemma Pow2Byte(k: nat)
    ensures Pow2(8 * k + 8) == 256 * Pow2(8 * k)
  {
    Pow2Add(8 * k, 8);
    assert Pow2(8) == 256;
  }

  lemma {:induction false} Pow2Monotone(a: nat, b: nat)
    requires a <= b
    ensures Pow2(a) <= Pow2(b)
  {
    if a < b {
      Pow2Monotone(a, b - 1);
    }
  }

  lemma MulLeft(a: nat, b: nat, m: nat)
    requires a <= b
    ensures a * m <= b * m
  {
  }

  lemma ShiftByPow2Fits(v: nat, bits: nat, shift: nat)
    requires v < Pow2(bits)
    ensures 0 <= v * Pow2(shift) < Pow2(bits + shift)
  {
    Pow2Add(bits, shift);
    MulLeft(v + 1, Pow2(bits), Pow2(shift));
  }

  function Reverse<T>(s: seq<T>): (r: seq<T>)
    ensures |r| == |s|
    ensures forall i :: 0 <= i < |s| ==> r[i] == s[|s| - 1 - i]
  {
    if |s| == 0 then [] else Reverse(s[1..]) + [s[0]]
  }

  lemma ReverseReverse<T>(s: seq<T>)
    ensures Reverse(Reverse(s)) == s
  {
  }

  /** Unsigned value of `bs`, least-significant byte first. */
  function LittleWord(bs: seq<byte>): (n: nat)
    ensures n < Pow2(8 * |bs|)
  {
    if |bs| == 0 then 0
    else
      Pow2Byte(|bs| - 1);
      bs[0] + 256 * LittleWord(bs[1..])
  }

  /** Unsigned value of the container `bs` in the given byte order. */
  function Word(bs: seq<byte>, bigEndian: bool): (n: nat)
    ensures n < Pow2(8 * |bs|)
  {
    if bigEndian then LittleWord(Reverse(bs)) else LittleWord(bs)
  }

  /** The `width` low-order bytes of `n`, least-significant first. */
  function LittleBytes(n: nat, width: nat): (bs: seq<byte>)
    ensures |bs| == width
  {
    if width == 0 then [] else [n % 256] + LittleBytes(n / 256, width - 1)
  }

  /** The container of `width` bytes holding `n` in the given byte order. */
  function BytesOf(n: nat, width: nat, bigEndian: bool): (bs: seq<byte>)
    ensures |bs| == width
  {
    if bigEndian then Reverse(LittleBytes(n, width)) else LittleBytes(n, width)
  }

  lemma {:induction false} LittleWordOfBytes(n: nat, width: nat)
    requires n < Pow2(8 * width)
    ensures LittleWord(LittleBytes(n, width)) == n
  {
    if width > 0 {
      Pow2Byte(width - 1);
      LittleWordOfBytes(n / 256, width - 1);
    }
  }

  lemma {:induction false} LittleBytesOfWord(bs: seq<byte>)
    ensures LittleBytes(LittleWord(bs), |bs|) == bs
  {
    if |bs| > 0 {
      var w := LittleWord(bs);
      SplitByte(bs[0], LittleWord(bs[1..]));
      LittleBytesOfWord(bs[1..]);
      assert LittleBytes(w, |bs|) == [w % 256] + LittleBytes(w / 256, |bs| - 1);
      assert bs == [bs[0]] + bs[1..];
    }
  }

  /** The low byte and the rest of `lo + 256 * hi`. */
  lemma SplitByte(lo: byte, hi: nat)
    ensures (lo + 256 * hi) % 256 == lo && (lo + 256 * hi) / 256 == hi
  {
  }

  /** Reading back a container written in one byte order recovers the value. */
  lemma WordOfBytes(n: nat, width: nat, bigEndian: bool)
    requires n < Pow2(8 * width)
    ensures Word(BytesOf(n, width, bigEndian), bigEndian) == n
  {
    LittleWordOfBytes(n, width);
    if bigEndian {
      ReverseReverse(LittleBytes(n, width));
    }
  }

  /** Writing back the value read from a container reproduces the container. */
  lemma BytesOfWord(bs: seq<byte>, bigEndian: bool)
    ensures BytesOf(Word(bs, bigEndian), |bs|, bigEndian) == bs
  {
    if bigEndian {
      LittleBytesOfWord(Reverse(bs));
      ReverseReverse(bs);
    } else {
      LittleBytesOfWord(bs);
    }
  }

  /** Integer byte reversal of the low `width` bytes of `w`. */
  function ByteSwap(w: nat, width: nat): (r: nat)
    ensures r < Pow2(8 * width)
  {
    if width == 0 then 0
    else
      var p := Pow2(8 * (width - 1));
      Pow2Byte(width - 1);
      ByteBelowScale(w % 256, p);
      (w % 256) * p + ByteSwap(w / 256, width - 1)
  }

  lemma ByteBelowScale(b: nat, p: nat)
    requires b < 256
    ensures b * p <= 255 * p
  {
  }

  lemma {:induction false} LittleWordAppend(x: seq<byte>, b: byte)
    ensures LittleWord(x + [b]) == LittleWord(x) + b * Pow2(8 * |x|)
  {
    if |x| > 0 {
      var y := x + [b];
      assert y[0] == x[0] && y[1..] == x[1..] + [b];
      LittleWordAppend(x[1..], b);
      var p := Pow2(8 * (|x| - 1));
      Pow2Byte(|x| - 1);
      assert Pow2(8 * |x|) == 256 * p;
      var t := LittleWord(x[1..]);
      assert LittleWord(y) == x[0] + 256 * (t + b * p);
      MulAssoc(256, b, p);
    }
  }

  lemma MulAssoc(a: int, b: int, c: int)
    ensures a * (b * c) == b * (a * c)
  {
  }

  lemma {:induction false} ByteSwapLittle(bs: seq<byte>)
    ensures ByteSwap(LittleWord(bs), |bs|) == LittleWord(Reverse(bs))
  {
    if |bs| > 0 {
      SplitByte(bs[0], LittleWord(bs[1..]));
      ByteSwapLittle(bs[1..]);
      LittleWordAppend(Reverse(bs[1..]), bs[0]);
    }
  }

  /** Swapping the bytes of a word read in one order yields the word read in the other order. */
  lemma ByteSwapReadsOtherOrder(bs: seq<byte>, bigEndian: bool)
    ensures ByteSwap(Word(bs, bigEndian), |bs|) == Word(bs, !bigEndian)
  {
    if bigEndian {
      ByteSwapLittle(Reverse(bs));
      ReverseReverse(bs);
    } else {
      ByteSwapLittle(bs);
    }
  }

  /** Reversing a container and flipping the declared order leaves its value unchanged. */
  lemma WordReverse(bs: seq<byte>, bigEndian: bool)
    ensures Word(Reverse(bs), !bigEndian) == Word(bs, bigEndian)
  {
    ReverseReverse(bs);
  }

  /** Two's-complement reading of a `bits`-wide unsigned pattern. */
  function ToSigned(u: int, bits: nat): (v: int)
    requires 1 <= bits
    requires 0 <= u < Pow2(bits)
    ensures -(Pow2(bits - 1) as int) <= v < Pow2(bits - 1)
    ensures v == u || v == u - Pow2(bits)
  {
    if u >= Pow2(bits - 1) then u - Pow2(bits) else u
  }
}
