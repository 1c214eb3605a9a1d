/**
  Per-container sample kernels of the deinterleaving float converter, and the
  reference normalisation they are measured against.

  Every integer kernel produces an integer of magnitude below 2^33 divided by a
  power of two (or by -2^31), which a double represents exactly, so output
  samples of the integer paths are modelled as exact `real`s. The float paths
  are modelled only symbolically (see `Sample`).
 */
module Samples {
  import opened Bytes

  /** One 64-bit output sample. */
  datatype Sample =
      /** The exact value of the double an integer kernel stores. */
    | Exact(value: real)
      /** The host-order float or double stored in `bytes`, widened to double. */
    | HostFloat(bytes: seq<byte>)
      /** The unsigned integer `n` converted numerically to a floating value with a `significandBits` significand. */
    | Rounded(n: nat, significandBits: nat)

  /** The terminal conversion routine applied to each container. */
  datatype Kernel =
    | Int8(signed: bool)
    | Int16(signed: bool, swapped: bool)
    | Int24(signed: bool, bigEndian: bool, inContainer32: bool)
    | Int32(signed: bool, swapped: bool)
    | Float32(swapped: bool)
    | Float64(swapped: bool)
  {
    /** Bytes between consecutive containers of one channel's sample, per channel. */
    function Stride(): nat {
      match this
      case Int8(_) => 1
      case Int16(_, _) => 2
      case Int24(_, _, in32) => if in32 then 4 else 3
      case Int32(_, _) => 4
      case Float32(_) => 4
      case Float64(_) => 8
    }

    predicate IsInteger() {
      !(Float32? || Float64?)
    }

    /**
      The byte-swapping float loops start every channel at the buffer's first
      container instead of at the channel's own offset.
     */
    predicate SkipsChannelOffset() {
      !IsInteger() && swapped
    }
  }

  const MaxSigned8: int := 0x80
  const MaxSigned16: int := 0x8000
  const MaxSigned24: int := 0x80_0000
  /** Divisor that undoes the 8-bit left shift of the 24-bit assembly. */
  const SpecialNormFactor: int := 0x100
  /**
    The 32-bit kernels compute their full scale as `1 << 31` in 32-bit `int`,
    which is INT_MIN: they divide by -2^31 and their unsigned delta is +2^31.
   */
  const MaxSigned32AsWritten: int := -0x8000_0000

  lemma Pow2Values()
    ensures Pow2(7) == 0x80 && Pow2(8) == 0x100
    ensures Pow2(15) == 0x8000 && Pow2(16) == 0x1_0000
    ensures Pow2(23) == 0x80_0000 && Pow2(24) == 0x100_0000
    ensures Pow2(31) == 0x8000_0000 && Pow2(32) == 0x1_0000_0000
  {
  }

  /** `(raw + delta) / divisor`, the vDSP add-then-divide step. */
  function Scale(raw: int, delta: int, divisor: int): real
    requires divisor != 0
  {
    (raw + delta) as real / divisor as real
  }

  /**
    The 32-bit word `(b0 << 24) | (b1 << 16) | (b2 << 8)` (big-endian flag set)
    or `(b2 << 24) | (b1 << 16) | (b0 << 8)` (flag clear). The shifted bytes
    occupy disjoint bits, so the bitwise or is a sum.
   */
  function Assemble24(b0: byte, b1: byte, b2: byte, bigEndian: bool): (word: nat)
    ensures word < 0x1_0000_0000 && word % 0x100 == 0
  {
    if bigEndian then b0 * 0x100_0000 + b1 * 0x1_0000 + b2 * 0x100
    else b2 * 0x100_0000 + b1 * 0x1_0000 + b0 * 0x100
  }

  /**
    The value an integer kernel stores for one container `c` (host-order bytes
    as found in memory). Every kernel but the 32-bit one lands in [-1, 1); the
    32-bit kernel, dividing by -2^31, lands in (-1, 1] for signed containers
    and in (-3, -1] for unsigned ones.
   */
  function DecodeInt(k: Kernel, c: seq<byte>, hostBigEndian: bool): (x: real)
    requires k.IsInteger() && |c| == k.Stride()
    ensures !k.Int32? ==> -1.0 <= x < 1.0
    ensures k.Int32? && k.signed ==> -1.0 < x <= 1.0
    ensures k.Int32? && !k.signed ==> -3.0 < x <= -1.0
  {
    Pow2Values();
    match k
    case Int8(signed) =>
      var raw := if signed then ToSigned(c[0], 8) else c[0];
      UnitRange(raw + (if signed then 0 else -MaxSigned8), MaxSigned8);
      Scale(raw, if signed then 0 else -MaxSigned8, MaxSigned8)
    case Int16(signed, swapped) =>
      var w := Word(c, hostBigEndian);
      var v := if swapped then ByteSwap(w, 2) else w;
      var raw := if signed then ToSigned(v, 16) else v;
      UnitRange(raw + (if signed then 0 else -MaxSigned16), MaxSigned16);
      Scale(raw, if signed then 0 else -MaxSigned16, MaxSigned16)
    case Int24(signed, bigEndian, _) =>
      Int24ScaledValue(c, bigEndian, signed);
      Int24Scaled(Assemble24(c[0], c[1], c[2], bigEndian), signed)
    case Int32(signed, swapped) =>
      var w := Word(c, hostBigEndian);
      var v := if swapped then ByteSwap(w, 4) else w;
      Int32SignedValue(v);
      Int32UnsignedValue(v);
      var raw := if signed then ToSigned(v, 32) else v;
      Scale(raw, if signed then 0 else -MaxSigned32AsWritten, MaxSigned32AsWritten)
  }

  /** The 24-bit kernels' arithmetic on the assembled 32-bit word: shift back down by 2^8, then scale by 2^23. */
  function Int24Scaled(word: nat, signed: bool): real
    requires word < 0x1_0000_0000
  {
    Pow2Values();
    var raw := if signed then ToSigned(word, 32) else word;
    var delta := if signed then 0 else -MaxSigned24;
    (raw as real / SpecialNormFactor as real + delta as real) / MaxSigned24 as real
  }

  /**
    The sample a kernel stores for one container: integer kernels give an exact
    value, native-order float kernels copy the container's bytes, and
    byte-swapping float kernels read the container in the order opposite to the
    host's and round to the output's 24-bit significand.
   */
  function Decode(k: Kernel, c: seq<byte>, hostBigEndian: bool): (r: Sample)
    requires |c| == k.Stride()
    ensures r.Exact? <==> k.IsInteger()
    ensures (k.Float32? || k.Float64?) && !k.swapped ==> r == HostFloat(c)
    ensures (k.Float32? || k.Float64?) && k.swapped ==>
      r == Rounded(Word(c, !hostBigEndian), if k.Float32? then 24 else 53)
  {
    match k
    case Float32(swapped) =>
      ByteSwapReadsOtherOrder(c, hostBigEndian);
      if swapped then Rounded(ByteSwap(Word(c, hostBigEndian), 4), 24) else HostFloat(c)
    case Float64(swapped) =>
      ByteSwapReadsOtherOrder(c, hostBigEndian);
      if swapped then Rounded(ByteSwap(Word(c, hostBigEndian), 8), 53) else HostFloat(c)
    case _ => Exact(DecodeInt(k, c, hostBigEndian))
  }

  /** The integer the reference divides: the two's-complement value, or the unsigned value less half scale. */
  function RawValue(u: nat, bits: nat, signed: bool): (raw: int)
    requires 1 <= bits && u < Pow2(bits)
    ensures -(Pow2(bits - 1) as int) <= raw < Pow2(bits - 1)
  {
    Pow2Add(bits - 1, 1);
    if signed then ToSigned(u, bits) else u - Pow2(bits - 1)
  }

  /** `(raw + unsignedOffset) / 2^(bits - 1)` for a `bits`-wide unsigned pattern `u`. */
  function Normalize(u: nat, bits: nat, signed: bool): (x: real)
    requires 1 <= bits && u < Pow2(bits)
    ensures -1.0 <= x < 1.0
  {
    var raw := RawValue(u, bits, signed);
    var full := Pow2(bits - 1);
    UnitRange(raw, full);
    raw as real / full as real
  }

  /** Reference normalisation of a container holding a `8 * |c|`-bit integer in the declared byte order. */
  function Normalized(c: seq<byte>, bigEndian: bool, signed: bool): (x: real)
    requires 1 <= |c|
  {
    Normalize(Word(c, bigEndian), 8 * |c|, signed)
  }

  lemma UnitRange(raw: int, full: nat)
    requires 0 < full && -(full as int) <= raw < full
    ensures -1.0 <= raw as real / full as real < 1.0
  {
    RealUnitRange(raw as real, full as real);
  }

  lemma RealUnitRange(r: real, f: real)
    requires 0.0 < f && -f <= r < f
    ensures -1.0 <= r / f < 1.0
  {
    var x := r / f;
    assert x * f == r;
    assert (x - 1.0) * f == r - f < 0.0;
    assert (x + 1.0) * f == r + f >= 0.0;
  }

  // ---------------------------------------------------------------------------
  // Kernels against the reference

  lemma WordOfOneByte(c: seq<byte>, bigEndian: bool)
    requires |c| == 1
    ensures Word(c, bigEndian) == c[0]
  {
    assert Reverse(c) == c;
    assert c[1..] == [];
  }

  /** 8-bit containers: signed `v` becomes v/2^7, unsigned `u` becomes (u - 2^7)/2^7, in either declared order. */
  lemma Int8MatchesReference(signed: bool, c: seq<byte>, hostBigEndian: bool, bigEndian: bool)
    requires |c| == 1
    ensures Decode(Int8(signed), c, hostBigEndian) == Exact(Normalized(c, bigEndian, signed))
  {
    WordOfOneByte(c, bigEndian);
    Pow2Values();
  }

  /**
    16-bit containers: the kernel the dispatch selects (byte-swapping exactly
    when the declared order differs from the host's) yields the reference value
    of the container in its declared order, on either host.
   */
  lemma Int16MatchesReference(signed: bool, bigEndian: bool, hostBigEndian: bool, c: seq<byte>)
    requires |c| == 2
    ensures Decode(Int16(signed, bigEndian != hostBigEndian), c, hostBigEndian)
         == Exact(Normalized(c, bigEndian, signed))
  {
    Pow2Values();
    if bigEndian != hostBigEndian {
      ByteSwapReadsOtherOrder(c, hostBigEndian);
    }
  }

  lemma WordOfThreeBytes(c: seq<byte>, bigEndian: bool)
    requires |c| == 3
    ensures Word(c, bigEndian) == Assemble24(c[0], c[1], c[2], bigEndian) / 0x100
  {
    var a, b, d := c[0], c[1], c[2];
    assert [a, b, d][1..] == [b, d] && [b, d][1..] == [d] && [d][1..] == [];
    assert [d, b, a][1..] == [b, a] && [b, a][1..] == [a] && [a][1..] == [];
    assert LittleWord([d]) == d && LittleWord([a]) == a;
    if bigEndian {
      assert Reverse(c) == [d, b, a];
      assert LittleWord([d, b, a]) == d as int + 256 * (b as int + 256 * a as int);
    } else {
      assert c == [a, b, d];
      assert LittleWord([a, b, d]) == a as int + 256 * (b as int + 256 * d as int);
    }
  }

  /**
    24-bit kernels (3-byte packed and 24-in-32 high-aligned): bytes 0, 1, 2 of
    the container, assembled in the declared order and shifted into the top of
    a 32-bit word, come back as the reference value of those three bytes.
   */
  lemma Int24MatchesReference(signed: bool, bigEndian: bool, inContainer32: bool, hostBigEndian: bool, c: seq<byte>)
    requires |c| == Int24(signed, bigEndian, inContainer32).Stride()
    ensures Decode(Int24(signed, bigEndian, inContainer32), c, hostBigEndian)
         == Exact(Normalized(c[..3], bigEndian, signed))
  {
    Int24ScaledValue(c, bigEndian, signed);
  }

  /** The 24-bit arithmetic on bytes 0, 1, 2 of a container is the reference value of those three bytes. */
  lemma Int24ScaledValue(c: seq<byte>, bigEndian: bool, signed: bool)
    requires 3 <= |c|
    ensures Int24Scaled(Assemble24(c[0], c[1], c[2], bigEndian), signed) == Normalized(c[..3], bigEndian, signed)
  {
    Pow2Values();
    var word := Assemble24(c[0], c[1], c[2], bigEndian);
    var w := c[..3];
    WordOfThreeBytes(w, bigEndian);
    var v := Word(w, bigEndian);
    assert word == 0x100 * v;
    if signed {
      var t32 := ToSigned(word, 32);
      var t24 := ToSigned(v, 24);
      assert t32 == 0x100 * t24;
      assert t32 as real / 256.0 == t24 as real;
    } else {
      assert word as real / 256.0 == v as real;
    }
  }

  /**
    32-bit containers, as written: because the divisor is -2^31, a signed
    container yields the NEGATED reference value and an unsigned container
    yields the negated reference value minus 2.
   */
  lemma Int32AsWritten(signed: bool, bigEndian: bool, hostBigEndian: bool, c: seq<byte>)
    requires |c| == 4
    ensures Decode(Int32(signed, bigEndian != hostBigEndian), c, hostBigEndian)
         == Exact(if signed then -Normalized(c, bigEndian, true) else -Normalized(c, bigEndian, false) - 2.0)
         == Expected(Inverted32(bigEndian, signed), c)
  {
    Pow2Values();
    if bigEndian != hostBigEndian {
      ByteSwapReadsOtherOrder(c, hostBigEndian);
    }
    var u := Word(c, bigEndian);
    if signed {
      Int32SignedValue(u);
    } else {
      Int32UnsignedValue(u);
    }
  }

  /** A signed 32-bit pattern divided by -2^31 is its negated reference value. */
  lemma Int32SignedValue(u: nat)
    requires u < Pow2(32)
    ensures Scale(ToSigned(u, 32), 0, MaxSigned32AsWritten) == -Normalize(u, 32, true)
  {
    Pow2Values();
    var t := ToSigned(u, 32);
    assert RawValue(u, 32, true) == t;
    assert (t + 0) as real == t as real;
    NegatedQuotient(t as real, 0x8000_0000 as real);
  }

  /** An unsigned 32-bit pattern plus 2^31, divided by -2^31, is its negated reference value less 2. */
  lemma Int32UnsignedValue(u: nat)
    requires u < Pow2(32)
    ensures Scale(u, -MaxSigned32AsWritten, MaxSigned32AsWritten) == -Normalize(u, 32, false) - 2.0
  {
    Pow2Values();
    assert RawValue(u, 32, false) == u - 0x8000_0000;
    assert (u + 0x8000_0000) as real == u as real + 0x8000_0000 as real;
    assert (u - 0x8000_0000) as real == u as real - 0x8000_0000 as real;
    ShiftedQuotient(u as real, 0x8000_0000 as real);
  }

  /** Dividing by `-d` negates the quotient. */
  lemma NegatedQuotient(x: real, d: real)
    requires d != 0.0
    ensures x / -d == -(x / d)
  {
    var q := x / d;
    assert q * d == x;
    assert (-q) * (-d) == x;
  }

  /** `(x + d) / -d` is `-((x - d) / d) - 2`: the unsigned 32-bit step as written. */
  lemma ShiftedQuotient(x: real, d: real)
    requires d != 0.0
    ensures (x + d) / -d == -((x - d) / d) - 2.0
  {
    var q, y := (x - d) / d, (x + d) / d;
    assert q * d == x - d && y * d == x + d;
    assert (q + 2.0) * d == x + d;
    Cancel(y, q + 2.0, d);
    NegatedQuotient(x + d, d);
  }

  lemma Cancel(a: real, b: real, d: real)
    requires d != 0.0 && a * d == b * d
    ensures a == b
  {
    assert (a - b) * d == 0.0;
  }

  // ---------------------------------------------------------------------------
  // Properties of the reference

  /** The reference maps to exactly zero precisely the signed zero pattern and the unsigned midpoint. */
  lemma NormalizeZero(u: nat, bits: nat, signed: bool)
    requires 1 <= bits && u < Pow2(bits)
    ensures Normalize(u, bits, signed) == 0.0 <==> u == (if signed then 0 else Pow2(bits - 1))
  {
    Pow2Add(bits - 1, 1);
    ZeroQuotient(RawValue(u, bits, signed), Pow2(bits - 1));
  }

  lemma ZeroQuotient(raw: int, full: nat)
    requires 0 < full
    ensures raw as real / full as real == 0.0 <==> raw == 0
  {
  }

  /** Full scale: the most negative signed pattern and unsigned zero both map to exactly -1. */
  lemma NormalizeFullScale(u: nat, bits: nat, signed: bool)
    requires 1 <= bits && u < Pow2(bits)
    requires u == (if signed then Pow2(bits - 1) else 0)
    ensures Normalize(u, bits, signed) == -1.0
  {
    var full := Pow2(bits - 1);
    Pow2Add(bits - 1, 1);
    assert RawValue(u, bits, signed) == -(full as int);
    MinusOneQuotient(full);
  }

  lemma MinusOneQuotient(full: nat)
    requires 0 < full
    ensures (-(full as int)) as real / full as real == -1.0
  {
  }

  /** Reversing a container and flipping its declared byte order leaves the reference value unchanged. */
  lemma NormalizedOrderSymmetry(c: seq<byte>, bigEndian: bool, signed: bool)
    requires 1 <= |c|
    ensures Normalized(Reverse(c), !bigEndian, signed) == Normalized(c, bigEndian, signed)
  {
    WordReverse(c, bigEndian);
  }

  /**
    Moving a `bits`-bit value into the top of a container `e` bits wider does
    not change its reference value: alignment is invisible to the reference.
   */
  lemma NormalizeScale(v: nat, bits: nat, e: nat, signed: bool)
    requires 1 <= bits && v < Pow2(bits)
    ensures v * Pow2(e) < Pow2(bits + e)
    ensures Normalize(v * Pow2(e), bits + e, signed) == Normalize(v, bits, signed)
  {
    var m := Pow2(e);
    ShiftByPow2Fits(v, bits, e);
    RawValueScale(v, bits, e, signed);
    Pow2Add(bits - 1, e);
    assert bits - 1 + e == bits + e - 1;
    RatioScale(RawValue(v, bits, signed), Pow2(bits - 1), m);
  }

  lemma RawValueScale(v: nat, bits: nat, e: nat, signed: bool)
    requires 1 <= bits && v < Pow2(bits)
    ensures v * Pow2(e) < Pow2(bits + e)
    ensures RawValue(v * Pow2(e), bits + e, signed) == RawValue(v, bits, signed) * Pow2(e)
  {
    var m := Pow2(e);
    var half := Pow2(bits - 1);
    Pow2Add(bits - 1, e);
    Pow2Add(bits - 1, 1);
    Pow2Add(bits, e);
    assert bits - 1 + e == bits + e - 1 && bits - 1 + 1 == bits;
    assert Pow2(bits) == 2 * half;
    assert Pow2(bits + e - 1) == half * m;
    assert Pow2(bits + e) == (2 * half) * m;
    ScaleFacts(v, half, m);
  }

  /** The comparisons and differences `RawValue` makes, multiplied through by `m`. */
  lemma ScaleFacts(v: int, half: int, m: int)
    requires 0 < half && 0 < m && 0 <= v < 2 * half
    ensures v * m < (2 * half) * m
    ensures v >= half <==> v * m >= half * m
    ensures (v - half) * m == v * m - half * m
    ensures (v - 2 * half) * m == v * m - (2 * half) * m
  {
    if v >= half {
      MulLeft(half, v, m);
    } else {
      MulLeft(v + 1, half, m);
    }
    MulLeft(v + 1, 2 * half, m);
  }

  lemma RatioScale(a: int, b: nat, m: nat)
    requires 0 < b && 0 < m
    ensures (a * m) as real / (b * m) as real == a as real / b as real
  {
    assert (a * m) as real == a as real * m as real;
    assert (b * m) as real == b as real * m as real;
  }

  /** 32-bit outputs as written: signed in (-1, 1], unsigned in (-3, -1]; the unsigned midpoint gives -2. */
  lemma Int32Range(signed: bool, bigEndian: bool, hostBigEndian: bool, c: seq<byte>)
    requires |c| == 4
    ensures var x := DecodeInt(Int32(signed, bigEndian != hostBigEndian), c, hostBigEndian);
      if signed then -1.0 < x <= 1.0 else -3.0 < x <= -1.0
    ensures !signed && Word(c, bigEndian) == 0x8000_0000 ==>
      DecodeInt(Int32(signed, bigEndian != hostBigEndian), c, hostBigEndian) == -2.0
  {
    Int32AsWritten(signed, bigEndian, hostBigEndian, c);
    Pow2Values();
    if !signed && Word(c, bigEndian) == 0x8000_0000 {
      NormalizeZero(Word(c, bigEndian), 32, false);
    }
  }

  /** The fourth byte of a 24-in-32 container never influences the stored sample. */
  lemma Int24IgnoresFourthByte(signed: bool, bigEndian: bool, hostBigEndian: bool, c: seq<byte>, x: byte)
    requires |c| == 4
    ensures Decode(Int24(signed, bigEndian, true), c, hostBigEndian)
         == Decode(Int24(signed, bigEndian, true), c[3 := x], hostBigEndian)
  {
  }

  // ---------------------------------------------------------------------------
  // What a routine is expected to store, independent of host and kernel

  /** How the samples of one source format read, stated without reference to the host's byte order. */
  datatype Reading =
      /** The whole container as a two's-complement or offset-binary integer in the declared order, normalised. */
    | Normal(bigEndian: bool, signed: bool)
      /** The first three bytes of the container, in the declared order, normalised as a 24-bit integer. */
    | Top24(bigEndian: bool, signed: bool)
      /** The 32-bit routines as written: the reference value negated, less 2 when unsigned. */
    | Inverted32(bigEndian: bool, signed: bool)
      /** The container reinterpreted as a native float or double. */
    | NativeFloat
      /** The container read as an unsigned integer in the declared order and converted numerically. */
    | NumericFloat(bigEndian: bool, significandBits: nat)
  {
    function MinWidth(): nat {
      if Top24? then 3 else 1
    }
  }

  function Expected(rd: Reading, c: seq<byte>): Sample
    requires rd.MinWidth() <= |c|
  {
    match rd
    case Normal(bigEndian, signed) => Exact(Normalized(c, bigEndian, signed))
    case Top24(bigEndian, signed) => Exact(Normalized(c[..3], bigEndian, signed))
    case Inverted32(bigEndian, signed) =>
      Exact(if signed then -Normalized(c, bigEndian, true) else -Normalized(c, bigEndian, false) - 2.0)
    case NativeFloat => HostFloat(c)
    case NumericFloat(bigEndian, significandBits) => Rounded(Word(c, bigEndian), significandBits)
  }

  // ---------------------------------------------------------------------------
  // Each kernel, as the routines select it, against the expected reading

  lemma Int8Reads(signed: bool, bigEndian: bool, hostBigEndian: bool)
    ensures forall x: seq<byte> | |x| == 1 :: Decode(Int8(signed), x, hostBigEndian) == Expected(Normal(bigEndian, signed), x)
  {
    forall x: seq<byte> | |x| == 1
      ensures Decode(Int8(signed), x, hostBigEndian) == Expected(Normal(bigEndian, signed), x)
    {
      Int8MatchesReference(signed, x, hostBigEndian, bigEndian);
    }
  }

  lemma Int16Reads(signed: bool, bigEndian: bool, hostBigEndian: bool)
    ensures var k := Int16(signed, bigEndian != hostBigEndian);
      forall x: seq<byte> | |x| == 2 :: Decode(k, x, hostBigEndian) == Expected(Normal(bigEndian, signed), x)
  {
    forall x: seq<byte> | |x| == 2
      ensures Decode(Int16(signed, bigEndian != hostBigEndian), x, hostBigEndian) == Expected(Normal(bigEndian, signed), x)
    {
      Int16MatchesReference(signed, bigEndian, hostBigEndian, x);
    }
  }

  /** The packed 24-bit kernel reads its whole 3-byte container; the 24-in-32 kernel reads the first three bytes of four. */
  lemma Int24Reads(signed: bool, bigEndian: bool, inContainer32: bool, hostBigEndian: bool)
    ensures var k := Int24(signed, bigEndian, inContainer32);
      var rd := if inContainer32 then Top24(bigEndian, signed) else Normal(bigEndian, signed);
      forall x: seq<byte> | |x| == k.Stride() :: Decode(k, x, hostBigEndian) == Expected(rd, x)
  {
    var k := Int24(signed, bigEndian, inContainer32);
    forall x: seq<byte> | |x| == k.Stride()
      ensures Decode(k, x, hostBigEndian)
           == Expected(if inContainer32 then Top24(bigEndian, signed) else Normal(bigEndian, signed), x)
    {
      Int24MatchesReference(signed, bigEndian, inContainer32, hostBigEndian, x);
      if !inContainer32 {
        assert x[..3] == x;
      }
    }
  }

  lemma Int32Reads(signed: bool, bigEndian: bool, hostBigEndian: bool)
    ensures var k := Int32(signed, bigEndian != hostBigEndian);
      forall x: seq<byte> | |x| == 4 :: Decode(k, x, hostBigEndian) == Expected(Inverted32(bigEndian, signed), x)
  {
    forall x: seq<byte> | |x| == 4
      ensures Decode(Int32(signed, bigEndian != hostBigEndian), x, hostBigEndian) == Expected(Inverted32(bigEndian, signed), x)
    {
      Int32AsWritten(signed, bigEndian, hostBigEndian, x);
    }
  }

  /**
    Float kernels: native containers are reinterpreted; swapped containers are
    byte-swapped from host order, which is reading them in the declared order,
    and the resulting integer is converted numerically.
   */
  lemma FloatReads(double: bool, bigEndian: bool, hostBigEndian: bool)
    ensures var swapped := bigEndian != hostBigEndian;
      var k := if double then Float64(swapped) else Float32(swapped);
      var rd := if !swapped then NativeFloat else NumericFloat(bigEndian, if double then 53 else 24);
      forall x: seq<byte> | |x| == k.Stride() :: Decode(k, x, hostBigEndian) == Expected(rd, x)
  {
    var swapped := bigEndian != hostBigEndian;
    var k := if double then Float64(swapped) else Float32(swapped);
    var rd := if !swapped then NativeFloat else NumericFloat(bigEndian, if double then 53 else 24);
    forall x: seq<byte> | |x| == k.Stride()
      ensures Decode(k, x, hostBigEndian) == Expected(rd, x)
    {
      if swapped {
        ByteSwapReadsOtherOrder(x, hostBigEndian);
      }
    }
  }
}
