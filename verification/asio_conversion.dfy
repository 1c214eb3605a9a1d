/**
  What the deinterleaving converter makes of the formats the ASIO output
  hands it: which ASIO sample types it accepts, the routine each accepted
  type reaches, and what the 32-bit container types read after the
  low-aligned pre-shift.
 */
module AsioConversion {
  import opened Bytes
  import opened Results
  import opened AudioFormat
  import opened Samples
  import opened Buffers
  import opened Converter
  import opened Routines
  import opened Dispatch
  import opened Alignment
  import opened AsioFormats

  /** The ASIO types the converter cannot take: DSD and 64-bit float. */
  predicate Unconvertible(t: SampleType) {
    t.IsDSD() || t.Float64LSB? || t.Float64MSB?
  }

  /**
    Every listed ASIO format is non-interleaved, so its sample width is its
    frame size; the converter refuses exactly the DSD types (not linear PCM)
    and the 64-bit float types (unsupported packed depth).
   */
  lemma AsioConstruct(t: SampleType, blank: StreamDescription, hostBigEndian: bool)
    requires !t.Other?
    ensures var f := AudioFormatForSampleType(t, blank);
      && HasSampleWidth(f) && SampleWidth(f) == f.bytesPerFrame && Constructible(f)
      && (Construct(f, hostBigEndian) == Failure(NotLinearPCM) <==> t.IsDSD())
      && (Construct(f, hostBigEndian) == Failure(UnsupportedPackedDepth) <==> t.Float64LSB? || t.Float64MSB?)
      && (Construct(f, hostBigEndian).Success? <==> !Unconvertible(t))
  {
    if t.IsDSD() {
      DsdTypes(t, blank);
    } else if t.IsPackedInteger() || t.IsPackedFloat() {
      PackedTypes(t, blank);
    } else {
      AlignedIn32Types(t, blank);
    }
  }

  /**
    The plan expected for each accepted ASIO type, written per type: packed
    integers as packed, 32-bit floats natively or by numeric byte swap, and
    the 32-bit container types, after the low-aligned pre-shift, as a 32-bit
    integer (16 bits), through the 24-in-32 kernel (24 bits) or not at all
    (18 and 20 bits).
   */
  function AsioPlanFor(t: SampleType, hostBigEndian: bool): Plan {
    var be := t.IsMSB();
    match t
    case Int16LSB | Int16MSB => Reads(2, true, Normal(be, true))
    case Int24LSB | Int24MSB => Reads(3, true, Normal(be, true))
    case Int32LSB | Int32MSB | Int32LSB16 | Int32MSB16 => Reads(4, true, Inverted32(be, true))
    case Float32LSB | Float32MSB =>
      Reads(4, be == hostBigEndian, if be == hostBigEndian then NativeFloat else NumericFloat(be, 24))
    case Int32LSB24 | Int32MSB24 => Reads(4, true, Top24(be, true))
    case _ => Reject(UnsupportedHighAligned32Depth)
  }

  /**
    The converter built for an accepted ASIO type follows the per-type table;
    exactly the 32-bit container types are pre-shifted, by `32 - bits`.
   */
  lemma AsioPlan(t: SampleType, blank: StreamDescription, hostBigEndian: bool)
    requires !t.Other? && !Unconvertible(t)
    ensures var f := AudioFormatForSampleType(t, blank);
      && HasSampleWidth(f)
      && (LowAlignedShifts(f) <==> t.IsAlignedIn32())
      && (LowAlignedShifts(f) ==> ShiftAmount(8 * SampleWidth(f), f.bitsPerChannel) == 32 - f.bitsPerChannel)
      && PlanFor(f, hostBigEndian) == AsioPlanFor(t, hostBigEndian)
  {
    if t.IsPackedInteger() || t.IsPackedFloat() {
      PackedPlan(t, blank, hostBigEndian);
    } else {
      AlignedPlan(t, blank, hostBigEndian);
    }
  }

  lemma PackedPlan(t: SampleType, blank: StreamDescription, hostBigEndian: bool)
    requires (t.IsPackedInteger() || t.IsPackedFloat()) && !t.Float64LSB? && !t.Float64MSB?
    ensures var f := AudioFormatForSampleType(t, blank);
      && HasSampleWidth(f) && !LowAlignedShifts(f)
      && PlanFor(f, hostBigEndian) == AsioPlanFor(t, hostBigEndian)
  {
    PackedTypes(t, blank);
  }

  lemma AlignedPlan(t: SampleType, blank: StreamDescription, hostBigEndian: bool)
    requires t.IsAlignedIn32()
    ensures var f := AudioFormatForSampleType(t, blank);
      && HasSampleWidth(f) && LowAlignedShifts(f)
      && ShiftAmount(8 * SampleWidth(f), f.bitsPerChannel) == 32 - f.bitsPerChannel
      && PlanFor(f, hostBigEndian) == AsioPlanFor(t, hostBigEndian)
  {
    AlignedIn32Types(t, blank);
  }

  /**
    An 18- or 20-bit ASIO container type: a conversion of at least one frame
    shifts every container of the input left by `32 - bits` in host order and
    then throws, leaving the output untouched and the input shifted.
   */
  lemma AlignedIn32OddDepthThrows(t: SampleType, blank: StreamDescription, hostBigEndian: bool,
                                  input: seq<InBuffer>, output: seq<OutBuffer>, frameCount: uint32)
    requires t.Int32LSB18? || t.Int32MSB18? || t.Int32LSB20? || t.Int32MSB20?
    requires frameCount > 0 && InputHolds(input, frameCount, 4)
    ensures var f := AudioFormatForSampleType(t, blank);
      var conv := Converter(f, Destination(f, hostBigEndian), hostBigEndian);
      && Construct(f, hostBigEndian) == Success(conv)
      && CallerContract(conv, input, output, frameCount)
      && var o := Convert(conv, input, output, frameCount);
      && o.frames == Failure(UnsupportedHighAligned32Depth)
      && o.output == output
      && o.input == PreShift(input, 4, 32 - f.bitsPerChannel, frameCount, hostBigEndian)
  {
    var f := AudioFormatForSampleType(t, blank);
    AlignedIn32Types(t, blank);
    AlignedPlan(t, blank, hostBigEndian);
    assert Construct(f, hostBigEndian).Success?;
    var conv := Converter(f, Destination(f, hostBigEndian), hostBigEndian);
    ShiftThenReject(conv, input, output, frameCount, UnsupportedHighAligned32Depth);
  }

  /** A pre-shifting format whose plan rejects: the shift happens, then the error. */
  lemma ShiftThenReject(conv: Converter, input: seq<InBuffer>, output: seq<OutBuffer>, frameCount: uint32, e: ConvertError)
    requires frameCount > 0 && HasSampleWidth(conv.source) && LowAlignedShifts(conv.source)
    requires InputHolds(input, frameCount, SampleWidth(conv.source))
    requires PlanFor(conv.source, conv.hostBigEndian) == Reject(e)
    ensures CallerContract(conv, input, output, frameCount)
    ensures var o := Convert(conv, input, output, frameCount);
      && o.frames == Failure(e) && o.output == output
      && o.input == PreShift(input, SampleWidth(conv.source),
                             ShiftAmount(8 * SampleWidth(conv.source), conv.source.bitsPerChannel), frameCount, conv.hostBigEndian)
  {
    ConvertFollowsPlan(conv, input, output, frameCount);
  }

  /**
    `Int32MSB24` on a big-endian host: a 24-bit value stored low in its
    container is read, after the pre-shift by 8, as that value.
   */
  lemma Int32Msb24BigEndianHostReads(v: nat)
    requires v < Pow2(24)
    ensures var c := ShiftContainer(BytesOf(v, 4, true), 8, true);
      |c| == 4 && Expected(Top24(true, true), c) == Exact(Normalize(v, 24, true))
  {
    ShiftAligns(v, 4, 24, true);
    Pow2Values();
    BigEndian24In32Reads(v, true);
  }

  /**
    `Int32LSB24` on a little-endian host: after the pre-shift by 8 the value
    sits in bytes 1 to 3, but the 24-in-32 kernel reads bytes 0 to 2, so only
    the low 16 bits of the value reach the output, as the top of a 24-bit word.
   */
  lemma Int32Lsb24LittleEndianHostReads(v: nat)
    requires v < Pow2(24)
    ensures var c := ShiftContainer(BytesOf(v, 4, false), 8, false);
      && |c| == 4
      && c[..3] == [0, v % 256, (v / 256) % 256]
      && (v % 0x1_0000) * 256 < Pow2(24)
      && Expected(Top24(false, true), c) == Exact(Normalize((v % 0x1_0000) * 256, 24, true))
  {
    Pow2Values();
    var c := ShiftContainer(BytesOf(v, 4, false), 8, false);
    LittleShiftBy8(v);
    var b0: byte, b1: byte := v % 256, (v / 256) % 256;
    assert c[..3] == [0, b0, b1];
    LittleWordThree(0, b0, b1);
    LowTwoBytes(v);
  }

  /** Shifting a little-endian 4-byte container by 8 puts a zero byte in front of its low three bytes. */
  lemma LittleShiftBy8(v: nat)
    requires v < Pow2(24)
    ensures ShiftContainer(BytesOf(v, 4, false), 8, false) == [0, v % 256, (v / 256) % 256, (v / 0x1_0000) % 256]
  {
    Pow2Values();
    ShiftAligns(v, 4, 24, false);
    var w := v * 256;
    assert ShiftContainer(BytesOf(v, 4, false), 8, false) == LittleBytes(w, 4);
    assert w % 256 == 0 && w / 256 == v;
    assert LittleBytes(w, 4) == [0] + LittleBytes(v, 3);
    var q := v / 256;
    assert q / 256 == v / 0x1_0000;
    assert LittleBytes(q / 256, 1) == [(q / 256) % 256] + LittleBytes(q / 256 / 256, 0);
    assert LittleBytes(q, 2) == [q % 256] + LittleBytes(q / 256, 1);
    assert LittleBytes(v, 3) == [v % 256] + LittleBytes(q, 2);
  }

  lemma LittleWordThree(a: byte, b: byte, c: byte)
    ensures LittleWord([a, b, c]) == a + 256 * (b + 256 * c)
  {
    assert [a, b, c][1..] == [b, c] && [b, c][1..] == [c] && [c][1..] == [];
    assert LittleWord([c]) == c;
    assert LittleWord([b, c]) == b + 256 * c;
  }

  lemma LowTwoBytes(v: nat)
    ensures v % 256 + 256 * ((v / 256) % 256) == v % 0x1_0000
  {
    var q := v / 256;
    var s := 256 * (q % 256) + v % 256;
    assert v == 0x1_0000 * (q / 256) + s;
    ModOfSplit(v, q / 256, s);
  }

  lemma ModOfSplit(v: int, q: int, s: int)
    requires v == 0x1_0000 * q + s && 0 <= s < 0x1_0000
    ensures v % 0x1_0000 == s
  {
  }
}
