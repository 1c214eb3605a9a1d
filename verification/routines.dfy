/**
  The conversion routines of the deinterleaving float converter, one function
  per routine. Each returns the input buffer list as it leaves it, the output
  buffer list, and either the frame count it returns or the exception it
  throws.
 */
module Routines {
  import opened Bytes
  import opened Results
  import opened AudioFormat
  import opened Samples
  import opened Buffers
  import opened Converter

  /** The `std::runtime_error`s the conversion routines throw. */
  datatype ConvertError =
    | UnsupportedFloatSize
    | UnsupportedPackedWidth
    | UnsupportedHighAlignedWidth
    | UnsupportedLowAlignedWidth
    | UnsupportedHighAligned16Depth
    | UnsupportedHighAligned32Depth

  datatype Outcome = Outcome(input: seq<InBuffer>, output: seq<OutBuffer>, frames: Result<uint32, ConvertError>)

  /** The buffers hold `frameCount` frames of `width`-byte containers, and an output buffer for every channel. */
  predicate Fits(input: seq<InBuffer>, output: seq<OutBuffer>, frameCount: uint32, width: nat) {
    InputHolds(input, frameCount, width) && OutputHolds(input, output, frameCount)
  }

  /** The routine left its input alone, converted every frame per `rd` and returned `frameCount`. */
  predicate Completes(o: Outcome, input: seq<InBuffer>, output: seq<OutBuffer>, frameCount: uint32,
                      width: nat, offset: bool, rd: Reading)
    requires rd.MinWidth() <= width
  {
    && o.input == input
    && o.frames == Success(frameCount)
    && Converted(input, output, o.output, frameCount, width, offset, rd)
  }

  /**
    The loop nest every routine shares, with kernel `k` applied to each
    container: the input is left alone, every frame is reported converted, and
    each channel's output buffer is resized and relabelled as mono.
   */
  function Run(k: Kernel, conv: Converter, input: seq<InBuffer>, output: seq<OutBuffer>, frameCount: uint32): (o: Outcome)
    requires Fits(input, output, frameCount, k.Stride())
    ensures o.input == input && o.frames == Success(frameCount)
    ensures Bookkept(input, output, o.output, frameCount)
  {
    Outcome(input, Deinterleave(k, input, output, frameCount, conv.hostBigEndian), Success(frameCount))
  }

  lemma RunConverts(k: Kernel, conv: Converter, input: seq<InBuffer>, output: seq<OutBuffer>, frameCount: uint32, rd: Reading)
    requires Fits(input, output, frameCount, k.Stride()) && rd.MinWidth() <= k.Stride()
    requires forall x: seq<byte> | |x| == k.Stride() :: Decode(k, x, conv.hostBigEndian) == Expected(rd, x)
    ensures Completes(Run(k, conv, input, output, frameCount), input, output, frameCount, k.Stride(), !k.SkipsChannelOffset(), rd)
  {
    DeinterleaveConverted(k, input, output, frameCount, conv.hostBigEndian, rd);
  }

  // ---------------------------------------------------------------------------
  // Float conversions

  /**
    32-bit floats. Native-order floats are widened from each channel's own
    containers. Other-order floats are read as unsigned integers in the
    declared order and converted numerically, and every channel reads from
    the buffer's first container, not its own.
   */
  function ConvertFromFloat(conv: Converter, input: seq<InBuffer>, output: seq<OutBuffer>, frameCount: uint32): (o: Outcome)
    requires Fits(input, output, frameCount, 4)
    ensures var be := conv.source.IsBigEndianFormat();
      if be == conv.hostBigEndian then Completes(o, input, output, frameCount, 4, true, NativeFloat)
      else Completes(o, input, output, frameCount, 4, false, NumericFloat(be, 24))
  {
    var be := conv.source.IsBigEndianFormat();
    var swapped := !conv.source.IsNativeEndian(conv.hostBigEndian);
    NativeEndianMeansSameOrder(conv.source, conv.hostBigEndian);
    FloatReads(false, be, conv.hostBigEndian);
    RunConverts(Float32(swapped), conv, input, output, frameCount, if swapped then NumericFloat(be, 24) else NativeFloat);
    Run(Float32(swapped), conv, input, output, frameCount)
  }

  /** 64-bit floats, with the same two paths as `ConvertFromFloat`. */
  function ConvertFromDouble(conv: Converter, input: seq<InBuffer>, output: seq<OutBuffer>, frameCount: uint32): (o: Outcome)
    requires Fits(input, output, frameCount, 8)
    ensures var be := conv.source.IsBigEndianFormat();
      if be == conv.hostBigEndian then Completes(o, input, output, frameCount, 8, true, NativeFloat)
      else Completes(o, input, output, frameCount, 8, false, NumericFloat(be, 53))
  {
    var be := conv.source.IsBigEndianFormat();
    var swapped := !conv.source.IsNativeEndian(conv.hostBigEndian);
    NativeEndianMeansSameOrder(conv.source, conv.hostBigEndian);
    FloatReads(true, be, conv.hostBigEndian);
    RunConverts(Float64(swapped), conv, input, output, frameCount, if swapped then NumericFloat(be, 53) else NativeFloat);
    Run(Float64(swapped), conv, input, output, frameCount)
  }

  // ---------------------------------------------------------------------------
  // Packed conversions

  /** 8-bit samples: signed by the signed-integer flag, unsigned (offset binary) otherwise. */
  function ConvertFromPacked8(conv: Converter, input: seq<InBuffer>, output: seq<OutBuffer>, frameCount: uint32): (o: Outcome)
    requires Fits(input, output, frameCount, 1)
    ensures Completes(o, input, output, frameCount, 1, true,
                      Normal(conv.source.IsBigEndianFormat(), conv.source.IsSignedFormat()))
  {
    var signed := conv.source.IsSignedFormat();
    Int8Reads(signed, conv.source.IsBigEndianFormat(), conv.hostBigEndian);
    RunConverts(Int8(signed), conv, input, output, frameCount, Normal(conv.source.IsBigEndianFormat(), signed));
    Run(Int8(signed), conv, input, output, frameCount)
  }

  /** 16-bit samples in their declared byte order, byte-swapped when that is not the host's. */
  function ConvertFromPacked16(conv: Converter, input: seq<InBuffer>, output: seq<OutBuffer>, frameCount: uint32): (o: Outcome)
    requires Fits(input, output, frameCount, 2)
    ensures Completes(o, input, output, frameCount, 2, true,
                      Normal(conv.source.IsBigEndianFormat(), conv.source.IsSignedFormat()))
  {
    var be := conv.source.IsBigEndianFormat();
    var signed := conv.source.IsSignedFormat();
    var swapped := !conv.source.IsNativeEndian(conv.hostBigEndian);
    NativeEndianMeansSameOrder(conv.source, conv.hostBigEndian);
    Int16Reads(signed, be, conv.hostBigEndian);
    RunConverts(Int16(signed, swapped), conv, input, output, frameCount, Normal(be, signed));
    Run(Int16(signed, swapped), conv, input, output, frameCount)
  }

  /** 24-bit samples in 3-byte containers, assembled in the declared byte order whatever the host's. */
  function ConvertFromPacked24(conv: Converter, input: seq<InBuffer>, output: seq<OutBuffer>, frameCount: uint32): (o: Outcome)
    requires Fits(input, output, frameCount, 3)
    ensures Completes(o, input, output, frameCount, 3, true,
                      Normal(conv.source.IsBigEndianFormat(), conv.source.IsSignedFormat()))
  {
    var be := conv.source.IsBigEndianFormat();
    var signed := conv.source.IsSignedFormat();
    Int24Reads(signed, be, false, conv.hostBigEndian);
    RunConverts(Int24(signed, be, false), conv, input, output, frameCount, Normal(be, signed));
    Run(Int24(signed, be, false), conv, input, output, frameCount)
  }

  /**
    32-bit samples. As written the full scale is `1 << 31` evaluated in `int`,
    so every sample is divided by -2^31: signed samples come out negated and
    unsigned samples come out negated and shifted down by 2.
   */
  function ConvertFromPacked32(conv: Converter, input: seq<InBuffer>, output: seq<OutBuffer>, frameCount: uint32): (o: Outcome)
    requires Fits(input, output, frameCount, 4)
    ensures Completes(o, input, output, frameCount, 4, true,
                      Inverted32(conv.source.IsBigEndianFormat(), conv.source.IsSignedFormat()))
  {
    var be := conv.source.IsBigEndianFormat();
    var signed := conv.source.IsSignedFormat();
    var swapped := !conv.source.IsNativeEndian(conv.hostBigEndian);
    NativeEndianMeansSameOrder(conv.source, conv.hostBigEndian);
    Int32Reads(signed, be, conv.hostBigEndian);
    RunConverts(Int32(signed, swapped), conv, input, output, frameCount, Inverted32(be, signed));
    Run(Int32(signed, swapped), conv, input, output, frameCount)
  }

  // ---------------------------------------------------------------------------
  // High-aligned conversions

  function ConvertFromHighAligned8(conv: Converter, input: seq<InBuffer>, output: seq<OutBuffer>, frameCount: uint32): (o: Outcome)
    requires Fits(input, output, frameCount, 1)
    ensures Completes(o, input, output, frameCount, 1, true,
                      Normal(conv.source.IsBigEndianFormat(), conv.source.IsSignedFormat()))
  {
    ConvertFromPacked8(conv, input, output, frameCount)
  }

  /** True when the 16-bit high-aligned routine hands its input to the packed 16-bit routine. */
  predicate HighAligned16Converts(d: StreamDescription, hostBigEndian: bool) {
    d.IsNativeEndian(hostBigEndian) && d.bitsPerChannel == 8
  }

  /**
    8 bits high in 16: only native-order input is handled, as packed 16-bit
    samples; native input of any other depth throws; other-order input is
    silently skipped, returning 0 frames and writing nothing.
   */
  function ConvertFromHighAligned16(conv: Converter, input: seq<InBuffer>, output: seq<OutBuffer>, frameCount: uint32): (o: Outcome)
    requires HighAligned16Converts(conv.source, conv.hostBigEndian) ==> Fits(input, output, frameCount, 2)
    ensures var be := conv.source.IsBigEndianFormat();
      && (be != conv.hostBigEndian ==> o == Outcome(input, output, Success(0)))
      && (be == conv.hostBigEndian && conv.source.bitsPerChannel != 8 ==>
            o == Outcome(input, output, Failure(UnsupportedHighAligned16Depth)))
      && (be == conv.hostBigEndian && conv.source.bitsPerChannel == 8 ==>
            Completes(o, input, output, frameCount, 2, true, Normal(be, conv.source.IsSignedFormat())))
  {
    NativeEndianMeansSameOrder(conv.source, conv.hostBigEndian);
    if conv.source.IsNativeEndian(conv.hostBigEndian) then
      if conv.source.bitsPerChannel == 8 then ConvertFromPacked16(conv, input, output, frameCount)
      else Outcome(input, output, Failure(UnsupportedHighAligned16Depth))
    else
      Outcome(input, output, Success(0))
  }

  /** True when the 32-bit high-aligned routine converts rather than throws. */
  predicate HighAligned32Converts(d: StreamDescription) {
    d.bitsPerChannel in {8, 16, 24}
  }

  /**
    Samples high in 32-bit containers: 24-bit samples through the 24-in-32
    kernel (bytes 0 to 2 of each container in the declared order); 8- and
    16-bit samples as packed 32-bit samples; any other depth throws.
   */
  function ConvertFromHighAligned32(conv: Converter, input: seq<InBuffer>, output: seq<OutBuffer>, frameCount: uint32): (o: Outcome)
    requires HighAligned32Converts(conv.source) ==> Fits(input, output, frameCount, 4)
    ensures var be := conv.source.IsBigEndianFormat();
      var signed := conv.source.IsSignedFormat();
      && (conv.source.bitsPerChannel == 24 ==> Completes(o, input, output, frameCount, 4, true, Top24(be, signed)))
      && (conv.source.bitsPerChannel in {8, 16} ==> Completes(o, input, output, frameCount, 4, true, Inverted32(be, signed)))
      && (!HighAligned32Converts(conv.source) ==> o == Outcome(input, output, Failure(UnsupportedHighAligned32Depth)))
  {
    var be := conv.source.IsBigEndianFormat();
    var signed := conv.source.IsSignedFormat();
    if conv.source.bitsPerChannel == 24 then
      Int24Reads(signed, be, true, conv.hostBigEndian);
      RunConverts(Int24(signed, be, true), conv, input, output, frameCount, Top24(be, signed));
      Run(Int24(signed, be, true), conv, input, output, frameCount)
    else if conv.source.bitsPerChannel == 8 || conv.source.bitsPerChannel == 16 then
      ConvertFromPacked32(conv, input, output, frameCount)
    else
      Outcome(input, output, Failure(UnsupportedHighAligned32Depth))
  }

  // ---------------------------------------------------------------------------
  // Low-aligned conversions

  function ConvertFromLowAligned8(conv: Converter, input: seq<InBuffer>, output: seq<OutBuffer>, frameCount: uint32): (o: Outcome)
    requires Fits(input, output, frameCount, 1)
    ensures Completes(o, input, output, frameCount, 1, true,
                      Normal(conv.source.IsBigEndianFormat(), conv.source.IsSignedFormat()))
  {
    ConvertFromPacked8(conv, input, output, frameCount)
  }

  /** `containerBits - bitsPerChannel` as an unsigned 32-bit subtraction, wrapping when negative. */
  function ShiftAmount(containerBits: uint32, bits: uint32): (s: uint32)
    ensures bits <= containerBits ==> s == containerBits - bits
    ensures containerBits < bits ==> s == containerBits - bits + 0x1_0000_0000
  {
    (containerBits - bits) % 0x1_0000_0000
  }

  /**
    Low bits in 16: every container of the first `frameCount` frames is shifted
    left in place by `16 - bitsPerChannel`, then the 16-bit high-aligned
    routine runs on the shifted input. The shift stays in the caller's buffers
    whether that routine converts, skips or throws.
   */
  function ConvertFromLowAligned16(conv: Converter, input: seq<InBuffer>, output: seq<OutBuffer>, frameCount: uint32): (o: Outcome)
    requires InputHolds(input, frameCount, 2)
    requires HighAligned16Converts(conv.source, conv.hostBigEndian) ==> OutputHolds(input, output, frameCount)
    ensures o.input == PreShift(input, 2, ShiftAmount(16, conv.source.bitsPerChannel), frameCount, conv.hostBigEndian)
    ensures var be := conv.source.IsBigEndianFormat();
      && (be != conv.hostBigEndian ==> o.output == output && o.frames == Success(0))
      && (be == conv.hostBigEndian && conv.source.bitsPerChannel != 8 ==>
            o.output == output && o.frames == Failure(UnsupportedHighAligned16Depth))
      && (be == conv.hostBigEndian && conv.source.bitsPerChannel == 8 ==>
            o.frames == Success(frameCount)
            && Converted(o.input, output, o.output, frameCount, 2, true, Normal(be, conv.source.IsSignedFormat())))
  {
    var shifted := PreShift(input, 2, ShiftAmount(16, conv.source.bitsPerChannel), frameCount, conv.hostBigEndian);
    PreShiftKeepsShape(input, 2, ShiftAmount(16, conv.source.bitsPerChannel), frameCount, conv.hostBigEndian);
    ConvertFromHighAligned16(conv, shifted, output, frameCount)
  }

  /** Low bits in 32: the same in-place pre-shift by `32 - bitsPerChannel`, then the 32-bit high-aligned routine. */
  function ConvertFromLowAligned32(conv: Converter, input: seq<InBuffer>, output: seq<OutBuffer>, frameCount: uint32): (o: Outcome)
    requires InputHolds(input, frameCount, 4)
    requires HighAligned32Converts(conv.source) ==> OutputHolds(input, output, frameCount)
    ensures o.input == PreShift(input, 4, ShiftAmount(32, conv.source.bitsPerChannel), frameCount, conv.hostBigEndian)
    ensures var be := conv.source.IsBigEndianFormat();
      var signed := conv.source.IsSignedFormat();
      && (conv.source.bitsPerChannel == 24 ==>
            o.frames == Success(frameCount) && Converted(o.input, output, o.output, frameCount, 4, true, Top24(be, signed)))
      && (conv.source.bitsPerChannel in {8, 16} ==>
            o.frames == Success(frameCount) && Converted(o.input, output, o.output, frameCount, 4, true, Inverted32(be, signed)))
      && (!HighAligned32Converts(conv.source) ==>
            o.output == output && o.frames == Failure(UnsupportedHighAligned32Depth))
  {
    var shifted := PreShift(input, 4, ShiftAmount(32, conv.source.bitsPerChannel), frameCount, conv.hostBigEndian);
    PreShiftKeepsShape(input, 4, ShiftAmount(32, conv.source.bitsPerChannel), frameCount, conv.hostBigEndian);
    ConvertFromHighAligned32(conv, shifted, output, frameCount)
  }

  /** The pre-shift keeps every buffer's size and channel count, so the shifted list fits wherever the original did. */
  lemma PreShiftKeepsShape(input: seq<InBuffer>, width: nat, shift: nat, frameCount: uint32, hostBigEndian: bool)
    requires InputHolds(input, frameCount, width)
    ensures var r := PreShift(input, width, shift, frameCount, hostBigEndian);
      && InputHolds(r, frameCount, width)
      && TotalChannels(r) == TotalChannels(input)
  {
    var r := PreShift(input, width, shift, frameCount, hostBigEndian);
    SameChannels(r, input);
  }
}
