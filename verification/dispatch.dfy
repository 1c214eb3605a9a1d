/**
  `Convert`: the frame-count guard and the dispatch from the source format to
  a conversion routine, with the whole decision table stated flat in `PlanFor`.
 */
module Dispatch {
  import opened Bytes
  import opened Results
  import opened AudioFormat
  import opened Samples
  import opened Buffers
  import opened Converter
  import opened Routines

  /** What a conversion of at least one frame does, by source format. */
  datatype Plan =
      /** Throws `error`. */
    | Reject(error: ConvertError)
      /** Returns 0 frames and writes nothing. */
    | Skip
      /** Converts every frame, reading `width`-byte containers per `reading`. */
    | Reads(width: nat, offset: bool, reading: Reading)

  /**
    The dispatch table, flattened. Floats go by bit depth; everything else by
    sample width. High- and low-aligned formats share one table; they differ
    only in the pre-shift (`LowAlignedShifts`).
   */
  function PlanFor(d: StreamDescription, hostBigEndian: bool): (p: Plan)
    requires HasSampleWidth(d)
    ensures p.Reads? ==> p.reading.MinWidth() <= p.width
    ensures p.Reads? ==> p.width == (if d.IsFloatFormat() then d.bitsPerChannel / 8 else SampleWidth(d))
  {
    var be := d.IsBigEndianFormat();
    var signed := d.IsSignedFormat();
    var bits := d.bitsPerChannel;
    var width := SampleWidth(d);
    if d.IsFloatFormat() then
      if bits == 32 then Reads(4, be == hostBigEndian, if be == hostBigEndian then NativeFloat else NumericFloat(be, 24))
      else if bits == 64 then Reads(8, be == hostBigEndian, if be == hostBigEndian then NativeFloat else NumericFloat(be, 53))
      else Reject(UnsupportedFloatSize)
    else if d.IsPackedFormat() then
      if width in {1, 2, 3} then Reads(width, true, Normal(be, signed))
      else if width == 4 then Reads(4, true, Inverted32(be, signed))
      else Reject(UnsupportedPackedWidth)
    else if width == 1 then Reads(1, true, Normal(be, signed))
    else if width == 2 then
      if be != hostBigEndian then Skip
      else if bits == 8 then Reads(2, true, Normal(be, signed))
      else Reject(UnsupportedHighAligned16Depth)
    else if width == 4 then
      if bits == 24 then Reads(4, true, Top24(be, signed))
      else if bits in {8, 16} then Reads(4, true, Inverted32(be, signed))
      else Reject(UnsupportedHighAligned32Depth)
    else Reject(if d.IsAlignedHighFormat() then UnsupportedHighAlignedWidth else UnsupportedLowAlignedWidth)
  }

  /** A low-aligned integer format of width 2 or 4: its containers are shifted in place before anything else. */
  predicate LowAlignedShifts(d: StreamDescription)
    requires HasSampleWidth(d)
  {
    !d.IsFloatFormat() && !d.IsPackedFormat() && !d.IsAlignedHighFormat() && SampleWidth(d) in {2, 4}
  }

  /** The input as the low-aligned pre-shift leaves it (unchanged for every other format). */
  function InputAfter(d: StreamDescription, input: seq<InBuffer>, frameCount: uint32, hostBigEndian: bool): seq<InBuffer>
    requires HasSampleWidth(d)
    requires LowAlignedShifts(d) ==> InputHolds(input, frameCount, SampleWidth(d))
  {
    if LowAlignedShifts(d) then
      PreShift(input, SampleWidth(d), ShiftAmount(8 * SampleWidth(d), d.bitsPerChannel), frameCount, hostBigEndian)
    else input
  }

  /**
    What `Convert` demands of its caller: for a non-empty call, a sample width
    that is not a division by zero, input buffers that hold every container
    the call shifts or reads, and an output buffer with room for every channel
    the call converts.
   */
  predicate CallerContract(conv: Converter, input: seq<InBuffer>, output: seq<OutBuffer>, frameCount: uint32) {
    frameCount > 0 ==>
      && HasSampleWidth(conv.source)
      && (LowAlignedShifts(conv.source) ==> InputHolds(input, frameCount, SampleWidth(conv.source)))
      && (PlanFor(conv.source, conv.hostBigEndian).Reads? ==>
            Fits(input, output, frameCount, PlanFor(conv.source, conv.hostBigEndian).width))
  }

  /** Every output buffer with its byte size set to 0. */
  function ClearSizes(output: seq<OutBuffer>): (r: seq<OutBuffer>)
    ensures |r| == |output|
    ensures forall j :: 0 <= j < |r| ==> r[j] == output[j].(byteSize := 0)
  {
    seq(|output|, j requires 0 <= j < |output| => output[j].(byteSize := 0))
  }

  /**
    The converter's entry point. With no frames, every output buffer's byte
    size is set to 0 and 0 is returned. Otherwise the source format selects a
    routine: floats by depth (32 or 64), packed formats by sample width (1 to
    4), high-aligned by width (1, 2, 4), and everything else as low-aligned
    by width (1, 2, 4); anything else throws.
   */
  function Convert(conv: Converter, input: seq<InBuffer>, output: seq<OutBuffer>, frameCount: uint32): (o: Outcome)
    requires CallerContract(conv, input, output, frameCount)
    ensures frameCount == 0 ==>
      && o.input == input && o.frames == Success(0) && |o.output| == |output|
      && forall j :: 0 <= j < |output| ==> o.output[j] == output[j].(byteSize := 0)
    ensures o.frames.Success? ==> o.frames.value in {0, frameCount}
  {
    var d := conv.source;
    if frameCount == 0 then Outcome(input, ClearSizes(output), Success(0))
    else
      var width := SampleWidth(d);
      if d.IsFloatFormat() then
        if d.bitsPerChannel == 32 then ConvertFromFloat(conv, input, output, frameCount)
        else if d.bitsPerChannel == 64 then ConvertFromDouble(conv, input, output, frameCount)
        else Outcome(input, output, Failure(UnsupportedFloatSize))
      else if d.IsPackedFormat() then
        if width == 1 then ConvertFromPacked8(conv, input, output, frameCount)
        else if width == 2 then ConvertFromPacked16(conv, input, output, frameCount)
        else if width == 3 then ConvertFromPacked24(conv, input, output, frameCount)
        else if width == 4 then ConvertFromPacked32(conv, input, output, frameCount)
        else Outcome(input, output, Failure(UnsupportedPackedWidth))
      else if d.IsAlignedHighFormat() then
        if width == 1 then ConvertFromHighAligned8(conv, input, output, frameCount)
        else if width == 2 then ConvertFromHighAligned16(conv, input, output, frameCount)
        else if width == 4 then ConvertFromHighAligned32(conv, input, output, frameCount)
        else Outcome(input, output, Failure(UnsupportedHighAlignedWidth))
      else
        if width == 1 then ConvertFromLowAligned8(conv, input, output, frameCount)
        else if width == 2 then ConvertFromLowAligned16(conv, input, output, frameCount)
        else if width == 4 then ConvertFromLowAligned32(conv, input, output, frameCount)
        else Outcome(input, output, Failure(UnsupportedLowAlignedWidth))
  }

  /**
    The outcome of a non-empty call agrees with the flat table: it throws
    exactly the plan's error, skips exactly when the plan skips, and otherwise
    converts every frame as the plan reads it, from the input as the pre-shift
    left it. The pre-shift happens, and stays in the caller's input, whatever
    follows it.
   */
  predicate FollowsPlan(conv: Converter, input: seq<InBuffer>, output: seq<OutBuffer>, frameCount: uint32)
    requires CallerContract(conv, input, output, frameCount) && frameCount > 0
  {
    var o := Convert(conv, input, output, frameCount);
    var d := conv.source;
    && o.input == InputAfter(d, input, frameCount, conv.hostBigEndian)
    && match PlanFor(d, conv.hostBigEndian)
       case Reject(e) => o.frames == Failure(e) && o.output == output
       case Skip => o.frames == Success(0) && o.output == output
       case Reads(width, offset, rd) =>
         o.frames == Success(frameCount) && Converted(o.input, output, o.output, frameCount, width, offset, rd)
  }

  /** `Convert` follows the flat table for every source format. */
  lemma ConvertFollowsPlan(conv: Converter, input: seq<InBuffer>, output: seq<OutBuffer>, frameCount: uint32)
    requires CallerContract(conv, input, output, frameCount) && frameCount > 0
    ensures var o := Convert(conv, input, output, frameCount);
      var d := conv.source;
      && o.input == InputAfter(d, input, frameCount, conv.hostBigEndian)
      && match PlanFor(d, conv.hostBigEndian)
         case Reject(e) => o.frames == Failure(e) && o.output == output
         case Skip => o.frames == Success(0) && o.output == output
         case Reads(width, offset, rd) =>
           o.frames == Success(frameCount) && Converted(o.input, output, o.output, frameCount, width, offset, rd)
  {
    var d := conv.source;
    if d.IsFloatFormat() {
      FloatFollowsPlan(conv, input, output, frameCount);
    } else if d.IsPackedFormat() {
      PackedFollowsPlan(conv, input, output, frameCount);
    } else if d.IsAlignedHighFormat() {
      HighAlignedFollowsPlan(conv, input, output, frameCount);
    } else {
      LowAlignedFollowsPlan(conv, input, output, frameCount);
    }
    assert FollowsPlan(conv, input, output, frameCount);
  }

  lemma FloatFollowsPlan(conv: Converter, input: seq<InBuffer>, output: seq<OutBuffer>, frameCount: uint32)
    requires CallerContract(conv, input, output, frameCount) && frameCount > 0 && conv.source.IsFloatFormat()
    ensures FollowsPlan(conv, input, output, frameCount)
  {
    NativeEndianMeansSameOrder(conv.source, conv.hostBigEndian);
  }

  lemma PackedFollowsPlan(conv: Converter, input: seq<InBuffer>, output: seq<OutBuffer>, frameCount: uint32)
    requires CallerContract(conv, input, output, frameCount) && frameCount > 0
    requires !conv.source.IsFloatFormat() && conv.source.IsPackedFormat()
    ensures FollowsPlan(conv, input, output, frameCount)
  {
  }

  lemma HighAlignedFollowsPlan(conv: Converter, input: seq<InBuffer>, output: seq<OutBuffer>, frameCount: uint32)
    requires CallerContract(conv, input, output, frameCount) && frameCount > 0
    requires !conv.source.IsFloatFormat() && !conv.source.IsPackedFormat() && conv.source.IsAlignedHighFormat()
    ensures FollowsPlan(conv, input, output, frameCount)
  {
    NativeEndianMeansSameOrder(conv.source, conv.hostBigEndian);
  }

  lemma LowAlignedFollowsPlan(conv: Converter, input: seq<InBuffer>, output: seq<OutBuffer>, frameCount: uint32)
    requires CallerContract(conv, input, output, frameCount) && frameCount > 0
    requires !conv.source.IsFloatFormat() && !conv.source.IsPackedFormat() && !conv.source.IsAlignedHighFormat()
    ensures FollowsPlan(conv, input, output, frameCount)
  {
    if SampleWidth(conv.source) == 4 {
      LowAligned32FollowsPlan(conv, input, output, frameCount);
    } else {
      LowAlignedNarrowFollowsPlan(conv, input, output, frameCount);
    }
  }

  lemma LowAligned32FollowsPlan(conv: Converter, input: seq<InBuffer>, output: seq<OutBuffer>, frameCount: uint32)
    requires CallerContract(conv, input, output, frameCount) && frameCount > 0
    requires !conv.source.IsFloatFormat() && !conv.source.IsPackedFormat() && !conv.source.IsAlignedHighFormat()
    requires SampleWidth(conv.source) == 4
    ensures FollowsPlan(conv, input, output, frameCount)
  {
    NativeEndianMeansSameOrder(conv.source, conv.hostBigEndian);
  }

  lemma LowAlignedNarrowFollowsPlan(conv: Converter, input: seq<InBuffer>, output: seq<OutBuffer>, frameCount: uint32)
    requires CallerContract(conv, input, output, frameCount) && frameCount > 0
    requires !conv.source.IsFloatFormat() && !conv.source.IsPackedFormat() && !conv.source.IsAlignedHighFormat()
    requires SampleWidth(conv.source) != 4
    ensures FollowsPlan(conv, input, output, frameCount)
  {
    NativeEndianMeansSameOrder(conv.source, conv.hostBigEndian);
  }
}
