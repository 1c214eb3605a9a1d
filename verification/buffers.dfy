/**
  Audio buffer lists as sequences, the deinterleaving walk shared by every
  conversion routine, and the in-place pre-shift of the low-aligned routines.

  An `AudioBufferList` is a sequence of buffers. An input buffer carries raw
  bytes and a channel count; an output buffer carries 64-bit samples, the
  `mDataByteSize` the converter reports and a channel count. Pointers,
  aliasing and the `mDataByteSize` of input buffers (which the converter never
  reads) are not modelled.
 */
module Buffers {
  import opened Bytes
  import opened Samples

  datatype InBuffer = InBuffer(data: seq<byte>, channels: nat)
  datatype OutBuffer = OutBuffer(data: seq<Sample>, byteSize: uint32, channels: nat)

  /** `static_cast<UInt32>(frameCount * sizeof(double))`: the product truncated to 32 bits. */
  function ByteSize(frameCount: uint32): uint32 {
    (frameCount * 8) % 0x1_0000_0000
  }

  /** A buffer with `channels` interleaved channels holds `frameCount` frames of `width`-byte containers. */
  predicate Holds(buf: InBuffer, frameCount: nat, width: nat) {
    buf.channels * frameCount * width <= |buf.data|
  }

  predicate InputHolds(input: seq<InBuffer>, frameCount: nat, width: nat) {
    forall b :: 0 <= b < |input| ==> Holds(input[b], frameCount, width)
  }

  /** Number of channels across a buffer list; one output buffer is filled per channel. */
  function TotalChannels(input: seq<InBuffer>): nat {
    if |input| == 0 then 0 else input[0].channels + TotalChannels(input[1..])
  }

  /** Index of the output buffer that receives channel 0 of input buffer `b`. */
  function FirstOutput(input: seq<InBuffer>, b: nat): nat
    requires b <= |input|
  {
    TotalChannels(input[..b])
  }

  /** Every output buffer the conversion fills exists and has room for `frameCount` samples. */
  predicate OutputHolds(input: seq<InBuffer>, output: seq<OutBuffer>, frameCount: nat) {
    && TotalChannels(input) <= |output|
    && forall j :: 0 <= j < TotalChannels(input) ==> frameCount <= |output[j].data|
  }

  /** Bytes of container number `index`; empty when the container is not inside `data`. */
  function Container(data: seq<byte>, width: nat, index: nat): (c: seq<byte>)
    ensures index * width + width <= |data| ==> |c| == width
  {
    if index * width + width <= |data| then data[index * width .. index * width + width] else []
  }

  /** Container `start + i * n` of a buffer of `n` channels and `frameCount` frames lies inside it. */
  lemma ContainerFits(n: nat, frameCount: nat, width: nat, start: nat, i: nat)
    requires start < n && i < frameCount
    ensures (start + i * n) * width + width <= n * frameCount * width
  {
    assert start + i * n + 1 <= (i + 1) * n;
    MulLeft(i + 1, frameCount, n);
    assert (i + 1) * n <= n * frameCount;
    MulLeft(start + i * n + 1, n * frameCount, width);
  }

  /** Container `c + i * n` of `buf` (container `i * n` without the channel offset). */
  function ChannelContainer(buf: InBuffer, width: nat, offset: bool, c: nat, i: nat): seq<byte> {
    Container(buf.data, width, (if offset then c else 0) + i * buf.channels)
  }

  lemma ChannelContainerFits(buf: InBuffer, width: nat, offset: bool, c: nat, i: nat, frameCount: nat)
    requires c < buf.channels && Holds(buf, frameCount, width) && i < frameCount
    ensures |ChannelContainer(buf, width, offset, c, i)| == width
  {
    ContainerFits(buf.channels, frameCount, width, if offset then c else 0, i);
  }

  /**
    The `frameCount` samples written for channel `c` of `buf`: sample `i` is
    the kernel applied to container `c + i * n`, or to container `i * n` when
    the kernel skips the channel offset; every such container lies inside the
    buffer.
   */
  function ChannelPlane(k: Kernel, buf: InBuffer, c: nat, frameCount: nat, hostBigEndian: bool): (p: seq<Sample>)
    requires c < buf.channels && Holds(buf, frameCount, k.Stride())
    ensures |p| == frameCount
    ensures forall i :: 0 <= i < frameCount ==>
      var x := ChannelContainer(buf, k.Stride(), !k.SkipsChannelOffset(), c, i);
      |x| == k.Stride() && p[i] == Decode(k, x, hostBigEndian)
  {
    var offset := !k.SkipsChannelOffset();
    assert forall i :: 0 <= i < frameCount ==> |ChannelContainer(buf, k.Stride(), offset, c, i)| == k.Stride() by {
      forall i | 0 <= i < frameCount
        ensures |ChannelContainer(buf, k.Stride(), offset, c, i)| == k.Stride()
      {
        ChannelContainerFits(buf, k.Stride(), offset, c, i, frameCount);
      }
    }
    seq(frameCount, i requires 0 <= i < frameCount => ChannelSample(k, buf, c, frameCount, hostBigEndian, i))
  }

  /** The sample written for frame `i` of channel `c` of `buf`. */
  function ChannelSample(k: Kernel, buf: InBuffer, c: nat, frameCount: nat, hostBigEndian: bool, i: nat): Sample
    requires c < buf.channels && Holds(buf, frameCount, k.Stride()) && i < frameCount
  {
    ChannelContainerFits(buf, k.Stride(), !k.SkipsChannelOffset(), c, i, frameCount);
    Decode(k, ChannelContainer(buf, k.Stride(), !k.SkipsChannelOffset(), c, i), hostBigEndian)
  }

  function BufferPlanes(k: Kernel, buf: InBuffer, frameCount: nat, hostBigEndian: bool): (ps: seq<seq<Sample>>)
    requires Holds(buf, frameCount, k.Stride())
    ensures |ps| == buf.channels
  {
    seq(buf.channels, c requires 0 <= c < buf.channels => ChannelPlane(k, buf, c, frameCount, hostBigEndian))
  }

  /** The planes of every channel of every input buffer, in (buffer, channel) order. */
  function Planes(k: Kernel, input: seq<InBuffer>, frameCount: nat, hostBigEndian: bool): (ps: seq<seq<Sample>>)
    requires InputHolds(input, frameCount, k.Stride())
    ensures |ps| == TotalChannels(input)
    ensures forall j :: 0 <= j < |ps| ==> |ps[j]| == frameCount
  {
    if |input| == 0 then []
    else BufferPlanes(k, input[0], frameCount, hostBigEndian) + Planes(k, input[1..], frameCount, hostBigEndian)
  }

  /** Output buffer `FirstOutput(input, b) + c` receives the plane of channel `c` of input buffer `b`. */
  lemma {:induction false} PlanesIndex(k: Kernel, input: seq<InBuffer>, frameCount: nat, hostBigEndian: bool, b: nat, c: nat)
    requires InputHolds(input, frameCount, k.Stride())
    requires b < |input| && c < input[b].channels
    ensures FirstOutput(input, b) + c < TotalChannels(input)
    ensures Planes(k, input, frameCount, hostBigEndian)[FirstOutput(input, b) + c]
         == ChannelPlane(k, input[b], c, frameCount, hostBigEndian)
  {
    if b == 0 {
      assert input[..0] == [];
    } else {
      assert input[..b][1..] == input[1..][..b - 1];
      PlanesIndex(k, input[1..], frameCount, hostBigEndian, b - 1, c);
    }
  }

  /** Stores each plane at the front of its output buffer and sets that buffer's size and channel count. */
  function WriteOutputs(output: seq<OutBuffer>, planes: seq<seq<Sample>>, frameCount: uint32): (r: seq<OutBuffer>)
    requires |planes| <= |output|
    requires forall j :: 0 <= j < |planes| ==> |planes[j]| == frameCount <= |output[j].data|
    ensures |r| == |output|
    ensures forall j :: 0 <= j < |planes| ==> |r[j].data| == |output[j].data|
    ensures forall j :: |planes| <= j < |output| ==> r[j] == output[j]
  {
    seq(|output|, j requires 0 <= j < |output| =>
      if j < |planes| then OutBuffer(planes[j] + output[j].data[frameCount..], ByteSize(frameCount), 1)
      else output[j])
  }

  /** The effect of one conversion routine's nested buffer/channel loops on the output buffer list. */
  function Deinterleave(k: Kernel, input: seq<InBuffer>, output: seq<OutBuffer>, frameCount: uint32, hostBigEndian: bool): (r: seq<OutBuffer>)
    requires InputHolds(input, frameCount, k.Stride()) && OutputHolds(input, output, frameCount)
    ensures Bookkept(input, output, r, frameCount)
  {
    PlanesBookkept(k, input, output, frameCount, hostBigEndian);
    WriteOutputs(output, Planes(k, input, frameCount, hostBigEndian), frameCount)
  }

  /**
    Deinterleaving: sample `i` of the output buffer for channel `c` of input
    buffer `b` is the kernel applied to container `c + i * n` of that buffer
    (container `i * n` when the kernel skips the channel offset); that output
    buffer reports `frameCount * 8` bytes and one channel and keeps its samples
    past `frameCount`; output buffers past the last channel are untouched.
   */
  lemma DeinterleaveSample(k: Kernel, input: seq<InBuffer>, output: seq<OutBuffer>, frameCount: uint32, hostBigEndian: bool,
                           b: nat, c: nat, i: nat)
    requires InputHolds(input, frameCount, k.Stride()) && OutputHolds(input, output, frameCount)
    requires b < |input| && c < input[b].channels && i < frameCount
    ensures var j := FirstOutput(input, b) + c;
      var r := Deinterleave(k, input, output, frameCount, hostBigEndian);
      var x := ChannelContainer(input[b], k.Stride(), !k.SkipsChannelOffset(), c, i);
      && j < |r| && j < |output|
      && i < |r[j].data| && frameCount <= |r[j].data| == |output[j].data|
      && |x| == k.Stride()
      && r[j].data[i] == Decode(k, x, hostBigEndian)
      && r[j].byteSize == ByteSize(frameCount)
      && r[j].channels == 1
      && r[j].data[frameCount..] == output[j].data[frameCount..]
  {
    var ps := Planes(k, input, frameCount, hostBigEndian);
    var j := FirstOutput(input, b) + c;
    PlanesIndex(k, input, frameCount, hostBigEndian, b, c);
    var p := ChannelPlane(k, input[b], c, frameCount, hostBigEndian);
    ChannelPlaneAt(k, input[b], c, frameCount, hostBigEndian, i);
    WriteOutputsAt(output, ps, frameCount, j);
  }

  lemma ChannelPlaneAt(k: Kernel, buf: InBuffer, c: nat, frameCount: nat, hostBigEndian: bool, i: nat)
    requires c < buf.channels && Holds(buf, frameCount, k.Stride()) && i < frameCount
    ensures var x := ChannelContainer(buf, k.Stride(), !k.SkipsChannelOffset(), c, i);
      |x| == k.Stride() && ChannelPlane(k, buf, c, frameCount, hostBigEndian)[i] == Decode(k, x, hostBigEndian)
  {
    ChannelContainerFits(buf, k.Stride(), !k.SkipsChannelOffset(), c, i, frameCount);
  }

  lemma WriteOutputsAt(output: seq<OutBuffer>, planes: seq<seq<Sample>>, frameCount: uint32, j: nat)
    requires |planes| <= |output|
    requires forall j :: 0 <= j < |planes| ==> |planes[j]| == frameCount <= |output[j].data|
    requires j < |planes|
    ensures WriteOutputs(output, planes, frameCount)[j]
         == OutBuffer(planes[j] + output[j].data[frameCount..], ByteSize(frameCount), 1)
  {
  }

  lemma DeinterleaveLeavesRest(k: Kernel, input: seq<InBuffer>, output: seq<OutBuffer>, frameCount: uint32, hostBigEndian: bool, j: nat)
    requires InputHolds(input, frameCount, k.Stride()) && OutputHolds(input, output, frameCount)
    requires TotalChannels(input) <= j < |output|
    ensures Deinterleave(k, input, output, frameCount, hostBigEndian)[j] == output[j]
  {
  }

  /** The sample stored at index `i` for channel `c` of input buffer `b`. */
  function OutSample(input: seq<InBuffer>, r: seq<OutBuffer>, b: nat, c: nat, i: nat): Sample
    requires b < |input| && FirstOutput(input, b) + c < |r| && i < |r[FirstOutput(input, b) + c].data|
  {
    r[FirstOutput(input, b) + c].data[i]
  }

  /**
    The bookkeeping every conversion routine does on the output list `r` it
    leaves: one buffer per input channel reports `frameCount * 8` bytes (as a
    32-bit value) and one channel and keeps its samples past `frameCount`; the
    list keeps its length and every buffer past the last channel is untouched.
   */
  predicate Bookkept(input: seq<InBuffer>, output: seq<OutBuffer>, r: seq<OutBuffer>, frameCount: uint32) {
    && |r| == |output|
    && TotalChannels(input) <= |output|
    && (forall j :: TotalChannels(input) <= j < |r| ==> r[j] == output[j])
    && (forall j :: 0 <= j < TotalChannels(input) ==>
          && j < |r| && j < |output|
          && frameCount <= |output[j].data| == |r[j].data|
          && r[j].byteSize == ByteSize(frameCount)
          && r[j].channels == 1
          && r[j].data[frameCount..] == output[j].data[frameCount..])
  }

  /**
    `r` is `output` after a conversion that reads `width`-byte containers per
    `rd`: sample `i` of the output buffer for channel `c` of input buffer `b`
    is the expected value of container `c + i * n` of that buffer (container
    `i * n` when `offset` is false), where `n` is the buffer's channel count.
   */
  predicate Converted(input: seq<InBuffer>, output: seq<OutBuffer>, r: seq<OutBuffer>, frameCount: uint32,
                      width: nat, offset: bool, rd: Reading)
    requires rd.MinWidth() <= width
  {
    && Bookkept(input, output, r, frameCount)
    && forall b: nat, c: nat, i: nat | b < |input| && c < input[b].channels && i < frameCount ::
         ConvertedAt(input, r, width, offset, rd, b, c, i)
  }

  /** One sample of `Converted`. */
  predicate ConvertedAt(input: seq<InBuffer>, r: seq<OutBuffer>, width: nat, offset: bool, rd: Reading, b: nat, c: nat, i: nat)
    requires rd.MinWidth() <= width && b < |input|
  {
    var x := ChannelContainer(input[b], width, offset, c, i);
    && FirstOutput(input, b) + c < |r| && i < |r[FirstOutput(input, b) + c].data|
    && |x| == width
    && OutSample(input, r, b, c, i) == Expected(rd, x)
  }

  /** Running kernel `k` is a conversion per `rd` whenever `k` agrees with `rd` on every container. */
  lemma DeinterleaveConverted(k: Kernel, input: seq<InBuffer>, output: seq<OutBuffer>, frameCount: uint32,
                              hostBigEndian: bool, rd: Reading)
    requires InputHolds(input, frameCount, k.Stride()) && OutputHolds(input, output, frameCount)
    requires rd.MinWidth() <= k.Stride()
    requires forall x: seq<byte> | |x| == k.Stride() :: Decode(k, x, hostBigEndian) == Expected(rd, x)
    ensures Converted(input, output, Deinterleave(k, input, output, frameCount, hostBigEndian), frameCount,
                      k.Stride(), !k.SkipsChannelOffset(), rd)
  {
    var r := Deinterleave(k, input, output, frameCount, hostBigEndian);
    var offset := !k.SkipsChannelOffset();
    forall b: nat, c: nat, i: nat | b < |input| && c < input[b].channels && i < frameCount
      ensures ConvertedAt(input, r, k.Stride(), offset, rd, b, c, i)
    {
      DeinterleaveConvertedAt(k, input, output, frameCount, hostBigEndian, rd, b, c, i);
    }
  }

  lemma DeinterleaveConvertedAt(k: Kernel, input: seq<InBuffer>, output: seq<OutBuffer>, frameCount: uint32,
                                hostBigEndian: bool, rd: Reading, b: nat, c: nat, i: nat)
    requires InputHolds(input, frameCount, k.Stride()) && OutputHolds(input, output, frameCount)
    requires rd.MinWidth() <= k.Stride()
    requires forall x: seq<byte> | |x| == k.Stride() :: Decode(k, x, hostBigEndian) == Expected(rd, x)
    requires b < |input| && c < input[b].channels && i < frameCount
    ensures ConvertedAt(input, Deinterleave(k, input, output, frameCount, hostBigEndian), k.Stride(),
                        !k.SkipsChannelOffset(), rd, b, c, i)
  {
    DeinterleaveDecodes(k, input, output, frameCount, hostBigEndian, b, c, i);
  }

  /** The sample stored for channel `c` of buffer `b` at index `i` is the kernel applied to its container. */
  lemma DeinterleaveDecodes(k: Kernel, input: seq<InBuffer>, output: seq<OutBuffer>, frameCount: uint32,
                            hostBigEndian: bool, b: nat, c: nat, i: nat)
    requires InputHolds(input, frameCount, k.Stride()) && OutputHolds(input, output, frameCount)
    requires b < |input| && c < input[b].channels && i < frameCount
    ensures var r := Deinterleave(k, input, output, frameCount, hostBigEndian);
      var x := ChannelContainer(input[b], k.Stride(), !k.SkipsChannelOffset(), c, i);
      && FirstOutput(input, b) + c < |r| && i < |r[FirstOutput(input, b) + c].data|
      && |x| == k.Stride()
      && OutSample(input, r, b, c, i) == Decode(k, x, hostBigEndian)
  {
    DeinterleaveSample(k, input, output, frameCount, hostBigEndian, b, c, i);
  }

  lemma PlanesBookkept(k: Kernel, input: seq<InBuffer>, output: seq<OutBuffer>, frameCount: uint32, hostBigEndian: bool)
    requires InputHolds(input, frameCount, k.Stride()) && OutputHolds(input, output, frameCount)
    ensures Bookkept(input, output, WriteOutputs(output, Planes(k, input, frameCount, hostBigEndian), frameCount), frameCount)
  {
    var ps := Planes(k, input, frameCount, hostBigEndian);
    var r := WriteOutputs(output, ps, frameCount);
    forall j | 0 <= j < TotalChannels(input)
      ensures r[j] == OutBuffer(ps[j] + output[j].data[frameCount..], ByteSize(frameCount), 1)
    {
      WriteOutputsAt(output, ps, frameCount, j);
    }
  }

  /**
    The source's loop nest: for each input buffer, for each of its channels,
    gather every `n`-th container into the next output buffer, then set that
    buffer's byte size and channel count.
   */
  method DeinterleaveLoop(k: Kernel, input: seq<InBuffer>, output: seq<OutBuffer>, frameCount: uint32, hostBigEndian: bool)
    returns (result: seq<OutBuffer>)
    requires InputHolds(input, frameCount, k.Stride()) && OutputHolds(input, output, frameCount)
    ensures result == Deinterleave(k, input, output, frameCount, hostBigEndian)
  {
    ghost var target := Deinterleave(k, input, output, frameCount, hostBigEndian);
    result := output;
    var outputIndex := 0;
    for b := 0 to |input|
      invariant outputIndex == FirstOutput(input, b) <= TotalChannels(input)
      invariant |result| == |output|
      invariant forall j :: 0 <= j < outputIndex ==> result[j] == target[j]
      invariant forall j :: outputIndex <= j < |output| ==> result[j] == output[j]
    {
      TotalChannelsPrefix(input, b);
      for c := 0 to input[b].channels
        invariant outputIndex == FirstOutput(input, b) + c <= TotalChannels(input)
        invariant |result| == |output|
        invariant forall j :: 0 <= j < outputIndex ==> result[j] == target[j]
        invariant forall j :: outputIndex <= j < |output| ==> result[j] == output[j]
      {
        ChannelTarget(k, input, output, frameCount, hostBigEndian, b, c);
        var plane := ChannelPlane(k, input[b], c, frameCount, hostBigEndian);
        var written := OutBuffer(plane + output[outputIndex].data[frameCount..], ByteSize(frameCount), 1);
        WriteNext(result, output, target, outputIndex, written);
        result := result[outputIndex := written];
        outputIndex := outputIndex + 1;
      }
    }
    assert input[..|input|] == input;
  }

  /** The output buffer for channel `c` of input buffer `b`: that channel's plane, then the buffer's old tail. */
  lemma ChannelTarget(k: Kernel, input: seq<InBuffer>, output: seq<OutBuffer>, frameCount: uint32, hostBigEndian: bool,
                      b: nat, c: nat)
    requires InputHolds(input, frameCount, k.Stride()) && OutputHolds(input, output, frameCount)
    requires b < |input| && c < input[b].channels
    ensures var j := FirstOutput(input, b) + c;
      && j < TotalChannels(input) && j < |output| && frameCount <= |output[j].data|
      && Deinterleave(k, input, output, frameCount, hostBigEndian)[j]
         == OutBuffer(ChannelPlane(k, input[b], c, frameCount, hostBigEndian) + output[j].data[frameCount..], ByteSize(frameCount), 1)
  {
    PlanesIndex(k, input, frameCount, hostBigEndian, b, c);
    WriteOutputsAt(output, Planes(k, input, frameCount, hostBigEndian), frameCount, FirstOutput(input, b) + c);
  }

  /** Writing the next buffer of `target` extends the written prefix by one. */
  lemma WriteNext(result: seq<OutBuffer>, output: seq<OutBuffer>, target: seq<OutBuffer>, n: nat, written: OutBuffer)
    requires |result| == |output| == |target| && n < |output| && written == target[n]
    requires forall j :: 0 <= j < n ==> result[j] == target[j]
    requires forall j :: n <= j < |output| ==> result[j] == output[j]
    ensures forall j :: 0 <= j < n + 1 ==> result[n := written][j] == target[j]
    ensures forall j :: n + 1 <= j < |output| ==> result[n := written][j] == output[j]
  {
  }

  /** Buffer lists with the same channel counts, buffer by buffer, have the same total. */
  lemma {:induction false} SameChannels(a: seq<InBuffer>, b: seq<InBuffer>)
    requires |a| == |b| && forall i :: 0 <= i < |a| ==> a[i].channels == b[i].channels
    ensures TotalChannels(a) == TotalChannels(b)
  {
    if |a| > 0 {
      SameChannels(a[1..], b[1..]);
    }
  }

  lemma {:induction false} TotalChannelsAppend(input: seq<InBuffer>, buf: InBuffer)
    ensures TotalChannels(input + [buf]) == TotalChannels(input) + buf.channels
  {
    if |input| > 0 {
      assert (input + [buf])[1..] == input[1..] + [buf];
      TotalChannelsAppend(input[1..], buf);
    }
  }

  lemma TotalChannelsPrefix(input: seq<InBuffer>, b: nat)
    requires b < |input|
    ensures FirstOutput(input, b + 1) == FirstOutput(input, b) + input[b].channels
    ensures FirstOutput(input, b + 1) <= TotalChannels(input)
  {
    assert input[..b + 1] == input[..b] + [input[b]];
    TotalChannelsAppend(input[..b], input[b]);
    TotalChannelsBound(input, b + 1);
  }

  lemma {:induction false} TotalChannelsBound(input: seq<InBuffer>, b: nat)
    requires b <= |input|
    ensures TotalChannels(input[..b]) <= TotalChannels(input)
  {
    if b > 0 {
      assert input[..b][1..] == input[1..][..b - 1];
      TotalChannelsBound(input[1..], b - 1);
    }
  }

  // ---------------------------------------------------------------------------
  // Low-aligned pre-shift

  /**
    `*input <<= shift` on a `width`-byte container: the host-order word shifted
    left and truncated to the container. A shift of the whole container width or
    more leaves no bits (C leaves shifts of 32 or more undefined; see README).
   */
  function ShiftWord(w: nat, width: nat, shift: nat): (r: nat)
    ensures r < Pow2(8 * width)
  {
    if shift >= 8 * width then 0 else (w * Pow2(shift)) % Pow2(8 * width)
  }

  /** One container rewritten in place, in host byte order. */
  function ShiftContainer(c: seq<byte>, shift: nat, hostBigEndian: bool): (r: seq<byte>)
    ensures |r| == |c|
  {
    BytesOf(ShiftWord(Word(c, hostBigEndian), |c|, shift), |c|, hostBigEndian)
  }

  lemma SplitProduct(count: nat, width: nat)
    requires count > 0
    ensures count * width == width + (count - 1) * width
  {
  }

  /** The first `count` containers of `data` shifted; the bytes after them are left alone. */
  function ShiftContainers(data: seq<byte>, width: nat, shift: nat, count: nat, hostBigEndian: bool): (r: seq<byte>)
    requires count * width <= |data|
    ensures |r| == |data|
    ensures r[count * width..] == data[count * width..]
    decreases count
  {
    if count == 0 then data
    else
      SplitProduct(count, width);
      ShiftContainer(data[..width], shift, hostBigEndian)
        + ShiftContainers(data[width..], width, shift, count - 1, hostBigEndian)
  }

  /**
    The pre-shift of the low-aligned 16- and 32-bit routines: every container
    of the first `frameCount` frames of every channel of every input buffer is
    shifted in place. The result is the caller's input as it stands afterwards.
   */
  function PreShift(input: seq<InBuffer>, width: nat, shift: nat, frameCount: nat, hostBigEndian: bool): (r: seq<InBuffer>)
    requires InputHolds(input, frameCount, width)
    ensures |r| == |input|
    ensures forall b :: 0 <= b < |input| ==> r[b].channels == input[b].channels && |r[b].data| == |input[b].data|
  {
    seq(|input|, b requires 0 <= b < |input| =>
      InBuffer(ShiftContainers(input[b].data, width, shift, input[b].channels * frameCount, hostBigEndian), input[b].channels))
  }

  /**
    Container `index` after `ShiftContainers`: shifted when it is among the
    first `count`, unchanged otherwise.
   */
  lemma {:induction false} ShiftContainersAt(data: seq<byte>, width: nat, shift: nat, count: nat, hostBigEndian: bool, index: nat)
    requires count * width <= |data|
    requires index * width + width <= |data|
    ensures var r := ShiftContainers(data, width, shift, count, hostBigEndian);
      Container(r, width, index)
        == if index < count then ShiftContainer(Container(data, width, index), shift, hostBigEndian)
           else Container(data, width, index)
    decreases count
  {
    if count > 0 {
      SplitProduct(count, width);
      if index == 0 {
        FirstContainerShifted(data, width, shift, count, hostBigEndian);
      } else {
        LaterIndexFits(data, width, index);
        ShiftContainersAt(data[width..], width, shift, count - 1, hostBigEndian, index - 1);
        LaterContainerShifted(data, width, shift, count, hostBigEndian, index);
      }
    }
  }

  /** The first container of a non-empty run is shifted. */
  lemma FirstContainerShifted(data: seq<byte>, width: nat, shift: nat, count: nat, hostBigEndian: bool)
    requires 0 < count && count * width <= |data| && width <= |data|
    ensures Container(ShiftContainers(data, width, shift, count, hostBigEndian), width, 0)
         == ShiftContainer(Container(data, width, 0), shift, hostBigEndian)
  {
    SplitProduct(count, width);
    var head := ShiftContainer(data[..width], shift, hostBigEndian);
    var tail := ShiftContainers(data[width..], width, shift, count - 1, hostBigEndian);
    assert ShiftContainers(data, width, shift, count, hostBigEndian) == head + tail;
    ContainerAtHead(head, tail, width);
    ContainerAtHead(data[..width], data[width..], width);
    assert data[..width] + data[width..] == data;
  }

  /** A later container of a run is the corresponding container of the run after the first. */
  lemma LaterContainerShifted(data: seq<byte>, width: nat, shift: nat, count: nat, hostBigEndian: bool, index: nat)
    requires 0 < count && 0 < index && count * width <= |data| && width <= |data|
    requires (count - 1) * width <= |data[width..]|
    ensures Container(ShiftContainers(data, width, shift, count, hostBigEndian), width, index)
         == Container(ShiftContainers(data[width..], width, shift, count - 1, hostBigEndian), width, index - 1)
    ensures Container(data, width, index) == Container(data[width..], width, index - 1)
  {
    SplitProduct(count, width);
    var head := ShiftContainer(data[..width], shift, hostBigEndian);
    var tail := ShiftContainers(data[width..], width, shift, count - 1, hostBigEndian);
    assert ShiftContainers(data, width, shift, count, hostBigEndian) == head + tail;
    ContainerAfterHead(head, tail, width, index);
    ContainerAfterHead(data[..width], data[width..], width, index);
    assert data[..width] + data[width..] == data;
  }

  /**
    The pre-shift on container `index` of input buffer `b`: shifted when it is
    one of the `channels * frameCount` containers of the call's frames,
    unchanged otherwise.
   */
  lemma PreShiftAt(input: seq<InBuffer>, width: nat, shift: nat, frameCount: nat, hostBigEndian: bool, b: nat, index: nat)
    requires InputHolds(input, frameCount, width) && b < |input|
    requires index * width + width <= |input[b].data|
    ensures var data := input[b].data;
      Container(PreShift(input, width, shift, frameCount, hostBigEndian)[b].data, width, index)
        == if index < input[b].channels * frameCount then ShiftContainer(Container(data, width, index), shift, hostBigEndian)
           else Container(data, width, index)
  {
    ShiftContainersAt(input[b].data, width, shift, input[b].channels * frameCount, hostBigEndian, index);
  }

  /** The first container is the head. */
  lemma ContainerAtHead(head: seq<byte>, tail: seq<byte>, width: nat)
    requires |head| == width
    ensures Container(head + tail, width, 0) == head
  {
    assert (head + tail)[..width] == head;
  }

  /** A container after the first lies in what follows the first. */
  lemma LaterIndexFits(data: seq<byte>, width: nat, index: nat)
    requires index > 0 && index * width + width <= |data|
    ensures (index - 1) * width + width <= |data[width..]|
  {
    SplitProduct(index, width);
  }

  /** Skipping a first container of `width` bytes moves every later container down by one. */
  lemma ContainerAfterHead(head: seq<byte>, tail: seq<byte>, width: nat, index: nat)
    requires |head| == width && index > 0
    ensures Container(head + tail, width, index) == Container(tail, width, index - 1)
  {
    var lo := (index - 1) * width;
    SplitProduct(index, width);
    SliceAfterHead(head, tail, width + lo, width);
  }

  lemma SliceAfterHead(head: seq<byte>, tail: seq<byte>, p: nat, width: nat)
    requires |head| <= p
    ensures p + width <= |head + tail| ==> (head + tail)[p .. p + width] == tail[p - |head| .. p - |head| + width]
  {
  }

  /**
    Low-aligned to high-aligned: a container holding a `bits`-bit value `v` in
    its low bits becomes, after the shift by `8 * width - bits`, the container
    holding `v * 2^(8 * width - bits)`: the same value in the high bits,
    nothing lost to truncation.
   */
  lemma ShiftAligns(v: nat, width: nat, bits: nat, hostBigEndian: bool)
    requires 1 <= bits <= 8 * width && v < Pow2(bits)
    ensures ShiftContainer(BytesOf(v, width, hostBigEndian), 8 * width - bits, hostBigEndian)
         == BytesOf(v * Pow2(8 * width - bits), width, hostBigEndian)
  {
    var shift := 8 * width - bits;
    Pow2Monotone(bits, 8 * width);
    WordOfBytes(v, width, hostBigEndian);
    ShiftByPow2Fits(v, bits, shift);
    var m := Pow2(8 * width);
    var x := v * Pow2(shift);
    assert x < m;
    SmallMod(x, m);
    assert ShiftWord(v, width, shift) == x;
  }

  lemma SmallMod(x: nat, m: nat)
    requires x < m
    ensures x % m == x
  {
  }
}
