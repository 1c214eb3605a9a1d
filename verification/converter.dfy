/**
  Construction of the deinterleaving float converter: which source formats it
  accepts and the destination format it always produces (64-bit native float,
  packed, non-interleaved, one channel per buffer).
 */
module Converter {
  import opened Bytes
  import opened Results
  import opened AudioFormat

  /** The three `std::runtime_error`s the constructor can throw. */
  datatype ConfigError =
    | NotLinearPCM
    | UnsupportedPackedDepth
    | UnsupportedUnpackedSize

  /** A constructed converter: its source format, its destination format and the host's byte order. */
  datatype Converter = Converter(source: StreamDescription, destination: StreamDescription, hostBigEndian: bool)

  /** Channels sharing one buffer: 1 for non-interleaved formats, otherwise the frame's channel count. */
  function InterleavedChannelCount(d: StreamDescription): uint32 {
    if d.IsNonInterleavedFormat() then 1 else d.channelsPerFrame
  }

  /** The sample width is defined: the division computing it is not a division by zero. */
  predicate HasSampleWidth(d: StreamDescription) {
    InterleavedChannelCount(d) != 0
  }

  /** Bytes per sample of one channel, by unsigned 32-bit division. */
  function SampleWidth(d: StreamDescription): (w: uint32)
    requires HasSampleWidth(d)
    ensures w * InterleavedChannelCount(d) <= d.bytesPerFrame < (w + 1) * InterleavedChannelCount(d)
  {
    d.bytesPerFrame / InterleavedChannelCount(d)
  }

  /** A packed format whose bit depth is none of 8, 16, 24 and 32. */
  predicate PackedDepthUnsupported(d: StreamDescription) {
    d.IsPackedFormat() && d.bitsPerChannel !in {8, 16, 24, 32}
  }

  /**
    What the constructor demands of its caller: once the format is linear PCM
    with a supported packed depth, the sample width it divides out must exist.
   */
  predicate Constructible(d: StreamDescription) {
    d.formatID == LinearPCM && !PackedDepthUnsupported(d) ==> HasSampleWidth(d)
  }

  /** The destination format: 64-bit native-endian packed non-interleaved floats, one per frame. */
  function Destination(d: StreamDescription, hostBigEndian: bool): (e: StreamDescription)
    ensures e.formatID == LinearPCM
    ensures e.IsFloatFormat() && e.IsPackedFormat() && e.IsNonInterleavedFormat()
    ensures !e.IsSignedFormat() && !e.IsAlignedHighFormat()
    ensures e.IsNativeEndian(hostBigEndian) && e.IsBigEndianFormat() == hostBigEndian
    ensures e.sampleRate == d.sampleRate && e.channelsPerFrame == d.channelsPerFrame
    ensures e.bitsPerChannel == 64 && e.bytesPerPacket == 8 && e.framesPerPacket == 1 && e.bytesPerFrame == 8
    ensures e.reserved == 0
  {
    var bits: uint32 := 8 * 8;
    var bytesPerPacket: uint32 := bits / 8;
    var framesPerPacket: uint32 := 1;
    StreamDescription(
      sampleRate := d.sampleRate,
      formatID := LinearPCM,
      formatFlags := NativeFloatPacked(hostBigEndian) | IsNonInterleaved,
      bytesPerPacket := bytesPerPacket,
      framesPerPacket := framesPerPacket,
      bytesPerFrame := bytesPerPacket * framesPerPacket,
      channelsPerFrame := d.channelsPerFrame,
      bitsPerChannel := bits,
      reserved := 0)
  }

  /**
    The constructor. It rejects non-PCM formats, packed formats of an
    unsupported depth, and unpacked formats whose sample width is not 1 to 4
    bytes AND whose depth is not 8, 16 or 24 (both must fail for a rejection).
   */
  function Construct(d: StreamDescription, hostBigEndian: bool): (r: Result<Converter, ConfigError>)
    requires Constructible(d)
    ensures r == Failure(NotLinearPCM) <==> d.formatID != LinearPCM
    ensures r == Failure(UnsupportedPackedDepth) <==>
      d.formatID == LinearPCM && d.IsPackedFormat() && d.bitsPerChannel !in {8, 16, 24, 32}
    ensures r == Failure(UnsupportedUnpackedSize) <==>
      && d.formatID == LinearPCM && !d.IsPackedFormat()
      && SampleWidth(d) !in {1, 2, 3, 4} && d.bitsPerChannel !in {8, 16, 24}
    ensures r.Success? ==> r.value == Converter(d, Destination(d, hostBigEndian), hostBigEndian)
  {
    if d.formatID != LinearPCM then Failure(NotLinearPCM)
    else if PackedDepthUnsupported(d) then Failure(UnsupportedPackedDepth)
    else
      var sampleWidth := SampleWidth(d);
      if !d.IsPackedFormat() && !(sampleWidth in {1, 2, 3, 4}) && !(d.bitsPerChannel in {8, 16, 24}) then
        Failure(UnsupportedUnpackedSize)
      else
        Success(Converter(d, Destination(d, hostBigEndian), hostBigEndian))
  }

  /**
    Acceptance, stated positively: a linear PCM format is accepted exactly when
    a packed format has depth 8, 16, 24 or 32, and an unpacked format has a
    sample width of 1 to 4 bytes or a depth of 8, 16 or 24.
   */
  lemma AcceptedFormats(d: StreamDescription, hostBigEndian: bool)
    requires Constructible(d)
    ensures Construct(d, hostBigEndian).Success? <==>
      && d.formatID == LinearPCM
      && (d.IsPackedFormat() ==> d.bitsPerChannel in {8, 16, 24, 32})
      && (!d.IsPackedFormat() ==> SampleWidth(d) in {1, 2, 3, 4} || d.bitsPerChannel in {8, 16, 24})
  {
  }

  /** Packed 64-bit input, floating point or not, is refused by the packed-depth check. */
  lemma PackedDoubleRejected(d: StreamDescription, hostBigEndian: bool)
    requires d.formatID == LinearPCM && d.IsPackedFormat() && d.bitsPerChannel == 64
    ensures Construct(d, hostBigEndian) == Failure(UnsupportedPackedDepth)
  {
  }

  /** The converter's own destination format is not an acceptable source format. */
  lemma DestinationRejectedAsSource(d: StreamDescription, hostBigEndian: bool)
    ensures Construct(Destination(d, hostBigEndian), hostBigEndian) == Failure(UnsupportedPackedDepth)
  {
  }
}
