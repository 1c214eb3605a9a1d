/**
  The mapping from an ASIO driver's sample type to the stream description the
  output feeds the deinterleaving converter.
 */
module AsioFormats {
  import opened Bytes
  import opened AudioFormat

  /**
    ASIO sample types by name. MSB types are big-endian, LSB types little-endian;
    `Int32xSB16` to `Int32xSB24` hold 16 to 24 bits in a 32-bit container.
    `Other` stands for any sample type the mapping does not list.
   */
  datatype SampleType =
    | Int16MSB | Int24MSB | Int32MSB | Float32MSB | Float64MSB
    | Int32MSB16 | Int32MSB18 | Int32MSB20 | Int32MSB24
    | Int16LSB | Int24LSB | Int32LSB | Float32LSB | Float64LSB
    | Int32LSB16 | Int32LSB18 | Int32LSB20 | Int32LSB24
    | DSDInt8LSB1 | DSDInt8MSB1 | DSDInt8NER8
    | Other(code: int)
  {
    /** The sample types the second switch adds the big-endian flag for. */
    predicate IsMSB() {
      || Int16MSB? || Int24MSB? || Int32MSB? || Float32MSB? || Float64MSB?
      || Int32MSB16? || Int32MSB18? || Int32MSB20? || Int32MSB24? || DSDInt8MSB1?
    }

    predicate IsPackedInteger() {
      Int16MSB? || Int24MSB? || Int32MSB? || Int16LSB? || Int24LSB? || Int32LSB?
    }

    predicate IsPackedFloat() {
      Float32MSB? || Float64MSB? || Float32LSB? || Float64LSB?
    }

    predicate IsAlignedIn32() {
      || Int32MSB16? || Int32MSB18? || Int32MSB20? || Int32MSB24?
      || Int32LSB16? || Int32LSB18? || Int32LSB20? || Int32LSB24?
    }

    predicate IsDSD() {
      DSDInt8LSB1? || DSDInt8MSB1? || DSDInt8NER8?
    }
  }

  /** The little-endian type with the same layout as an MSB type. */
  function LsbTwin(t: SampleType): (lsb: SampleType)
    requires t.IsMSB()
    ensures !lsb.IsMSB() && !lsb.Other?
    ensures lsb.IsPackedInteger() == t.IsPackedInteger() && lsb.IsPackedFloat() == t.IsPackedFloat()
    ensures lsb.IsAlignedIn32() == t.IsAlignedIn32() && lsb.IsDSD() == t.IsDSD()
  {
    match t
    case Int16MSB => Int16LSB
    case Int24MSB => Int24LSB
    case Int32MSB => Int32LSB
    case Float32MSB => Float32LSB
    case Float64MSB => Float64LSB
    case Int32MSB16 => Int32LSB16
    case Int32MSB18 => Int32LSB18
    case Int32MSB20 => Int32LSB20
    case Int32MSB24 => Int32LSB24
    case DSDInt8MSB1 => DSDInt8LSB1
  }

  /** The fields the first switch sets, on top of the default-constructed format `blank`. */
  function Layout(blank: StreamDescription, formatID: uint32, flags: bv32, bits: uint32,
                  bytesPerPacket: uint32, framesPerPacket: uint32, bytesPerFrame: uint32): StreamDescription
  {
    blank.(formatID := formatID, formatFlags := flags, bitsPerChannel := bits,
           bytesPerPacket := bytesPerPacket, framesPerPacket := framesPerPacket, bytesPerFrame := bytesPerFrame)
  }

  /** Packed PCM: `bits / 8` bytes per packet, one frame per packet, a packet per frame. */
  function PackedLayout(blank: StreamDescription, flags: bv32, bits: uint32): StreamDescription {
    var bytesPerPacket := bits / 8;
    Layout(blank, LinearPCM, flags | IsNonInterleaved | IsPacked, bits, bytesPerPacket, 1, bytesPerPacket * 1)
  }

  /** Signed integers of `bits` bits in unpacked 4-byte containers. */
  function AlignedIn32Layout(blank: StreamDescription, bits: uint32): StreamDescription {
    Layout(blank, LinearPCM, IsSignedInteger | IsNonInterleaved, bits, 4, 1, 4 * 1)
  }

  /** The first switch: every field the mapping sets except the byte order. */
  function BaseFormat(t: SampleType, blank: StreamDescription): (b: StreamDescription)
    ensures b.sampleRate == blank.sampleRate && b.channelsPerFrame == blank.channelsPerFrame && b.reserved == blank.reserved
    ensures t.Other? ==> b == blank
  {
    match t
    case Int16LSB | Int16MSB => PackedLayout(blank, IsSignedInteger, 16)
    case Int24LSB | Int24MSB => PackedLayout(blank, IsSignedInteger, 24)
    case Int32LSB | Int32MSB => PackedLayout(blank, IsSignedInteger, 32)
    case Float32LSB | Float32MSB => PackedLayout(blank, IsFloat, 32)
    case Float64LSB | Float64MSB => PackedLayout(blank, IsFloat, 64)
    case Int32LSB16 | Int32MSB16 => AlignedIn32Layout(blank, 16)
    case Int32LSB18 | Int32MSB18 => AlignedIn32Layout(blank, 18)
    case Int32LSB20 | Int32MSB20 => AlignedIn32Layout(blank, 20)
    case Int32LSB24 | Int32MSB24 => AlignedIn32Layout(blank, 24)
    case DSDInt8LSB1 | DSDInt8MSB1 => Layout(blank, DirectStreamDigital, IsNonInterleaved, 1, 1, 8, 0)
    case DSDInt8NER8 => Layout(blank, DirectStreamDigital, IsNonInterleaved, 8, 1, 1, 1)
    case Other(_) => blank
  }

  /** The second switch: the big-endian flag added when `bigEndian`. */
  function WithByteOrder(base: StreamDescription, bigEndian: bool): StreamDescription {
    if bigEndian then base.(formatFlags := base.formatFlags | IsBigEndian) else base
  }

  /**
    `AudioFormatForASIOSampleType`: the format for a sample type, built on the
    default-constructed format `blank`. Fields the mapping does not set, and
    every field for an unlisted type, are `blank`'s.
   */
  function AudioFormatForSampleType(t: SampleType, blank: StreamDescription): (f: StreamDescription)
    ensures f.sampleRate == blank.sampleRate && f.channelsPerFrame == blank.channelsPerFrame && f.reserved == blank.reserved
    ensures t.Other? ==> f == blank
  {
    WithByteOrder(BaseFormat(t, blank), t.IsMSB())
  }

  // ---------------------------------------------------------------------------
  // Families

  /** Bit depth of a packed type. */
  function PackedBits(t: SampleType): (bits: uint32)
    requires t.IsPackedInteger() || t.IsPackedFloat()
    ensures bits in {16, 24, 32, 64}
  {
    match t
    case Int16LSB | Int16MSB => 16
    case Int24LSB | Int24MSB => 24
    case Int32LSB | Int32MSB | Float32LSB | Float32MSB => 32
    case Float64LSB | Float64MSB => 64
  }

  /** Bit depth of a type held in a 32-bit container. */
  function AlignedBits(t: SampleType): (bits: uint32)
    requires t.IsAlignedIn32()
    ensures bits in {16, 18, 20, 24}
  {
    match t
    case Int32LSB16 | Int32MSB16 => 16
    case Int32LSB18 | Int32MSB18 => 18
    case Int32LSB20 | Int32MSB20 => 20
    case Int32LSB24 | Int32MSB24 => 24
  }

  lemma PackedBase(t: SampleType, blank: StreamDescription)
    requires t.IsPackedInteger() || t.IsPackedFloat()
    ensures BaseFormat(t, blank) == PackedLayout(blank, if t.IsPackedFloat() then IsFloat else IsSignedInteger, PackedBits(t))
  {
  }

  lemma AlignedBase(t: SampleType, blank: StreamDescription)
    requires t.IsAlignedIn32()
    ensures BaseFormat(t, blank) == AlignedIn32Layout(blank, AlignedBits(t))
  {
  }

  lemma PackedLayoutFacts(blank: StreamDescription, float: bool, bits: uint32, bigEndian: bool)
    requires bits in {16, 24, 32, 64}
    ensures var f := WithByteOrder(PackedLayout(blank, if float then IsFloat else IsSignedInteger, bits), bigEndian);
      && f.formatID == LinearPCM
      && f.IsPackedFormat() && f.IsNonInterleavedFormat() && !f.IsAlignedHighFormat()
      && (f.IsFloatFormat() <==> float) && (f.IsSignedFormat() <==> !float) && (f.IsBigEndianFormat() <==> bigEndian)
      && f.bitsPerChannel == bits
      && f.bytesPerPacket == f.bytesPerFrame == bits / 8 && f.framesPerPacket == 1
  {
  }

  lemma AlignedLayoutFacts(blank: StreamDescription, bits: uint32, bigEndian: bool)
    ensures var f := WithByteOrder(AlignedIn32Layout(blank, bits), bigEndian);
      && f.formatID == LinearPCM
      && !f.IsPackedFormat() && !f.IsAlignedHighFormat() && !f.IsFloatFormat()
      && f.IsSignedFormat() && f.IsNonInterleavedFormat() && (f.IsBigEndianFormat() <==> bigEndian)
      && f.bitsPerChannel == bits
      && f.bytesPerPacket == 4 && f.bytesPerFrame == 4 && f.framesPerPacket == 1
  {
  }

  lemma DsdLayoutFacts(blank: StreamDescription, bits: uint32, framesPerPacket: uint32, bytesPerFrame: uint32, bigEndian: bool)
    ensures var f := WithByteOrder(Layout(blank, DirectStreamDigital, IsNonInterleaved, bits, 1, framesPerPacket, bytesPerFrame), bigEndian);
      && f.formatID == DirectStreamDigital
      && f.IsNonInterleavedFormat() && !f.IsFloatFormat() && !f.IsSignedFormat() && !f.IsPackedFormat()
      && !f.IsAlignedHighFormat() && (f.IsBigEndianFormat() <==> bigEndian)
      && f.bitsPerChannel == bits && f.bytesPerPacket == 1
      && f.framesPerPacket == framesPerPacket && f.bytesPerFrame == bytesPerFrame
  {
  }

  /**
    Packed types: signed integers or floats of 16, 24, 32 or 64 bits, packed
    and non-interleaved, with `bits / 8` bytes per packet and per frame.
   */
  lemma PackedTypes(t: SampleType, blank: StreamDescription)
    requires t.IsPackedInteger() || t.IsPackedFloat()
    ensures var f := AudioFormatForSampleType(t, blank);
      && f.formatID == LinearPCM
      && f.IsPackedFormat() && f.IsNonInterleavedFormat() && !f.IsAlignedHighFormat()
      && (f.IsFloatFormat() <==> t.IsPackedFloat()) && (f.IsSignedFormat() <==> t.IsPackedInteger())
      && (f.IsBigEndianFormat() <==> t.IsMSB())
      && f.bitsPerChannel == PackedBits(t)
      && f.bytesPerPacket == f.bytesPerFrame == f.bitsPerChannel / 8 && f.framesPerPacket == 1
  {
    PackedBase(t, blank);
    PackedLayoutFacts(blank, t.IsPackedFloat(), PackedBits(t), t.IsMSB());
  }

  /**
    32-bit containers: signed integers of 16, 18, 20 or 24 bits, neither packed
    nor flagged high-aligned, 4 bytes per packet and per frame.
   */
  lemma AlignedIn32Types(t: SampleType, blank: StreamDescription)
    requires t.IsAlignedIn32()
    ensures var f := AudioFormatForSampleType(t, blank);
      && f.formatID == LinearPCM
      && !f.IsPackedFormat() && !f.IsAlignedHighFormat() && !f.IsFloatFormat()
      && f.IsSignedFormat() && f.IsNonInterleavedFormat() && (f.IsBigEndianFormat() <==> t.IsMSB())
      && f.bitsPerChannel == AlignedBits(t)
      && f.bytesPerPacket == 4 && f.bytesPerFrame == 4 && f.framesPerPacket == 1
  {
    AlignedBase(t, blank);
    AlignedLayoutFacts(blank, AlignedBits(t), t.IsMSB());
  }

  /**
    DSD types: the DSD format ID, non-interleaved, never float, signed or
    packed; the 1-bit types carry 8 frames in a 1-byte packet, the 8-bit type
    one frame.
   */
  lemma DsdTypes(t: SampleType, blank: StreamDescription)
    requires t.IsDSD()
    ensures var f := AudioFormatForSampleType(t, blank);
      && f.formatID == DirectStreamDigital && f.formatID != LinearPCM
      && f.IsNonInterleavedFormat() && !f.IsFloatFormat() && !f.IsSignedFormat() && !f.IsPackedFormat()
      && (f.IsBigEndianFormat() <==> t.IsMSB())
      && f.bytesPerPacket == 1
      && (t.DSDInt8NER8? <==> f.bitsPerChannel == 8 && f.framesPerPacket == 1 && f.bytesPerFrame == 1)
      && (!t.DSDInt8NER8? <==> f.bitsPerChannel == 1 && f.framesPerPacket == 8 && f.bytesPerFrame == 0)
  {
    FourCCsDiffer();
    if t.DSDInt8NER8? {
      DsdLayoutFacts(blank, 8, 1, 1, false);
    } else {
      DsdLayoutFacts(blank, 1, 8, 0, t.IsMSB());
    }
  }

  lemma FourCCsDiffer()
    ensures DirectStreamDigital != LinearPCM
  {
    FourCCLowByte('D', 'S', 'D', ' ');
    FourCCLowByte('l', 'p', 'c', 'm');
  }

  // ---------------------------------------------------------------------------
  // Properties of the whole mapping

  /** Every listed type is non-interleaved, and big-endian exactly when it is an MSB type. */
  lemma ByteOrderFollowsName(t: SampleType, blank: StreamDescription)
    requires !t.Other?
    ensures var f := AudioFormatForSampleType(t, blank);
      f.IsNonInterleavedFormat() && (f.IsBigEndianFormat() <==> t.IsMSB())
  {
    if t.IsPackedInteger() || t.IsPackedFloat() {
      PackedTypes(t, blank);
    } else if t.IsAlignedIn32() {
      AlignedIn32Types(t, blank);
    } else {
      DsdTypes(t, blank);
    }
  }

  lemma TwinsShareBase(t: SampleType, blank: StreamDescription)
    requires t.IsMSB()
    ensures BaseFormat(LsbTwin(t), blank) == BaseFormat(t, blank)
  {
    var lsb := LsbTwin(t);
    if t.IsPackedInteger() || t.IsPackedFloat() {
      PackedBase(t, blank);
      PackedBase(lsb, blank);
      TwinBits(t);
    } else if t.IsAlignedIn32() {
      AlignedBase(t, blank);
      AlignedBase(lsb, blank);
      TwinBits(t);
    } else {
      assert t == DSDInt8MSB1 && lsb == DSDInt8LSB1;
    }
  }

  lemma TwinBits(t: SampleType)
    requires t.IsMSB()
    ensures t.IsPackedInteger() || t.IsPackedFloat() ==> PackedBits(LsbTwin(t)) == PackedBits(t)
    ensures t.IsAlignedIn32() ==> AlignedBits(LsbTwin(t)) == AlignedBits(t)
  {
  }

  /** Each MSB type maps to its LSB twin's format with only the big-endian flag added. */
  lemma MsbIsLsbPlusBigEndian(t: SampleType, blank: StreamDescription)
    requires t.IsMSB()
    ensures var lsb := AudioFormatForSampleType(LsbTwin(t), blank);
      && !LsbTwin(t).IsMSB()
      && AudioFormatForSampleType(t, blank) == lsb.(formatFlags := lsb.formatFlags | IsBigEndian)
  {
    TwinsShareBase(t, blank);
  }

  /**
    Every listed type has `bytesPerFrame == bytesPerPacket * framesPerPacket`,
    except the 1-bit DSD types, whose 8-frame packet of 1 byte is given 0
    bytes per frame.
   */
  lemma FrameSizeRelation(t: SampleType, blank: StreamDescription)
    requires !t.Other?
    ensures var f := AudioFormatForSampleType(t, blank);
      f.bytesPerFrame == f.bytesPerPacket * f.framesPerPacket <==> !(t.DSDInt8LSB1? || t.DSDInt8MSB1?)
  {
    if t.IsPackedInteger() || t.IsPackedFloat() {
      PackedTypes(t, blank);
    } else if t.IsAlignedIn32() {
      AlignedIn32Types(t, blank);
    } else {
      DsdTypes(t, blank);
    }
  }
}
