/**
  CoreAudio stream descriptions (`AudioStreamBasicDescription`) and the format
  flag bits the converter and the ASIO output test.
 */
module AudioFormat {
  import opened Bytes

  /** A four-character code packed as CoreAudio packs it: first character most significant. */
  function FourCC(a: char, b: char, c: char, d: char): (code: uint32)
    requires a as int < 256 && b as int < 256 && c as int < 256 && d as int < 256
    ensures code == Word([a as int, b as int, c as int, d as int], true)
  {
    FourCCIsBigEndianWord(a as int, b as int, c as int, d as int);
    (a as int) * 0x100_0000 + (b as int) * 0x1_0000 + (c as int) * 0x100 + (d as int)
  }

  lemma FourCCIsBigEndianWord(a: byte, b: byte, c: byte, d: byte)
    ensures Word([a, b, c, d], true) == a * 0x100_0000 + b * 0x1_0000 + c * 0x100 + d
  {
    var bytes: seq<byte> := [a, b, c, d];
    assert Reverse(bytes) == [d, c, b, a];
    assert [d, c, b, a][1..] == [c, b, a];
    assert [c, b, a][1..] == [b, a];
    assert [b, a][1..] == [a];
    assert [a][1..] == [];
    assert LittleWord([a]) == a;
    assert LittleWord([b, a]) == b + 256 * a;
    assert LittleWord([c, b, a]) == c + 256 * (b + 256 * a);
    assert LittleWord([d, c, b, a]) == d + 256 * (c + 256 * (b + 256 * a));
  }

  /** The last character of a four-character code is its low byte. */
  lemma FourCCLowByte(a: char, b: char, c: char, d: char)
    requires a as int < 256 && b as int < 256 && c as int < 256 && d as int < 256
    ensures FourCC(a, b, c, d) % 256 == d as int
  {
  }

  /** kAudioFormatLinearPCM, 'lpcm' */
  const LinearPCM: uint32 := FourCC('l', 'p', 'c', 'm')
  /** kAudioFormatDirectStreamDigital as SFBAudioEngine defines it, 'DSD ' */
  const DirectStreamDigital: uint32 := FourCC('D', 'S', 'D', ' ')

  // Format flag bits (kAudioFormatFlagIs...).
  const IsFloat: bv32 := 1
  const IsBigEndian: bv32 := 2
  const IsSignedInteger: bv32 := 4
  const IsPacked: bv32 := 8
  const IsAlignedHigh: bv32 := 16
  const IsNonInterleaved: bv32 := 32

  /** kAudioFormatFlagsNativeEndian: the big-endian bit on a big-endian host, no bit otherwise. */
  function NativeEndian(hostBigEndian: bool): bv32 {
    if hostBigEndian then IsBigEndian else 0
  }

  /** kAudioFormatFlagsNativeFloatPacked */
  function NativeFloatPacked(hostBigEndian: bool): bv32 {
    IsFloat | NativeEndian(hostBigEndian) | IsPacked
  }

  predicate Has(flags: bv32, flag: bv32) {
    flags & flag != 0
  }

  datatype StreamDescription = StreamDescription(
    sampleRate: real,
    formatID: uint32,
    formatFlags: bv32,
    bytesPerPacket: uint32,
    framesPerPacket: uint32,
    bytesPerFrame: uint32,
    channelsPerFrame: uint32,
    bitsPerChannel: uint32,
    reserved: uint32)
  {
    predicate IsFloatFormat() { Has(formatFlags, IsFloat) }
    predicate IsBigEndianFormat() { Has(formatFlags, IsBigEndian) }
    predicate IsSignedFormat() { Has(formatFlags, IsSignedInteger) }
    predicate IsPackedFormat() { Has(formatFlags, IsPacked) }
    predicate IsAlignedHighFormat() { Has(formatFlags, IsAlignedHigh) }
    predicate IsNonInterleavedFormat() { Has(formatFlags, IsNonInterleaved) }

    /**
      `kAudioFormatFlagsNativeEndian == (kAudioFormatFlagIsBigEndian & flags)`:
      the declared byte order is the host's.
     */
    predicate IsNativeEndian(hostBigEndian: bool) {
      formatFlags & IsBigEndian == NativeEndian(hostBigEndian)
    }
  }

  lemma NativeEndianMeansSameOrder(d: StreamDescription, hostBigEndian: bool)
    ensures d.IsNativeEndian(hostBigEndian) <==> (d.IsBigEndianFormat() == hostBigEndian)
  {
  }
}
