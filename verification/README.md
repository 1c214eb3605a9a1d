# Deinterleaving float converter and ASIO format mapping

A Dafny model of two pieces of SFBAudioEngine:

- `DeinterleavingFloatConverter`, which turns PCM audio in any of Core Audio's
  integer or floating layouts (8, 16, 24 or 32 bits; packed, high-aligned or
  low-aligned in a wider container; big- or little-endian; interleaved or
  not) into one buffer of 64-bit native floats per channel;
- from the ASIO output, `AudioFormatForASIOSampleType`, which describes each
  ASIO sample type as an `AudioStreamBasicDescription`, and
  `HandleASIOMessage`, which answers the driver's messages and posts events
  to the output's event queue.

The model is purely functional. An `AudioStreamBasicDescription` is the
datatype `AudioFormat.StreamDescription`, with the format flags as a `bv32`.
A buffer list is a sequence of `Buffers.InBuffer` (bytes plus channel count)
or `Buffers.OutBuffer` (samples, byte size, channel count). Every conversion
routine is a function from the converter and the two buffer lists to an
`Outcome`, which holds:

- the input as the routine leaves it (the low-aligned routines shift it in
  place);
- the output list;
- either the frame count returned or the `std::runtime_error` thrown.

The host's byte order is a parameter, stored in the converter.

Modules, in dependency order:

| module | file | contents |
|---|---|---|
| `Results` | results.dfy | success-or-error values |
| `Bytes` | bytes.dfy | bytes, words in either byte order, byte swapping, two's complement |
| `AudioFormat` | audio_format.dfy | four-character codes, format flags, `StreamDescription` |
| `Samples` | samples.dfy | the per-container kernels, the reference normalisation `(raw + delta) / 2^(bits-1)`, and what each format is expected to read as |
| `Buffers` | buffers.dfy | buffer lists, the deinterleaving loop nest, the low-aligned pre-shift |
| `Converter` | converter.dfy | the constructor and the destination format |
| `Routines` | routines.dfy | the twelve `ConvertFrom…` routines |
| `Dispatch` | dispatch.dfy | `Convert` and its decision table |
| `Alignment` | alignment.dfy | what the pre-shift and the 24-in-32 kernel do to a value |
| `AsioFormats` | asio_formats.dfy | `AudioFormatForASIOSampleType` |
| `AsioMessages` | asio_messages.dfy | `HandleASIOMessage` and the event queue |
| `AsioConversion` | asio_conversion.dfy | which ASIO formats the converter accepts, and what it makes of them |

Output samples are the datatype `Samples.Sample`:

- `Exact(v)`: the exact real value an integer kernel stores;
- `HostFloat(bytes)`: a native float or double, widened;
- `Rounded(n, p)`: an unsigned integer converted to a floating value with a
  `p`-bit significand.

Floating-point arithmetic itself is not modelled. Integer kernels divide 8-
to 32-bit integers by powers of two, so their `double` results are exact,
and `Exact` records them as reals.

`Dispatch.PlanFor` flattens `Convert`'s nested switches into one table:

- `Reject(error)`: the call throws `error`;
- `Skip`: the call returns 0 and writes nothing;
- `Reads(width, offset, reading)`: the call converts every frame, reading
  `width`-byte containers.

`Dispatch.ConvertFollowsPlan` proves that `Convert` does what the table says
for every source format. `Samples.Expected` states what each `reading`
stores, without reference to the host's byte order or to the kernel.

### Behaviour of the code as written

These properties are stated and proved as the code behaves. They are not
corrected:

- **32-bit samples are negated.** The 32-bit routines compute their full
  scale as `1 << 31` in `int`, which is -2^31.
  - A signed sample therefore comes out as the negation of its normalised
    value.
  - An unsigned sample comes out as its negation minus 2.
  - `Samples.Int32AsWritten` and `Samples.Int32Range` state this. It reaches
    the packed 32-bit formats and the 8- and 16-bit-in-32 formats, including
    the ASIO `Int32LSB`/`Int32MSB` and `Int32LSB16`/`Int32MSB16` types.
- **The 24-in-32 kernel reads bytes 0 to 2 of each 4-byte container, in
  either byte order.**
  - For big-endian data this is the high-aligned value
    (`Alignment.BigEndian24In32Reads`).
  - For little-endian data the significant bytes are 1 to 3, and byte 3 is
    ignored (`Alignment.LittleEndian24In32Example`,
    `AsioConversion.Int32Lsb24LittleEndianHostReads`).
  - This is the 3-byte assembly applied on a 4-byte stride, so it matches the
    high-aligned layout only for big-endian data.
- **Byte-swapped floats** have two differences from the native path:
  - the bytes are swapped as an integer and the integer is converted to
    floating point numerically, not reinterpreted;
  - every channel starts at the buffer's first container instead of at its
    own offset (`Samples.Kernel.SkipsChannelOffset`).
- **The 16-bit high-aligned routine** silently returns 0 for non-native byte
  order, and throws for native order at any depth but 8.
- **The low-aligned pre-shift** rewrites the caller's input. The rewrite
  stays even when the high-aligned routine that follows throws or skips
  (`AsioConversion.AlignedIn32OddDepthThrows`). The shift is a 32-bit
  unsigned `containerBits - bitsPerChannel` (`Routines.ShiftAmount`).
- **Constructor rejection needs two failures.** The constructor rejects an
  unpacked format only when its sample width is outside 1 to 4 AND its depth
  is outside {8, 16, 24} (`Converter.Construct`).
- **`HandleASIOMessage` answers selectors it does not advertise, and the
  reverse.**
  - `kAsioSelectorSupported` advertises time code and input monitoring, but
    asked directly, each answers 0.
  - Overload is answered but not advertised (`AsioMessages.AdvertisedAnswers`,
    `AsioMessages.OverloadAnsweredButNotAdvertised`).

## Model

| member | source | states |
|---|---|---|
| `Converter.Construct` | Converter/DeinterleavingFloatConverter.cpp:37-66 | throws "only PCM" exactly for a non-linear-PCM format, "packed sizes" exactly for a packed depth outside {8,16,24,32}, "unpacked sizes" exactly when width is outside 1..4 and depth outside {8,16,24}; otherwise a converter holding the source and the derived destination |
| `Converter.AcceptedFormats` | Converter/DeinterleavingFloatConverter.cpp:39-49 | a format is accepted iff it is linear PCM, a packed format has depth 8/16/24/32, and an unpacked format has width 1..4 or depth 8/16/24 |
| `Converter.PackedDoubleRejected` | Converter/DeinterleavingFloatConverter.cpp:42-43 | packed 64-bit input, float or not, fails the packed-depth check |
| `Converter.DestinationRejectedAsSource` | Converter/DeinterleavingFloatConverter.cpp:42-65 | the converter's own destination format is not an acceptable source |
| `Converter.SampleWidth` | Converter/DeinterleavingFloatConverter.cpp:45-46 | the sample width is the unsigned quotient of bytes per frame by the interleaved channel count (bounds on both sides) |
| `Converter.Destination` | Converter/DeinterleavingFloatConverter.cpp:53-65 | the destination is linear PCM, native-endian packed non-interleaved 64-bit float, 8 bytes per packet and frame, one frame per packet, with the source's rate and channel count |
| `Dispatch.Convert` | Converter/DeinterleavingFloatConverter.cpp:71-130 | zero frames clears every output buffer's byte size, touches nothing else and returns 0; a successful non-empty call returns 0 or the frame count |
| `Dispatch.PlanFor` | Converter/DeinterleavingFloatConverter.cpp:84-127 | a converting plan reads containers of the sample width (of bits/8 for floats), wide enough for its reading |
| `Dispatch.ConvertFollowsPlan` | Converter/DeinterleavingFloatConverter.cpp:84-127 | for any non-empty call, the input ends pre-shifted iff the format is low-aligned of width 2 or 4, and the call throws, skips or converts every frame exactly as the flat decision table says |
| `Dispatch.FloatFollowsPlan` | Converter/DeinterleavingFloatConverter.cpp:88-94 | float formats: depth 32 and 64 convert natively or by swap, any other depth throws |
| `Dispatch.PackedFollowsPlan` | Converter/DeinterleavingFloatConverter.cpp:97-105 | packed formats: widths 1 to 4 convert, any other throws the packed-width error |
| `Dispatch.HighAlignedFollowsPlan` | Converter/DeinterleavingFloatConverter.cpp:108-116 | high-aligned formats: widths 1, 2 and 4 go to their routines, width 3 and others throw |
| `Dispatch.LowAlignedFollowsPlan` | Converter/DeinterleavingFloatConverter.cpp:119-127 | low-aligned formats: widths 1, 2 and 4 go to their routines (2 and 4 after the pre-shift), width 3 and others throw |
| `Routines.ConvertFromFloat` | Converter/DeinterleavingFloatConverter.cpp:134-170 | native-order floats: every channel's samples are its own containers widened; other order: each container is the declared-order unsigned word converted numerically, read from the buffer's first container on; byte sizes and channel counts set, input untouched, frame count returned |
| `Routines.ConvertFromDouble` | Converter/DeinterleavingFloatConverter.cpp:172-211 | the same two paths for 64-bit doubles |
| `Routines.ConvertFromPacked8` | Converter/DeinterleavingFloatConverter.cpp:215-254 | each output sample is its 8-bit container normalised (two's complement if signed, offset binary otherwise) by 2^7 |
| `Routines.ConvertFromPacked16` | Converter/DeinterleavingFloatConverter.cpp:256-342 | each output sample is its 16-bit container, read in the declared byte order whatever the host's, normalised by 2^15 |
| `Routines.ConvertFromPacked24` | Converter/DeinterleavingFloatConverter.cpp:344-443 | each output sample is its 3-byte container, read in the declared byte order, normalised by 2^23 |
| `Routines.ConvertFromPacked32` | Converter/DeinterleavingFloatConverter.cpp:445-531 | each output sample is its 32-bit container in the declared order divided by -2^31: signed values negated, unsigned values negated and less 2 |
| `Routines.ConvertFromHighAligned8` | Converter/DeinterleavingFloatConverter.cpp:535-539 | converts as packed 8-bit |
| `Routines.ConvertFromHighAligned16` | Converter/DeinterleavingFloatConverter.cpp:541-552 | non-native order returns 0 with nothing written; native order at depth 8 converts as packed 16-bit; native order at any other depth throws |
| `Routines.ConvertFromHighAligned32` | Converter/DeinterleavingFloatConverter.cpp:558-669 | depth 24 reads bytes 0 to 2 of each container as a 24-bit value in the declared order; depths 8 and 16 convert as packed 32-bit; any other depth throws |
| `Routines.ConvertFromLowAligned8` | Converter/DeinterleavingFloatConverter.cpp:673-677 | converts as packed 8-bit, with no shift |
| `Routines.ShiftAmount` | Converter/DeinterleavingFloatConverter.cpp:682 | the shift is container bits minus depth, and wraps modulo 2^32 when the depth exceeds the container |
| `Routines.ConvertFromLowAligned16` | Converter/DeinterleavingFloatConverter.cpp:679-696 | the input ends with every container of the call's frames shifted left by `16 - bits`, whatever follows; then exactly the 16-bit high-aligned outcomes, on the shifted input |
| `Routines.ConvertFromLowAligned32` | Converter/DeinterleavingFloatConverter.cpp:702-719 | the input ends shifted left by `32 - bits`; then exactly the 32-bit high-aligned outcomes, on the shifted input |
| `Routines.PreShiftKeepsShape` | Converter/DeinterleavingFloatConverter.cpp:684-693 | the in-place shift keeps every buffer's size and channel count |
| `Buffers.DeinterleaveLoop` | Converter/DeinterleavingFloatConverter.cpp:139-149 | the nested buffer/channel loop, with one output buffer per channel in order, computes the deinterleaved output list |
| `Buffers.DeinterleaveSample` | Converter/DeinterleavingFloatConverter.cpp:298-315 | sample `i` of the output for channel `c` of buffer `b` is the kernel on container `c + i*n` (or `i*n` without channel offset); that output reports `frameCount*8` bytes and one channel and keeps samples past `frameCount` |
| `Buffers.DeinterleaveLeavesRest` | Converter/DeinterleavingFloatConverter.cpp:139-140 | output buffers past the last input channel are untouched |
| `Buffers.DeinterleaveConverted` | Converter/DeinterleavingFloatConverter.cpp:353-371 | a kernel that agrees with a reading on every container converts the whole buffer list per that reading |
| `Buffers.DeinterleaveDecodes` | Converter/DeinterleavingFloatConverter.cpp:358-361 | the sample stored for channel `c` at index `i` is the kernel applied to that channel's `i`-th container |
| `Buffers.ChannelPlane` | Converter/DeinterleavingFloatConverter.cpp:300-306 | the plane for channel `c` has one sample per frame, sample `i` being the kernel on container `c + i*n` (or `i*n` without channel offset), which lies inside the buffer |
| `Buffers.Planes` | Converter/DeinterleavingFloatConverter.cpp:139-140 | one plane per channel of every input buffer, `frameCount` samples each |
| `Buffers.WriteOutputs` | Converter/DeinterleavingFloatConverter.cpp:144-147 | the output list keeps its length, each written buffer keeps its capacity, and buffers past the planes are untouched |
| `Buffers.Deinterleave` | Converter/DeinterleavingFloatConverter.cpp:139-149 | one output buffer per input channel, in (buffer, channel) order, reports `frameCount*8` bytes (as UInt32) and one channel and keeps its samples past `frameCount`; the list keeps its length; later buffers are unchanged |
| `Routines.Run` | Converter/DeinterleavingFloatConverter.cpp:298-315 | a routine's loop nest leaves its input alone, returns the frame count, and does the output bookkeeping of `Buffers.Deinterleave` |
| `Buffers.ShiftWord` | Converter/DeinterleavingFloatConverter.cpp:689 | the shifted container value fits its container |
| `Buffers.ShiftContainers` | Converter/DeinterleavingFloatConverter.cpp:707-716 | the shifted run keeps its length, and every byte after the first `count` containers is unchanged |
| `Buffers.ShiftContainersAt` | Converter/DeinterleavingFloatConverter.cpp:707-716 | container `index` is shifted when it is among the first `count`, unchanged otherwise |
| `Buffers.PreShiftAt` | Converter/DeinterleavingFloatConverter.cpp:684-693 | in each input buffer exactly the `channels*frameCount` containers of the call are shifted; the rest of the buffer is unchanged |
| `Buffers.ShiftAligns` | Converter/DeinterleavingFloatConverter.cpp:712 | a `bits`-bit value low in its container becomes the value times `2^(8*width-bits)`, nothing truncated |
| `Samples.DecodeInt` | Converter/DeinterleavingFloatConverter.cpp:218-666 | every integer kernel but the 32-bit one stores a value in [-1, 1); the 32-bit kernel stores a value in (-1, 1] for signed and (-3, -1] for unsigned containers |
| `Samples.Decode` | Converter/DeinterleavingFloatConverter.cpp:151-201 | integer kernels store exact values; native-order float kernels copy the container; byte-swapping float kernels store the container read in the order opposite to the host's, rounded to a 24- or 53-bit significand |
| `Samples.Assemble24` | Converter/DeinterleavingFloatConverter.cpp:359 | the assembled 24-bit word fits 32 bits with its low byte zero |
| `Samples.Normalize` | Converter/DeinterleavingFloatConverter.cpp:259-260 | the reference normalisation maps every `bits`-bit pattern into [-1, 1) |
| `Samples.NormalizeZero` | Converter/DeinterleavingFloatConverter.cpp:218-219 | a sample normalises to 0 exactly when it is 0 (signed) or the midpoint 2^(bits-1) (unsigned) |
| `Samples.NormalizeFullScale` | Converter/DeinterleavingFloatConverter.cpp:218-219 | the most negative pattern (2^(bits-1) signed, 0 unsigned) normalises to -1 |
| `Samples.NormalizedOrderSymmetry` | Converter/DeinterleavingFloatConverter.cpp:262-342 | a byte-reversed container read in the opposite declared order gives the same value |
| `Samples.Int8MatchesReference` | Converter/DeinterleavingFloatConverter.cpp:215-254 | the 8-bit kernel stores the reference normalisation of the byte |
| `Samples.Int16MatchesReference` | Converter/DeinterleavingFloatConverter.cpp:256-342 | the 16-bit kernel, native or swapped as the host requires, stores the reference normalisation of the declared-order word |
| `Samples.Int24MatchesReference` | Converter/DeinterleavingFloatConverter.cpp:344-443 | the 24-bit kernel (3-byte or 24-in-32) stores the reference normalisation of the first three bytes in declared order: the two divisions by 2^8 and 2^23 give the 24-bit value |
| `Samples.Int32AsWritten` | Converter/DeinterleavingFloatConverter.cpp:445-531 | the 32-bit kernel stores minus the reference value (signed) or minus the reference value less 2 (unsigned) |
| `Samples.Int32Range` | Converter/DeinterleavingFloatConverter.cpp:448-449 | 32-bit outputs lie in (-1, 1] when signed and (-3, -1] when unsigned; the unsigned midpoint gives -2 |
| `Samples.Int24IgnoresFourthByte` | Converter/DeinterleavingFloatConverter.cpp:571-577 | the 24-in-32 kernel's output does not depend on byte 3 of the container |
| `Samples.FloatReads` | Converter/DeinterleavingFloatConverter.cpp:151-167 | the float kernels store the native value when the order matches the host, and the numeric conversion of the declared-order word otherwise |
| `Alignment.LowAlignedShiftRecovers` | Converter/DeinterleavingFloatConverter.cpp:679-696 | after the pre-shift, a low-aligned `bits`-bit value normalises as the container-wide word to exactly its own `bits`-bit normalisation |
| `Alignment.BigEndian24In32Reads` | Converter/DeinterleavingFloatConverter.cpp:567-588 | a big-endian 24-bit value high in its 4-byte container is read as exactly that value |
| `Alignment.LittleEndian24In32Example` | Converter/DeinterleavingFloatConverter.cpp:612-633 | a little-endian container holding -2^23 high-aligned reads as 0, not -1 |
| `Bytes.ByteSwap` | Converter/DeinterleavingFloatConverter.cpp:304 | `OSSwapInt16` (and `OSSwapInt32`, line 493) gives a value of the same width |
| `Bytes.ToSigned` | Converter/DeinterleavingFloatConverter.cpp:304 | the cast to a signed type gives the pattern itself or the pattern less 2^bits, within the signed range |
| `Bytes.ByteSwapReadsOtherOrder` | Converter/DeinterleavingFloatConverter.cpp:303-306 | swapping the bytes of a word read in one order gives the word read in the other order |
| `AudioFormat.NativeEndianMeansSameOrder` | Converter/DeinterleavingFloatConverter.cpp:138 | the native-endian test holds exactly when the declared order is the host's |
| `AudioFormat.FourCC` | Output/ASIOOutput.cpp:50-54 | a four-character code is its characters read as a big-endian 32-bit word |
| `AsioFormats.AudioFormatForSampleType` | Output/ASIOOutput.cpp:58-206 | sample rate, channel count and reserved come from the default format; an unlisted type gives the default format |
| `AsioFormats.BaseFormat` | Output/ASIOOutput.cpp:62-185 | the first switch keeps the default's rate, channels and reserved, and leaves an unlisted type untouched |
| `AsioFormats.PackedBits` | Output/ASIOOutput.cpp:64-120 | packed types have depth 16, 24, 32 or 64 |
| `AsioFormats.AlignedBits` | Output/ASIOOutput.cpp:124-162 | 32-bit container types have depth 16, 18, 20 or 24 |
| `AsioFormats.PackedTypes` | Output/ASIOOutput.cpp:64-120 | packed types are linear PCM, packed, non-interleaved, float iff a float type and signed iff an integer type, big-endian iff MSB, with bits/8 bytes per packet and frame |
| `AsioFormats.AlignedIn32Types` | Output/ASIOOutput.cpp:124-162 | 32-bit container types are signed linear PCM, unpacked, not high-aligned (so low-aligned), non-interleaved, 4 bytes per packet and frame, big-endian iff MSB |
| `AsioFormats.DsdTypes` | Output/ASIOOutput.cpp:166-184 | DSD types are DSD, non-interleaved, one byte per packet; NER8 is 8 bits per frame, the 1-bit types 8 frames per packet with 0 bytes per frame |
| `AsioFormats.ByteOrderFollowsName` | Output/ASIOOutput.cpp:189-202 | every listed type is non-interleaved, and big-endian exactly when it is an MSB type |
| `AsioFormats.TwinsShareBase` | Output/ASIOOutput.cpp:62-185 | an MSB type and its LSB twin share every field the first switch sets |
| `AsioFormats.MsbIsLsbPlusBigEndian` | Output/ASIOOutput.cpp:188-202 | an MSB type's format is its LSB twin's with the big-endian flag added |
| `AsioFormats.FrameSizeRelation` | Output/ASIOOutput.cpp:166-174 | bytes per frame equals bytes per packet times frames per packet for every listed type except the two 1-bit DSD types |
| `AsioFormats.FourCCsDiffer` | Output/ASIOOutput.cpp:166-168 | the DSD and linear PCM format codes differ |
| `AsioMessages.HandleMessage` | Output/ASIOOutput.cpp:737-770 | the queue is only appended to, by one event exactly for a reset request or an overload; the selector-supported answer is 1 exactly for the advertised selectors; reset, resync, latency change, time info and overload answer 1; the engine version answers 2 and no other selector does; any selector the switch does not list answers 0 |
| `AsioMessages.HandleMessagePosts` | Output/ASIOOutput.cpp:745-757 | one message appends exactly the event its selector names |
| `AsioMessages.HandleAllAppends` | Output/ASIOOutput.cpp:747-755 | a run of messages leaves the old queue followed by one event per reset request and overload, in arrival order |
| `AsioMessages.AdvertisedAnswers` | Output/ASIOOutput.cpp:740-766 | of the advertised selectors, exactly time code and input monitor answer 0 when asked directly |
| `AsioMessages.OverloadAnsweredButNotAdvertised` | Output/ASIOOutput.cpp:740-757 | an overload is answered with 1 but not advertised as supported |
| `AsioMessages.EventsDiffer` | Output/ASIOOutput.cpp:50-54 | the reset and overload events are different codes |
| `AsioConversion.AsioConstruct` | Output/ASIOOutput.cpp:62-185 | the converter rejects an ASIO format as not PCM exactly for DSD and as an unsupported packed depth exactly for 64-bit floats, and accepts every other listed type |
| `AsioConversion.AsioPlan` | Output/ASIOOutput.cpp:62-202 | for each accepted ASIO type the converter pre-shifts exactly the 32-bit container types, by `32 - bits`, and follows a per-type table |
| `AsioConversion.AlignedIn32OddDepthThrows` | Converter/DeinterleavingFloatConverter.cpp:702-719 | an 18- or 20-bit ASIO type is accepted by the constructor, yet its conversion shifts the input and then throws, leaving the output untouched |
| `AsioConversion.ShiftThenReject` | Converter/DeinterleavingFloatConverter.cpp:662-666 | a pre-shifting format whose plan rejects ends with the error, the output unchanged and the input shifted |
| `AsioConversion.Int32Msb24BigEndianHostReads` | Converter/DeinterleavingFloatConverter.cpp:567-588 | `Int32MSB24` on a big-endian host: after the shift by 8, a 24-bit value is read as exactly itself |
| `AsioConversion.Int32Lsb24LittleEndianHostReads` | Converter/DeinterleavingFloatConverter.cpp:612-633 | `Int32LSB24` on a little-endian host: after the shift by 8, only the value's low 16 bits reach the output, as the top of a 24-bit word |

## Left out

- Floating-point arithmetic is not modelled. An output sample is an exact
  real for the integer paths, and a symbolic widened float or numerically
  converted integer for the float paths. Rounding of the 32-bit integer paths
  to `double` is not modelled either: every value they produce is exact in
  `double`.
- The vDSP routines (`vDSP_vflt…`, `vDSP_vsdivD`, `vDSP_vsaddD`,
  `vDSP_vspdp`) are modelled by what they compute per element, not by their
  vectorised implementation.
- Pointers, aliasing between input and output, and the `NULL` assertions of
  `Convert` are not modelled. Buffers are values.
- The input buffers' `mDataByteSize` is never read by the routines and is
  not modelled. The caller's obligations are requires clauses of
  `Dispatch.Convert` (`Dispatch.CallerContract`):
  - input buffers large enough for `frameCount` frames;
  - an output buffer per channel with room for `frameCount` samples;
  - a non-zero interleaved channel count.

  The source reads and writes out of bounds, or divides by zero, when these
  do not hold.
- `Converter.Construct` requires `Converter.Constructible`: the sample-width
  division must not be by zero once the first two checks pass. The C++
  divides by zero there.
- The destructor and the `sampleRate` arithmetic are not modelled. The
  sample rate is copied as an opaque real.
- `Buffers.ShiftWord` stores 0 for a shift of the container width or more.
  C++ leaves a shift of 32 or more of a 32-bit value undefined, and
  `Routines.ShiftAmount` can produce one when the depth exceeds the
  container.
- The 24-bit assembly `input[0] << 24` shifts a promoted `int`. For bytes of
  0x80 or more the result does not fit a signed `int`. C++14 defines the
  shift as long as the result fits `unsigned int`, converting it to `int`;
  C++20 defines it modulo 2^32. Either way it is the two's-complement value,
  which is what the model computes (`Samples.Int24Scaled`).
- `AsioFormats.AudioFormatForSampleType`: the `SFB::Audio::AudioFormat`
  default constructor is not part of this model. The default-constructed
  format is the parameter `blank`. ASIO sample types the mapping does not
  list are the single constructor `Other`.
- `AsioMessages.HandleMessage`: the event queue is modelled as the sequence
  of event codes written to it. Its capacity, the reader side and a write
  that fails on a full ring buffer are left out. The `message` and `opt`
  parameters are unused by the source and not modelled.
- The numeric values of the ASIO message selectors (1 to 15) are those of
  the ASIO SDK's `asio.h`, which is not part of this model.
- The rest of `ASIOOutput.cpp` (driver loading, buffer switching, the
  callbacks other than `HandleASIOMessage`, the playback thread) is driver
  plumbing around the modelled functions and is left out.
