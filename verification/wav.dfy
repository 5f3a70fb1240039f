/** The PCM-to-WAV encoder of the chat client's speech playback.

    `PcmToWav` turns mono signed 16-bit samples and a sample rate into a RIFF
    container of form type WAVE: a 44-byte header (the RIFF chunk header, a
    16-byte `fmt ` chunk describing PCM, mono, 16 bits per sample, and the
    `data` chunk header) followed by every sample as two little-endian
    two's-complement bytes, in input order.

    `WavLayout` reads the fields of the result back from their offsets;
    `WavReader.ParseWav` is the reader of exactly these files, and its
    lemmas show that the two are inverse to each other.
 */
module Wav {
  import opened LittleEndian
  import opened DataView

  const HEADER_SIZE: nat := 44
  const NUM_CHANNELS: nat := 1
  const BIT_DEPTH: nat := 16
  const FORMAT_PCM: nat := 1

  const RIFF_ID: string := "RIFF"
  const WAVE_ID: string := "WAVE"
  const FMT_ID: string := "fmt "
  const DATA_ID: string := "data"

  /** The little-endian u16 stored at byte offset off. */
  function U16At(b: seq<int>, off: nat): int
    requires off + 2 <= |b|
  {
    FromLE(b[off..off + 2])
  }

  /** The little-endian u32 stored at byte offset off. */
  function U32At(b: seq<int>, off: nat): int
    requires off + 4 <= |b|
  {
    FromLE(b[off..off + 4])
  }

  /** The little-endian i16 stored at byte offset off. */
  function I16At(b: seq<int>, off: nat): int
    requires off + 2 <= |b|
  {
    DecodeI16(b[off..off + 2])
  }

  /** Bytes 0..11 of the file: RIFF chunk id, RIFF chunk size (everything
      after these eight bytes) and form type. */
  function RiffHeaderBytes(dataSize: int): (b: seq<int>)
    ensures |b| == 12 && IsBytes(b)
  {
    var a := StringBytes(RIFF_ID) + LE32(36 + dataSize);
    BytesConcat(StringBytes(RIFF_ID), LE32(36 + dataSize));
    BytesConcat(a, StringBytes(WAVE_ID));
    a + StringBytes(WAVE_ID)
  }

  /** Bytes 12..35 of the file: the `fmt ` chunk with its six fields. */
  function FmtChunkBytes(format: int, numChannels: int, sampleRate: int,
                         byteRate: int, blockAlign: int, bitDepth: int): (b: seq<int>)
    ensures |b| == 24 && IsBytes(b)
  {
    var b1 := StringBytes(FMT_ID) + LE32(16);
    BytesConcat(StringBytes(FMT_ID), LE32(16));
    var b2 := b1 + LE16(format);
    BytesConcat(b1, LE16(format));
    var b3 := b2 + LE16(numChannels);
    BytesConcat(b2, LE16(numChannels));
    var b4 := b3 + LE32(sampleRate);
    BytesConcat(b3, LE32(sampleRate));
    var b5 := b4 + LE32(byteRate);
    BytesConcat(b4, LE32(byteRate));
    var b6 := b5 + LE16(blockAlign);
    BytesConcat(b5, LE16(blockAlign));
    BytesConcat(b6, LE16(bitDepth));
    b6 + LE16(bitDepth)
  }

  /** Bytes 36..43 of the file: data chunk id and data size. */
  function DataHeaderBytes(dataSize: int): (b: seq<int>)
    ensures |b| == 8 && IsBytes(b)
  {
    BytesConcat(StringBytes(DATA_ID), LE32(dataSize));
    StringBytes(DATA_ID) + LE32(dataSize)
  }

  /** The 44-byte header of a mono 16-bit PCM file with numSamples samples,
      as the WAVE format lays it out: PCM format tag 1, one channel, a byte
      rate of two bytes per sample, a block of two bytes, 16 bits per sample. */
  function Header(numSamples: nat, sampleRate: int): (h: seq<int>)
    ensures |h| == HEADER_SIZE && IsBytes(h)
  {
    var riff := RiffHeaderBytes(2 * numSamples);
    var fmt := FmtChunkBytes(1, 1, sampleRate, 2 * sampleRate, 2, 16);
    BytesConcat(riff, fmt);
    BytesConcat(riff + fmt, DataHeaderBytes(2 * numSamples));
    riff + fmt + DataHeaderBytes(2 * numSamples)
  }

  /** The data chunk: each sample, wrapped by ToInt16, as two little-endian
      two's-complement bytes, in order. */
  function SampleBytes(pcm16: seq<int>): (data: seq<int>)
    ensures |data| == 2 * |pcm16| && IsBytes(data)
  {
    if |pcm16| == 0 then []
    else
      var head := EncodeI16(ToInt16(pcm16[0]));
      var tail := SampleBytes(pcm16[1..]);
      BytesConcat(head, tail);
      head + tail
  }

  /** Bytes 2k and 2k + 1 of the data chunk encode sample k. */
  lemma {:induction false} SampleBytesAt(pcm16: seq<int>, k: nat)
    requires k < |pcm16|
    ensures SampleBytes(pcm16)[2 * k..2 * k + 2] == EncodeI16(ToInt16(pcm16[k]))
  {
    var head := EncodeI16(ToInt16(pcm16[0]));
    var tail := SampleBytes(pcm16[1..]);
    assert SampleBytes(pcm16) == head + tail;
    if k > 0 {
      SampleBytesAt(pcm16[1..], k - 1);
      assert (head + tail)[2 * k..2 * k + 2] == tail[2 * (k - 1)..2 * (k - 1) + 2];
    }
  }

  /** The sample loop of `pcmToWav` from loop index i onwards; the loop's
      running offset is always HEADER_SIZE + 2 * i. Everything before that
      offset is kept and everything from it on is overwritten with samples. */
  function WriteSamples(view: seq<int>, pcm16: seq<int>, i: nat): (r: seq<int>)
    requires i <= |pcm16| && |view| == HEADER_SIZE + 2 * |pcm16|
    decreases |pcm16| - i
    ensures r == view[..HEADER_SIZE + 2 * i] + SampleBytes(pcm16[i..])
    ensures IsBytes(view) ==> IsBytes(r)
  {
    if i == |pcm16| then view
    else
      var offset := HEADER_SIZE + 2 * i;
      var next := SetInt16(view, offset, pcm16[i]);
      assert next[..offset + 2] == view[..offset] + EncodeI16(ToInt16(pcm16[i]));
      assert pcm16[i..][1..] == pcm16[i + 1..];
      WriteSamples(next, pcm16, i + 1)
  }

  /** The "RIFF header" block of `pcmToWav`: the RIFF chunk id, the RIFF
      chunk size and the form type go to bytes 0..11. */
  function WriteRiffHeader(view: seq<int>, dataSize: int): (r: seq<int>)
    requires 12 <= |view|
    ensures WrittenAt(r, view, 0, RiffHeaderBytes(dataSize))
  {
    var v1 := WriteString(view, 0, RIFF_ID);
    var v2 := SetUint32(v1, 4, 36 + dataSize);
    var v3 := WriteString(v2, 8, WAVE_ID);
    WriteStringFirst(view, 0, RIFF_ID);
    var w1 := StringBytes(RIFF_ID);
    SetBytesExtends(v1, view, 0, w1, LE32(36 + dataSize));
    WriteStringExtends(v2, view, 0, w1 + LE32(36 + dataSize), WAVE_ID);
    v3
  }

  /** The "fmt chunk" block of `pcmToWav`: the fmt chunk id, its size 16 and
      the six format fields go to bytes 12..35. */
  function WriteFmtChunk(view: seq<int>, format: int, numChannels: int, sampleRate: int,
                         byteRate: int, blockAlign: int, bitDepth: int): (r: seq<int>)
    requires 36 <= |view|
    ensures WrittenAt(r, view, 12,
                      FmtChunkBytes(format, numChannels, sampleRate, byteRate, blockAlign, bitDepth))
  {
    var v4 := WriteString(view, 12, FMT_ID);
    var v5 := SetUint32(v4, 16, 16);
    var v6 := SetUint16(v5, 20, format);
    var v7 := SetUint16(v6, 22, numChannels);
    var v8 := SetUint32(v7, 24, sampleRate);
    var v9 := SetUint32(v8, 28, byteRate);
    var v10 := SetUint16(v9, 32, blockAlign);
    var v11 := SetUint16(v10, 34, bitDepth);
    WriteStringFirst(view, 12, FMT_ID);
    var w4 := StringBytes(FMT_ID);
    SetBytesExtends(v4, view, 12, w4, LE32(16));
    var w5 := w4 + LE32(16);
    SetBytesExtends(v5, view, 12, w5, LE16(format));
    var w6 := w5 + LE16(format);
    SetBytesExtends(v6, view, 12, w6, LE16(numChannels));
    var w7 := w6 + LE16(numChannels);
    SetBytesExtends(v7, view, 12, w7, LE32(sampleRate));
    var w8 := w7 + LE32(sampleRate);
    SetBytesExtends(v8, view, 12, w8, LE32(byteRate));
    var w9 := w8 + LE32(byteRate);
    SetBytesExtends(v9, view, 12, w9, LE16(blockAlign));
    var w10 := w9 + LE16(blockAlign);
    SetBytesExtends(v10, view, 12, w10, LE16(bitDepth));
    v11
  }

  /** The "data chunk" header block of `pcmToWav`: the data chunk id and the
      data size go to bytes 36..43. */
  function WriteDataHeader(view: seq<int>, dataSize: int): (r: seq<int>)
    requires HEADER_SIZE <= |view|
    ensures WrittenAt(r, view, 36, DataHeaderBytes(dataSize))
  {
    var v12 := WriteString(view, 36, DATA_ID);
    var v13 := SetUint32(v12, 40, dataSize);
    WriteStringFirst(view, 36, DATA_ID);
    var w12 := StringBytes(DATA_ID);
    SetBytesExtends(v12, view, 36, w12, LE32(dataSize));
    v13
  }

  /** Writing the three header blocks in turn over a buffer leaves their
      bytes side by side in its first 44 bytes. */
  lemma HeaderBlocksCompose(buffer: seq<int>, riff: seq<int>, fmt: seq<int>, header: seq<int>,
                            r: seq<int>, f: seq<int>, d: seq<int>)
    requires HEADER_SIZE <= |buffer| && |r| == 12 && |f| == 24 && |d| == 8
    requires WrittenAt(riff, buffer, 0, r)
    requires WrittenAt(fmt, riff, 12, f)
    requires WrittenAt(header, fmt, 36, d)
    ensures |header| == |buffer| && header[..HEADER_SIZE] == r + f + d
  {
    assert riff[..12] == r;
    assert fmt[..36] == r + f;
  }

  /** `pcmToWav(pcm16, sampleRate)`: the bytes carried by the returned Blob
      are the canonical header followed by the data chunk's samples. */
  function PcmToWav(pcm16: seq<int>, sampleRate: int): (wav: seq<int>)
    ensures |wav| == HEADER_SIZE + 2 * |pcm16|
    ensures IsBytes(wav)
    ensures wav == Header(|pcm16|, sampleRate) + SampleBytes(pcm16)
  {
    var numSamples := |pcm16|;
    var byteRate := sampleRate * NUM_CHANNELS * BIT_DEPTH / 8;
    var blockAlign := NUM_CHANNELS * BIT_DEPTH / 8;
    var dataSize := numSamples * NUM_CHANNELS * BIT_DEPTH / 8;
    assert byteRate == 2 * sampleRate && blockAlign == 2 && dataSize == 2 * numSamples;
    var buffer := Zeros(HEADER_SIZE + dataSize);
    var riff := WriteRiffHeader(buffer, dataSize);
    var fmt := WriteFmtChunk(riff, FORMAT_PCM, NUM_CHANNELS, sampleRate, byteRate, blockAlign, BIT_DEPTH);
    var header := WriteDataHeader(fmt, dataSize);
    assert |header| == HEADER_SIZE + dataSize && header[..HEADER_SIZE] == Header(numSamples, sampleRate) by {
      HeaderBlocksCompose(buffer, riff, fmt, header, RiffHeaderBytes(dataSize),
        FmtChunkBytes(FORMAT_PCM, NUM_CHANNELS, sampleRate, byteRate, blockAlign, BIT_DEPTH),
        DataHeaderBytes(dataSize));
    }
    assert pcm16[0..] == pcm16;
    BytesConcat(Header(numSamples, sampleRate), SampleBytes(pcm16));
    WriteSamples(header, pcm16, 0)
  }
}

/** Field-level facts about the encoder's output: every header field and
    every sample read back from its offset. */
module WavLayout {
  import opened LittleEndian
  import opened DataView
  import opened Wav

  /** A slice of a suffix is a slice. */
  lemma SliceOfSuffix(s: seq<int>, off: nat, k: nat, n: nat)
    requires off + k + n <= |s|
    ensures s[off + k..off + k + n] == s[off..][k..k + n]
  {
  }

  /** A slice of a prefix is a slice. */
  lemma SliceOfPrefix(s: seq<int>, m: nat, k: nat, n: nat)
    requires k + n <= m <= |s|
    ensures s[k..k + n] == s[..m][k..k + n]
  {
  }

  /** A slice of an inner slice is a slice. */
  lemma SliceOfSlice(s: seq<int>, lo: nat, hi: nat, k: nat, n: nat)
    requires lo + k + n <= hi <= |s|
    ensures s[lo + k..lo + k + n] == s[lo..hi][k..k + n]
  {
    var inner := s[lo..hi][k..k + n];
    forall j | 0 <= j < n
      ensures inner[j] == s[lo + k + j]
    {
      assert s[lo..hi][k + j] == s[lo + k + j];
    }
  }

  /** The pieces of a concatenation of three. */
  lemma Slices3(a: seq<int>, b: seq<int>, c: seq<int>)
    ensures (a + b + c)[..|a|] == a
    ensures (a + b + c)[|a|..|a| + |b|] == b
    ensures (a + b + c)[|a| + |b|..] == c
  {
  }

  /** The three fields of the RIFF chunk header. */
  lemma RiffFields(dataSize: int)
    ensures var b := RiffHeaderBytes(dataSize);
      && b[0..4] == StringBytes(RIFF_ID)
      && b[4..8] == LE32(36 + dataSize)
      && b[8..12] == StringBytes(WAVE_ID)
  {
    var b := RiffHeaderBytes(dataSize);
    var a := StringBytes(RIFF_ID) + LE32(36 + dataSize);
    assert b[..8] == a;
    SliceOfPrefix(b, 8, 0, 4);
    SliceOfPrefix(b, 8, 4, 4);
  }

  /** The id, the size and the six format fields of the `fmt ` chunk. */
  lemma FmtFields(format: int, numChannels: int, sampleRate: int,
                  byteRate: int, blockAlign: int, bitDepth: int)
    ensures var b := FmtChunkBytes(format, numChannels, sampleRate, byteRate, blockAlign, bitDepth);
      && b[0..4] == StringBytes(FMT_ID)
      && b[4..8] == LE32(16)
      && b[8..10] == LE16(format)
      && b[10..12] == LE16(numChannels)
      && b[12..16] == LE32(sampleRate)
      && b[16..20] == LE32(byteRate)
      && b[20..22] == LE16(blockAlign)
      && b[22..24] == LE16(bitDepth)
  {
    var b := FmtChunkBytes(format, numChannels, sampleRate, byteRate, blockAlign, bitDepth);
    var b1 := StringBytes(FMT_ID) + LE32(16);
    var b2 := b1 + LE16(format);
    var b3 := b2 + LE16(numChannels);
    var b4 := b3 + LE32(sampleRate);
    var b5 := b4 + LE32(byteRate);
    var b6 := b5 + LE16(blockAlign);
    assert b[..22] == b6 && b[22..24] == LE16(bitDepth);
    SliceOfPrefix(b, 22, 20, 2);
    assert b[..20] == b5 by { SliceOfPrefix(b, 22, 0, 20); }
    SliceOfPrefix(b, 20, 16, 4);
    assert b[..16] == b4 by { SliceOfPrefix(b, 20, 0, 16); }
    SliceOfPrefix(b, 16, 12, 4);
    assert b[..12] == b3 by { SliceOfPrefix(b, 16, 0, 12); }
    SliceOfPrefix(b, 12, 10, 2);
    assert b[..10] == b2 by { SliceOfPrefix(b, 12, 0, 10); }
    SliceOfPrefix(b, 10, 8, 2);
    assert b[..8] == b1 by { SliceOfPrefix(b, 10, 0, 8); }
    SliceOfPrefix(b, 8, 0, 4);
    SliceOfPrefix(b, 8, 4, 4);
  }

  /** The two fields of the data chunk header. */
  lemma DataFields(dataSize: int)
    ensures var b := DataHeaderBytes(dataSize);
      && b[0..4] == StringBytes(DATA_ID)
      && b[4..8] == LE32(dataSize)
  {
  }

  /** The three chunk blocks of the header, at bytes 0..11, 12..35, 36..43. */
  lemma HeaderBlocks(numSamples: nat, sampleRate: int)
    ensures var h := Header(numSamples, sampleRate);
      && h[0..12] == RiffHeaderBytes(2 * numSamples)
      && h[12..36] == FmtChunkBytes(1, 1, sampleRate, 2 * sampleRate, 2, 16)
      && h[36..44] == DataHeaderBytes(2 * numSamples)
  {
    Slices3(RiffHeaderBytes(2 * numSamples), FmtChunkBytes(1, 1, sampleRate, 2 * sampleRate, 2, 16),
            DataHeaderBytes(2 * numSamples));
  }

  /** The output splits into the header and the data chunk's samples. */
  lemma PcmToWavSplits(pcm16: seq<int>, sampleRate: int)
    ensures var wav := PcmToWav(pcm16, sampleRate);
      && wav[..HEADER_SIZE] == Header(|pcm16|, sampleRate)
      && wav[HEADER_SIZE..] == SampleBytes(pcm16)
  {
  }

  /** Byte block lo..hi of a file whose first 44 bytes are h is block
      lo..hi of h. */
  lemma HeaderBlockOf(wav: seq<int>, h: seq<int>, lo: nat, hi: nat)
    requires HEADER_SIZE <= |wav| && wav[..HEADER_SIZE] == h && lo <= hi <= HEADER_SIZE
    ensures wav[lo..hi] == h[lo..hi]
  {
    SliceOfPrefix(wav, HEADER_SIZE, lo, hi - lo);
  }

  /** The bytes at k.. of a block of the file are the bytes at lo + k.. of
      the file. */
  lemma FieldAt(wav: seq<int>, lo: nat, hi: nat, block: seq<int>, k: nat, bytes: seq<int>)
    requires lo + k + |bytes| <= hi <= |wav| && wav[lo..hi] == block
    requires k + |bytes| <= |block| && block[k..k + |bytes|] == bytes
    ensures wav[lo + k..lo + k + |bytes|] == bytes
  {
    SliceOfSlice(wav, lo, hi, k, |bytes|);
  }

  /** A u32 field holding the bytes `setUint32` stores for v reads as v
      wrapped to 32 bits. */
  lemma U32Field(wav: seq<int>, off: nat, v: int)
    requires off + 4 <= |wav| && wav[off..off + 4] == LE32(v)
    ensures U32At(wav, off) == ToUint32(v)
  {
  }

  /** A u16 field holding the bytes `setUint16` stores for v reads as v
      wrapped to 16 bits. */
  lemma U16Field(wav: seq<int>, off: nat, v: int)
    requires off + 2 <= |wav| && wav[off..off + 2] == LE16(v)
    ensures U16At(wav, off) == ToUint16(v)
  {
  }

  /** The RIFF chunk header of a file with the canonical header. */
  lemma WavRiffFields(wav: seq<int>, numSamples: nat, sampleRate: int)
    requires HEADER_SIZE <= |wav| && wav[..HEADER_SIZE] == Header(numSamples, sampleRate)
    ensures wav[0..4] == StringBytes(RIFF_ID)
    ensures U32At(wav, 4) == ToUint32(36 + 2 * numSamples)
    ensures wav[8..12] == StringBytes(WAVE_ID)
  {
    var r := RiffHeaderBytes(2 * numSamples);
    assert wav[0..12] == r by {
      HeaderBlocks(numSamples, sampleRate);
      HeaderBlockOf(wav, Header(numSamples, sampleRate), 0, 12);
    }
    RiffFields(2 * numSamples);
    FieldAt(wav, 0, 12, r, 0, StringBytes(RIFF_ID));
    FieldAt(wav, 0, 12, r, 4, LE32(36 + 2 * numSamples));
    FieldAt(wav, 0, 12, r, 8, StringBytes(WAVE_ID));
    U32Field(wav, 4, 36 + 2 * numSamples);
  }

  /** Bytes 12..35 of a file with the canonical header are its `fmt `
      chunk. */
  lemma WavFmtBlock(wav: seq<int>, numSamples: nat, sampleRate: int)
    requires HEADER_SIZE <= |wav| && wav[..HEADER_SIZE] == Header(numSamples, sampleRate)
    ensures wav[12..36] == FmtChunkBytes(1, 1, sampleRate, 2 * sampleRate, 2, 16)
  {
    HeaderBlocks(numSamples, sampleRate);
    HeaderBlockOf(wav, Header(numSamples, sampleRate), 12, 36);
  }

  /** The `fmt ` chunk of a file with the canonical header. */
  lemma WavFmtFields(wav: seq<int>, numSamples: nat, sampleRate: int)
    requires HEADER_SIZE <= |wav| && wav[..HEADER_SIZE] == Header(numSamples, sampleRate)
    ensures wav[12..16] == StringBytes(FMT_ID)
    ensures U32At(wav, 16) == 16
    ensures U16At(wav, 20) == 1
    ensures U16At(wav, 22) == 1
    ensures U32At(wav, 24) == ToUint32(sampleRate)
    ensures U32At(wav, 28) == ToUint32(2 * sampleRate)
    ensures U16At(wav, 32) == 2
    ensures U16At(wav, 34) == 16
  {
    var f := FmtChunkBytes(1, 1, sampleRate, 2 * sampleRate, 2, 16);
    WavFmtBlock(wav, numSamples, sampleRate);
    FmtFields(1, 1, sampleRate, 2 * sampleRate, 2, 16);
    FmtFieldsAt(wav, f, sampleRate);
  }

  /** Reads the `fmt ` fields of a file back from the chunk's bytes f. */
  lemma FmtFieldsAt(wav: seq<int>, f: seq<int>, sampleRate: int)
    requires 36 <= |wav| && wav[12..36] == f && |f| == 24
    requires f[0..4] == StringBytes(FMT_ID) && f[4..8] == LE32(16)
    requires f[8..10] == LE16(1) && f[10..12] == LE16(1)
    requires f[12..16] == LE32(sampleRate) && f[16..20] == LE32(2 * sampleRate)
    requires f[20..22] == LE16(2) && f[22..24] == LE16(16)
    ensures wav[12..16] == StringBytes(FMT_ID)
    ensures U32At(wav, 16) == 16
    ensures U16At(wav, 20) == 1
    ensures U16At(wav, 22) == 1
    ensures U32At(wav, 24) == ToUint32(sampleRate)
    ensures U32At(wav, 28) == ToUint32(2 * sampleRate)
    ensures U16At(wav, 32) == 2
    ensures U16At(wav, 34) == 16
  {
    FieldAt(wav, 12, 36, f, 0, StringBytes(FMT_ID));
    FieldAt(wav, 12, 36, f, 4, LE32(16));
    FieldAt(wav, 12, 36, f, 8, LE16(1));
    FieldAt(wav, 12, 36, f, 10, LE16(1));
    FieldAt(wav, 12, 36, f, 12, LE32(sampleRate));
    FieldAt(wav, 12, 36, f, 16, LE32(2 * sampleRate));
    FieldAt(wav, 12, 36, f, 20, LE16(2));
    FieldAt(wav, 12, 36, f, 22, LE16(16));
    U32Field(wav, 16, 16);
    U16Field(wav, 20, 1);
    U16Field(wav, 22, 1);
    U32Field(wav, 24, sampleRate);
    U32Field(wav, 28, 2 * sampleRate);
    U16Field(wav, 32, 2);
    U16Field(wav, 34, 16);
  }

  /** The data chunk header of a file with the canonical header. */
  lemma WavDataFields(wav: seq<int>, numSamples: nat, sampleRate: int)
    requires HEADER_SIZE <= |wav| && wav[..HEADER_SIZE] == Header(numSamples, sampleRate)
    ensures wav[36..40] == StringBytes(DATA_ID)
    ensures U32At(wav, 40) == ToUint32(2 * numSamples)
  {
    var d := DataHeaderBytes(2 * numSamples);
    assert wav[36..44] == d by {
      HeaderBlocks(numSamples, sampleRate);
      HeaderBlockOf(wav, Header(numSamples, sampleRate), 36, 44);
    }
    DataFields(2 * numSamples);
    FieldAt(wav, 36, 44, d, 0, StringBytes(DATA_ID));
    FieldAt(wav, 36, 44, d, 4, LE32(2 * numSamples));
    U32Field(wav, 40, 2 * numSamples);
  }

  /** Every header field of `pcmToWav`'s output, read back from its offset:
      the chunk ids are the ASCII tags, the sizes and rates are the 32-bit
      wrap-arounds of the values `pcmToWav` computes, the format fields are
      the PCM constants. */
  lemma PcmToWavHeader(pcm16: seq<int>, sampleRate: int)
    ensures var wav := PcmToWav(pcm16, sampleRate);
      && wav[0..4] == StringBytes(RIFF_ID)
      && U32At(wav, 4) == ToUint32(36 + 2 * |pcm16|)
      && wav[8..12] == StringBytes(WAVE_ID)
      && wav[12..16] == StringBytes(FMT_ID)
      && U32At(wav, 16) == 16
      && U16At(wav, 20) == 1
      && U16At(wav, 22) == 1
      && U32At(wav, 24) == ToUint32(sampleRate)
      && U32At(wav, 28) == ToUint32(2 * sampleRate)
      && U16At(wav, 32) == 2
      && U16At(wav, 34) == 16
      && wav[36..40] == StringBytes(DATA_ID)
      && U32At(wav, 40) == ToUint32(2 * |pcm16|)
  {
    var wav := PcmToWav(pcm16, sampleRate);
    PcmToWavSplits(pcm16, sampleRate);
    WavRiffFields(wav, |pcm16|, sampleRate);
    WavFmtFields(wav, |pcm16|, sampleRate);
    WavDataFields(wav, |pcm16|, sampleRate);
  }

  /** A file whose data chunk holds SampleBytes(pcm16) has sample i at
      offset 44 + 2i. */
  lemma SampleAt(wav: seq<int>, pcm16: seq<int>, i: nat)
    requires HEADER_SIZE <= |wav| && wav[HEADER_SIZE..] == SampleBytes(pcm16)
    requires i < |pcm16|
    ensures I16At(wav, HEADER_SIZE + 2 * i) == ToInt16(pcm16[i])
  {
    SliceOfSuffix(wav, HEADER_SIZE, 2 * i, 2);
    SampleBytesAt(pcm16, i);
  }

  /** Sample i of the input is the little-endian i16 at offset 44 + 2i,
      wrapped into 16 bits as `setInt16` does; the data size field counts
      the bytes after the header, modulo 2^32. */
  lemma PcmToWavSamples(pcm16: seq<int>, sampleRate: int)
    ensures var wav := PcmToWav(pcm16, sampleRate);
      && |wav| - HEADER_SIZE == 2 * |pcm16|
      && U32At(wav, 40) == ToUint32(|wav| - HEADER_SIZE)
      && forall i :: 0 <= i < |pcm16| ==> I16At(wav, HEADER_SIZE + 2 * i) == ToInt16(pcm16[i])
  {
    var wav := PcmToWav(pcm16, sampleRate);
    PcmToWavSplits(pcm16, sampleRate);
    WavDataFields(wav, |pcm16|, sampleRate);
    forall i | 0 <= i < |pcm16|
      ensures I16At(wav, HEADER_SIZE + 2 * i) == ToInt16(pcm16[i])
    {
      SampleAt(wav, pcm16, i);
    }
  }

  /** Round trip of the data chunk: for samples in the signed 16-bit range,
      reading the i16 at offset 44 + 2i gives back sample i. */
  lemma PcmToWavSampleRoundTrip(pcm16: seq<int>, sampleRate: int)
    requires forall i :: 0 <= i < |pcm16| ==> IsInt16(pcm16[i])
    ensures var wav := PcmToWav(pcm16, sampleRate);
      forall i :: 0 <= i < |pcm16| ==> I16At(wav, HEADER_SIZE + 2 * i) == pcm16[i]
  {
    PcmToWavSamples(pcm16, sampleRate);
  }

  /** With no samples the output is the bare 44-byte header, data size 0. */
  lemma EmptyInput(sampleRate: int)
    ensures |PcmToWav([], sampleRate)| == HEADER_SIZE
    ensures U32At(PcmToWav([], sampleRate), 40) == 0
    ensures U32At(PcmToWav([], sampleRate), 4) == 36
  {
    PcmToWavHeader([], sampleRate);
  }

  /** The chunk ids are the ASCII codes of their four letters. */
  lemma ChunkIdsAreAscii()
    ensures StringBytes(RIFF_ID) == [0x52, 0x49, 0x46, 0x46]
    ensures StringBytes(WAVE_ID) == [0x57, 0x41, 0x56, 0x45]
    ensures StringBytes(FMT_ID) == [0x66, 0x6D, 0x74, 0x20]
    ensures StringBytes(DATA_ID) == [0x64, 0x61, 0x74, 0x61]
  {
  }
}
