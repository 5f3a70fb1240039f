/** A reader for the files `pcmToWav` produces: canonical mono 16-bit PCM
    WAVE files with the 44-byte header. It is the encoder's inverse, and the
    lemmas here show both directions of that. */
module WavReader {
  import opened Wrappers
  import opened LittleEndian
  import opened DataView
  import opened Wav
  import opened WavLayout

  /** What a canonical file carries: its sample rate and its samples. */
  datatype WavInfo = WavInfo(sampleRate: int, samples: seq<int>)

  /** The data chunk read back as little-endian two's-complement 16-bit
      samples, two bytes per sample. */
  function DecodeSamples(data: seq<int>, n: nat): (samples: seq<int>)
    requires |data| == 2 * n
    ensures |samples| == n
    ensures IsBytes(data) ==> forall i :: 0 <= i < |samples| ==> IsInt16(samples[i])
  {
    if |data| == 0 then []
    else [DecodeI16(data[..2])] + DecodeSamples(data[2..], n - 1)
  }

  /** Decoding the data chunk gives back samples that are 16-bit already. */
  lemma {:induction false} DecodeSampleBytes(pcm16: seq<int>)
    requires forall i :: 0 <= i < |pcm16| ==> IsInt16(pcm16[i])
    ensures DecodeSamples(SampleBytes(pcm16), |pcm16|) == pcm16
    decreases |pcm16|
  {
    if |pcm16| > 0 {
      var head := EncodeI16(ToInt16(pcm16[0]));
      var tail := SampleBytes(pcm16[1..]);
      var data := SampleBytes(pcm16);
      assert data == head + tail;
      assert data[..2] == head && data[2..] == tail;
      DecodeSampleBytes(pcm16[1..]);
      assert DecodeSamples(data, |pcm16|) == [pcm16[0]] + pcm16[1..];
    }
  }

  /** Every byte string of 2n bytes is the data chunk of the n samples it
      decodes to. */
  lemma {:induction false} SampleBytesOfDecoded(data: seq<int>, n: nat)
    requires IsBytes(data) && |data| == 2 * n
    ensures SampleBytes(DecodeSamples(data, n)) == data
    decreases |data|
  {
    if |data| > 0 {
      var samples := DecodeSamples(data, n);
      assert samples[0] == DecodeI16(data[..2]);
      assert samples[1..] == DecodeSamples(data[2..], n - 1);
      EncodeDecodeI16(data[..2]);
      SampleBytesOfDecoded(data[2..], n - 1);
      assert data == data[..2] + data[2..];
    }
  }

  /** A file of |b| bytes passes the header checks: the four chunk ids,
      the RIFF and data sizes that match the file length, and the PCM, mono,
      16-bit format fields with the byte rate and block align they imply. */
  predicate CanonicalHeader(b: seq<int>)
    requires HEADER_SIZE <= |b|
  {
    && b[0..4] == StringBytes(RIFF_ID)
    && U32At(b, 4) == |b| - 8
    && b[8..12] == StringBytes(WAVE_ID)
    && b[12..16] == StringBytes(FMT_ID)
    && U32At(b, 16) == 16
    && U16At(b, 20) == FORMAT_PCM
    && U16At(b, 22) == NUM_CHANNELS
    && U32At(b, 28) == 2 * U32At(b, 24)
    && U16At(b, 32) == 2
    && U16At(b, 34) == BIT_DEPTH
    && b[36..40] == StringBytes(DATA_ID)
    && U32At(b, 40) == |b| - HEADER_SIZE
  }

  /** Reads a canonical mono 16-bit PCM file; None for anything else. */
  function ParseWav(b: seq<int>): (r: Option<WavInfo>)
    ensures r.Some? ==> HEADER_SIZE + 2 * |r.value.samples| == |b|
    ensures r.Some? && IsBytes(b) ==> 0 <= 2 * r.value.sampleRate < 0x1_0000_0000
    ensures |b| < HEADER_SIZE ==> r.None?
  {
    if |b| < HEADER_SIZE then None
    else
      var n := (|b| - HEADER_SIZE) / 2;
      if |b| != HEADER_SIZE + 2 * n || !CanonicalHeader(b) then None
      else Some(WavInfo(U32At(b, 24), DecodeSamples(b[HEADER_SIZE..], n)))
  }

  /** The inputs the encoder represents faithfully: a sample rate whose
      byte rate fits the 32-bit field, a sample count whose RIFF size fits
      it, and samples in the signed 16-bit range. */
  predicate Encodable(pcm16: seq<int>, sampleRate: int) {
    && 0 <= sampleRate
    && 2 * sampleRate < 0x1_0000_0000
    && 36 + 2 * |pcm16| < 0x1_0000_0000
    && forall i :: 0 <= i < |pcm16| ==> IsInt16(pcm16[i])
  }

  /** An even-length file of at least 44 bytes whose header passes the
      checks is accepted. */
  lemma ParseAccepts(b: seq<int>, n: nat)
    requires HEADER_SIZE <= |b| && |b| == HEADER_SIZE + 2 * n && CanonicalHeader(b)
    ensures ParseWav(b) == Some(WavInfo(U32At(b, 24), DecodeSamples(b[HEADER_SIZE..], n)))
  {
  }

  /** The encoder's header passes the reader's checks when the sizes and
      the byte rate fit their 32-bit fields. */
  lemma EncodedHeaderIsCanonical(pcm16: seq<int>, sampleRate: int)
    requires 0 <= sampleRate && 2 * sampleRate < 0x1_0000_0000
    requires 36 + 2 * |pcm16| < 0x1_0000_0000
    ensures CanonicalHeader(PcmToWav(pcm16, sampleRate))
    ensures U32At(PcmToWav(pcm16, sampleRate), 24) == sampleRate
  {
    PcmToWavHeader(pcm16, sampleRate);
  }

  /** The encoder's data chunk decodes to its samples when they are 16-bit. */
  lemma EncodedSamplesDecode(pcm16: seq<int>, sampleRate: int)
    requires forall i :: 0 <= i < |pcm16| ==> IsInt16(pcm16[i])
    ensures var data := PcmToWav(pcm16, sampleRate)[HEADER_SIZE..];
      |data| == 2 * |pcm16| && DecodeSamples(data, |pcm16|) == pcm16
  {
    PcmToWavSplits(pcm16, sampleRate);
    DecodeSampleBytes(pcm16);
  }

  /** Reading back what the encoder wrote gives its inputs. */
  lemma ParseEncoded(pcm16: seq<int>, sampleRate: int)
    requires Encodable(pcm16, sampleRate)
    ensures ParseWav(PcmToWav(pcm16, sampleRate)) == Some(WavInfo(sampleRate, pcm16))
  {
    var wav := PcmToWav(pcm16, sampleRate);
    EncodedHeaderIsCanonical(pcm16, sampleRate);
    EncodedSamplesDecode(pcm16, sampleRate);
    assert (2 * |pcm16|) / 2 == |pcm16|;
    ParseAccepts(wav, |pcm16|);
  }

  /** s[lo..hi] is s[lo..mid] followed by s[mid..hi]. */
  lemma SplitAt(s: seq<int>, lo: nat, mid: nat, hi: nat)
    requires lo <= mid <= hi <= |s|
    ensures s[lo..hi] == s[lo..mid] + s[mid..hi]
  {
  }

  /** A slice of a byte string is a byte string. */
  lemma SliceIsBytes(b: seq<int>, lo: nat, hi: nat)
    requires IsBytes(b) && lo <= hi <= |b|
    ensures IsBytes(b[lo..hi])
  {
    var field := b[lo..hi];
    forall j | 0 <= j < |field|
      ensures IsByte(field[j])
    {
      assert field[j] == b[lo + j];
    }
  }

  /** A field of a byte string holding the value of a given byte string of
      the same length holds exactly those bytes. */
  lemma FieldIs(b: seq<int>, off: nat, bytes: seq<int>)
    requires IsBytes(b) && IsBytes(bytes) && off + |bytes| <= |b|
    requires FromLE(b[off..off + |bytes|]) == FromLE(bytes)
    ensures b[off..off + |bytes|] == bytes
  {
    SliceIsBytes(b, off, off + |bytes|);
    FromLEInjective(b[off..off + |bytes|], bytes);
  }

  /** A u32 field of a byte string that reads v holds the bytes
      `setUint32` stores for v. */
  lemma U32FieldIs(b: seq<int>, off: nat, v: int)
    requires IsBytes(b) && off + 4 <= |b| && U32At(b, off) == v
    ensures 0 <= v < 0x1_0000_0000 && b[off..off + 4] == LE32(v)
  {
    Pow256Small();
    SliceIsBytes(b, off, off + 4);
    FieldIs(b, off, LE32(v));
  }

  /** A u16 field of a byte string that reads v holds the bytes
      `setUint16` stores for v. */
  lemma U16FieldIs(b: seq<int>, off: nat, v: int)
    requires IsBytes(b) && off + 2 <= |b| && U16At(b, off) == v
    ensures 0 <= v < 0x1_0000 && b[off..off + 2] == LE16(v)
  {
    Pow256Small();
    SliceIsBytes(b, off, off + 2);
    FieldIs(b, off, LE16(v));
  }

  /** Bytes 0..11 of a file whose RIFF chunk header passes the checks
      are the RIFF chunk header the encoder writes for its data size. */
  lemma ReadRiff(b: seq<int>)
    requires IsBytes(b) && HEADER_SIZE <= |b|
    requires b[0..4] == StringBytes(RIFF_ID) && b[8..12] == StringBytes(WAVE_ID)
    requires U32At(b, 4) == |b| - 8
    ensures b[0..12] == RiffHeaderBytes(|b| - HEADER_SIZE)
  {
    var dataSize := |b| - HEADER_SIZE;
    U32FieldIs(b, 4, 36 + dataSize);
    SplitAt(b, 0, 8, 12);
    SplitAt(b, 0, 4, 8);
  }

  /** Bytes 12..35 of a file whose `fmt ` fields pass the checks are the
      `fmt ` chunk the encoder writes for the sample rate at byte 24. */
  lemma ReadFmt(b: seq<int>)
    requires IsBytes(b) && HEADER_SIZE <= |b| && b[12..16] == StringBytes(FMT_ID)
    requires U32At(b, 16) == 16 && U16At(b, 20) == FORMAT_PCM && U16At(b, 22) == NUM_CHANNELS
    requires U32At(b, 28) == 2 * U32At(b, 24)
    requires U16At(b, 32) == 2 && U16At(b, 34) == BIT_DEPTH
    ensures var rate := U32At(b, 24);
      b[12..36] == FmtChunkBytes(1, 1, rate, 2 * rate, 2, 16)
  {
    var rate := U32At(b, 24);
    ReadFmtFields(b);
    assert b[12..36] == b[12..16] + b[16..20] + b[20..22] + b[22..24]
                        + b[24..28] + b[28..32] + b[32..34] + b[34..36] by {
      SplitAt(b, 12, 34, 36);
      SplitAt(b, 12, 32, 34);
      SplitAt(b, 12, 28, 32);
      SplitAt(b, 12, 24, 28);
      SplitAt(b, 12, 22, 24);
      SplitAt(b, 12, 20, 22);
      SplitAt(b, 12, 16, 20);
    }
  }

  /** The bytes of each `fmt ` field that passes the checks. */
  lemma ReadFmtFields(b: seq<int>)
    requires IsBytes(b) && HEADER_SIZE <= |b|
    requires U32At(b, 16) == 16 && U16At(b, 20) == FORMAT_PCM && U16At(b, 22) == NUM_CHANNELS
    requires U32At(b, 28) == 2 * U32At(b, 24)
    requires U16At(b, 32) == 2 && U16At(b, 34) == BIT_DEPTH
    ensures var rate := U32At(b, 24);
      && b[16..20] == LE32(16) && b[20..22] == LE16(1) && b[22..24] == LE16(1)
      && b[24..28] == LE32(rate) && b[28..32] == LE32(2 * rate)
      && b[32..34] == LE16(2) && b[34..36] == LE16(16)
  {
    var rate := U32At(b, 24);
    U32FieldIs(b, 16, 16);
    U16FieldIs(b, 20, 1);
    U16FieldIs(b, 22, 1);
    U32FieldIs(b, 24, rate);
    U32FieldIs(b, 28, 2 * rate);
    U16FieldIs(b, 32, 2);
    U16FieldIs(b, 34, 16);
  }

  /** Bytes 36..43 of a file whose data chunk header passes the checks
      are the data chunk header the encoder writes for its data size. */
  lemma ReadData(b: seq<int>)
    requires IsBytes(b) && HEADER_SIZE <= |b|
    requires b[36..40] == StringBytes(DATA_ID) && U32At(b, 40) == |b| - HEADER_SIZE
    ensures b[36..44] == DataHeaderBytes(|b| - HEADER_SIZE)
  {
    U32FieldIs(b, 40, |b| - HEADER_SIZE);
    SplitAt(b, 36, 40, 44);
  }

  /** Every file the reader accepts is exactly what the encoder writes for
      the rate and samples read from it, and those are encodable. */
  lemma EncodeParsed(b: seq<int>)
    requires IsBytes(b)
    ensures ParseWav(b).Some? ==>
      var w := ParseWav(b).value;
      Encodable(w.samples, w.sampleRate) && PcmToWav(w.samples, w.sampleRate) == b
  {
    if ParseWav(b).Some? {
      var w := ParseWav(b).value;
      var n := |w.samples|;
      var rate := w.sampleRate;
      assert IsBytes(b[HEADER_SIZE..]);
      assert Encodable(w.samples, rate);
      ReadRiff(b);
      ReadFmt(b);
      ReadData(b);
      assert b[..HEADER_SIZE] == Header(n, rate) by {
        SplitAt(b, 0, 36, 44);
        SplitAt(b, 0, 12, 36);
      }
      SampleBytesOfDecoded(b[HEADER_SIZE..], n);
      assert b == b[..HEADER_SIZE] + b[HEADER_SIZE..];
    }
  }

  /** The encoder's outputs for encodable inputs are exactly the files the
      reader accepts, and the reader returns the inputs they came from. */
  lemma ParseWavIffEncoded(b: seq<int>, pcm16: seq<int>, sampleRate: int)
    requires IsBytes(b)
    ensures ParseWav(b) == Some(WavInfo(sampleRate, pcm16))
        <==> Encodable(pcm16, sampleRate) && PcmToWav(pcm16, sampleRate) == b
  {
    EncodeParsed(b);
    if Encodable(pcm16, sampleRate) && PcmToWav(pcm16, sampleRate) == b {
      ParseEncoded(pcm16, sampleRate);
    }
  }

  /** The data chunk of four samples, byte by byte. */
  lemma FourSampleBytes()
    ensures SampleBytes([0, 32767, -32768, 1000]) == [0x00, 0x00, 0xFF, 0x7F, 0x00, 0x80, 0xE8, 0x03]
  {
    Pow256Small();
    var pcm16 := [0, 32767, -32768, 1000];
    assert EncodeI16(0) == [0x00, 0x00];
    assert EncodeI16(32767) == [0xFF, 0x7F];
    assert EncodeI16(-32768) == [0x00, 0x80];
    assert EncodeI16(1000) == [0xE8, 0x03];
    assert pcm16[1..][1..][1..][1..] == [];
    assert SampleBytes(pcm16[1..][1..][1..]) == [0xE8, 0x03];
    assert SampleBytes(pcm16[1..][1..]) == [0x00, 0x80, 0xE8, 0x03];
    assert SampleBytes(pcm16[1..]) == [0xFF, 0x7F, 0x00, 0x80, 0xE8, 0x03];
  }

  /** Four samples at 16 kHz, one of them at each end of the 16-bit range:
      52 bytes, with the rate and the byte rate in their fields. */
  lemma FourSampleHeader()
    ensures var wav := PcmToWav([0, 32767, -32768, 1000], 16000);
      && |wav| == 52
      && U32At(wav, 24) == 16000
      && U32At(wav, 28) == 32000
  {
    PcmToWavHeader([0, 32767, -32768, 1000], 16000);
  }

  /** The same four samples come back in order, as the bytes
      00 00 FF 7F 00 80 E8 03. */
  lemma FourSampleData()
    ensures var wav := PcmToWav([0, 32767, -32768, 1000], 16000);
      && I16At(wav, 44) == 0
      && I16At(wav, 46) == 32767
      && I16At(wav, 48) == -32768
      && I16At(wav, 50) == 1000
      && wav[HEADER_SIZE..] == [0x00, 0x00, 0xFF, 0x7F, 0x00, 0x80, 0xE8, 0x03]
  {
    var pcm16 := [0, 32767, -32768, 1000];
    var wav := PcmToWav(pcm16, 16000);
    PcmToWavSamples(pcm16, 16000);
    assert I16At(wav, HEADER_SIZE + 2 * 0) == ToInt16(pcm16[0]);
    assert I16At(wav, HEADER_SIZE + 2 * 1) == ToInt16(pcm16[1]);
    assert I16At(wav, HEADER_SIZE + 2 * 2) == ToInt16(pcm16[2]);
    assert I16At(wav, HEADER_SIZE + 2 * 3) == ToInt16(pcm16[3]);
    assert wav[HEADER_SIZE..] == [0x00, 0x00, 0xFF, 0x7F, 0x00, 0x80, 0xE8, 0x03] by {
      PcmToWavSplits(pcm16, 16000);
      FourSampleBytes();
    }
  }
}
