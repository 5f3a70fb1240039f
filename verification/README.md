# PCM-to-WAV encoder of the Gemini chat client

The chat client plays synthesized speech. The text-to-speech endpoint returns
raw mono 16-bit PCM, and `pcmToWav` wraps it in a RIFF/WAVE container before
it goes to an `<audio>` element. The container has a 44-byte header followed
by the samples. `pcmToWav` fills a zeroed `ArrayBuffer` through a `DataView`:

- `writeString` stores the four-letter chunk ids;
- `setUint32` and `setUint16` store the size and format fields, little-endian;
- `setInt16` stores each sample in a loop.

This project models that encoder, together with two small pieces of the chat
logic around it:

- the text-only history that the recipe request sends;
- the guard that refuses to send a message.

Files and modules:

- `little_endian.dfy` (`LittleEndian`): byte strings, little-endian unsigned
  values (`FromLE`/`ToLE`) and two's-complement 16-bit pairs
  (`DecodeI16`/`EncodeI16`), each with its inverse.
- `data_view.dfy` (`DataView`): the part of ECMAScript's `DataView` the
  encoder uses, with the ToUint8/ToUint16/ToUint32/ToInt16 conversions that
  wrap a number modulo 2^8, 2^16 or 2^32. Also `writeString` (`WriteString`,
  with the loop as `WriteChars`).
- `wav.dfy` (`Wav`, `WavLayout`):
  - `PcmToWav` follows the JavaScript `pcmToWav` statement by statement: the three header
    blocks as `WriteRiffHeader`, `WriteFmtChunk` and `WriteDataHeader`, and
    the sample loop as `WriteSamples`.
  - Its contract compares the result with an independent description of the
    file, `Header` + `SampleBytes`.
  - `WavLayout` reads every field back from its offset.
- `wav_reader.dfy` (`WavReader`): `ParseWav` reads canonical mono 16-bit PCM
  files. It serves as the encoder's partner. The lemmas show both directions:
  - parsing what the encoder wrote gives back its inputs;
  - every file the parser accepts is what the encoder writes for the parsed
    values.
- `chat.dfy` (`Chat`): the recipe request's history builder, ECMAScript's
  `String.prototype.trim`, and the send guard.
- `wrappers.dfy` (`Wrappers`): `Option`.

Conventions:

- Bytes are `int`s in 0..255 (`IsBytes`).
- A JavaScript number that the program only ever holds as an integer is an
  `int`.
- `PcmToWav` is total: like the `DataView` setters, it wraps out-of-range
  values instead of rejecting them.
- The round-trip lemmas carry the range conditions under which nothing wraps
  (`Encodable`). The only caller passes an `Int16Array` and the constant
  16000 (main.py:109-112), so every actual call meets those conditions.

## Model

| member | source | states |
|---|---|---|
| `Wav.PcmToWav` | main.py:36-72 | The output has length 44 + 2n and is the canonical 44-byte mono 16-bit PCM header for n samples at the given rate, followed by the data chunk. |
| `Wav.WriteRiffHeader` | main.py:48-51 | The RIFF block writes exactly bytes 0..11: the id "RIFF", 36 + dataSize as a little-endian u32 and "WAVE". No other byte changes. |
| `Wav.WriteFmtChunk` | main.py:52-61 | The fmt block writes exactly bytes 12..35: the id "fmt ", the size 16 and the six format fields, at their offsets and widths. No other byte changes. |
| `Wav.WriteDataHeader` | main.py:63-65 | The data block writes exactly bytes 36..43: the id "data" and dataSize as a u32. No other byte changes. |
| `Wav.WriteSamples` | main.py:66-70 | From loop index i on, the bytes before offset 44 + 2i stay as they are, and everything from that offset on becomes the encoding of samples i.. in order. |
| `Wav.SampleBytesAt` | main.py:66-69 | Bytes 2k and 2k+1 of the data chunk are sample k, wrapped to 16 bits, in two's complement, low byte first. |
| `DataView.WriteString` | main.py:74-78 | Byte offset + k receives the low 8 bits of character k's code, and no byte outside offset..offset+len-1 changes. |
| `DataView.WriteStringFirst` | main.py:74-78 | Writing a string into a view leaves the view's prefix and suffix alone and puts the string's bytes in between. |
| `DataView.SetUint32` | main.py:50 | `setUint32(off, v, true)` leaves the u32 at off reading v mod 2^32 and changes no other byte. |
| `DataView.SetUint16` | main.py:56-57 | `setUint16(off, v, true)` leaves the u16 at off reading v mod 2^16 and changes no other byte. |
| `DataView.SetUint8` | main.py:76 | `setUint8(off, v)` leaves byte off holding v mod 2^8 and changes no other byte. |
| `DataView.WriteChars` | main.py:75-77 | From loop index i on, byte offset + k receives the low 8 bits of character k for every k ≥ i, and no byte outside offset + i..offset + len - 1 changes. |
| `DataView.ToUint8` | main.py:76 | The stored byte is in 0..255 and congruent to the character code mod 2^8; a code already in range is stored unchanged. |
| `DataView.ToUint16` | main.py:56-57 | The stored value is below 2^16 and congruent to the argument mod 2^16; an in-range argument is stored unchanged. |
| `DataView.ToUint32` | main.py:50 | The stored value is below 2^32 and congruent to the argument mod 2^32; an in-range argument is stored unchanged. |
| `DataView.SetInt16` | main.py:68 | `setInt16(off, v, true)` leaves the i16 at off reading v wrapped into -32768..32767 and changes no other byte. |
| `DataView.ToInt16` | main.py:68 | The value stored for a sample is in the 16-bit range and congruent to it mod 2^16. A sample already in range is stored unchanged. |
| `WavLayout.PcmToWavHeader` | main.py:47-65 | Reading the output back field by field gives, in order: "RIFF" at 0; 36 + 2n at 4; "WAVE" at 8; "fmt " at 12; then 16, 1, 1, rate, 2·rate, 2 and 16 at 16/20/22/24/28/32/34; "data" at 36; and 2n at 40. Sizes and rates are taken mod 2^32. |
| `WavLayout.PcmToWavSamples` | main.py:65-70 | The bytes after the header are two per sample, the data size at offset 40 is their count mod 2^32, and the i16 at offset 44 + 2i is sample i, wrapped to 16 bits. |
| `WavReader.EncodedHeaderIsCanonical` | main.py:47-65 | When the sizes and the byte rate fit 32 bits, the header holds them unwrapped: the RIFF size is the file length less 8, the data size at offset 40 is exactly the number of bytes after the header, the rate at 24 is the given rate and the byte rate at 28 is twice it. |
| `WavLayout.PcmToWavSampleRoundTrip` | main.py:66-70 | For samples in the 16-bit range, reading the i16 at offset 44 + 2i gives sample i back exactly, in order. |
| `WavLayout.EmptyInput` | main.py:36-72 | No samples give a 44-byte file whose data size is 0 and whose RIFF size is 36. |
| `WavLayout.ChunkIdsAreAscii` | main.py:48-64 | The four chunk ids are stored as the ASCII bytes of "RIFF", "WAVE", "fmt " and "data". |
| `WavReader.ParseEncoded` | main.py:36-72 | Reading back the encoder's output for encodable inputs yields exactly the sample rate and the samples it was given. |
| `WavReader.EncodeParsed` | main.py:36-72 | Every byte string the reader accepts is byte for byte what the encoder writes for the rate and samples read from it, and those are encodable. |
| `WavReader.ParseWavIffEncoded` | main.py:36-72 | A byte string is read as (rate, samples) if and only if the samples and rate are encodable and the encoder maps them to that byte string. |
| `WavReader.DecodeSampleBytes` | main.py:66-70 | Decoding the data chunk of in-range samples gives back the same samples. |
| `WavReader.SampleBytesOfDecoded` | main.py:66-70 | Every 2n-byte string is the data chunk of the n samples it decodes to. |
| `WavReader.FourSampleHeader` | main.py:36-65 | The samples [0, 32767, -32768, 1000] at 16000 Hz give 52 bytes, with 16000 at offset 24 and 32000 at offset 28. |
| `WavReader.FourSampleData` | main.py:66-70 | The same input reads back as 0, 32767, -32768, 1000 from offsets 44, 46, 48 and 50, stored as 00 00 FF 7F 00 80 E8 03. |
| `LittleEndian.EncodeDecodeI16` | main.py:68 | Every pair of bytes is the two's-complement encoding of the 16-bit value it decodes to, so the sample encoding loses nothing. |
| `LittleEndian.ToLEFromLE` | main.py:49-65 | Every little-endian byte string is the encoding of its own value, so a field's bytes are fixed by the value read from it. |
| `Chat.TextHistory` | main.py:131-134 | Every turn of the recipe history comes from a text message, with that message's content and mapped role. Every text message yields a turn. |
| `Chat.TextHistoryAppend` | main.py:131-134 | The history of a conversation is the history of its first part followed by the history of the rest, so message order is kept. |
| `Chat.TextHistoryLength` | main.py:131-134 | The history has one turn per text message, and as many turns as messages exactly when every message is text. |
| `Chat.RequestRole` | main.py:132 | The request role is always "model" or "user", and it is "model" exactly when the message's role is "model". |
| `Chat.ToTurn` | main.py:131-134 | A message becomes a turn whose single text part is its content, with role "model" exactly when the message's role is "model" and "user" otherwise. |
| `Chat.Trim` | main.py:183 | `input.trim()` is a contiguous piece of the input with only ECMAScript whitespace cut off on either side, and it neither starts nor ends with whitespace. |
| `Chat.TrimEmptyIff` | main.py:183 | The input trims to the empty string exactly when it consists only of whitespace. |
| `Chat.RefusesSend` | main.py:183 | The guard refuses every send while a reply is awaited, never refuses one with an image attached otherwise, and refuses an empty input without an image. |
| `Chat.RefusesSendIff` | main.py:183 | A send is refused exactly when a reply is awaited, or when no image is attached and the input is all whitespace. |

## Left out

- `base64ToArrayBuffer` and the `Int16Array` view over its result (main.py:26-34, 110-111). They are byte-level I/O glue; the model takes the sample sequence directly.
- The returned `Blob`, the object URL and audio playback (main.py:71, 113-117). The model returns the bytes the Blob carries.
- `fetch`, JSON handling, React state and effects, `FileReader` image loading and all rendering. These are UI and network code.
- The recipe request builds its history from `messages` as it stood before the request's own message was appended (main.py:127-131). This comes from the React state update. `TextHistory` models the filter and role map on whatever message list it is given.
- Non-integral numbers: `sampleRate` is an integer here. A fractional rate would be truncated by ToUint32 in the JavaScript, and that truncation is not modelled.
- `DataView` RangeError on an out-of-bounds write: it is a precondition of the setters. `pcmToWav` sizes its buffer so that it never writes out of bounds.
- `ArrayBuffer` allocation failure for huge inputs: not modelled. Sizes beyond 2^32 are modelled by the setters' wrap-around only.
- `writeString` on characters outside the Basic Multilingual Plane: `charCodeAt` works on UTF-16 code units, while a Dafny `char` is a whole code point. The encoder only writes the four ASCII chunk ids.
- A positive sample rate: `pcmToWav` never checks that `sampleRate` is positive. The model accepts any integer rate, and a negative one wraps through ToUint32.
- Idempotence of encoding: every operation here is a pure function, so equal inputs give equal outputs by construction, and no lemma states it.
