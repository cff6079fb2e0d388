# Text-to-speech converter page: a verified model

The page turns a long text into one spoken audio file. It is a single React
component, `src/app/page.tsx`. It works in four steps:

1. It collapses every run of two or more whitespace characters into one space.
2. It walks the text with a cursor and cuts it into chunks of at most about
   4000 characters. Each cut falls just after the last period in the window.
   Each chunk is trimmed and sent to a speech service, and a progress
   percentage is reported after every chunk.
3. It decodes the audio that came back and lays the decoded buffers end to
   end, channel by channel, in one output buffer.
4. It encodes that buffer as a 16-bit PCM RIFF/WAVE file: a 44-byte header,
   then interleaved little-endian samples.

The model is written in Dafny, one module per step:

- `Types`: the shared value types.
- `Text`: the normaliser and `trim`.
- `Chunker`: the walk of the loop, as a specification, and the progress
  percentage.
- `Audio`: decoded buffers as values, and the output `AudioBuffer` as a class
  over a two-dimensional array.
- `AudioMerge`: the merge, both as a specification and as methods that fill
  the output buffer in place.
- `WavEncoder`: the file as a value, and the encoder as methods that write a
  byte array through a running offset.
- `Pipeline`: the `splitTextAndProcess` loop.

The speech service is a parameter `synth(text, index)`, and so is the audio
decoder `decode(bytes)`. Each returns `None` where the source gets an error
or `undefined`.

Six behaviours of `page.tsx` that are easy to miss:

- A lone whitespace character stays: `"a   b\tb  c"` becomes `"a b\tb c"`.
  The regular expression `/\s{2,}/g` only matches runs of two or more
  (`Text.NormalizeExample`).
- The forward period search never yields a cut. `lastIndexOf` already looks
  at position `currentIndex + 4000`, so any period that `indexOf` finds later
  is more than 4000 characters past the cursor. The fallback always takes
  the error exit (`Chunker.ForwardSearchNeverFits`). A window without a
  period therefore always aborts the run.
- A 9000-character text with periods only at 3950, 4100 and 8980 is cut at
  3951 and then at 4101: the backward search from 7951 finds the period at
  4100. The third window, from 4101, holds no period, so the run aborts
  (`Chunker.PeriodsExample`).
- The error exit is taken inside the loop. The chunks before it have already
  been sent to the speech service. The `progress` state keeps its last value
  instead of being set to 100. The bar that shows it is hidden, because the
  exit clears `isProcessing` (`Pipeline.Expected`,
  `Pipeline.ReportedProgress`).
- A chunk cut at a period can hold `4000 + 1` characters before trimming.
  This happens when the period sits at the last position of the window
  (`Chunker.WellCut`).
- The merge also fails in cases beyond a decode failure:
  - The list of buffers is empty (`buffers[0]` is undefined).
  - The total length is zero (`createBuffer` throws).
  - A later buffer has more channels than the first (`getChannelData`
    throws).

  A later buffer with fewer channels leaves silence in the channels it lacks.
  Buffers with other sample rates are copied sample for sample; nothing
  resamples them.

## Model

| member | source | states |
|---|---|---|
| Text.Normalize | src/app/page.tsx:19-21 | the result is never longer than the input, starts with whitespace exactly when the input does, and holds no two adjacent whitespace characters |
| Text.NormalizeFixedPoint | src/app/page.tsx:19-21 | a string is left unchanged exactly when it has no two adjacent whitespace characters (both directions) |
| Text.NormalizeIdempotent | src/app/page.tsx:19-21 | normalising twice gives the same string as normalising once |
| Text.NormalizeKeepsNonWs | src/app/page.tsx:19-21 | the non-whitespace characters of the result are those of the input, in order |
| Text.NormalizeAppend | src/app/page.tsx:19-21 | after a non-whitespace character the text normalises piecewise: `Normalize(a + t) == Normalize(a) + Normalize(t)` |
| Text.NormalizeRun | src/app/page.tsx:19-21 | a whitespace run between non-whitespace neighbours becomes one space if it has two or more characters and stays as it is otherwise |
| Text.NormalizeExample | src/app/page.tsx:19-21 | `"a   b\tb  c"` normalises to `"a b\tb c"` for any non-whitespace `a`, `b`, `c`: the lone tab stays |
| Text.LeadingWs | src/app/page.tsx:77 | the length of the whitespace run that opens the string: every character before it is whitespace, the one at it is not |
| Text.Trim | src/app/page.tsx:77 | the result is the slice of the input after its leading whitespace; what follows the slice is whitespace; the result neither starts nor ends with whitespace; it is empty only if the input is all whitespace |
| Chunker.LastIndexOf | src/app/page.tsx:63 | the result is -1 or a position at or before `from` holding the character, and no later position up to `from` holds it |
| Chunker.IndexOf | src/app/page.tsx:67 | the result is -1 or the first position at or after `from` holding the character |
| Chunker.Slice | src/app/page.tsx:77 | with both bounds inside the string it is the plain slice; with the end past the string it is the rest of the string |
| Chunker.WindowLacksPeriod | src/app/page.tsx:62-72 | the condition of the error exit: the window `(cursor, cursor + 4000]` lies inside the text and holds no period |
| Chunker.NextEnd | src/app/page.tsx:60-75 | one pass's end lies past the cursor. A window that reaches the end of the text ends at `cursor + 4000`. Otherwise the end is 2 to 4001 past the cursor, just after the last period of the window `(cursor, cursor + 4000]`: no period lies between the end and `cursor + 4000`. There is no end exactly when the window lies inside the text and holds no period |
| Chunker.ForwardSearchNeverFits | src/app/page.tsx:63-73 | when the backward search finds no period after the cursor, the forward search finds none or one more than 4000 past the cursor |
| Chunker.PlanFrom | src/app/page.tsx:59-87 | the successive values of `currentIndex` after each pass, and whether the loop took the error exit: the walk stops past the end of the text or at the first cursor whose pass has no end |
| Chunker.ChunkTexts | src/app/page.tsx:77 | one request per end: request `k` is the text from the previous end (or 0) to end `k`, trimmed |
| Chunker.PlanAbortedInside | src/app/page.tsx:59-75 | a walk that aborts does so inside the text, and every end before it lies inside the text |
| Chunker.PlanIncreasing | src/app/page.tsx:59-84 | every end lies past the start of its span (so the loop terminates), and every end but the last lies inside the text |
| Chunker.StrictlyIncreasing | src/app/page.tsx:84 | ends that each pass their span's start are strictly increasing |
| Chunker.PlanCutsAtPeriods | src/app/page.tsx:60-77 | every span is a tail span of at most 4000 characters or a cut span of 2 to 4001 characters ending just after the last period in its window |
| Chunker.PlanEndsPastText | src/app/page.tsx:59-84 | a walk that does not abort ends at or past the end of the text |
| Chunker.PlanCovers | src/app/page.tsx:59-84 | the untrimmed spans of a walk that does not abort concatenate to exactly the text from the cursor on |
| Chunker.PlanAbortIff | src/app/page.tsx:59-75 | the walk aborts exactly when one of its spans starts a window that lies inside the text and holds no period (both directions) |
| Chunker.PeriodsExample | src/app/page.tsx:59-84 | for 9000 characters with periods only at 3950, 4100 and 8980, the walk ends at 3951 and 4101 and then aborts |
| Chunker.Percent | src/app/page.tsx:86 | the reported percentage is in [0, 100], and is 100 exactly when the cursor has reached the end of the text |
| Chunker.ProgressTrace | src/app/page.tsx:86 | one value per pass: the percentage of the text that lies before that pass's end |
| Chunker.PercentMonotone | src/app/page.tsx:86 | a later cursor never reports less |
| Chunker.ProgressMonotone | src/app/page.tsx:86 | the values reported along advancing ends never decrease |
| Chunker.ProgressOfPlan | src/app/page.tsx:84-86 | along a walk the values reported in the loop are in [0, 100] and never decrease, and the last is 100 when the walk does not abort |
| Audio.Silence | src/app/page.tsx:108-112 | `n` zero samples |
| Audio.AudioBuffer.constructor | src/app/page.tsx:108-112 | `createBuffer` gives a buffer of the requested channel count, length and rate with every channel silent |
| Audio.AudioBuffer.SetChannelData | src/app/page.tsx:117 | `set(src, offset)` replaces samples `offset ..` of one channel with `src` and changes no other sample of any channel |
| WavEncoder.LE16 | src/app/page.tsx:149-160 | the two bytes `setUint16(offset, v, true)` and `setInt16(offset, v, true)` store: `v` modulo 2^16, low byte first |
| WavEncoder.LE32 | src/app/page.tsx:143-163 | the four bytes `setUint32(offset, v, true)` stores: `v` modulo 2^32, lowest byte first |
| WavEncoder.Ascii | src/app/page.tsx:135-140 | one byte per character: the character code modulo 256, as `setUint8` stores it |
| WavEncoder.LE16RoundTrip | src/app/page.tsx:149-160 | two bytes written by `setUint16` read back as the value modulo 2^16, and as the value itself by `getInt16` when it fits 16 signed bits |
| WavEncoder.LE32RoundTrip | src/app/page.tsx:143-163 | four bytes written by `setUint32` read back as the value modulo 2^32 |
| WavEncoder.Scaled | src/app/page.tsx:167-168 | the clamped sample times 32768 when negative and 32767 otherwise, in [-32768, 32767] |
| WavEncoder.Pcm | src/app/page.tsx:167-168 | the 16-bit value stored for a sample, in [-32768, 32767] |
| WavEncoder.Clamp | src/app/page.tsx:167 | the result is in [-1, 1] and equals the sample when the sample already is |
| WavEncoder.Trunc | src/app/page.tsx:168 | truncation toward zero: within 1 of the value, on zero's side |
| WavEncoder.ToInt16 | src/app/page.tsx:168 | the stored value is in [-32768, 32767] |
| WavEncoder.PcmIsTruncation | src/app/page.tsx:167-168 | the scaled sample never needs the 16-bit wrap-around: the stored value is its truncation; 1 and above store 32767, -1 and below -32768, 0.5 stores 16383 |
| WavEncoder.PcmBytesAt | src/app/page.tsx:165-171 | value `k` of the sample stream is stored little-endian at bytes `2k` and `2k + 1` of the data |
| WavEncoder.InterleavedLength | src/app/page.tsx:165-166 | the interleaved stream of `frames` frames holds `frames * channels` values |
| WavEncoder.InterleavedAt | src/app/page.tsx:165-166 | frame `i`, channel `c` is value `i * channels + c` of the interleaved stream |
| WavEncoder.WavFile | src/app/page.tsx:128-171 | the bytes of the file: the 44-byte header for the buffer's channel count, rate and length, then the interleaved PCM values little-endian |
| WavEncoder.WavFileLength | src/app/page.tsx:130 | the file is `44 + frames * channels * 2` bytes long |
| WavEncoder.WavHeaderFields | src/app/page.tsx:142-163 | the fields sit at their fixed offsets: the `RIFF`, `WAVE`, `fmt ` and `data` tags; the RIFF size `length - 8` and the data size `length - 44`; `fmt ` size 16; format 1; the channel count; the sample rate; byte rate `rate * channels * 2`; block align `channels * 2`; 16 bits. Each value is reduced to its field's width |
| WavEncoder.WavSampleAt | src/app/page.tsx:165-171 | frame `i`, channel `c` is stored at byte `44 + 2 * (i * channels + c)` and reads back as the sample's PCM value |
| WavEncoder.MonoExample | src/app/page.tsx:128-171 | the mono buffer `[0.5, -1.0]` at 8000 Hz encodes to 48 bytes with 1 channel, rate 8000, byte rate 16000, data size 4, and values 16383 and -32768 at bytes 44 and 46 |
| WavEncoder.WriteString | src/app/page.tsx:135-140 | `writeString` stores one byte per character from the offset on and advances the offset by the string's length, leaving later bytes alone |
| WavEncoder.PutU16 | src/app/page.tsx:149-150 | the two little-endian bytes of the value go at the offset; later bytes stay |
| WavEncoder.PutI16 | src/app/page.tsx:168 | `setInt16` stores the ToInt16 of its argument as two little-endian bytes |
| WavEncoder.PutU32 | src/app/page.tsx:143-144 | the four little-endian bytes of the value go at the offset; later bytes stay |
| WavEncoder.WriteRiff | src/app/page.tsx:142-145 | the RIFF descriptor for the array's length fills the next 12 bytes, leaving later bytes alone |
| WavEncoder.WriteFmtKind | src/app/page.tsx:146-152 | the `fmt ` tag, size 16, format 1 and the channel count fill the next 12 bytes, leaving later bytes alone |
| WavEncoder.WriteFmtRates | src/app/page.tsx:153-160 | the sample rate, byte rate, block align and bits per sample fill the next 12 bytes, leaving later bytes alone |
| WavEncoder.WriteFmt | src/app/page.tsx:146-160 | the `fmt ` sub-chunk fills the next 24 bytes, leaving later bytes alone |
| WavEncoder.WriteData | src/app/page.tsx:161-163 | the `data` tag and the data size `length - 44` fill the next 8 bytes, leaving later bytes alone |
| WavEncoder.WriteHeader | src/app/page.tsx:142-163 | the first 44 bytes of the array are the header for its length, and the offset ends at 44; the bytes from 44 on are left alone |
| WavEncoder.WriteSample | src/app/page.tsx:167-169 | one pass of the inner loop appends the 16-bit value of channel `c` at frame `i`, moves the offset by 2, and leaves the bytes of later frames alone |
| WavEncoder.WriteFrame | src/app/page.tsx:166-170 | one pass of the outer loop appends frame `i`, two bytes per channel, advances the offset by `2 * channels`, and leaves later bytes alone |
| WavEncoder.NextFrame | src/app/page.tsx:165-170 | one pass of the outer loop extends the header and frames `0 .. i-1` already written by frame `i`, moves the offset one frame on, and leaves later bytes alone |
| WavEncoder.FrameBytesIs | src/app/page.tsx:130 | the sample bytes counted frame by frame come to `length * channels * 2` |
| WavEncoder.WriteSamples | src/app/page.tsx:165-171 | after the header, the array holds the interleaved frames of every channel, and the offset ends exactly at the array's length |
| WavEncoder.BufferToWavBlob | src/app/page.tsx:128-174 | the bytes produced are the WAVE file of the buffer's channels, length and rate, with every write inside the array |
| AudioMerge.TotalLength | src/app/page.tsx:110 | the output length: the sum of the buffers' lengths |
| AudioMerge.MergeFails | src/app/page.tsx:108-120 | when the merge throws: the list is empty (`buffers[0]`), the total length is zero (`createBuffer`), or a later buffer has more channels than the first (`getChannelData`) |
| AudioMerge.MergeResult | src/app/page.tsx:98-126 | the result of `mergeAudioFiles`: none when a decode fails or the merge throws, otherwise the WAVE file of the merged buffer |
| AudioMerge.ChannelConcat | src/app/page.tsx:114-120 | an output channel after all copies is `Σ length` samples long |
| AudioMerge.Merged | src/app/page.tsx:108-120 | the merged buffer has the first buffer's channel count, and every channel is `Σ length` samples long |
| AudioMerge.DecodeAll | src/app/page.tsx:101-106 | all decodes succeed exactly when every chunk decodes, and then the results are in chunk order |
| AudioMerge.OffsetBound | src/app/page.tsx:114-120 | the running offset never passes the total length |
| AudioMerge.ChannelConcatAt | src/app/page.tsx:114-120 | sample `j` of buffer `k` on channel `c` lands at output index `Σ_{i<k} length_i + j`; a channel the buffer lacks is zero there |
| AudioMerge.MergeEmpty | src/app/page.tsx:108-125 | an empty list of chunks produces no file |
| AudioMerge.MergeNeedsEveryDecode | src/app/page.tsx:101-125 | one chunk that does not decode is enough for no file |
| AudioMerge.MergedSampleAt | src/app/page.tsx:108-122 | the merged file is `44 + Σ length * channels * 2` bytes long, and sample `j` of buffer `k`, channel `c` sits at byte `44 + 2 * ((Σ_{i<k} length_i + j) * channels + c)` |
| AudioMerge.MergeBuffers | src/app/page.tsx:108-120 | there is no output buffer exactly when the list is empty, the total length is zero, or a later buffer has more channels than the first; otherwise a fresh buffer with the first buffer's channels and rate, `Σ length` long, holding the merged channels |
| AudioMerge.CopyBuffer | src/app/page.tsx:115-119 | the channels of buffer `k` are copied at the running offset; the copy fails exactly when the buffer has a channel the output lacks |
| AudioMerge.CopyStep | src/app/page.tsx:117 | one channel of buffer `k` is copied into place, and the other channels stay |
| AudioMerge.MergeAudioFiles | src/app/page.tsx:98-126 | the result is the merged file, or none where a decode fails or the merge throws |
| Pipeline.Synthesized | src/app/page.tsx:78-82 | `audioBuffers` never holds more entries than there were requests |
| Pipeline.Succeeded | src/app/page.tsx:78-82 | the positions of the successful requests, strictly increasing, each below the number of requests; a position is in it exactly when its request succeeds |
| Pipeline.SynthesizedPicks | src/app/page.tsx:78-82 | for any mix of successes and failures, `audioBuffers` holds one entry per successful request, and entry `j` is the response of the `j`-th successful request |
| Pipeline.SynthesizedAllSucceed | src/app/page.tsx:78-82 | when every request succeeds, `audioBuffers` holds every response, in request order |
| Pipeline.SynthesizedAllFail | src/app/page.tsx:78-82 | when every request fails, `audioBuffers` stays empty |
| Pipeline.Expected | src/app/page.tsx:48-95 | what a run of a non-empty input observably does: the progress values, the trimmed spans of the walk as requests, and the merge of the successful responses unless the walk aborts |
| Pipeline.Reported | src/app/page.tsx:48-95 | the values passed to `setProgress`: 0, one percentage per pass, and 100 unless the walk aborts |
| Pipeline.ReportedProgress | src/app/page.tsx:48-95 | the reported progress starts at 0, stays in [0, 100] and never decreases; its last value is 100 exactly when the run does not abort |
| Pipeline.RunRequests | src/app/page.tsx:59-84 | a run that does not abort sends one request per span; request `k` is span `k` trimmed; the untrimmed spans concatenate to the normalised text |
| Pipeline.NoAudioWithoutResponses | src/app/page.tsx:78-93 | when every request fails, no audio is set |
| Pipeline.ChunkEnd | src/app/page.tsx:60-75 | the boundary computation of one pass gives the end that `NextEnd` specifies, or none for the error exit |
| Pipeline.ProcessChunks | src/app/page.tsx:59-87 | the loop aborts exactly when the walk does. The requests are the trimmed spans of the walk. The progress values are the walk's percentages. `audioBuffers` holds the successful responses in order, with `chunkCount` as the request index |
| Pipeline.SplitTextAndProcess | src/app/page.tsx:47-96 | an empty input only reports 0. Otherwise the run reports 0, one percentage per pass and, unless it aborts, a final 100. It sends the walk's requests, and its audio is the merge of the successful responses, or none on an abort |

## Left out

- The speech request (`sendTextForTTS`, src/app/page.tsx:23-45) is network I/O. It is the parameter `synth`; the API key, the model and voice names, and the logging are not modelled.
- `decodeAudioData` is a browser call. It is the parameter `decode`, which gives at least one channel, every channel `length` long.
- The concurrent `Promise.all` of the decodes is not modelled. It only affects timing, since the results keep chunk order.
- Samples are real numbers. 32-bit float storage, NaN and infinities are not modelled. `Math.max`/`Math.min` with NaN is not modelled either.
- Chunker.Percent: computes `floor(cursor * 100 / length)` exactly. The source computes `(cursor / length) * 100` in floating point, which can round differently near whole percentages.
- AudioMerge.MergeBuffers: of `createBuffer`'s argument checks, only the zero length is modelled. The limits on the channel count (at most 32) and on the sample rate are not.
- WavEncoder.BufferToWavBlob: the sample rate is a natural number, and an `ArrayBuffer` too large to allocate is not modelled.
- Strings are sequences of characters. UTF-16 code units, surrogate pairs and `charCodeAt` beyond the ASCII tags are not modelled.
- `Text.IsWs` is the set of characters ECMAScript's `\s` and `trim` treat as whitespace.
- React state, the `isProcessing` flag, the button, `Blob`, `URL.createObjectURL`, console logging and the JSX are not modelled. Only the values passed to `setProgress` and the chunks sent are observable in the model.
