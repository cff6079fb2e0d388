/**
 * `bufferToWavBlob`: serialises an audio buffer into a canonical RIFF/WAVE
 * file with a 44-byte header (a `fmt ` chunk for 16-bit integer PCM and a
 * `data` chunk) followed by the interleaved 16-bit samples, all little-endian,
 * written into a fixed-size byte array through a running offset.
 */
module WavEncoder {
  import opened Types
  import opened Audio

  /** Bytes before the first sample. */
  const HeaderSize: nat := 44

  // ---------------------------------------------------------------------
  // Little-endian fields, as `DataView` writes them

  /** The two bytes `setUint16`/`setInt16` store: the value taken modulo 2^16, low byte first. */
  function LE16(v: int): (r: Bytes)
    ensures |r| == 2
  {
    var u := v % 0x1_0000;
    [(u % 256) as byte, (u / 256) as byte]
  }

  /** The four bytes `setUint32` stores: the value taken modulo 2^32, low byte first. */
  function LE32(v: int): (r: Bytes)
    ensures |r| == 4
  {
    var u := v % 0x1_0000_0000;
    var q1 := u / 256;
    var q2 := q1 / 256;
    [(u % 256) as byte, (q1 % 256) as byte, (q2 % 256) as byte, (q2 / 256) as byte]
  }

  /** `getUint16(p, true)`. */
  function U16At(b: Bytes, p: nat): int
    requires p + 2 <= |b|
  {
    b[p] as int + 256 * b[p + 1] as int
  }

  /** `getInt16(p, true)`. */
  function S16At(b: Bytes, p: nat): int
    requires p + 2 <= |b|
  {
    var u := U16At(b, p);
    if u >= 0x8000 then u - 0x1_0000 else u
  }

  /** `getUint32(p, true)`. */
  function U32At(b: Bytes, p: nat): int
    requires p + 4 <= |b|
  {
    b[p] as int + 256 * b[p + 1] as int + 0x1_0000 * b[p + 2] as int + 0x100_0000 * b[p + 3] as int
  }

  /** Reading back a 16-bit field gives the value written, modulo 2^16. */
  lemma LE16RoundTrip(b: Bytes, p: nat, v: int)
    requires p + 2 <= |b| && b[p..p + 2] == LE16(v)
    ensures U16At(b, p) == v % 0x1_0000
    ensures -0x8000 <= v < 0x8000 ==> S16At(b, p) == v
  {
    assert b[p] == LE16(v)[0] && b[p + 1] == LE16(v)[1];
  }

  /** Reading back a 32-bit field gives the value written, modulo 2^32. */
  lemma LE32RoundTrip(b: Bytes, p: nat, v: int)
    requires p + 4 <= |b| && b[p..p + 4] == LE32(v)
    ensures U32At(b, p) == v % 0x1_0000_0000
  {
    var u := v % 0x1_0000_0000;
    var q1 := u / 256;
    var q2 := q1 / 256;
    assert b[p] as int == u % 256 && b[p + 1] as int == q1 % 256;
    assert b[p + 2] as int == q2 % 256 && b[p + 3] as int == q2 / 256;
    assert u == 256 * q1 + u % 256;
    assert q1 == 256 * q2 + q1 % 256;
    assert q2 == 256 * (q2 / 256) + q2 % 256;
  }

  /** `writeString`'s bytes: each `charCodeAt`, reduced modulo 2^8 by `setUint8`. */
  function Ascii(s: string): (r: Bytes)
    ensures |r| == |s|
  {
    seq(|s|, i requires 0 <= i < |s| => ((s[i] as int) % 256) as byte)
  }

  // ---------------------------------------------------------------------
  // Sample conversion

  /** `Math.max(-1, Math.min(1, x))`. */
  function Clamp(x: real): (r: real)
    ensures -1.0 <= r <= 1.0
    ensures -1.0 <= x <= 1.0 ==> r == x
  {
    if x < -1.0 then -1.0 else if x > 1.0 then 1.0 else x
  }

  /** The value handed to `setInt16`: a clamped sample scaled by 0x8000 below zero, 0x7fff otherwise. */
  function Scaled(x: real): (r: real)
    ensures -32768.0 <= r <= 32767.0
  {
    var s := Clamp(x);
    if s < 0.0 then s * 32768.0 else s * 32767.0
  }

  /** Truncation toward zero, the first step of ECMAScript's ToInt16. */
  function Trunc(y: real): (t: int)
    ensures y >= 0.0 ==> t as real <= y < t as real + 1.0
    ensures y < 0.0 ==> t as real - 1.0 < y <= t as real
  {
    if y >= 0.0 then y.Floor else -((-y).Floor)
  }

  /** ECMAScript's ToInt16: truncate, then wrap into [-2^15, 2^15). */
  function ToInt16(y: real): (r: int)
    ensures -0x8000 <= r < 0x8000
  {
    var t := Trunc(y) % 0x1_0000;
    if t >= 0x8000 then t - 0x1_0000 else t
  }

  /** The PCM value stored for a sample. */
  function Pcm(x: real): (r: int)
    ensures -0x8000 <= r < 0x8000
  {
    ToInt16(Scaled(x))
  }

  /** A scaled sample never needs ToInt16's wrap-around: the stored value is the truncation. */
  lemma PcmIsTruncation(x: real)
    ensures Pcm(x) == Trunc(Scaled(x))
    ensures x >= 1.0 ==> Pcm(x) == 32767
    ensures x <= -1.0 ==> Pcm(x) == -32768
    ensures x == 0.5 ==> Pcm(x) == 16383
  {
    var y := Scaled(x);
    assert -32768 <= Trunc(y) <= 32767;
  }

  // ---------------------------------------------------------------------
  // The file as a value

  /** Every channel holds at least `frames` samples. */
  ghost predicate HasFrames(chs: seq<seq<real>>, frames: nat) {
    forall c :: 0 <= c < |chs| ==> |chs[c]| >= frames
  }

  /** Frame `i`: the PCM value of sample `i` of every channel, in channel order. */
  function Frame(chs: seq<seq<real>>, i: nat): (r: seq<int>)
    requires HasFrames(chs, i + 1)
    ensures |r| == |chs|
  {
    seq(|chs|, c requires 0 <= c < |chs| => Pcm(chs[c][i]))
  }

  /** Frames `0 .. frames-1`, one after the other. */
  function Interleaved(chs: seq<seq<real>>, frames: nat): seq<int>
    requires HasFrames(chs, frames)
  {
    if frames == 0 then [] else Interleaved(chs, frames - 1) + Frame(chs, frames - 1)
  }

  /** `frames` frames of `|chs|` values each. */
  lemma {:induction false} InterleavedLength(chs: seq<seq<real>>, frames: nat)
    requires HasFrames(chs, frames)
    ensures |Interleaved(chs, frames)| == frames * |chs|
  {
    if frames > 0 {
      InterleavedLength(chs, frames - 1);
      assert (frames - 1) * |chs| + |chs| == frames * |chs|;
    }
  }

  /** 16-bit values as consecutive little-endian pairs. */
  function PcmBytes(xs: seq<int>): (r: Bytes)
    ensures |r| == 2 * |xs|
  {
    if xs == [] then [] else PcmBytes(xs[..|xs| - 1]) + LE16(xs[|xs| - 1])
  }

  /** The RIFF chunk descriptor of a file `length` bytes long. */
  function RiffDescriptor(length: nat): (r: Bytes)
    ensures |r| == 12
  {
    Ascii("RIFF") + LE32(length - 8) + Ascii("WAVE")
  }

  /** The `fmt ` sub-chunk: 16-bit integer PCM. */
  function FmtChunk(numberOfChannels: nat, sampleRate: nat): (r: Bytes)
    ensures |r| == 24
  {
    Ascii("fmt ") + LE32(16) + LE16(1) + LE16(numberOfChannels) + LE32(sampleRate)
    + LE32(sampleRate * numberOfChannels * 2) + LE16(numberOfChannels * 2) + LE16(16)
  }

  /** The `data` sub-chunk header of a file `length` bytes long. */
  function DataHeader(length: nat): (r: Bytes)
    ensures |r| == 8
  {
    Ascii("data") + LE32(length - 44)
  }

  /** The 44 header bytes of a file `length` bytes long. */
  function WavHeader(numberOfChannels: nat, sampleRate: nat, length: nat): (r: Bytes)
    ensures |r| == HeaderSize
  {
    RiffDescriptor(length) + FmtChunk(numberOfChannels, sampleRate) + DataHeader(length)
  }

  /** The encoding of `frames` frames of channels `chs` at `sampleRate`. */
  function WavFile(sampleRate: nat, frames: nat, chs: seq<seq<real>>): Bytes
    requires HasFrames(chs, frames)
  {
    WavHeader(|chs|, sampleRate, frames * |chs| * 2 + HeaderSize) + PcmBytes(Interleaved(chs, frames))
  }

  // ---------------------------------------------------------------------
  // What the file holds

  lemma {:induction false} PcmBytesAt(xs: seq<int>, k: nat)
    requires k < |xs|
    ensures 2 * k + 2 <= |PcmBytes(xs)| && PcmBytes(xs)[2 * k..2 * k + 2] == LE16(xs[k])
    decreases |xs|
  {
    var init := xs[..|xs| - 1];
    if k < |xs| - 1 {
      PcmBytesAt(init, k);
      assert init[k] == xs[k];
      assert PcmBytes(xs)[2 * k..2 * k + 2] == PcmBytes(init)[2 * k..2 * k + 2];
    }
  }

  lemma PcmBytesSnoc(xs: seq<int>, x: int)
    ensures PcmBytes(xs + [x]) == PcmBytes(xs) + LE16(x)
  {
    assert (xs + [x])[..|xs|] == xs;
  }

  /** Little-endian pairs of a concatenation are the pairs of each part. */
  lemma {:induction false} PcmBytesAppend(xs: seq<int>, ys: seq<int>)
    ensures PcmBytes(xs + ys) == PcmBytes(xs) + PcmBytes(ys)
    decreases |ys|
  {
    if ys == [] {
      assert xs + ys == xs;
    } else {
      var init := ys[..|ys| - 1];
      PcmBytesAppend(xs, init);
      assert (xs + ys)[..|xs + ys| - 1] == xs + init;
    }
  }

  lemma NextFrameFits(i: nat, frames: nat, n: nat)
    requires i < frames
    ensures (i + 1) * n == i * n + n
    ensures i * n + n <= frames * n
  {
    MulMonotone(i + 1, frames, n);
  }

  /** Appending frame `i` to the encoding of frames `0 .. i-1` encodes frames `0 .. i`. */
  lemma FrameStep(chs: seq<seq<real>>, i: nat, header: Bytes, before: Bytes, after: Bytes)
    requires HasFrames(chs, i + 1)
    requires before == header + PcmBytes(Interleaved(chs, i))
    requires after == before + PcmBytes(Frame(chs, i))
    ensures after == header + PcmBytes(Interleaved(chs, i + 1))
  {
    var xs, f := Interleaved(chs, i), Frame(chs, i);
    assert Interleaved(chs, i + 1) == xs + f;
    PcmBytesAppend(xs, f);
    ConcatAssoc(header, PcmBytes(xs), PcmBytes(f));
  }

  /** The position of sample `c` of frame `i` among interleaved samples of `channels` channels. */
  function SampleIndex(channels: nat, i: nat, c: nat): nat {
    i * channels + c
  }

  lemma {:induction false} InterleavedAt(chs: seq<seq<real>>, frames: nat, i: nat, c: nat)
    requires HasFrames(chs, frames) && i < frames && c < |chs|
    ensures SampleIndex(|chs|, i, c) < |Interleaved(chs, frames)|
    ensures Interleaved(chs, frames)[SampleIndex(|chs|, i, c)] == Pcm(chs[c][i])
    decreases frames
  {
    InterleavedLength(chs, frames);
    FrameIndexBound(i, c, frames, |chs|);
    if i < frames - 1 {
      FrameIndexBound(i, c, frames - 1, |chs|);
      InterleavedAt(chs, frames - 1, i, c);
    } else {
      InterleavedLength(chs, frames - 1);
    }
  }

  /** Sample `c` of frame `i` comes before the end of `frames` frames. */
  lemma FrameIndexBound(i: nat, c: nat, frames: nat, n: nat)
    requires i < frames && c < n
    ensures SampleIndex(n, i, c) < frames * n
  {
    NextFrameFits(i, frames, n);
  }

  lemma RiffFields(length: nat)
    ensures var r := RiffDescriptor(length);
      r[0..4] == Ascii("RIFF") && r[4..8] == LE32(length - 8) && r[8..12] == Ascii("WAVE")
  {
  }

  lemma FmtFields(n: nat, sampleRate: nat)
    ensures var f := FmtChunk(n, sampleRate);
      f[0..4] == Ascii("fmt ") && f[4..8] == LE32(16) && f[8..10] == LE16(1) && f[10..12] == LE16(n)
  {
    FmtChunkParts(n, sampleRate);
  }

  lemma FmtRateFields(n: nat, sampleRate: nat)
    ensures var f := FmtChunk(n, sampleRate);
      f[12..16] == LE32(sampleRate) && f[16..20] == LE32(sampleRate * n * 2) &&
      f[20..22] == LE16(n * 2) && f[22..24] == LE16(16)
  {
    FmtChunkParts(n, sampleRate);
  }

  lemma DataFields(length: nat)
    ensures var d := DataHeader(length);
      d[0..4] == Ascii("data") && d[4..8] == LE32(length - 44)
  {
  }

  /** A byte string that starts with the header holds its three parts at offsets 0, 12 and 36. */
  lemma HeaderParts(h: Bytes, n: nat, sampleRate: nat, length: nat)
    requires |h| >= HeaderSize && h[..HeaderSize] == WavHeader(n, sampleRate, length)
    ensures h[0..12] == RiffDescriptor(length)
    ensures h[12..36] == FmtChunk(n, sampleRate)
    ensures h[36..44] == DataHeader(length)
  {
    var w := WavHeader(n, sampleRate, length);
    assert h[0..12] == w[0..12] && h[12..36] == w[12..36] && h[36..44] == w[36..44];
  }

  /** A 16-bit field at offset `q` of a part that starts at `start`. */
  lemma PartField16(h: Bytes, start: nat, part: Bytes, q: nat, v: int)
    requires start + |part| <= |h| && h[start..start + |part|] == part
    requires q + 2 <= |part| && part[q..q + 2] == LE16(v)
    ensures U16At(h, start + q) == v % 0x1_0000
    ensures -0x8000 <= v < 0x8000 ==> S16At(h, start + q) == v
  {
    var field, expected := h[start + q..start + q + 2], part[q..q + 2];
    forall t | 0 <= t < 2 ensures field[t] == expected[t] {
      assert h[start..start + |part|][q + t] == h[start + q + t];
    }
    assert field == expected;
    LE16RoundTrip(h, start + q, v);
  }

  /** A 32-bit field at offset `q` of a part that starts at `start`. */
  lemma PartField32(h: Bytes, start: nat, part: Bytes, q: nat, v: int)
    requires start + |part| <= |h| && h[start..start + |part|] == part
    requires q + 4 <= |part| && part[q..q + 4] == LE32(v)
    ensures U32At(h, start + q) == v % 0x1_0000_0000
  {
    var field, expected := h[start + q..start + q + 4], part[q..q + 4];
    forall t | 0 <= t < 4 ensures field[t] == expected[t] {
      assert h[start..start + |part|][q + t] == h[start + q + t];
    }
    assert field == expected;
    LE32RoundTrip(h, start + q, v);
  }

  /** A tag at offset `q` of a part that starts at `start`. */
  lemma PartTag(h: Bytes, start: nat, part: Bytes, q: nat, tag: Bytes)
    requires start + |part| <= |h| && h[start..start + |part|] == part
    requires q + |tag| <= |part| && part[q..q + |tag|] == tag
    ensures h[start + q..start + q + |tag|] == tag
  {
    var field, expected := h[start + q..start + q + |tag|], part[q..q + |tag|];
    forall t | 0 <= t < |tag| ensures field[t] == expected[t] {
      assert h[start..start + |part|][q + t] == h[start + q + t];
    }
    assert field == expected;
  }

  /** The four tags of the header. */
  lemma HeaderTags(h: Bytes, n: nat, sampleRate: nat, length: nat)
    requires |h| >= HeaderSize && h[..HeaderSize] == WavHeader(n, sampleRate, length)
    ensures h[0..4] == Ascii("RIFF") && h[8..12] == Ascii("WAVE")
    ensures h[12..16] == Ascii("fmt ") && h[36..40] == Ascii("data")
  {
    HeaderParts(h, n, sampleRate, length);
    RiffFields(length);
    FmtFields(n, sampleRate);
    DataFields(length);
    PartTag(h, 0, RiffDescriptor(length), 0, Ascii("RIFF"));
    PartTag(h, 0, RiffDescriptor(length), 8, Ascii("WAVE"));
    PartTag(h, 12, FmtChunk(n, sampleRate), 0, Ascii("fmt "));
    PartTag(h, 36, DataHeader(length), 0, Ascii("data"));
  }

  /** The two size fields of the header. */
  lemma HeaderSizes(h: Bytes, n: nat, sampleRate: nat, length: nat)
    requires |h| >= HeaderSize && h[..HeaderSize] == WavHeader(n, sampleRate, length)
    ensures U32At(h, 4) == (length - 8) % 0x1_0000_0000
    ensures U32At(h, 40) == (length - 44) % 0x1_0000_0000
  {
    HeaderParts(h, n, sampleRate, length);
    RiffFields(length);
    DataFields(length);
    PartField32(h, 0, RiffDescriptor(length), 4, length - 8);
    PartField32(h, 36, DataHeader(length), 4, length - 44);
  }

  /** A 16-bit field at offset `q` of the `fmt ` sub-chunk of a header. */
  lemma FmtField16(h: Bytes, n: nat, sampleRate: nat, length: nat, q: nat, v: int)
    requires |h| >= HeaderSize && h[..HeaderSize] == WavHeader(n, sampleRate, length)
    requires q + 2 <= 24 && FmtChunk(n, sampleRate)[q..q + 2] == LE16(v)
    ensures U16At(h, 12 + q) == v % 0x1_0000
  {
    HeaderParts(h, n, sampleRate, length);
    PartField16(h, 12, FmtChunk(n, sampleRate), q, v);
  }

  /** A 32-bit field at offset `q` of the `fmt ` sub-chunk of a header. */
  lemma FmtField32(h: Bytes, n: nat, sampleRate: nat, length: nat, q: nat, v: int)
    requires |h| >= HeaderSize && h[..HeaderSize] == WavHeader(n, sampleRate, length)
    requires q + 4 <= 24 && FmtChunk(n, sampleRate)[q..q + 4] == LE32(v)
    ensures U32At(h, 12 + q) == v % 0x1_0000_0000
  {
    HeaderParts(h, n, sampleRate, length);
    PartField32(h, 12, FmtChunk(n, sampleRate), q, v);
  }

  /** The format code, the channel count and the sub-chunk size of the `fmt ` sub-chunk. */
  lemma HeaderKind(h: Bytes, n: nat, sampleRate: nat, length: nat)
    requires |h| >= HeaderSize && h[..HeaderSize] == WavHeader(n, sampleRate, length)
    ensures U32At(h, 16) == 16 && U16At(h, 20) == 1 && U16At(h, 22) == n % 0x1_0000
  {
    FmtFields(n, sampleRate);
    FmtField32(h, n, sampleRate, length, 4, 16);
    assert U32At(h, 16) == 16;
    FmtField16(h, n, sampleRate, length, 8, 1);
    assert U16At(h, 20) == 1;
    FmtField16(h, n, sampleRate, length, 10, n);
  }

  /** The sample rate and the byte rate of the `fmt ` sub-chunk. */
  lemma HeaderRates(h: Bytes, n: nat, sampleRate: nat, length: nat)
    requires |h| >= HeaderSize && h[..HeaderSize] == WavHeader(n, sampleRate, length)
    ensures U32At(h, 24) == sampleRate % 0x1_0000_0000
    ensures U32At(h, 28) == (sampleRate * n * 2) % 0x1_0000_0000
  {
    FmtRateFields(n, sampleRate);
    FmtField32(h, n, sampleRate, length, 12, sampleRate);
    FmtField32(h, n, sampleRate, length, 16, sampleRate * n * 2);
  }

  /** The block align and the bits per sample of the `fmt ` sub-chunk. */
  lemma HeaderAlign(h: Bytes, n: nat, sampleRate: nat, length: nat)
    requires |h| >= HeaderSize && h[..HeaderSize] == WavHeader(n, sampleRate, length)
    ensures U16At(h, 32) == (n * 2) % 0x1_0000 && U16At(h, 34) == 16
  {
    FmtRateFields(n, sampleRate);
    FmtField16(h, n, sampleRate, length, 20, n * 2);
    FmtField16(h, n, sampleRate, length, 22, 16);
  }

  /**
   * The header fields at their fixed offsets: the RIFF size is the file length
   * less 8, the data size the file length less 44; format code 1 (PCM), 16 bits
   * per sample, byte rate `sampleRate * channels * 2`, block align
   * `channels * 2`; each field reduced to its width as `DataView` does.
   */
  lemma WavHeaderFields(sampleRate: nat, frames: nat, chs: seq<seq<real>>)
    requires HasFrames(chs, frames)
    ensures var w := WavFile(sampleRate, frames, chs); var n := |chs|;
      |w| == HeaderSize + frames * n * 2 &&
      w[0..4] == Ascii("RIFF") && U32At(w, 4) == (|w| - 8) % 0x1_0000_0000 &&
      w[8..12] == Ascii("WAVE") && w[12..16] == Ascii("fmt ") && U32At(w, 16) == 16 &&
      U16At(w, 20) == 1 && U16At(w, 22) == n % 0x1_0000 &&
      U32At(w, 24) == sampleRate % 0x1_0000_0000 &&
      U32At(w, 28) == (sampleRate * n * 2) % 0x1_0000_0000 &&
      U16At(w, 32) == (n * 2) % 0x1_0000 && U16At(w, 34) == 16 &&
      w[36..40] == Ascii("data") && U32At(w, 40) == (|w| - 44) % 0x1_0000_0000
  {
    var n := |chs|;
    var len := frames * n * 2 + HeaderSize;
    var w := WavFile(sampleRate, frames, chs);
    WavFileLength(sampleRate, frames, chs);
    assert w[..HeaderSize] == WavHeader(n, sampleRate, len);
    HeaderTags(w, n, sampleRate, len);
    HeaderSizes(w, n, sampleRate, len);
    HeaderKind(w, n, sampleRate, len);
    HeaderRates(w, n, sampleRate, len);
    HeaderAlign(w, n, sampleRate, len);
  }

  /** The file is the header followed by two bytes per sample of every channel. */
  lemma WavFileLength(sampleRate: nat, frames: nat, chs: seq<seq<real>>)
    requires HasFrames(chs, frames)
    ensures |WavFile(sampleRate, frames, chs)| == HeaderSize + frames * |chs| * 2
  {
    InterleavedLength(chs, frames);
  }

  /** Where sample `i` of channel `c` is stored in a file of `channels` channels. */
  function SampleOffset(channels: nat, i: nat, c: nat): nat {
    HeaderSize + 2 * SampleIndex(channels, i, c)
  }

  /** Value `k` of the samples following a 44-byte header is stored at byte `44 + 2 * k`. */
  lemma DataSampleAt(header: Bytes, xs: seq<int>, k: nat)
    requires |header| == HeaderSize && k < |xs| && -0x8000 <= xs[k] < 0x8000
    ensures HeaderSize + 2 * k + 2 <= |header + PcmBytes(xs)|
    ensures S16At(header + PcmBytes(xs), HeaderSize + 2 * k) == xs[k]
  {
    var w, data := header + PcmBytes(xs), PcmBytes(xs);
    PcmBytesAt(xs, k);
    assert w[HeaderSize..HeaderSize + |data|] == data;
    PartField16(w, HeaderSize, data, 2 * k, xs[k]);
  }

  /** Sample `i` of channel `c` is stored at byte `44 + 2 * (i * channels + c)`. */
  lemma WavSampleAt(sampleRate: nat, frames: nat, chs: seq<seq<real>>, i: nat, c: nat)
    requires HasFrames(chs, frames) && i < frames && c < |chs|
    ensures var w := WavFile(sampleRate, frames, chs);
      SampleOffset(|chs|, i, c) + 2 <= |w| && S16At(w, SampleOffset(|chs|, i, c)) == Pcm(chs[c][i])
  {
    var xs := Interleaved(chs, frames);
    InterleavedAt(chs, frames, i, c);
    DataSampleAt(WavHeader(|chs|, sampleRate, frames * |chs| * 2 + HeaderSize), xs, SampleIndex(|chs|, i, c));
  }

  lemma FitsField(x: int, modulus: nat)
    requires 0 <= x < modulus
    ensures x % modulus == x
  {
  }

  /** The header of the mono example below. */
  lemma MonoHeader(chs: seq<seq<real>>)
    requires chs == [[0.5, -1.0]]
    ensures var w := WavFile(8000, 2, chs);
      |w| == 48 && U16At(w, 22) == 1 && U32At(w, 24) == 8000 && U32At(w, 28) == 16000 && U32At(w, 40) == 4
  {
    assert |chs| == 1;
    WavHeaderFields(8000, 2, chs);
    FitsField(1, 0x1_0000);
    FitsField(8000, 0x1_0000_0000);
    FitsField(16000, 0x1_0000_0000);
    FitsField(4, 0x1_0000_0000);
  }

  /** The samples of the mono example below. */
  lemma MonoSamples(chs: seq<seq<real>>)
    requires chs == [[0.5, -1.0]]
    ensures var w := WavFile(8000, 2, chs);
      |w| == 48 && S16At(w, 44) == 16383 && S16At(w, 46) == -32768
  {
    assert |chs| == 1 && chs[0][0] == 0.5 && chs[0][1] == -1.0;
    WavFileLength(8000, 2, chs);
    WavSampleAt(8000, 2, chs, 0, 0);
    WavSampleAt(8000, 2, chs, 1, 0);
    PcmIsTruncation(0.5);
    PcmIsTruncation(-1.0);
  }

  /**
   * A mono buffer of the two samples 0.5 and -1.0 at 8000 Hz: a 48-byte file
   * whose data sub-chunk holds 4 bytes, the values 16383 and -32768 at bytes 44 and 46.
   */
  lemma MonoExample(chs: seq<seq<real>>)
    requires chs == [[0.5, -1.0]]
    ensures var w := WavFile(8000, 2, chs);
      |w| == 48 && U16At(w, 22) == 1 && U32At(w, 24) == 8000 && U32At(w, 28) == 16000 &&
      U32At(w, 40) == 4 && S16At(w, 44) == 16383 && S16At(w, 46) == -32768
  {
    MonoHeader(chs);
    MonoSamples(chs);
  }

  // ---------------------------------------------------------------------
  // The encoder

  /** `writeString(str)`: one byte per character from `offset` on; returns the advanced offset. */
  method WriteString(view: array<byte>, offset: nat, str: string) returns (next: nat)
    requires offset + |str| <= view.Length
    modifies view
    ensures next == offset + |str|
    ensures view[..next] == old(view[..offset]) + Ascii(str)
    ensures view[next..] == old(view[next..])
  {
    next := offset;
    for i := 0 to |str|
      invariant next == offset + i
      invariant view[..next] == old(view[..offset]) + Ascii(str)[..i]
      invariant view[offset + |str|..] == old(view[offset + |str|..])
    {
      view[next] := ((str[i] as int) % 256) as byte;
      next := next + 1;
    }
  }

  /** `view.setUint16(offset, v, true)`. */
  method PutU16(view: array<byte>, offset: nat, v: int)
    requires offset + 2 <= view.Length
    modifies view
    ensures view[..offset + 2] == old(view[..offset]) + LE16(v)
    ensures view[offset + 2..] == old(view[offset + 2..])
  {
    var bytes := LE16(v);
    view[offset] := bytes[0];
    view[offset + 1] := bytes[1];
  }

  /** `view.setInt16(offset, y, true)`: ToInt16, then the two bytes of the result. */
  method PutI16(view: array<byte>, offset: nat, y: real)
    requires offset + 2 <= view.Length
    modifies view
    ensures view[..offset + 2] == old(view[..offset]) + LE16(ToInt16(y))
    ensures view[offset + 2..] == old(view[offset + 2..])
  {
    PutU16(view, offset, ToInt16(y));
  }

  /** `view.setUint32(offset, v, true)`. */
  method PutU32(view: array<byte>, offset: nat, v: int)
    requires offset + 4 <= view.Length
    modifies view
    ensures view[..offset + 4] == old(view[..offset]) + LE32(v)
    ensures view[offset + 4..] == old(view[offset + 4..])
  {
    var bytes := LE32(v);
    view[offset] := bytes[0];
    view[offset + 1] := bytes[1];
    view[offset + 2] := bytes[2];
    view[offset + 3] := bytes[3];
  }

  /** The header writes of `bufferToWavBlob`, through the running offset, into a fresh view. */
  method WriteHeader(view: array<byte>, numberOfChannels: nat, sampleRate: nat) returns (offset: nat)
    requires view.Length >= HeaderSize
    modifies view
    ensures offset == HeaderSize
    ensures view[..offset] == WavHeader(numberOfChannels, sampleRate, view.Length)
    ensures view[HeaderSize..] == old(view[HeaderSize..])
  {
    ghost var start, all := view[..0], view[..];
    offset := WriteRiff(view, 0);
    SuffixFrom(view[..], all, offset, HeaderSize);
    ghost var riff := view[..offset];
    all := view[..];
    offset := WriteFmt(view, offset, numberOfChannels, sampleRate);
    SuffixFrom(view[..], all, offset, HeaderSize);
    ghost var fmt := view[..offset];
    offset := WriteData(view, offset);
    HeaderChain(start, riff, fmt, view[..offset], numberOfChannels, sampleRate, view.Length);
  }

  /** The three header parts written one after the other make up the header. */
  lemma HeaderChain(start: Bytes, riff: Bytes, fmt: Bytes, all: Bytes, numberOfChannels: nat, sampleRate: nat, length: nat)
    requires start == [] && riff == start + RiffDescriptor(length)
    requires fmt == riff + FmtChunk(numberOfChannels, sampleRate) && all == fmt + DataHeader(length)
    ensures all == WavHeader(numberOfChannels, sampleRate, length)
  {
    assert riff == RiffDescriptor(length);
  }

  /** `writeString('RIFF')`, the RIFF size, `writeString('WAVE')`. */
  method WriteRiff(view: array<byte>, offset: nat) returns (next: nat)
    requires offset + 12 <= view.Length
    modifies view
    ensures next == offset + 12
    ensures view[..next] == old(view[..offset]) + RiffDescriptor(view.Length)
    ensures view[next..] == old(view[next..])
  {
    next := WriteString(view, offset, "RIFF");
    PutU32(view, next, view.Length - 8);
    next := next + 4;
    next := WriteString(view, next, "WAVE");
  }

  /** The `fmt ` sub-chunk: its tag, size 16, then format, channels, rate, byte rate, block align, bits. */
  method WriteFmt(view: array<byte>, offset: nat, numberOfChannels: nat, sampleRate: nat) returns (next: nat)
    requires offset + 24 <= view.Length
    modifies view
    ensures next == offset + 24
    ensures view[..next] == old(view[..offset]) + FmtChunk(numberOfChannels, sampleRate)
    ensures view[next..] == old(view[next..])
  {
    ghost var prefix := view[..offset];
    next := WriteFmtKind(view, offset, numberOfChannels);
    ghost var kind := view[..next];
    next := WriteFmtRates(view, next, numberOfChannels, sampleRate);
    FmtChunkParts(numberOfChannels, sampleRate);
    assert view[..next] == prefix + FmtKind(numberOfChannels) + FmtRates(numberOfChannels, sampleRate);
  }

  /** The first twelve bytes of the `fmt ` sub-chunk. */
  function FmtKind(numberOfChannels: nat): (r: Bytes)
    ensures |r| == 12
  {
    Ascii("fmt ") + LE32(16) + LE16(1) + LE16(numberOfChannels)
  }

  /** The last twelve bytes of the `fmt ` sub-chunk. */
  function FmtRates(numberOfChannels: nat, sampleRate: nat): (r: Bytes)
    ensures |r| == 12
  {
    LE32(sampleRate) + LE32(sampleRate * numberOfChannels * 2) + LE16(numberOfChannels * 2) + LE16(16)
  }

  lemma FmtChunkParts(numberOfChannels: nat, sampleRate: nat)
    ensures FmtChunk(numberOfChannels, sampleRate) == FmtKind(numberOfChannels) + FmtRates(numberOfChannels, sampleRate)
  {
  }

  /** `writeString('fmt ')`, the sub-chunk size, the format code and the channel count. */
  method WriteFmtKind(view: array<byte>, offset: nat, numberOfChannels: nat) returns (next: nat)
    requires offset + 12 <= view.Length
    modifies view
    ensures next == offset + 12
    ensures view[..next] == old(view[..offset]) + FmtKind(numberOfChannels)
    ensures view[next..] == old(view[next..])
  {
    ghost var tail := old(view[offset + 12..]);
    next := WriteString(view, offset, "fmt ");
    PutU32(view, next, 16);
    next := next + 4;
    assert view[offset + 12..] == tail;
    PutU16(view, next, 1);
    next := next + 2;
    assert view[offset + 12..] == tail;
    PutU16(view, next, numberOfChannels);
    next := next + 2;
  }

  /** The sample rate, the byte rate, the block align and the bits per sample. */
  method WriteFmtRates(view: array<byte>, offset: nat, numberOfChannels: nat, sampleRate: nat) returns (next: nat)
    requires offset + 12 <= view.Length
    modifies view
    ensures next == offset + 12
    ensures view[..next] == old(view[..offset]) + FmtRates(numberOfChannels, sampleRate)
    ensures view[next..] == old(view[next..])
  {
    ghost var tail := old(view[offset + 12..]);
    PutU32(view, offset, sampleRate);
    next := offset + 4;
    PutU32(view, next, sampleRate * numberOfChannels * 2);
    next := next + 4;
    assert view[offset + 12..] == tail;
    PutU16(view, next, numberOfChannels * 2);
    next := next + 2;
    assert view[offset + 12..] == tail;
    PutU16(view, next, 16);
    next := next + 2;
  }

  /** `writeString('data')` and the data size. */
  method WriteData(view: array<byte>, offset: nat) returns (next: nat)
    requires offset + 8 <= view.Length && view.Length >= HeaderSize
    modifies view
    ensures next == offset + 8
    ensures view[..next] == old(view[..offset]) + DataHeader(view.Length)
    ensures view[next..] == old(view[next..])
  {
    next := WriteString(view, offset, "data");
    PutU32(view, next, view.Length - 44);
    next := next + 4;
  }

  /** One pass of the outer sample loop: frame `i`, one 16-bit value per channel. */
  method WriteFrame(view: array<byte>, offset: nat, buffer: AudioBuffer, i: nat, ghost chs: seq<seq<real>>)
      returns (next: nat)
    requires buffer.Valid() && i < buffer.length && chs == buffer.Channels()
    requires offset + 2 * buffer.numberOfChannels <= view.Length
    modifies view
    ensures HasFrames(chs, i + 1)
    ensures next == offset + 2 * buffer.numberOfChannels
    ensures view[..next] == old(view[..offset]) + PcmBytes(Frame(chs, i))
    ensures view[next..] == old(view[next..])
  {
    assert HasFrames(chs, i + 1);
    ghost var frame := Frame(chs, i);
    ghost var prefix := view[..offset];
    ghost var end := offset + 2 * buffer.numberOfChannels;
    ghost var tail := view[end..];
    next := offset;
    assert FramePart(view, next, end, prefix, tail, frame, 0);
    for channel := 0 to buffer.numberOfChannels
      invariant next == offset + 2 * channel
      invariant FramePart(view, next, end, prefix, tail, frame, channel)
    {
      assert frame[channel] == Pcm(buffer.data[channel, i]);
      next := WriteSample(view, next, buffer, i, channel, end, prefix, tail, frame);
    }
    assert frame[..buffer.numberOfChannels] == frame;
  }

  /** The view holds `prefix` then the first `channel` values of `frame`, and `tail` from `end` on. */
  ghost predicate FramePart(view: array<byte>, next: nat, end: nat, prefix: Bytes, tail: Bytes, frame: seq<int>, channel: nat)
    reads view
  {
    channel <= |frame| && next <= end <= view.Length &&
    view[..next] == prefix + PcmBytes(frame[..channel]) && view[end..] == tail
  }

  /** One pass of the inner sample loop: the clamped value of channel `channel` at frame `i`. */
  method WriteSample(view: array<byte>, next: nat, buffer: AudioBuffer, i: nat, channel: nat,
                     ghost end: nat, ghost prefix: Bytes, ghost tail: Bytes, ghost frame: seq<int>)
      returns (after: nat)
    requires buffer.Valid() && i < buffer.length && channel < buffer.numberOfChannels
    requires channel < |frame| && frame[channel] == Pcm(buffer.data[channel, i])
    requires next + 2 <= end && FramePart(view, next, end, prefix, tail, frame, channel)
    modifies view
    ensures after == next + 2
    ensures FramePart(view, after, end, prefix, tail, frame, channel + 1)
  {
    var sample := Clamp(buffer.data[channel, i]);
    ghost var before := view[..next];
    ghost var all := view[..];
    PutI16(view, next, if sample < 0.0 then sample * 32768.0 else sample * 32767.0);
    after := next + 2;
    SuffixFrom(view[..], all, after, end);
    SampleStep(prefix, frame, channel, before, view[..after]);
  }

  /** Two sequences that agree from `a` on agree from any later `b` on. */
  lemma SuffixFrom(xs: Bytes, ys: Bytes, a: nat, b: nat)
    requires a <= b <= |xs| == |ys| && xs[a..] == ys[a..]
    ensures xs[b..] == ys[b..]
  {
    assert xs[b..] == xs[a..][b - a..];
    assert ys[b..] == ys[a..][b - a..];
  }

  /** Writing the value of channel `channel` extends the bytes of the frame written so far. */
  lemma SampleStep(prefix: Bytes, frame: seq<int>, channel: nat, before: Bytes, after: Bytes)
    requires channel < |frame|
    requires before == prefix + PcmBytes(frame[..channel])
    requires after == before + LE16(frame[channel])
    ensures after == prefix + PcmBytes(frame[..channel + 1])
  {
    PcmBytesSnoc(frame[..channel], frame[channel]);
    assert frame[..channel + 1] == frame[..channel] + [frame[channel]];
    ConcatAssoc(prefix, PcmBytes(frame[..channel]), LE16(frame[channel]));
  }

  /** The sample bytes of `frames` frames of `n` channels, counted frame by frame. */
  function FrameBytes(frames: nat, n: nat): nat
  {
    if frames == 0 then 0 else FrameBytes(frames - 1, n) + 2 * n
  }

  /** Two bytes per sample of every channel. */
  lemma {:induction false} FrameBytesIs(frames: nat, n: nat)
    ensures FrameBytes(frames, n) == frames * n * 2
  {
    if frames > 0 {
      FrameBytesIs(frames - 1, n);
      assert (frames - 1) * n * 2 + 2 * n == frames * n * 2;
    }
  }

  /** Fewer frames take no more bytes. */
  lemma {:induction false} FrameBytesMonotone(i: nat, frames: nat, n: nat)
    requires i <= frames
    ensures FrameBytes(i, n) <= FrameBytes(frames, n)
    decreases frames - i
  {
    if i < frames {
      FrameBytesMonotone(i + 1, frames, n);
    }
  }

  /** The nested sample loops of `bufferToWavBlob`, frame by frame from offset 44. */
  method WriteSamples(view: array<byte>, buffer: AudioBuffer) returns (offset: nat)
    requires buffer.Valid()
    requires view.Length == HeaderSize + FrameBytes(buffer.length, buffer.numberOfChannels)
    modifies view
    ensures HasFrames(buffer.Channels(), buffer.length)
    ensures offset == view.Length
    ensures view[..] == old(view[..HeaderSize]) + PcmBytes(Interleaved(buffer.Channels(), buffer.length))
  {
    ghost var chs := buffer.Channels();
    ghost var header := view[..HeaderSize];
    EncodedStart(view, header, chs);
    var numberOfChannels := buffer.numberOfChannels;
    var frames := buffer.length;
    offset := HeaderSize;
    for i := 0 to frames
      invariant offset == HeaderSize + FrameBytes(i, numberOfChannels) <= view.Length
      invariant Encoded(view, offset, header, chs, i)
      invariant chs == buffer.Channels()
    {
      FrameBytesMonotone(i + 1, frames, numberOfChannels);
      offset := NextFrame(view, offset, buffer, i, chs, header);
    }
    EncodedEnd(view, header, chs, frames);
  }

  /** Before the first frame only the header is in place. */
  lemma EncodedStart(view: array<byte>, header: Bytes, chs: seq<seq<real>>)
    requires HeaderSize <= view.Length && header == view[..HeaderSize]
    ensures Encoded(view, HeaderSize, header, chs, 0)
  {
    assert header + PcmBytes(Interleaved(chs, 0)) == header;
  }

  /** Once the offset reaches the end, the whole array is the header and the frames. */
  lemma EncodedEnd(view: array<byte>, header: Bytes, chs: seq<seq<real>>, frames: nat)
    requires Encoded(view, view.Length, header, chs, frames)
    ensures HasFrames(chs, frames) && view[..] == header + PcmBytes(Interleaved(chs, frames))
  {
    assert view[..] == view[..view.Length];
  }

  /** The first `offset` bytes of `view` are `header` followed by frames `0 .. i-1`. */
  ghost predicate Encoded(view: array<byte>, offset: nat, header: Bytes, chs: seq<seq<real>>, i: nat)
    reads view
  {
    HasFrames(chs, i) && offset <= view.Length && view[..offset] == header + PcmBytes(Interleaved(chs, i))
  }

  /** Frame `i` written after frames `0 .. i-1` extends the encoding by that frame. */
  method NextFrame(view: array<byte>, offset: nat, buffer: AudioBuffer, i: nat, ghost chs: seq<seq<real>>, ghost header: Bytes)
      returns (next: nat)
    requires buffer.Valid() && i < buffer.length && chs == buffer.Channels()
    requires offset == HeaderSize + FrameBytes(i, buffer.numberOfChannels)
    requires HeaderSize + FrameBytes(i + 1, buffer.numberOfChannels) <= view.Length
    requires Encoded(view, offset, header, chs, i)
    modifies view
    ensures next == HeaderSize + FrameBytes(i + 1, buffer.numberOfChannels)
    ensures Encoded(view, next, header, chs, i + 1)
    ensures view[next..] == old(view[next..])
  {
    ghost var before := view[..offset];
    next := WriteFrame(view, offset, buffer, i, chs);
    FrameStep(chs, i, header, before, view[..next]);
  }

  /**
   * `bufferToWavBlob(buffer)`: the bytes of the WAVE file for the buffer's
   * channels. Every write lands inside the array (each index is checked) and
   * the running offset ends exactly at the array's length.
   */
  method BufferToWavBlob(buffer: AudioBuffer) returns (blob: Bytes)
    requires buffer.Valid()
    ensures HasFrames(buffer.Channels(), buffer.length)
    ensures blob == WavFile(buffer.sampleRate, buffer.length, buffer.Channels())
  {
    var numberOfChannels := buffer.numberOfChannels;
    var length := buffer.length * numberOfChannels * 2 + 44;
    var view := new byte[length];
    FrameBytesIs(buffer.length, numberOfChannels);
    var offset := WriteHeader(view, numberOfChannels, buffer.sampleRate);
    offset := WriteSamples(view, buffer);
    blob := view[..];
  }
}
