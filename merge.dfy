/**
 * `mergeAudioFiles`: decode every synthesized chunk, lay the decoded buffers
 * end to end in one output buffer (channel by channel, each at the running
 * sample offset) and encode the result as a WAVE file. Every failure inside
 * the `try` block (a chunk that does not decode, an empty list, a zero-length
 * output buffer, a channel index the output buffer lacks) ends in no result.
 */
module AudioMerge {
  import opened Types
  import opened Audio
  import opened WavEncoder

  // ---------------------------------------------------------------------
  // Specification

  /** `buffers.reduce((sum, buffer) => sum + buffer.length, 0)`. */
  function TotalLength(bs: seq<DecodedBuffer>): nat
  {
    if bs == [] then 0 else TotalLength(bs[..|bs| - 1]) + bs[|bs| - 1].length
  }

  /** Where buffer `k` starts in the output: the lengths of the buffers before it. */
  function Offset(bs: seq<DecodedBuffer>, k: nat): nat
    requires k <= |bs|
  {
    TotalLength(bs[..k])
  }

  /** What buffer `b` contributes to output channel `c`: its own channel, or silence if it has none. */
  function Contribution(b: DecodedBuffer, c: nat): (r: seq<real>)
    ensures |r| == b.length
  {
    if c < |b.channels| then b.channels[c] else Silence(b.length)
  }

  /** Output channel `c` after the copies: the contributions of all buffers, in order. */
  function ChannelConcat(bs: seq<DecodedBuffer>, c: nat): (r: seq<real>)
    ensures |r| == TotalLength(bs)
  {
    if bs == [] then [] else ChannelConcat(bs[..|bs| - 1], c) + Contribution(bs[|bs| - 1], c)
  }

  /** No buffer has more channels than the first, which fixes the output's channel count. */
  predicate ChannelsFit(bs: seq<DecodedBuffer>)
    requires |bs| > 0
  {
    forall k :: 0 <= k < |bs| ==> |bs[k].channels| <= |bs[0].channels|
  }

  /**
   * The merge fails when there is no first buffer to read, when the output
   * length is zero (`createBuffer` refuses it) or when a later buffer has a
   * channel the output lacks (`getChannelData` refuses the index).
   */
  predicate MergeFails(bs: seq<DecodedBuffer>)
  {
    bs == [] || TotalLength(bs) == 0 || !ChannelsFit(bs)
  }

  /** The channels of the merged buffer: as many as the first buffer has. */
  function Merged(bs: seq<DecodedBuffer>): (chs: seq<seq<real>>)
    requires bs != []
    ensures |chs| == |bs[0].channels|
    ensures forall c :: 0 <= c < |chs| ==> |chs[c]| == TotalLength(bs)
  {
    seq(|bs[0].channels|, c requires 0 <= c < |bs[0].channels| => ChannelConcat(bs, c))
  }

  /** `Promise.all` over the decodes: every chunk decoded, in order, or none at all. */
  function DecodeAll(blobs: seq<Bytes>, decode: Bytes -> Option<DecodedBuffer>): (r: Option<seq<DecodedBuffer>>)
    ensures r.Some? <==> forall k :: 0 <= k < |blobs| ==> decode(blobs[k]).Some?
    ensures r.Some? ==> (|r.value| == |blobs| &&
      forall k :: 0 <= k < |blobs| ==> Some(r.value[k]) == decode(blobs[k]))
  {
    if blobs == [] then Some([])
    else
      var init := DecodeAll(blobs[..|blobs| - 1], decode);
      var last := decode(blobs[|blobs| - 1]);
      if init.Some? && last.Some? then Some(init.value + [last.value]) else None
  }

  /** The WAVE file `mergeAudioFiles` resolves to, or `None` where it resolves to `undefined`. */
  ghost function MergeResult(blobs: seq<Bytes>, decode: Bytes -> Option<DecodedBuffer>): Option<Bytes>
  {
    match DecodeAll(blobs, decode)
    case None => None
    case Some(bs) =>
      if MergeFails(bs) then None
      else Some(MergedFile(bs))
  }

  // ---------------------------------------------------------------------
  // Lemmas

  lemma PrefixOfPrefix<T>(s: seq<T>, k: nat)
    requires k < |s|
    ensures s[..k + 1][..k] == s[..k]
    ensures s[..k + 1][k] == s[k]
  {
  }

  lemma SilenceSplit(a: nat, b: nat)
    ensures Silence(a + b) == Silence(a) + Silence(b)
  {
  }

  /** One more buffer extends every channel by its contribution. */
  lemma ChannelConcatStep(bs: seq<DecodedBuffer>, k: nat, c: nat)
    requires k < |bs|
    ensures ChannelConcat(bs[..k + 1], c) == ChannelConcat(bs[..k], c) + Contribution(bs[k], c)
    ensures Offset(bs, k + 1) == Offset(bs, k) + bs[k].length
  {
    PrefixOfPrefix(bs, k);
  }

  /** The offsets grow along the list and never pass the total length. */
  lemma {:induction false} OffsetBound(bs: seq<DecodedBuffer>, k: nat)
    requires k <= |bs|
    ensures Offset(bs, k) <= TotalLength(bs)
    decreases |bs| - k
  {
    if k < |bs| {
      ChannelConcatStep(bs, k, 0);
      OffsetBound(bs, k + 1);
    } else {
      assert bs[..k] == bs;
    }
  }

  /**
   * Sample `j` of channel `c` of buffer `k` lands at `Offset(bs, k) + j` of the
   * output channel; a channel the buffer lacks is silent over its stretch.
   */
  lemma {:induction false} ChannelConcatAt(bs: seq<DecodedBuffer>, k: nat, c: nat, j: nat)
    requires k < |bs| && j < bs[k].length
    ensures Offset(bs, k) + j < TotalLength(bs)
    ensures ChannelConcat(bs, c)[Offset(bs, k) + j] == Contribution(bs[k], c)[j]
    decreases |bs|
  {
    var init := bs[..|bs| - 1];
    if k == |bs| - 1 {
      assert bs[..k] == init;
    } else {
      assert init[..k] == bs[..k];
      assert init[k] == bs[k];
      ChannelConcatAt(init, k, c, j);
    }
  }

  /** No chunks, no file: the empty list fails when its first buffer is read. */
  lemma MergeEmpty(decode: Bytes -> Option<DecodedBuffer>)
    ensures MergeResult([], decode) == None
  {
  }

  /** One chunk that does not decode is enough to lose the whole file. */
  lemma MergeNeedsEveryDecode(blobs: seq<Bytes>, decode: Bytes -> Option<DecodedBuffer>, k: nat)
    requires k < |blobs| && decode(blobs[k]).None?
    ensures MergeResult(blobs, decode) == None
  {
  }

  /** The WAVE file of the merged buffer. */
  ghost function MergedFile(bs: seq<DecodedBuffer>): Bytes
    requires bs != []
  {
    WavFile(bs[0].sampleRate, TotalLength(bs), Merged(bs))
  }

  /** The byte offset of sample `j` of channel `c` of buffer `k` in the merged file. */
  function SamplePos(bs: seq<DecodedBuffer>, k: nat, c: nat, j: nat): nat
    requires bs != [] && k < |bs|
  {
    SampleOffset(|bs[0].channels|, Offset(bs, k) + j, c)
  }

  /**
   * The merged file: its length is the header plus two bytes per sample of
   * every channel of the first buffer over the total length, and sample `j`
   * of channel `c` of buffer `k` is the 16-bit value of frame `Offset + j`,
   * channel `c`. Channels buffer `k` lacks hold silence there.
   */
  lemma MergedSampleAt(bs: seq<DecodedBuffer>, k: nat, c: nat, j: nat)
    requires !MergeFails(bs) && k < |bs| && c < |bs[0].channels| && j < bs[k].length
    ensures |MergedFile(bs)| == HeaderSize + TotalLength(bs) * |bs[0].channels| * 2
    ensures SamplePos(bs, k, c, j) + 2 <= |MergedFile(bs)|
    ensures S16At(MergedFile(bs), SamplePos(bs, k, c, j)) == Pcm(if c < |bs[k].channels| then bs[k].channels[c][j] else 0.0)
  {
    var chs := Merged(bs);
    ChannelConcatAt(bs, k, c, j);
    assert chs[c][Offset(bs, k) + j] == Contribution(bs[k], c)[j];
    WavFileLength(bs[0].sampleRate, TotalLength(bs), chs);
    WavSampleAt(bs[0].sampleRate, TotalLength(bs), chs, Offset(bs, k) + j, c);
  }

  // ---------------------------------------------------------------------
  // The merge

  /**
   * `createBuffer` and the copy loops: the output buffer, or `null` where the
   * source throws. Buffer after buffer, each of its channels is copied into the
   * same output channel at the running offset, which then advances by the
   * buffer's length.
   */
  method MergeBuffers(buffers: seq<DecodedBuffer>) returns (out: AudioBuffer?)
    ensures out == null <==> MergeFails(buffers)
    ensures out != null ==> (fresh(out) && out.Valid() && !MergeFails(buffers) &&
      out.numberOfChannels == |buffers[0].channels| && out.length == TotalLength(buffers) &&
      out.sampleRate == buffers[0].sampleRate && out.Channels() == Merged(buffers))
  {
    if buffers == [] {
      // `buffers[0]` is undefined
      return null;
    }
    var total := TotalLength(buffers);
    if total == 0 {
      // `createBuffer` throws `NotSupportedError` for a zero length
      return null;
    }
    out := new AudioBuffer(|buffers[0].channels|, total, buffers[0].sampleRate);
    HoldsInitially(out, buffers);
    var offset := 0;
    for k := 0 to |buffers|
      invariant out.Valid() && fresh(out.data)
      invariant out.numberOfChannels == |buffers[0].channels| && out.length == total
      invariant offset == Offset(buffers, k)
      invariant FitsBefore(buffers, k)
      invariant Holds(out, buffers, k, total)
    {
      ChannelConcatStep(buffers, k, 0);
      OffsetBound(buffers, k + 1);
      var fits := CopyBuffer(out, buffers, k, offset);
      if !fits {
        Overfull(buffers, k);
        return null;
      }
      FitsStep(buffers, k);
      offset := offset + buffers[k].length;
    }
    HoldsFinally(out, buffers);
  }

  /** The buffers before `k` have no more channels than the first. */
  ghost predicate FitsBefore(bs: seq<DecodedBuffer>, k: nat)
    requires 0 < |bs| && k <= |bs|
  {
    forall q :: 0 <= q < k ==> |bs[q].channels| <= |bs[0].channels|
  }

  lemma FitsStep(bs: seq<DecodedBuffer>, k: nat)
    requires k < |bs| && FitsBefore(bs, k) && |bs[k].channels| <= |bs[0].channels|
    ensures FitsBefore(bs, k + 1)
    ensures k + 1 == |bs| ==> ChannelsFit(bs)
  {
  }

  /** A buffer with more channels than the first makes the merge fail. */
  lemma Overfull(bs: seq<DecodedBuffer>, k: nat)
    requires k < |bs| && |bs[k].channels| > |bs[0].channels|
    ensures MergeFails(bs)
  {
  }

  /** The freshly created output buffer holds no buffer yet: all silence. */
  lemma HoldsInitially(out: AudioBuffer, buffers: seq<DecodedBuffer>)
    requires out.Valid() && out.length == TotalLength(buffers)
    requires forall c :: 0 <= c < out.numberOfChannels ==> out.Channel(c) == Silence(out.length)
    ensures Holds(out, buffers, 0, out.length)
  {
    assert buffers[..0] == [];
  }

  /** Once every buffer is copied, the output channels are the merged channels. */
  lemma HoldsFinally(out: AudioBuffer, buffers: seq<DecodedBuffer>)
    requires buffers != [] && out.Valid() && out.numberOfChannels == |buffers[0].channels|
    requires out.length == TotalLength(buffers) && Holds(out, buffers, |buffers|, out.length)
    ensures out.Channels() == Merged(buffers)
  {
    assert buffers[..|buffers|] == buffers;
    forall c | 0 <= c < out.numberOfChannels
      ensures out.Channels()[c] == Merged(buffers)[c]
    {
      assert out.Channel(c) == ChannelConcat(buffers, c) + [];
    }
  }

  /** After `k` buffers: every output channel holds their contributions, then silence. */
  ghost predicate Holds(out: AudioBuffer, buffers: seq<DecodedBuffer>, k: nat, total: nat)
    requires out.Valid() && k <= |buffers| && out.length == total
    reads out, out.data
  {
    Offset(buffers, k) <= total &&
    forall c :: 0 <= c < out.numberOfChannels ==>
      out.Channel(c) == ChannelConcat(buffers[..k], c) + Silence(total - Offset(buffers, k))
  }

  /**
   * One pass of `buffers.forEach`: the channels of buffer `k` copied one by one
   * at `offset`; `false` where `getChannelData(channel)` throws `IndexSizeError`
   * because the output has no such channel.
   */
  method CopyBuffer(out: AudioBuffer, buffers: seq<DecodedBuffer>, k: nat, offset: nat) returns (fits: bool)
    requires k < |buffers| && out.Valid() && offset == Offset(buffers, k)
    requires Offset(buffers, k + 1) <= out.length && Holds(out, buffers, k, out.length)
    modifies out.data
    ensures out.Valid()
    ensures fits <==> |buffers[k].channels| <= out.numberOfChannels
    ensures fits ==> Holds(out, buffers, k + 1, out.length)
  {
    var buffer := buffers[k];
    var n := out.numberOfChannels;
    ghost var total := out.length;
    ChannelConcatStep(buffers, k, 0);
    SilenceSplit(buffer.length, total - offset - buffer.length);
    for channel := 0 to |buffer.channels|
      invariant out.Valid() && channel <= n
      invariant Partly(out, buffers, k, channel, total)
    {
      if channel >= n {
        return false;
      }
      CopyStep(out, buffers, k, channel, offset, total);
    }
    forall c | 0 <= c < n
      ensures out.Channel(c) == ChannelConcat(buffers[..k + 1], c) + Silence(total - Offset(buffers, k + 1))
    {
      ChannelConcatStep(buffers, k, c);
    }
    return true;
  }

  /** Part way through buffer `k`: its channels below `channel` are in place. */
  ghost predicate Partly(out: AudioBuffer, buffers: seq<DecodedBuffer>, k: nat, channel: nat, total: nat)
    requires out.Valid() && k < |buffers| && channel <= |buffers[k].channels| && out.length == total
    reads out, out.data
  {
    Offset(buffers, k + 1) <= total &&
    forall c :: 0 <= c < out.numberOfChannels ==>
      out.Channel(c) == ChannelConcat(buffers[..k], c)
        + (if c < channel then buffers[k].channels[c] else Silence(buffers[k].length))
        + Silence(total - Offset(buffers, k + 1))
  }

  /** `outputBuffer.getChannelData(channel).set(buffer.getChannelData(channel), offset)`. */
  method CopyStep(out: AudioBuffer, buffers: seq<DecodedBuffer>, k: nat, channel: nat, offset: nat, ghost total: nat)
    requires k < |buffers| && channel < |buffers[k].channels| && out.Valid() && channel < out.numberOfChannels
    requires out.length == total && offset == Offset(buffers, k) && Partly(out, buffers, k, channel, total)
    requires Offset(buffers, k + 1) == offset + buffers[k].length
    modifies out.data
    ensures out.Valid() && Partly(out, buffers, k, channel + 1, total)
  {
    var buffer := buffers[k];
    ghost var rest := Silence(total - offset - buffer.length);
    ghost var before := ChannelConcat(buffers[..k], channel);
    assert |before| == offset;
    assert out.Channel(channel) == before + Silence(buffer.length) + rest;
    out.SetChannelData(channel, buffer.channels[channel], offset);
    ghost var was := old(out.Channel(channel));
    assert was[..offset] == before;
    assert was[offset + buffer.length..] == rest;
  }

  /**
   * `mergeAudioFiles(audioBuffers)`: decode all chunks, merge them and encode
   * the merged buffer; `None` where the source's `catch` swallows an error.
   */
  method MergeAudioFiles(audioBuffers: seq<Bytes>, decode: Bytes -> Option<DecodedBuffer>) returns (wav: Option<Bytes>)
    ensures wav == MergeResult(audioBuffers, decode)
  {
    var decoded := DecodeAll(audioBuffers, decode);
    if decoded.None? {
      return None;
    }
    var outputBuffer := MergeBuffers(decoded.value);
    if outputBuffer == null {
      return None;
    }
    var blob := BufferToWavBlob(outputBuffer);
    wav := Some(blob);
  }
}
