/**
 * Audio buffers as the Web Audio API hands them out. A decoded chunk
 * (`decodeAudioData`'s result) is only read, so it is a value; the output
 * buffer that `createBuffer` allocates is filled in place channel by channel.
 * Samples are real numbers (the API's 32-bit floats are not modelled).
 */
module Audio {

  /** A decoded chunk: its sample rate and one sample sequence per channel. */
  datatype Decoded = Decoded(sampleRate: nat, length: nat, channels: seq<seq<real>>)

  /** What the API guarantees of every decoded buffer: at least one channel, all `length` long. */
  type DecodedBuffer = d: Decoded | |d.channels| >= 1 && forall c :: 0 <= c < |d.channels| ==> |d.channels[c]| == d.length
    witness Decoded(44100, 0, [[]])

  /** `n` samples of silence, the contents of a freshly created buffer. */
  function Silence(n: nat): (r: seq<real>)
    ensures |r| == n && forall i :: 0 <= i < n ==> r[i] == 0.0
  {
    seq(n, _ => 0.0)
  }

  /** An `AudioBuffer` created by `createBuffer`: `data[c, i]` is sample `i` of channel `c`. */
  class AudioBuffer {
    const numberOfChannels: nat
    const length: nat
    const sampleRate: nat
    const data: array2<real>

    ghost predicate Valid()
      reads this
    {
      data.Length0 == numberOfChannels && data.Length1 == length
    }

    /** `getChannelData(c)`, read as a sequence. */
    ghost function Channel(c: nat): (s: seq<real>)
      requires Valid() && c < numberOfChannels
      reads this, data
      ensures |s| == length
    {
      seq(length, i requires 0 <= i < length reads data => data[c, i])
    }

    /** All channels, in channel order. */
    ghost function Channels(): (chs: seq<seq<real>>)
      requires Valid()
      reads this, data
      ensures |chs| == numberOfChannels
      ensures forall c :: 0 <= c < numberOfChannels ==> chs[c] == Channel(c)
    {
      seq(numberOfChannels, c requires 0 <= c < numberOfChannels && Valid() reads this, data => Channel(c))
    }

    /** `audioContext.createBuffer(numberOfChannels, length, sampleRate)`: every channel silent. */
    constructor (numberOfChannels: nat, length: nat, sampleRate: nat)
      ensures Valid() && fresh(data)
      ensures this.numberOfChannels == numberOfChannels && this.length == length
      ensures this.sampleRate == sampleRate
      ensures forall c :: 0 <= c < numberOfChannels ==> Channel(c) == Silence(length)
    {
      this.numberOfChannels := numberOfChannels;
      this.length := length;
      this.sampleRate := sampleRate;
      data := new real[numberOfChannels, length]((c, i) => 0.0);
    }

    /**
     * `getChannelData(channel).set(src, offset)`: overwrites the samples of one
     * channel from `offset` on with `src`; every other sample stays.
     */
    method SetChannelData(channel: nat, src: seq<real>, offset: nat)
      requires Valid() && channel < numberOfChannels && offset + |src| <= length
      modifies data
      ensures Valid()
      ensures Channel(channel) == old(Channel(channel))[..offset] + src + old(Channel(channel))[offset + |src|..]
      ensures forall c :: 0 <= c < numberOfChannels && c != channel ==> Channel(c) == old(Channel(c))
    {
      forall i | 0 <= i < |src| {
        data[channel, offset + i] := src[i];
      }
      ghost var was := old(Channel(channel));
      assert Channel(channel) == was[..offset] + src + was[offset + |src|..];
    }
  }
}
