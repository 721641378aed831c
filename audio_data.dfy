/**
 * `AudioData`: the samples of a decoded audio file, interleaved frame by frame
 * (left, right, left, right, ... for stereo), and the extraction of one channel
 * by a strided slice.
 */
module AudioChannels {
  import opened Wrappers

  /** The fields `AudioData.__init__` copies out of the decoded file. */
  datatype AudioData = AudioData(audioData: seq<int>, sampleRate: int, numChannels: int)

  /** The `IndexError` raised for a channel outside `0 .. numChannels - 1`. */
  datatype ChannelError = IndexError(channel: int, numChannels: int)

  /** The slice `data[start::step]`: every `step`-th element from index `start` on. */
  function Strided<T>(data: seq<T>, start: nat, step: nat): (r: seq<T>)
    requires step >= 1
    ensures forall k :: 0 <= k < |r| ==> start + k * step < |data| && r[k] == data[start + k * step]
    ensures forall k: nat :: start + k * step < |data| ==> k < |r|
    decreases |data| - start
  {
    if start >= |data| then []
    else
      var rest := Strided(data, start + step, step);
      var r := [data[start]] + rest;
      forall k: nat | start + k * step < |data| && k >= 1
        ensures k < |r|
      {
        assert (start + step) + (k - 1) * step == start + k * step;
      }
      forall k | 1 <= k < |r|
        ensures start + k * step < |data| && r[k] == data[start + k * step]
      {
        assert r[k] == rest[k - 1];
        assert (start + step) + (k - 1) * step == start + k * step;
      }
      r
  }

  /** `AudioData.get_channel_audio_data`: the samples of one channel, or `IndexError`. */
  function GetChannelAudioData(a: AudioData, channel: int): (r: Result<seq<int>, ChannelError>)
    ensures r.Failure? <==> channel < 0 || channel >= a.numChannels
    ensures r.Failure? ==> r.error == IndexError(channel, a.numChannels)
    ensures r.Success? ==>
              && (forall k :: 0 <= k < |r.value| ==>
                    channel + k * a.numChannels < |a.audioData| && r.value[k] == a.audioData[channel + k * a.numChannels])
              && (forall k: nat :: channel + k * a.numChannels < |a.audioData| ==> k < |r.value|)
  {
    if channel < 0 || channel >= a.numChannels then Failure(IndexError(channel, a.numChannels))
    else Success(Strided(a.audioData, channel, a.numChannels))
  }

  /**
   * The channels partition the interleaved samples: sample `i` is element
   * `i / numChannels` of channel `i % numChannels`.
   */
  lemma EverySampleInItsChannel(a: AudioData, i: nat)
    requires a.numChannels >= 1 && i < |a.audioData|
    ensures var r := GetChannelAudioData(a, i % a.numChannels);
            r.Success? && i / a.numChannels < |r.value| && r.value[i / a.numChannels] == a.audioData[i]
  {
    var n := a.numChannels;
    var c, k := i % n, i / n;
    assert c + k * n == i;
  }
}
