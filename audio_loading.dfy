/** Loading a validated clip into the (channels, time) waveform the
    recognizer consumes (`load_audio_tensor` in app/utils.py). The audio
    library's decoder, resampler and channel mean are parameters: only the
    shape of what they hand back, and the rate reported with it, are modelled. */
module AudioLoading {
  import opened AudioValidation

  /** A waveform: one row of samples per channel. */
  type Waveform = seq<seq<real>>

  /** The audio library routines the loader calls. */
  datatype AudioBackend = AudioBackend(
    load: Bytes -> (Waveform, nat),               // decode the container: samples and their rate
    resample: (seq<real>, nat, nat) -> seq<real>,  // one channel, from one rate to another
    channelMean: Waveform -> seq<real>)            // the average of all channels

  /** `load_audio_tensor`: decode, resample every channel to 16 kHz, fold
      several channels into their mean, and report 16 kHz. */
  function LoadAudioTensor(audio: Bytes, backend: AudioBackend): (r: (Waveform, nat))
    ensures r.1 == ExpectedSampleRate
    ensures |r.0| == if |backend.load(audio).0| == 0 then 0 else 1
    ensures |backend.load(audio).0| == 1 ==>
      r.0 == [backend.resample(backend.load(audio).0[0], backend.load(audio).1, ExpectedSampleRate)]
    ensures |backend.load(audio).0| > 1 ==> r.0[0] == backend.channelMean(Resampled(backend, backend.load(audio)))
  {
    var loaded := backend.load(audio);
    var waveform := Resampled(backend, loaded);
    var mono := if |waveform| > 1 then [backend.channelMean(waveform)] else waveform;
    (mono, ExpectedSampleRate)
  }

  /** Every channel of a decoded waveform, resampled on its own from its
      native rate to 16 kHz. */
  function Resampled(backend: AudioBackend, loaded: (Waveform, nat)): Waveform {
    seq(|loaded.0|, c requires 0 <= c < |loaded.0| => backend.resample(loaded.0[c], loaded.1, ExpectedSampleRate))
  }
}
