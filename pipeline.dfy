/** The request path of app/main.py, without its HTTP handling: validate the
    upload, load it as a waveform, and transcribe it with the one shared
    recognizer. */
module Pipeline {
  import opened Outcomes
  import opened AudioValidation
  import opened AudioLoading
  import opened Recognizer

  datatype TranscribeError =
    | Rejected(rejection: Rejection)    // raised by validation
    | InferenceFailed(error: InferError) // raised by the recognizer

  /** One transcription request, from the uploaded file to the transcript.
      It validates with the corrected ValidateAudio, so the three escapes of
      ValidateAudioAsWritten do not occur on this path. */
  function Transcribe(upload: Upload, parse: Bytes -> HeaderParse, backend: AudioBackend,
                      model: ASRModel, featurize: Featurizer): (r: Result<string, TranscribeError>)
    ensures r.Success? ==> ValidateAudio(upload, parse).Success?
    ensures r.Success? ==> Strip(r.value) == r.value
    ensures ValidateAudio(upload, parse).Failure? ==> r == Failure(Rejected(ValidateAudio(upload, parse).error))
    ensures r.Failure? && r.error.Rejected? ==> ValidateAudio(upload, parse).Failure?
  {
    match ValidateAudio(upload, parse)
    case Failure(rejection) => Failure(Rejected(rejection))
    case Success(audioBytes) =>
      var (waveform, sampleRate) := LoadAudioTensor(audioBytes, backend);
      match InferOutcome(model.session, model.decoder, featurize, waveform, sampleRate)
      case Failure(error) => Failure(InferenceFailed(error))
      case Success(transcript) => Success(transcript)
  }

  /** The loader always reports 16 kHz, so the recognizer's rate guard never
      fires on this path, whatever the uploaded file's own rate. */
  lemma RateGuardUnreachable(upload: Upload, parse: Bytes -> HeaderParse, backend: AudioBackend,
                             model: ASRModel, featurize: Featurizer)
    ensures Transcribe(upload, parse, backend, model, featurize) != Failure(InferenceFailed(SampleRateNot16k))
  {
    if ValidateAudio(upload, parse).Success? {
      var loaded := LoadAudioTensor(upload.content, backend);
      assert loaded.1 == ExpectedSampleRate;
    }
  }

  /** When the audio library decodes at least one channel, the recognizer
      always has a first row to take. */
  lemma ChannelAlwaysPresent(upload: Upload, parse: Bytes -> HeaderParse, backend: AudioBackend,
                             model: ASRModel, featurize: Featurizer)
    requires |backend.load(upload.content).0| > 0
    ensures Transcribe(upload, parse, backend, model, featurize) != Failure(InferenceFailed(MissingChannel))
  {
    if ValidateAudio(upload, parse).Success? {
      var loaded := LoadAudioTensor(upload.content, backend);
      assert |loaded.0| == 1;
    }
  }
}
