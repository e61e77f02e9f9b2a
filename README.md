# Hindi speech recognition service: a Dafny model of its decision logic

The service takes an uploaded WAV clip of Hindi speech and returns a
transcript. Before any audio is decoded, the upload is validated:

- the name must end in `.wav`;
- the content must parse as a WAV file;
- the rate must be 16 kHz;
- the clip must last 5 to 10 seconds.

Each rejection is an HTTP 400 error with its own message. A valid clip is then
loaded as a mono 16 kHz waveform and handed to the recognizer. The recognizer is
built once with an ONNX inference session, a fixed 86-character Devanagari
vocabulary and a greedy CTC decoder. It does four things:

1. it refuses any rate other than 16 kHz;
2. it extracts log-mel features and runs the session;
3. for every frame it takes the class index where the maximum score first occurs;
4. it has the decoder turn those indices into text, then strips surrounding whitespace.

Modules:

- `Outcomes`: the `Result` type that stands for a raised exception.
- `AudioValidation` (`app/utils.py`, `validate_audio`): the checks in the
  source's order, their HTTP errors and messages, and the validator as written
  beside a corrected one (see Findings).
- `AudioLoading` (`app/utils.py`, `load_audio_tensor`): the shape of the
  loaded waveform and the rate reported with it.
- `Recognizer` (`app/model.py`): the `ASRModel` class with three constant
  fields, the per-frame argmax as a loop proved against a recursive
  definition, Python's `str.strip()`, and `infer`.
- `Pipeline` (`app/main.py`, lines 39-44): one request from upload to
  transcript, built on the corrected validator, and what the two stages
  guarantee each other.

Several library calls are opaque, and the model takes them as function-valued
parameters or fields:

- the standard WAV reader's verdict on the header;
- the audio library's decoder, resampler and channel mean;
- the filterbank feature extractor;
- the inference session;
- the CTC decoder;
- Python's two-decimal float formatting.

Two facts about the code shape the model:

- The code rejects every rate other than 16000 at validation
  (`app/utils.py`, line 41), so the resampler in `load_audio_tensor` only
  ever sees 16 kHz input.
- The CTC collapse of repeats and blanks is done by a library decoder, which
  stays opaque here.

## Model

| member | source | states |
|---|---|---|
| `AudioValidation.ValidateAudio` | app/utils.py:22-54 | On success the bytes returned are exactly the uploaded bytes. An upload is accepted iff its name ends in ".wav", the header parses, the rate is 16000 and `nframes / rate` lies in [5, 10] (the real-valued test the source writes). A bad name gives the extension rejection. A header that does not parse gives the format rejection. |
| `AudioValidation.DurationIntegerForm` | app/utils.py:39-50 | For a positive rate, the source's test `5 <= nframes / rate <= 10` holds iff `5*rate <= nframes <= 10*rate`. |
| `AudioValidation.ExtensionCheckedBeforeContent` | app/utils.py:32-35 | A name without the ".wav" ending decides the outcome alone. The content and the WAV reader's verdict make no difference. |
| `AudioValidation.UpperCaseExtensionRejected` | app/utils.py:32-33 | The extension test is case-sensitive: "clip.WAV" is rejected with the extension error. |
| `AudioValidation.SampleRateCheckedBeforeDuration` | app/utils.py:41-50 | A parsed header whose rate is not 16000 is rejected with that rate, whatever its frame count. The rate error wins over the duration error. |
| `AudioValidation.AcceptedFrameCounts` | app/utils.py:18-20 | At 16 kHz exactly the frame counts 80000..160000 are accepted, both bounds included. Any other count is rejected with the duration error carrying `nframes / 16000` seconds. |
| `AudioValidation.Decimal` | app/utils.py:44 | The rendering of the found rate in the message is a non-empty string of decimal digits with no leading zero. |
| `AudioValidation.DecimalRoundTrip` | app/utils.py:44 | The digits written for a rate read back as the same number. |
| `AudioValidation.ToHttpException` | app/utils.py:33-52 | Every rejection becomes an HTTP exception with status 400. The extension and format rejections carry the source's exact messages. |
| `AudioValidation.DetailIdentifiesRejection` | app/utils.py:33-52 | Two rejections with the same message are the same rejection (two duration rejections excepted, whose message depends on float formatting). So each check's specific message reaches the caller, and a wrong rate is reported with the rate found. |
| `AudioValidation.ValidateAudioAsWritten` | app/utils.py:22-54 | The source's control flow: the duration is divided out before the rate test, and only `wave.Error` becomes the format rejection: `EOFError` and `RuntimeError` from the reader escape. What it returns on success is the uploaded bytes. |
| `AudioValidation.AsWrittenAgreesOnWellFormedHeaders` | app/utils.py:32-52 | On a name without the ".wav" ending, a `wave.Error`, or a parsed header with a non-zero rate, the source's validator and `ValidateAudio` give the same answer. So the rate and duration rejections are not swallowed by the `except wave.Error` handler. |
| `AudioValidation.ZeroRateEscapes` | app/utils.py:38-41 | For every upload named ".wav" and every frame count, a header declaring rate 0 makes the source divide by zero, where the corrected validator answers 400 with the rate error. |
| `AudioValidation.TruncatedHeaderEscapes` | app/utils.py:36-52 | For every upload named ".wav" whose content the reader ends with `EOFError`, the error escapes the source's handler, where the corrected validator answers 400 with the format error. The reader raises `EOFError` when the content is shorter than the 8-byte RIFF chunk header, or when the `fmt ` chunk's body is shorter than its fields. A cut-off header of any later chunk ends as `wave.Error` instead: a format error, answered 400. |
| `AudioValidation.ChunkOverrunEscapes` | app/utils.py:36-52 | For every upload named ".wav" whose content makes the reader raise `RuntimeError`, the error escapes the source's handler, where the corrected validator answers 400 with the format error. The reader raises it when skipping a sub-chunk would seek past the size the enclosing RIFF chunk declares. |
| `AudioLoading.LoadAudioTensor` | app/utils.py:58-75 | The reported rate is always 16000. The waveform has exactly one row whenever the decoder found at least one channel, and none when it found none. A mono clip is only resampled to 16 kHz. Several channels become their mean after resampling. |
| `Recognizer.FirstArgmax` | app/model.py:72 | For a non-empty frame, the index returned is in range. Its score is at least every score of the frame, and every earlier score is strictly lower, so ties go to the lowest index. |
| `Recognizer.FirstArgmaxUnique` | app/model.py:72 | A frame has exactly one index satisfying that property. |
| `Recognizer.ArgmaxRow` | app/model.py:72 | The left-to-right scan that moves only on a strictly larger score returns the first index of the frame's maximum. |
| `Recognizer.Predictions` | app/model.py:72 | The argmax over the last axis gives one prediction per frame of every batch entry. Each prediction lies in `[0, classes)` and is that frame's first argmax. |
| `Recognizer.Predict` | app/model.py:72 | The nested scan over batch entries and frames computes exactly `Predictions`. |
| `Recognizer.TrimStart` | app/model.py:75 | The result is a suffix of the input. Everything it drops is whitespace, and it does not start with whitespace. |
| `Recognizer.TrimEnd` | app/model.py:75 | The result is a prefix of the input. Everything it drops is whitespace, and it does not end with whitespace. |
| `Recognizer.Strip` | app/model.py:75 | The stripped transcript neither starts nor ends with whitespace (Python's `str.isspace` set). |
| `Recognizer.StripKeepsSlice` | app/model.py:75 | The stripped string is a contiguous slice of the input, and everything cut off on either side is whitespace. |
| `Recognizer.StripFixesTrimmed` | app/model.py:75 | A string without whitespace at either end is returned unchanged. |
| `Recognizer.StripIdempotent` | app/model.py:75 | Stripping a stripped transcript leaves it unchanged. |
| `Recognizer.InferOutcome` | app/model.py:34-75 | `infer` fails with the 16 kHz error iff the rate is not 16000. A transcript it returns is already stripped. |
| `Recognizer.RateGuardPrecedesModel` | app/model.py:43-44 | With a wrong rate, the feature extractor, the session, the decoder and the waveform have no influence on the outcome: the guard runs before any of them. |
| `Recognizer.ASRModel.constructor` | app/model.py:21-32 | The session is opened on the given model path, by default "models/asr_conformer_hi.onnx". The vocabulary is the fixed 86-character list. The decoder is built over that vocabulary. All three are constants that `infer` cannot change. |
| `Recognizer.ASRModel.Infer` | app/model.py:34-75 | Its result is exactly `InferOutcome` on the model's own session and decoder. In order, it fails on a wrong rate, on a waveform with no row, on a frame with no scores, or on a decoder returning no hypothesis. Otherwise it returns the stripped first hypothesis decoded from the per-frame argmax. It modifies nothing. |
| `Pipeline.Transcribe` | app/main.py:39-44 | A request succeeds only if validation accepted the upload, and its transcript is stripped. It fails with a validation rejection iff validation rejected the upload, and that rejection is passed through unchanged. |
| `Pipeline.RateGuardUnreachable` | app/main.py:40-44 | Because loading always reports 16 kHz, no request ever fails with the recognizer's 16 kHz error. |
| `Pipeline.ChannelAlwaysPresent` | app/main.py:40-44 | When the audio library decodes at least one channel, no request fails for want of a waveform row. |

## Findings

| source | as written | input that shows it | evidently intended | confidence | as-written member | corrected member |
|---|---|---|---|---|---|---|
| app/utils.py:38-41 | `duration = nframes / sample_rate` is computed before the rate is compared with 16000. The standard WAV reader does not refuse a zero frame rate, so the division raises `ZeroDivisionError`, which `except wave.Error` does not catch. | a WAV header declaring frame rate 0 | a 400 rejection with the sample-rate message ("Found: 0 Hz") | medium; not executed (rests on the stdlib reader's behaviour) | `AudioValidation.ValidateAudioAsWritten` with `AudioValidation.ZeroRateEscapes` | `AudioValidation.ValidateAudio` |
| app/utils.py:36-52 | Only `wave.Error` is turned into "Invalid WAV file format.". The standard WAV reader raises `EOFError` when the content is shorter than the 8-byte RIFF chunk header, or when the `fmt ` chunk's body is shorter than its fields, and that error escapes. A cut-off header of any later chunk ends as `wave.Error` and is answered 400. | an upload named "clip.wav" whose content is empty or a few bytes long | a 400 rejection with the format message | medium; not executed (rests on the stdlib reader's behaviour) | `AudioValidation.ValidateAudioAsWritten` with `AudioValidation.TruncatedHeaderEscapes` | `AudioValidation.ValidateAudio` |
| app/utils.py:36-52 | The standard WAV reader skips each sub-chunk by seeking inside the RIFF chunk, and that seek raises `RuntimeError` when it would pass the RIFF chunk's declared size. The reader's skip catches only `OSError`, and `except wave.Error` does not catch it either, so it escapes. | an upload named "clip.wav" whose RIFF chunk declares 28 bytes and holds a `fmt ` chunk declaring 40 bytes with a valid 16-byte PCM body | a 400 rejection with the format message | medium; not executed (rests on the stdlib reader's behaviour) | `AudioValidation.ValidateAudioAsWritten` with `AudioValidation.ChunkOverrunEscapes` | `AudioValidation.ValidateAudio` |

`AudioValidation.AsWrittenAgreesOnWellFormedHeaders` proves that the two
validators agree on every upload except one named ".wav" whose reader verdict
is a truncated stream, an overrunning chunk or a header with rate 0.

## Left out

- The WAV header parser itself: validation receives its verdict as a `HeaderParse` value: rate and frame count, `wave.Error`, `EOFError`, or `RuntimeError`. `EOFError` is raised for content shorter than the RIFF chunk header or a `fmt ` chunk too short for its fields. `RuntimeError` is raised when a sub-chunk overruns the size the RIFF chunk declares.
- Python floats: the duration test uses exact rationals. At the only rate that reaches it, 16000, the correctly rounded float quotient gives the same answer on every frame count, because 5 and 10 are exact in binary and no count falls within rounding distance of either bound.
- ToHttpException: the duration message's two-decimal rendering (`:.2f`) is a parameter, because it is float formatting done by the runtime.
- An upload without a file name (`filename` is None) is not modelled: names are strings.
- LoadAudioTensor: the audio library's decoding, resampling, channel mean and float32 cast are parameters; only the number of rows and the reported rate are modelled. Failures of the decoder are not modelled.
- Feature extraction (windowing, dither, FFT, mel filters, log, per-feature normalisation and the frame count): an opaque function of its settings, the samples and the rate. `AudioSegment` and the segment metadata are part of that function.
- The inference session is an opaque function from a batch of feature matrices to its first output. A session that returns no outputs at all is not modelled.
- Exceptions raised inside the feature extractor, the inference session or the decoder are not modelled: here they are total functions, so `infer` fails only on its own guard and on the three indexing and argmax errors of its own code.
- The greedy CTC decoder (collapsing repeats, dropping blanks, mapping to characters) is an opaque function built from the vocabulary.
- Scores are exact reals: there are no NaN values (which numpy's argmax treats as maximal) and no float32 rounding.
- Logits are nested sequences and may be ragged. The argmax error is raised when some frame has no scores. A tensor with no frames and no classes, which numpy also refuses, is accepted here.
- The HTTP layer of `app/main.py` is left out: routing, CORS, the server start-up, and the catch-all handler. That handler turns every exception, including the 400 rejections, into a 500 response carrying the exception's text.
- The model export script (`create_onnx_model.py`), which downloads, traces and converts the model offline.
- Pipeline.Transcribe: it is built on the corrected validator, so it does not reproduce the three escapes recorded under Findings. On an upload named ".wav" whose header declares rate 0 it fails with the rate rejection, where the source raises `ZeroDivisionError`. On a truncated stream it fails with the format rejection, where the source raises `EOFError`. On a sub-chunk overrunning the RIFF chunk it fails with the format rejection, where the source raises `RuntimeError`.
- Logging.
- Concurrency: the one recognizer is shared by all requests without any lock, and concurrent requests are not modelled.
