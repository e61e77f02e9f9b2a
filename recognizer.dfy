/** The recognizer of app/model.py: an `ASRModel` holds an inference
    session, the model's character vocabulary and a greedy CTC decoder,
    all fixed when it is built. `Infer` checks the sample rate, hands the
    waveform to the feature extractor and the session (both opaque here),
    picks the best-scoring class of every frame, lets the decoder turn those
    picks into text and strips surrounding whitespace from the result. */
module Recognizer {
  import opened Outcomes
  import opened AudioValidation
  import opened AudioLoading

  const ModelPath: string := "models/asr_conformer_hi.onnx"

  /** The 86 characters the model was trained on: Devanagari signs, vowels,
      consonants, digits and the danda marks, in the model's order. */
  const Vocabulary: seq<char> := [
    '\U{0901}', '\U{0902}', '\U{0903}', '\U{0904}', '\U{0905}', '\U{0906}', '\U{0907}', '\U{0908}',
    '\U{0909}', '\U{090A}', '\U{090B}', '\U{090C}', '\U{090D}', '\U{090E}', '\U{090F}', '\U{0910}',
    '\U{0911}', '\U{0912}', '\U{0913}', '\U{0914}', '\U{0915}', '\U{0916}', '\U{0917}', '\U{0918}',
    '\U{0919}', '\U{091A}', '\U{091B}', '\U{091C}', '\U{091D}', '\U{091E}', '\U{091F}', '\U{0920}',
    '\U{0921}', '\U{0922}', '\U{0923}', '\U{0924}', '\U{0925}', '\U{0926}', '\U{0927}', '\U{0928}',
    '\U{092A}', '\U{092B}', '\U{092C}', '\U{092D}', '\U{092E}', '\U{092F}', '\U{0930}', '\U{0932}',
    '\U{0935}', '\U{0936}', '\U{0937}', '\U{0938}', '\U{0939}', '\U{093C}', '\U{093D}', '\U{093E}',
    '\U{093F}', '\U{0940}', '\U{0941}', '\U{0942}', '\U{0943}', '\U{0944}', '\U{0945}', '\U{0946}',
    '\U{0947}', '\U{0948}', '\U{0949}', '\U{094A}', '\U{094B}', '\U{094C}', '\U{094D}', '\U{094E}',
    '\U{094F}', '\U{0950}', '\U{0966}', '\U{0967}', '\U{0968}', '\U{0969}', '\U{096A}', '\U{096B}',
    '\U{096C}', '\U{096D}', '\U{096E}', '\U{096F}', '\U{0964}', '\U{0965}'
  ]

  /** One frame's scores, one per output class. Only their order matters. */
  type Scores = seq<real>
  /** The session's first output: (batch, frames, classes). */
  type Logits = seq<seq<Scores>>
  /** A (filters, frames) log-mel feature matrix. */
  type FeatureMatrix = seq<seq<real>>

  /** The inference session: a batch of feature matrices in, logits out. */
  type Session = seq<FeatureMatrix> -> Logits
  /** The greedy CTC decoder: a batch of per-frame class indices in, one
      hypothesis per batch entry out. */
  type Decoder = seq<seq<nat>> -> seq<string>

  /** The settings the filterbank feature extractor is built with. */
  datatype FilterbankConfig = FilterbankConfig(
    sampleRate: nat, windowSize: real, windowStride: real, window: string,
    normalize: string, nFft: nat, nFilt: nat, dither: real)

  const FeaturizerConfig: FilterbankConfig :=
    FilterbankConfig(16000, 0.02, 0.01, "hann", "per_feature", 512, 64, 0.00001)

  /** The feature extractor: settings, one channel of samples and their rate
      in, a feature matrix out. */
  type Featurizer = (FilterbankConfig, seq<real>, nat) -> FeatureMatrix

  /** The exceptions `infer` itself raises. The guard raises a `ValueError`
      with the message "Audio must be sampled at 16kHz"; the other three are
      raised, with their own messages, by indexing and by numpy. */
  datatype InferError =
    | SampleRateNot16k  // the explicit guard
    | MissingChannel    // the waveform has no first row to take
    | EmptyScores       // a frame with no class scores has no maximum
    | NoHypothesis      // the decoder returned no hypothesis to take

  // ---------------------------------------------------------------------
  // Best class of a frame

  /** `k` is where the maximum of `row` first occurs. */
  ghost predicate IsFirstArgmax(row: Scores, k: int) {
    && 0 <= k < |row|
    && (forall j :: 0 <= j < |row| ==> row[j] <= row[k])
    && (forall j :: 0 <= j < k ==> row[j] < row[k])
  }

  /** The argmax of a frame, scanning from the left and moving only to a
      strictly larger score. */
  function FirstArgmax(row: Scores): (k: nat)
    requires |row| > 0
    ensures IsFirstArgmax(row, k)
  {
    if |row| == 1 then 0
    else
      var best := FirstArgmax(row[..|row| - 1]);
      if row[|row| - 1] > row[best] then |row| - 1 else best
  }

  /** A row has only one first argmax. */
  lemma FirstArgmaxUnique(row: Scores, k1: int, k2: int)
    requires IsFirstArgmax(row, k1) && IsFirstArgmax(row, k2)
    ensures k1 == k2
  {
    // Both score the maximum, so neither can come strictly before the other.
    assert row[k1] <= row[k2] && row[k2] <= row[k1];
  }

  /** The per-frame scan: keep the best index seen so far, replacing it only
      on a strictly larger score. */
  method ArgmaxRow(row: Scores) returns (k: nat)
    requires |row| > 0
    ensures IsFirstArgmax(row, k)
  {
    k := 0;
    var i := 1;
    while i < |row|
      invariant 1 <= i <= |row|
      invariant k < i
      invariant forall j :: 0 <= j < i ==> row[j] <= row[k]
      invariant forall j :: 0 <= j < k ==> row[j] < row[k]
    {
      if row[i] > row[k] {
        k := i;
      }
      i := i + 1;
    }
  }

  /** Every frame has at least one class score. */
  predicate HasScores(logits: Logits) {
    forall b, t :: 0 <= b < |logits| && 0 <= t < |logits[b]| ==> |logits[b][t]| > 0
  }

  /** The argmax over the last axis: one class index per frame, where that
      frame's maximum first occurs. */
  function Predictions(logits: Logits): (p: seq<seq<nat>>)
    requires HasScores(logits)
    ensures |p| == |logits|
    ensures forall b :: 0 <= b < |p| ==> |p[b]| == |logits[b]|
    ensures forall b, t :: 0 <= b < |p| && 0 <= t < |p[b]| ==>
      p[b][t] < |logits[b][t]| && IsFirstArgmax(logits[b][t], p[b][t])
  {
    seq(|logits|, b requires 0 <= b < |logits| =>
      seq(|logits[b]|, t requires 0 <= t < |logits[b]| => FirstArgmax(logits[b][t])))
  }

  /** The argmax over the last axis, frame by frame. */
  method Predict(logits: Logits) returns (preds: seq<seq<nat>>)
    requires HasScores(logits)
    ensures preds == Predictions(logits)
  {
    preds := [];
    var b := 0;
    while b < |logits|
      invariant 0 <= b <= |logits|
      invariant preds == Predictions(logits)[..b]
    {
      var frames: seq<nat> := [];
      var t := 0;
      while t < |logits[b]|
        invariant 0 <= t <= |logits[b]|
        invariant frames == Predictions(logits)[b][..t]
      {
        var k := ArgmaxRow(logits[b][t]);
        FirstArgmaxUnique(logits[b][t], k, Predictions(logits)[b][t]);
        frames := frames + [k];
        t := t + 1;
      }
      assert frames == Predictions(logits)[b][..|logits[b]|] == Predictions(logits)[b];
      assert Predictions(logits)[..b + 1] == Predictions(logits)[..b] + [Predictions(logits)[b]];
      preds := preds + [frames];
      b := b + 1;
    }
  }

  // ---------------------------------------------------------------------
  // Stripping whitespace

  /** The characters Python's `str.strip()` removes: those `str.isspace()`
      accepts. */
  predicate IsSpace(c: char) {
    || '\t' <= c <= '\r'
    || '\U{001C}' <= c <= ' '
    || c == '\U{0085}' || c == '\U{00A0}' || c == '\U{1680}'
    || '\U{2000}' <= c <= '\U{200A}'
    || c == '\U{2028}' || c == '\U{2029}' || c == '\U{202F}' || c == '\U{205F}' || c == '\U{3000}'
  }

  /** `s` without its leading whitespace. */
  function TrimStart(s: string): (r: string)
    ensures |r| <= |s| && r == s[|s| - |r|..]
    ensures forall i :: 0 <= i < |s| - |r| ==> IsSpace(s[i])
    ensures r == [] || !IsSpace(r[0])
  {
    if |s| > 0 && IsSpace(s[0]) then TrimStart(s[1..]) else s
  }

  /** `s` without its trailing whitespace. */
  function TrimEnd(s: string): (r: string)
    ensures |r| <= |s| && r == s[..|r|]
    ensures forall i :: |r| <= i < |s| ==> IsSpace(s[i])
    ensures r == [] || !IsSpace(r[|r| - 1])
  {
    if |s| > 0 && IsSpace(s[|s| - 1]) then TrimEnd(s[..|s| - 1]) else s
  }

  /** Python's `str.strip()`. */
  function Strip(s: string): (r: string)
    ensures r == [] || (!IsSpace(r[0]) && !IsSpace(r[|r| - 1]))
  {
    TrimEnd(TrimStart(s))
  }

  /** What `Strip` keeps is a slice of its input, and what it drops on
      either side is whitespace. */
  lemma StripKeepsSlice(s: string) returns (i: nat, j: nat)
    ensures i <= j <= |s| && Strip(s) == s[i..j]
    ensures forall k :: 0 <= k < i ==> IsSpace(s[k])
    ensures forall k :: j <= k < |s| ==> IsSpace(s[k])
  {
    var t := TrimStart(s);
    var r := TrimEnd(t);
    i, j := |s| - |t|, |s| - |t| + |r|;
    SliceOfSlice(s, t, r);
  }

  /** A prefix `r` of a suffix `t` of `s` is a slice of `s`; whitespace that
      follows `r` in `t` follows it in `s` too. */
  lemma SliceOfSlice(s: string, t: string, r: string)
    requires |t| <= |s| && t == s[|s| - |t|..]
    requires |r| <= |t| && r == t[..|r|]
    requires forall k :: |r| <= k < |t| ==> IsSpace(t[k])
    ensures r == s[|s| - |t|..|s| - |t| + |r|]
    ensures forall k :: |s| - |t| + |r| <= k < |s| ==> IsSpace(s[k])
  {
    forall k | |s| - |t| + |r| <= k < |s| ensures IsSpace(s[k]) {
      assert s[k] == t[k - (|s| - |t|)];
    }
  }

  /** A string with no whitespace at either end is left as it is. */
  lemma StripFixesTrimmed(s: string)
    requires s == [] || (!IsSpace(s[0]) && !IsSpace(s[|s| - 1]))
    ensures Strip(s) == s
  {
  }

  /** Stripping twice is stripping once. */
  lemma StripIdempotent(s: string)
    ensures Strip(Strip(s)) == Strip(s)
  {
    StripFixesTrimmed(Strip(s));
  }

  // ---------------------------------------------------------------------
  // Inference

  /** What `infer` returns or raises, given the recognizer's session and
      decoder and the feature extractor. The rate guard comes first, before
      any feature is extracted. */
  function InferOutcome(session: Session, decoder: Decoder, featurize: Featurizer,
                        audio: Waveform, sampleRate: int): (r: Result<string, InferError>)
    ensures sampleRate != ExpectedSampleRate <==> r == Failure(SampleRateNot16k)
    ensures r.Success? ==> Strip(r.value) == r.value
  {
    if sampleRate != ExpectedSampleRate then
      Failure(SampleRateNot16k)
    else if |audio| == 0 then
      Failure(MissingChannel)
    else
      var features := featurize(FeaturizerConfig, audio[0], sampleRate);
      var logits := session([features]);
      if !HasScores(logits) then
        Failure(EmptyScores)
      else
        var hypotheses := decoder(Predictions(logits));
        if |hypotheses| == 0 then
          Failure(NoHypothesis)
        else
          StripIdempotent(hypotheses[0]);
          Success(Strip(hypotheses[0]))
  }

  /** With the rate wrong, neither the extractor, the session nor the
      decoder has any say in the outcome. */
  lemma RateGuardPrecedesModel(s1: Session, s2: Session, d1: Decoder, d2: Decoder,
                               f1: Featurizer, f2: Featurizer, a1: Waveform, a2: Waveform, sampleRate: int)
    requires sampleRate != ExpectedSampleRate
    ensures InferOutcome(s1, d1, f1, a1, sampleRate) == InferOutcome(s2, d2, f2, a2, sampleRate)
  {
  }

  /** The recognizer. Its three fields are set once, by the constructor. */
  class ASRModel {
    const session: Session
    const vocab: seq<char>
    const decoder: Decoder

    /** Opens the session on the model file and builds the decoder over the
        fixed vocabulary. */
    constructor (openSession: string -> Session, greedyCtc: seq<char> -> Decoder, modelPath: string := ModelPath)
      ensures session == openSession(modelPath)
      ensures vocab == Vocabulary
      ensures decoder == greedyCtc(Vocabulary)
    {
      session := openSession(modelPath);
      vocab := Vocabulary;
      decoder := greedyCtc(Vocabulary);
    }

    /** `infer`: transcribe one waveform. It changes nothing. */
    method Infer(audio: Waveform, sampleRate: int, featurize: Featurizer) returns (r: Result<string, InferError>)
      ensures r == InferOutcome(session, decoder, featurize, audio, sampleRate)
    {
      if sampleRate != ExpectedSampleRate {
        return Failure(SampleRateNot16k);
      }
      if |audio| == 0 {
        return Failure(MissingChannel);
      }
      var features := featurize(FeaturizerConfig, audio[0], sampleRate);
      var logits := session([features]);
      if !HasScores(logits) {
        return Failure(EmptyScores);
      }
      var predictions := Predict(logits);
      var hypotheses := decoder(predictions);
      if |hypotheses| == 0 {
        return Failure(NoHypothesis);
      }
      r := Success(Strip(hypotheses[0]));
    }
  }
}
