/** Validation of an uploaded clip (`validate_audio` in app/utils.py): the
    file name must end in ".wav", the content must parse as a WAV file
    sampled at 16 kHz, and the clip must last between 5 and 10 seconds,
    both bounds included. Every rejection is an HTTP 400 error. */
module AudioValidation {
  import opened Outcomes

  newtype byte = x: int | 0 <= x < 256
  type Bytes = seq<byte>

  const MinDuration: nat := 5            // seconds
  const MaxDuration: nat := 10           // seconds
  const ExpectedSampleRate: nat := 16000 // Hz
  const BadRequest: int := 400

  /** An uploaded file: the name the client sent and the bytes the upload holds. */
  datatype Upload = Upload(filename: string, content: Bytes)

  /** What the standard WAV reader makes of a byte stream. The reader itself
      is not modelled; validation is given its verdict. */
  datatype HeaderParse =
    | Header(rate: nat, nframes: nat)  // the frame rate and frame count of the header
    | FormatError                      // the reader raised `wave.Error`
    | Truncated                        // `EOFError`: the stream is shorter than the 8-byte RIFF
                                       // chunk header, or the `fmt ` chunk's body is shorter than
                                       // its fields (a later cut-off chunk header ends in `wave.Error`)
    | ChunkOverrun                     // `RuntimeError`: skipping a sub-chunk seeks past the size
                                       // the enclosing RIFF chunk declares

  /** The four reasons validation gives for refusing an upload. */
  datatype Rejection =
    | UnsupportedExtension
    | InvalidWavFormat
    | WrongSampleRate(foundRate: nat)
    | DurationOutOfRange(foundSeconds: real)  // the clip's length in seconds

  /** The HTTP error a rejection is raised as. */
  datatype HttpException = HttpException(statusCode: int, detail: string)

  const ExtensionMessage: string := "Only .wav files are supported"
  const FormatMessage: string := "Invalid WAV file format."
  const RateMessage: string := "Audio sample rate must be 16kHz. Found: "
  // Written as two literals: the verifier cannot look inside one this long.
  const DurationMessage: string := "Audio duration must be " + "between 5 and 10 seconds. Found: "

  /** Python's `str.endswith(".wav")`: case-sensitive. */
  predicate HasWavExtension(name: string) {
    |name| >= 4 && name[|name| - 4..] == ".wav"
  }

  /** The clip length test as the source states it: `nframes / rate` seconds,
      compared against both bounds inclusively. */
  predicate DurationInRange(rate: nat, nframes: nat)
    requires rate > 0
  {
    MinDuration as real <= nframes as real / rate as real <= MaxDuration as real
  }

  /** The same test over integers, free of division. */
  lemma DurationIntegerForm(rate: nat, nframes: nat)
    requires rate > 0
    ensures DurationInRange(rate, nframes)
        <==> MinDuration * rate <= nframes <= MaxDuration * rate
  {
    var r, n := rate as real, nframes as real;
    var d := n / r;
    assert d * r == n;
    ScaleByPositive(MinDuration as real, d, r);
    assert MinDuration as real <= d <==> MinDuration * rate <= nframes by {
      assert (MinDuration * rate) as real == MinDuration as real * r;
    }
    ScaleByPositive(d, MaxDuration as real, r);
    assert d <= MaxDuration as real <==> nframes <= MaxDuration * rate by {
      assert (MaxDuration * rate) as real == MaxDuration as real * r;
    }
  }

  /** Multiplying both sides by a positive factor keeps the order. */
  lemma ScaleByPositive(x: real, y: real, r: real)
    requires r > 0.0
    ensures x <= y <==> x * r <= y * r
  {
    if x <= y {
      assert (y - x) * r >= 0.0;
    } else {
      assert (x - y) * r > 0.0;
    }
  }

  /** `validate_audio`, with the checks in the source's order: extension,
      then header, then sample rate, then duration. It returns the uploaded
      bytes unchanged. Unlike the source (see ValidateAudioAsWritten), a
      truncated header or an overrunning chunk is reported as a format
      error and the rate is tested before the duration is divided out. */
  function ValidateAudio(upload: Upload, parse: Bytes -> HeaderParse): (r: Result<Bytes, Rejection>)
    ensures r.Success? ==> r.value == upload.content
    ensures r.Success? <==>
      && HasWavExtension(upload.filename)
      && parse(upload.content).Header?
      && parse(upload.content).rate == ExpectedSampleRate
      && DurationInRange(ExpectedSampleRate, parse(upload.content).nframes)
    ensures !HasWavExtension(upload.filename) ==> r == Failure(UnsupportedExtension)
    ensures HasWavExtension(upload.filename) && !parse(upload.content).Header? ==>
      r == Failure(InvalidWavFormat)
  {
    if !HasWavExtension(upload.filename) then
      Failure(UnsupportedExtension)
    else
      var content := upload.content;
      match parse(content)
      case FormatError => Failure(InvalidWavFormat)
      case Truncated => Failure(InvalidWavFormat)
      case ChunkOverrun => Failure(InvalidWavFormat)
      case Header(rate, nframes) =>
        if rate != ExpectedSampleRate then
          Failure(WrongSampleRate(rate))
        else
          DurationIntegerForm(rate, nframes);
          if !(MinDuration * rate <= nframes <= MaxDuration * rate) then
            Failure(DurationOutOfRange(nframes as real / rate as real))
          else
            Success(content)
  }

  /** Before anything is read from the upload, the name alone decides a
      rejection: neither the content nor the WAV reader matters. */
  lemma ExtensionCheckedBeforeContent(name: string, c1: Bytes, c2: Bytes, p1: Bytes -> HeaderParse, p2: Bytes -> HeaderParse)
    requires !HasWavExtension(name)
    ensures ValidateAudio(Upload(name, c1), p1) == ValidateAudio(Upload(name, c2), p2)
  {
  }

  /** The extension test is case-sensitive. */
  lemma UpperCaseExtensionRejected(c: Bytes, p: Bytes -> HeaderParse)
    ensures ValidateAudio(Upload("clip.WAV", c), p) == Failure(UnsupportedExtension)
  {
  }

  /** Any rate other than 16 kHz is refused with the rate it found, whatever
      the duration, so the rate error wins over the duration error. */
  lemma SampleRateCheckedBeforeDuration(upload: Upload, parse: Bytes -> HeaderParse)
    requires HasWavExtension(upload.filename)
    requires parse(upload.content).Header? && parse(upload.content).rate != ExpectedSampleRate
    ensures ValidateAudio(upload, parse) == Failure(WrongSampleRate(parse(upload.content).rate))
  {
  }

  /** At 16 kHz the accepted frame counts are exactly 80000 through 160000. */
  lemma AcceptedFrameCounts(upload: Upload, parse: Bytes -> HeaderParse, nframes: nat)
    requires HasWavExtension(upload.filename)
    requires parse(upload.content) == Header(ExpectedSampleRate, nframes)
    ensures ValidateAudio(upload, parse).Success? <==> 80000 <= nframes <= 160000
    ensures !ValidateAudio(upload, parse).Success? ==>
      ValidateAudio(upload, parse) == Failure(DurationOutOfRange(nframes as real / 16000.0))
  {
    DurationIntegerForm(ExpectedSampleRate, nframes);
  }

  // ---------------------------------------------------------------------
  // Messages

  function Digit(d: nat): (c: char)
    requires d < 10
    ensures '0' <= c <= '9' && c as int - '0' as int == d
  {
    ('0' as int + d) as char
  }

  /** Python's `str(n)` for a natural number: its decimal digits. */
  function Decimal(n: nat): (s: string)
    ensures |s| >= 1
    ensures forall i :: 0 <= i < |s| ==> '0' <= s[i] <= '9'
    ensures |s| > 1 ==> s[0] != '0'
  {
    if n < 10 then [Digit(n)] else Decimal(n / 10) + [Digit(n % 10)]
  }

  /** The number a string of decimal digits denotes. */
  function DigitsValue(s: string): nat
    requires forall i :: 0 <= i < |s| ==> '0' <= s[i] <= '9'
  {
    if s == [] then 0 else DigitsValue(s[..|s| - 1]) * 10 + (s[|s| - 1] as int - '0' as int)
  }

  /** The rate written into the message reads back as the same number. */
  lemma {:induction false} DecimalRoundTrip(n: nat)
    ensures DigitsValue(Decimal(n)) == n
  {
    if n >= 10 {
      DecimalRoundTrip(n / 10);
      var s := Decimal(n);
      assert s[..|s| - 1] == Decimal(n / 10);
    }
  }

  lemma DecimalInjective(m: nat, n: nat)
    requires Decimal(m) == Decimal(n)
    ensures m == n
  {
    DecimalRoundTrip(m);
    DecimalRoundTrip(n);
  }

  /** The HTTP error raised for a rejection. `formatSeconds` is Python's
      two-decimal float formatting (`:.2f`), which is not modelled. */
  function ToHttpException(rejection: Rejection, formatSeconds: real -> string): (e: HttpException)
    ensures e.statusCode == BadRequest
    ensures rejection == UnsupportedExtension ==> e.detail == ExtensionMessage
    ensures rejection == InvalidWavFormat ==> e.detail == FormatMessage
  {
    match rejection
    case UnsupportedExtension => HttpException(BadRequest, ExtensionMessage)
    case InvalidWavFormat => HttpException(BadRequest, FormatMessage)
    case WrongSampleRate(found) => HttpException(BadRequest, RateMessage + Decimal(found) + " Hz")
    case DurationOutOfRange(found) => HttpException(BadRequest, DurationMessage + formatSeconds(found) + "s")
  }

  /** The first and seventh characters of each message, which already tell
      the four messages apart. */
  function MessageKey(rejection: Rejection): (char, char) {
    match rejection
    case UnsupportedExtension => ('O', 'w')
    case InvalidWavFormat => ('I', 'd')
    case WrongSampleRate(_) => ('A', 's')
    case DurationOutOfRange(_) => ('A', 'd')
  }

  lemma DetailStartsWithKey(rejection: Rejection, formatSeconds: real -> string)
    ensures var d := ToHttpException(rejection, formatSeconds).detail;
      |d| >= 7 && (d[0], d[6]) == MessageKey(rejection)
  {
    var d := ToHttpException(rejection, formatSeconds).detail;
    match rejection
    case UnsupportedExtension =>
    case InvalidWavFormat =>
    case WrongSampleRate(found) =>
      assert d == RateMessage + (Decimal(found) + " Hz");
      assert d[0] == RateMessage[0] && d[6] == RateMessage[6];
    case DurationOutOfRange(found) =>
      assert d == DurationMessage + (formatSeconds(found) + "s");
      assert DurationMessage[0] == 'A' && DurationMessage[6] == 'd';
      assert d[0] == DurationMessage[0] && d[6] == DurationMessage[6];
  }

  /** The caller can tell the reasons apart from the message alone, and a
      wrong rate is reported with the very rate that was found. */
  lemma DetailIdentifiesRejection(a: Rejection, b: Rejection, formatSeconds: real -> string)
    requires !(a.DurationOutOfRange? && b.DurationOutOfRange?)
    requires ToHttpException(a, formatSeconds).detail == ToHttpException(b, formatSeconds).detail
    ensures a == b
  {
    var da, db := ToHttpException(a, formatSeconds).detail, ToHttpException(b, formatSeconds).detail;
    DetailStartsWithKey(a, formatSeconds);
    DetailStartsWithKey(b, formatSeconds);
    assert MessageKey(a) == MessageKey(b);
    if a.WrongSampleRate? {
      var sa, sb := Decimal(a.foundRate), Decimal(b.foundRate);
      assert da == RateMessage + (sa + " Hz");
      assert db == RateMessage + (sb + " Hz");
      assert da[|RateMessage|..] == sa + " Hz";
      assert db[|RateMessage|..] == sb + " Hz";
      assert sa == (sa + " Hz")[..|sa|];
      assert sb == (sb + " Hz")[..|sb|];
      DecimalInjective(a.foundRate, b.foundRate);
    }
  }

  // ---------------------------------------------------------------------
  // The validator as the source writes it

  /** An exception that escapes `validate_audio` without becoming an HTTP 400. */
  datatype Escape =
    | ZeroDivision  // the duration is divided out before the rate is tested
    | EndOfFile     // raised by the WAV reader, outside the `except wave.Error`
    | Overrun       // `RuntimeError` from the WAV reader's chunk skip, likewise uncaught

  datatype Outcome = Returned(content: Bytes) | Raised(rejection: Rejection) | Escaped(escape: Escape)

  /** `validate_audio` exactly as written: the duration `nframes / rate` is
      computed before the rate is compared with 16000, and only `wave.Error`
      is turned into the format rejection. */
  function ValidateAudioAsWritten(upload: Upload, parse: Bytes -> HeaderParse): (o: Outcome)
    ensures o.Returned? ==> o.content == upload.content
  {
    if !HasWavExtension(upload.filename) then
      Raised(UnsupportedExtension)
    else
      var content := upload.content;
      match parse(content)
      case FormatError => Raised(InvalidWavFormat)
      case Truncated => Escaped(EndOfFile)
      case ChunkOverrun => Escaped(Overrun)
      case Header(rate, nframes) =>
        if rate == 0 then
          Escaped(ZeroDivision)
        else
          var duration := nframes as real / rate as real;
          if rate != ExpectedSampleRate then
            Raised(WrongSampleRate(rate))
          else if !(MinDuration as real <= duration <= MaxDuration as real) then
            Raised(DurationOutOfRange(duration))
          else
            Returned(content)
  }

  function AsOutcome(r: Result<Bytes, Rejection>): Outcome {
    match r
    case Success(content) => Returned(content)
    case Failure(rejection) => Raised(rejection)
  }

  /** On every name without the ".wav" ending, on every `wave.Error`, and
      on every header the reader accepts with a non-zero rate, the source and
      ValidateAudio agree: they differ only on the three escapes. */
  lemma AsWrittenAgreesOnWellFormedHeaders(upload: Upload, parse: Bytes -> HeaderParse)
    requires || !HasWavExtension(upload.filename)
             || parse(upload.content) == FormatError
             || (parse(upload.content).Header? && parse(upload.content).rate > 0)
    ensures ValidateAudioAsWritten(upload, parse) == AsOutcome(ValidateAudio(upload, parse))
  {
    if HasWavExtension(upload.filename) {
      match parse(upload.content)
      case FormatError =>
      case Header(rate, nframes) =>
        DurationIntegerForm(rate, nframes);
    }
  }

  /** A header declaring a frame rate of 0 (which the reader does not refuse)
      makes the source divide by zero instead of answering 400, whatever
      the frame count. */
  lemma ZeroRateEscapes(upload: Upload, parse: Bytes -> HeaderParse, nframes: nat)
    requires HasWavExtension(upload.filename)
    requires parse(upload.content) == Header(0, nframes)
    ensures ValidateAudioAsWritten(upload, parse) == Escaped(ZeroDivision)
    ensures ValidateAudio(upload, parse) == Failure(WrongSampleRate(0))
  {
  }

  /** An upload shorter than the RIFF chunk header, or with a `fmt ` chunk
      too short for its fields, makes the reader raise `EOFError`, which the
      source does not catch. */
  lemma TruncatedHeaderEscapes(upload: Upload, parse: Bytes -> HeaderParse)
    requires HasWavExtension(upload.filename)
    requires parse(upload.content) == Truncated
    ensures ValidateAudioAsWritten(upload, parse) == Escaped(EndOfFile)
    ensures ValidateAudio(upload, parse) == Failure(InvalidWavFormat)
  {
  }

  /** An upload whose RIFF chunk declares fewer bytes than one of its
      sub-chunks claims makes the reader's chunk skip raise `RuntimeError`,
      which the source does not catch either. */
  lemma ChunkOverrunEscapes(upload: Upload, parse: Bytes -> HeaderParse)
    requires HasWavExtension(upload.filename)
    requires parse(upload.content) == ChunkOverrun
    ensures ValidateAudioAsWritten(upload, parse) == Escaped(Overrun)
    ensures ValidateAudio(upload, parse) == Failure(InvalidWavFormat)
  {
  }
}
