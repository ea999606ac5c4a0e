/**
 * lib/index.ts: the entry point `imageCompression`. It validates the input
 * (outside its error handler, so validation errors reach the caller as they
 * are), runs `smartCompress`, and delivers the blob either as a data URL or
 * as a file named after the input. Errors from compression that are not
 * already `MiconvertCompressionError`s are wrapped in one with a suggestion.
 */
module Index {
  import opened Wrappers
  import opened Types
  import opened Resize
  import opened Utils
  import opened Search
  import Compress

  /** `MiconvertCompressionError`: a message and an optional suggestion. */
  datatype CompressionError = CompressionError(message: string, suggestion: Option<string>)

  const NO_FILE_MESSAGE := "No file provided."
  const NOT_A_BLOB_MESSAGE := "Input must be a File or Blob object."
  const LARGE_FILE_SUGGESTION := "For files larger than 100MB, please use our cloud API at https://miconvert.com"
  const TYPE_SUGGESTION := "For advanced conversion (RAW, PSD, TIFF...), please use our cloud API at https://miconvert.com"
  const FAILURE_PREFIX := "Browser compression failed: "
  const RETRY_SUGGESTION := "Try miconvert.com for better results."

  /**
   * The message of the error an image that fails to load rejects with: the
   * browser's error event, turned into text, is "[object Event]".
   */
  const LOAD_FAILURE_MESSAGE := "Failed to load image: [object Event]"

  /** What `validateInput` is given: nothing, something that is not a Blob, or a file. */
  datatype Input = Missing | NotABlob | File(name: string, mimeType: string, size: nat)

  /** What `imageCompression` resolves to: a base64 data URL of the blob, or a named file. */
  datatype Output = DataUrl(blob: Blob) | OutputFile(name: string, blob: Blob)

  /** An error thrown during compression: one of the library's own, or any other, by its message. */
  datatype Thrown = Branded(error: CompressionError) | Plain(message: string)

  predicate IsDigit(c: char)
  {
    '0' <= c <= '9'
  }

  function DigitChar(d: nat): (c: char)
    requires d < 10
    ensures IsDigit(c)
  {
    "0123456789"[d]
  }

  function DigitValue(c: char): (d: nat)
    requires IsDigit(c)
    ensures d < 10 && DigitChar(d) == c
  {
    (c as int - '0' as int) as nat
  }

  /** The decimal numeral of `n`, without leading zeros. */
  function Decimal(n: nat): (s: string)
    ensures |s| >= 1 && forall i | 0 <= i < |s| :: IsDigit(s[i])
    ensures n > 0 ==> s[0] != '0'
  {
    if n < 10 then [DigitChar(n)] else Decimal(n / 10) + [DigitChar(n % 10)]
  }

  /** The number a string of decimal digits denotes. */
  function DecimalValue(s: string): (n: nat)
    requires forall i | 0 <= i < |s| :: IsDigit(s[i])
  {
    if |s| == 0 then 0 else 10 * DecimalValue(s[..|s| - 1]) + DigitValue(s[|s| - 1])
  }

  /** Reading a numeral back gives the number it was written from. */
  lemma {:induction false} DecimalRoundTrip(n: nat)
    ensures DecimalValue(Decimal(n)) == n
  {
    if n >= 10 {
      var front := Decimal(n / 10);
      var s := front + [DigitChar(n % 10)];
      assert Decimal(n) == s;
      assert s[..|s| - 1] == front;
      DecimalRoundTrip(n / 10);
    }
  }

  /** `s` is a numeral, a point and one digit, denoting `tenths` tenths. */
  predicate ShowsTenths(s: string, tenths: int)
  {
    |s| >= 3 && s[|s| - 2] == '.' && IsDigit(s[|s| - 1]) &&
    (forall i | 0 <= i < |s| - 2 :: IsDigit(s[i])) &&
    10 * DecimalValue(s[..|s| - 2]) + DigitValue(s[|s| - 1]) == tenths
  }

  /**
   * `x.toFixed(1)` for a non-negative `x`: the multiple of 0.1 nearest to
   * `x`, the larger on a tie, written as digits, a point and one digit.
   */
  function ToFixed1(x: real): (s: string)
    requires x >= 0.0
    ensures ShowsTenths(s, Numeric.Round(10.0 * x))
  {
    Tenths(Numeric.Round(10.0 * x))
  }

  /** A count of tenths written as digits, a point and one digit. */
  function Tenths(tenths: nat): (s: string)
    ensures ShowsTenths(s, tenths)
  {
    var whole := Decimal(tenths / 10);
    DecimalRoundTrip(tenths / 10);
    FixedPoint(whole, DigitChar(tenths % 10));
    whole + ['.', DigitChar(tenths % 10)]
  }

  /** Appending a point and a digit to a numeral leaves the numeral in front of the point. */
  lemma FixedPoint(whole: string, d: char)
    requires forall i | 0 <= i < |whole| :: IsDigit(whole[i])
    requires IsDigit(d)
    ensures var s := whole + ['.', d];
      s[..|s| - 2] == whole && s[|s| - 2] == '.' && s[|s| - 1] == d &&
      forall i | 0 <= i < |s| - 2 :: IsDigit(s[i])
  {
  }

  /** `list.join(separator)`. */
  function Join(list: seq<string>, separator: string): (s: string)
    ensures |list| == 1 ==> s == list[0]
  {
    if |list| == 0 then ""
    else if |list| == 1 then list[0]
    else list[0] + separator + Join(list[1..], separator)
  }

  const TOO_LARGE_OPENING := "File too large ("
  const TOO_LARGE_CLOSING := "MB). Maximum supported size is 100MB."

  /**
   * The message for a file above 100 MiB: its size in megabytes, to one
   * decimal, between a fixed opening and closing.
   */
  function TooLargeMessage(size: nat): (m: string)
    ensures |m| >= |TOO_LARGE_OPENING| + 3 + |TOO_LARGE_CLOSING|
    ensures m[..|TOO_LARGE_OPENING|] == TOO_LARGE_OPENING
    ensures m[|m| - |TOO_LARGE_CLOSING|..] == TOO_LARGE_CLOSING
    ensures ShowsTenths(m[|TOO_LARGE_OPENING|..|m| - |TOO_LARGE_CLOSING|], Numeric.Round(10.0 * FileSizeMB(size)))
  {
    var figure := ToFixed1(FileSizeMB(size));
    var m := TOO_LARGE_OPENING + figure + TOO_LARGE_CLOSING;
    assert m[|TOO_LARGE_OPENING|..|m| - |TOO_LARGE_CLOSING|] == figure;
    m
  }

  const UNSUPPORTED_OPENING := "File type \""
  const UNSUPPORTED_MIDDLE := "\" is not supported. Supported types: "

  /**
   * The message for a type outside SUPPORTED_TYPES: the type in quotes, then
   * every supported type, in order, separated by commas, and a full stop.
   */
  function UnsupportedTypeMessage(mimeType: string): (m: string)
    ensures |m| > |UNSUPPORTED_OPENING| + |mimeType|
    ensures m[..|UNSUPPORTED_OPENING|] == UNSUPPORTED_OPENING
    ensures m[|UNSUPPORTED_OPENING|..|UNSUPPORTED_OPENING| + |mimeType|] == mimeType
    ensures m[|UNSUPPORTED_OPENING| + |mimeType|..] == UNSUPPORTED_MIDDLE + Join(SUPPORTED_TYPES, ", ") + "."
  {
    var rest := UNSUPPORTED_MIDDLE + Join(SUPPORTED_TYPES, ", ") + ".";
    var m := UNSUPPORTED_OPENING + (mimeType + rest);
    assert m[|UNSUPPORTED_OPENING|..] == mimeType + rest;
    m
  }

  /**
   * `validateInput`: `None` when the input may be compressed, otherwise the
   * error of the first check that fails.
   */
  function ValidateInput(input: Input): (r: Option<CompressionError>)
    ensures r.None? <==>
      input.File? && input.size <= MAX_FILE_SIZE && (input.mimeType == "" || IsSupportedType(input.mimeType))
    ensures r.Some? ==> (r.value.suggestion.Some? <==> input.File?)
    ensures input.Missing? ==> r == Some(CompressionError(NO_FILE_MESSAGE, None))
    ensures input.NotABlob? ==> r == Some(CompressionError(NOT_A_BLOB_MESSAGE, None))
    ensures input.File? && input.size > MAX_FILE_SIZE ==>
      r == Some(CompressionError(TooLargeMessage(input.size), Some(LARGE_FILE_SUGGESTION)))
    ensures input.File? && input.size <= MAX_FILE_SIZE && r.Some? ==>
      r.value.suggestion == Some(TYPE_SUGGESTION) && r.value.message == UnsupportedTypeMessage(input.mimeType)
  {
    match input
    case Missing => Some(CompressionError(NO_FILE_MESSAGE, None))
    case NotABlob => Some(CompressionError(NOT_A_BLOB_MESSAGE, None))
    case File(_, mimeType, size) =>
      if size > MAX_FILE_SIZE then
        Some(CompressionError(TooLargeMessage(size), Some(LARGE_FILE_SUGGESTION)))
      else if mimeType != "" && !IsSupportedType(mimeType) then
        Some(CompressionError(UnsupportedTypeMessage(mimeType), Some(TYPE_SUGGESTION)))
      else None
  }

  /**
   * The boundaries of validation: exactly 100 MiB and empty files pass, one
   * byte more fails on size before the type is looked at, and a file without
   * a type is never refused for its type.
   */
  lemma ValidationBoundaries(name: string, mimeType: string)
    ensures ValidateInput(File(name, "image/png", MAX_FILE_SIZE)).None?
    ensures ValidateInput(File(name, "image/jpeg", 0)).None?
    ensures ValidateInput(File(name, "image/tiff", MAX_FILE_SIZE + 1)).value.suggestion == Some(LARGE_FILE_SUGGESTION)
    ensures forall size: nat | size <= MAX_FILE_SIZE :: ValidateInput(File(name, "", size)).None?
  {
  }

  /** A 150 MiB file is reported as 150.0 MB. */
  lemma SizeText()
    ensures ToFixed1(FileSizeMB(150 * BYTES_PER_MB)) == "150.0"
  {
    assert FileSizeMB(150 * BYTES_PER_MB) == 150.0;
    assert Numeric.Round(10.0 * 150.0) == 1500;
    assert Decimal(150) == "150" by {
      assert Decimal(1) == "1";
      assert Decimal(15) == "15";
    }
  }

  /** The error `imageCompression` throws for one thrown during compression. */
  function Rethrown(thrown: Thrown): (e: CompressionError)
    ensures thrown.Branded? ==> e == thrown.error
    ensures thrown.Plain? ==>
      e.suggestion == Some(RETRY_SUGGESTION) &&
      |e.message| == |FAILURE_PREFIX| + |thrown.message| &&
      e.message[..|FAILURE_PREFIX|] == FAILURE_PREFIX && e.message[|FAILURE_PREFIX|..] == thrown.message
  {
    match thrown
    case Branded(error) => error
    case Plain(message) => CompressionError(FAILURE_PREFIX + message, Some(RETRY_SUGGESTION))
  }

  /** A library error passes through any number of handlers unchanged: nothing is wrapped twice. */
  lemma RethrowIdempotent(thrown: Thrown)
    ensures Rethrown(Branded(Rethrown(thrown))) == Rethrown(thrown)
  {
  }

  /** How a compressed blob is delivered: a data URL on request, otherwise a file named for the output type. */
  function Deliver(name: string, options: Options, blob: Blob): (out: Output)
    ensures out.blob == blob
    ensures out.DataUrl? <==> options.outputType == Some("base64")
    ensures out.OutputFile? ==> out.name == GetOutputFileName(name, options.fileType)
  {
    if options.outputType == Some("base64") then DataUrl(blob)
    else OutputFile(GetOutputFileName(name, options.fileType), blob)
  }

  /** The call of a run whose blob `smartCompress` returns. */
  function ReturnedCall(options: Options, calls: seq<Call>): (k: nat)
    requires |calls| >= 1
    ensures k < |calls|
  {
    if HasLimit(options.maxSizeMB) then Compress.ResultIndex(calls, TargetBytes(options.maxSizeMB.value)) else 0
  }

  /**
   * `imageCompression`. `decoded` is the natural size of the loaded image,
   * `None` when the browser cannot load it; `encode` is the browser's
   * encoder. Validation errors come out as they are, with no call to the
   * encoder; a load failure and a null blob come out wrapped; on success the
   * output holds the blob of the call `smartCompress` returns.
   */
  method ImageCompression(input: Input, options: Options, decoded: Option<(nat, nat)>, encode: Encoder)
    returns (r: Result<Output, CompressionError>, calls: seq<Call>)
    requires decoded.Some? ==> decoded.value.0 > 0 && decoded.value.1 > 0
    ensures ValidateInput(input).Some? ==> r == Failure(ValidateInput(input).value) && calls == []
    ensures ValidateInput(input).None? && decoded.None? ==>
      r == Failure(Rethrown(Plain(LOAD_FAILURE_MESSAGE))) && calls == []
    ensures ValidateInput(input).None? && decoded.Some? ==>
      var mime := OutputType(options.fileType, input.mimeType);
      |calls| >= 1 && Genuine(encode, mime, calls) &&
      (r.Failure? <==> calls[|calls| - 1].size.None?) &&
      (r.Failure? ==> r.error == Rethrown(Plain(NULL_BLOB_MESSAGE))) &&
      (r.Success? ==>
        calls[ReturnedCall(options, calls)].size.Some? &&
        r.value == Deliver(input.name, options, BlobOf(mime, calls[ReturnedCall(options, calls)])))
  {
    var invalid := ValidateInput(input);
    if invalid.Some? {
      return Failure(invalid.value), [];
    }
    if decoded.None? {
      return Failure(Rethrown(Plain(LOAD_FAILURE_MESSAGE))), [];
    }
    var image := SourceImage(input.mimeType, decoded.value.0, decoded.value.1);
    var compressed, progress;
    compressed, calls, progress := Compress.SmartCompress(image, options, encode);
    if compressed.Failure? {
      return Failure(Rethrown(Plain(compressed.error))), calls;
    }
    r := Success(Deliver(input.name, options, compressed.value));
  }
}
