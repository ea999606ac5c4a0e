/**
 * lib/utils.ts: the encoder wrapper `canvasToBlob`, `fileSizeMB` and the
 * output file-name rule `getOutputFileName`.
 */
module Utils {
  import opened Wrappers
  import opened Types
  import opened Resize

  /**
   * The platform encoder (`canvas.toBlob`, `OffscreenCanvas.convertToBlob`):
   * for an output MIME type, a drawn canvas and a quality it yields the size
   * in bytes of the blob it produces, or `None` when it produces no blob.
   */
  type Encoder = (string, Canvas, real) -> Option<nat>

  /** An encoded image: what was encoded, how, and its size in bytes. */
  datatype Blob = Blob(mimeType: string, canvas: Canvas, quality: real, size: nat)

  /** Message of the error `canvasToBlob` rejects with when the encoder yields null. */
  const NULL_BLOB_MESSAGE: string := "Canvas toBlob failed — output is null"

  /** `canvasToBlob`: a null blob from the encoder becomes a failure, never a result. */
  function CanvasToBlob(encode: Encoder, mimeType: string, canvas: Canvas, quality: real): (r: Result<Blob, string>)
    ensures r.Failure? <==> encode(mimeType, canvas, quality).None?
    ensures r.Failure? ==> r.error == NULL_BLOB_MESSAGE
    ensures r.Success? ==>
      r.value == Blob(mimeType, canvas, quality, encode(mimeType, canvas, quality).value)
  {
    match encode(mimeType, canvas, quality)
    case Some(size) => Success(Blob(mimeType, canvas, quality, size))
    case None => Failure(NULL_BLOB_MESSAGE)
  }

  /** `fileSizeMB`: the size in mebibytes. */
  function FileSizeMB(size: nat): (mb: real)
    ensures mb >= 0.0
    ensures mb * (BYTES_PER_MB as real) == size as real
    ensures mb == 0.0 <==> size == 0
  {
    size as real / BYTES_PER_MB as real
  }

  /** Index of the first occurrence of `c` in `s`. */
  function IndexOf(s: string, c: char): (r: Option<nat>)
    ensures r.None? <==> c !in s
    ensures r.Some? ==> r.value < |s| && s[r.value] == c && c !in s[..r.value]
  {
    if |s| == 0 then None
    else if s[0] == c then Some(0)
    else
      match IndexOf(s[1..], c)
      case None => None
      case Some(i) => assert s[1..][..i] == s[1..i + 1]; Some(i + 1)
  }

  /** `t.split('/')[1]`: the text between the first and the second slash, absent without a slash. */
  function Subtype(t: string): (r: Option<string>)
    ensures r.None? <==> '/' !in t
    ensures r.Some? ==> '/' !in r.value
    ensures r.Some? ==> r.value <= t[IndexOf(t, '/').value + 1..]
    ensures r.Some? ==> var rest := t[IndexOf(t, '/').value + 1..];
      r.value == rest || (|r.value| < |rest| && rest[|r.value|] == '/')
  {
    match IndexOf(t, '/')
    case None => None
    case Some(i) =>
      var rest := t[i + 1..];
      match IndexOf(rest, '/')
      case None => Some(rest)
      case Some(j) => assert rest[..j] <= rest; Some(rest[..j])
  }

  /** The extension for a target type: its subtype, or "jpg" when that is empty or absent. */
  function ExtensionFor(targetType: string): (ext: string)
    ensures ext != []
    ensures Subtype(targetType).Some? && Subtype(targetType).value != [] ==> ext == Subtype(targetType).value
    ensures Subtype(targetType).None? || Subtype(targetType).value == [] ==> ext == "jpg"
  {
    match Subtype(targetType)
    case Some(e) => if e == "" then "jpg" else e
    case None => "jpg"
  }

  /**
   * `i` is where the regular expression `\.[^.]+$` matches: a dot followed
   * by one or more non-dot characters up to the end of the name.
   */
  predicate ExtensionDotAt(name: string, i: int)
  {
    0 <= i < |name| - 1 && name[i] == '.' && '.' !in name[i + 1..]
  }

  /** Index of the last dot in `s`. */
  function LastDot(s: string): (r: Option<nat>)
    ensures r.None? <==> '.' !in s
    ensures r.Some? ==> r.value < |s| && s[r.value] == '.' && '.' !in s[r.value + 1..]
  {
    if |s| == 0 then None
    else if s[|s| - 1] == '.' then Some(|s| - 1)
    else
      var r := LastDot(s[..|s| - 1]);
      if r.Some? then
        assert s[r.value + 1..] == s[..|s| - 1][r.value + 1..] + [s[|s| - 1]];
        r
      else
        r
  }

  /**
   * `originalName.replace(/\.[^.]+$/, '')`: the final dot and the non-empty,
   * dot-free suffix after it are removed; otherwise the name is unchanged.
   */
  function StripExtension(name: string): (base: string)
    ensures forall i :: ExtensionDotAt(name, i) ==> base == name[..i]
    ensures base != name ==> ExtensionDotAt(name, |base|) && base == name[..|base|]
  {
    match LastDot(name)
    case Some(i) => if i < |name| - 1 then name[..i] else name
    case None => name
  }

  /** `getOutputFileName`. */
  function GetOutputFileName(originalName: string, targetType: Option<string>): (name: string)
    ensures targetType.None? || targetType.value == "" ==> name == originalName
    ensures targetType.Some? && targetType.value != "" ==>
      name == StripExtension(originalName) + "." + ExtensionFor(targetType.value)
  {
    match targetType
    case Some(t) => if t == "" then originalName else StripExtension(originalName) + "." + ExtensionFor(t)
    case None => originalName
  }

  /** A name without any dot keeps its whole text and gains the new extension. */
  lemma DotlessNameGainsExtension(originalName: string, targetType: string)
    requires '.' !in originalName && targetType != ""
    ensures GetOutputFileName(originalName, Some(targetType)) == originalName + "." + ExtensionFor(targetType)
  {
  }

  /**
   * Applying the rule twice with the same type changes nothing more, as long
   * as the extension it produces has no dot in it.
   */
  lemma {:induction false} OutputFileNameIdempotent(originalName: string, targetType: Option<string>)
    requires targetType.Some? ==> '.' !in ExtensionFor(targetType.value)
    ensures GetOutputFileName(GetOutputFileName(originalName, targetType), targetType) ==
      GetOutputFileName(originalName, targetType)
  {
    if targetType.Some? && targetType.value != "" {
      var base := StripExtension(originalName);
      var ext := ExtensionFor(targetType.value);
      var once := base + "." + ext;
      assert once[|base|] == '.';
      assert once[|base| + 1..] == ext;
      assert ExtensionDotAt(once, |base|);
      assert once[..|base|] == base;
      assert StripExtension(once) == base;
    }
  }

  /**
   * The rule on a `base.ext` name and a `top/sub` type: the extension is
   * replaced by the subtype.
   */
  lemma ReplacesExtensionBySubtype(base: string, ext: string, top: string, sub: string)
    requires ext != [] && '.' !in ext && '/' !in top && '/' !in sub && sub != []
    ensures GetOutputFileName(base + "." + ext, Some(top + "/" + sub)) == base + "." + sub
  {
    SubtypeOfMime(top + "/" + sub, top, sub, []);
    StripExample(base, ext);
  }

  lemma StripExample(base: string, ext: string)
    requires ext != [] && '.' !in ext
    ensures StripExtension(base + "." + ext) == base
  {
    var name := base + "." + ext;
    assert name[|base|] == '.';
    assert name[|base| + 1..] == ext;
    assert ExtensionDotAt(name, |base|);
    assert name[..|base|] == base;
  }

  /** For `type/subtype`, possibly followed by more `/`-separated parts, the subtype is the second part. */
  lemma SubtypeOfMime(t: string, top: string, sub: string, tail: string)
    requires '/' !in top && '/' !in sub && (tail == [] || tail[0] == '/')
    requires t == top + "/" + sub + tail
    ensures Subtype(t) == Some(sub)
  {
    assert IndexOf(t, '/') == Some(|top|) by {
      assert t[|top|] == '/' && t[..|top|] == top;
    }
    var rest := t[|top| + 1..];
    assert rest == sub + tail;
    var v := Subtype(t).value;
    assert forall k | 0 <= k < |v| :: rest[k] != '/';
    assert forall k | 0 <= k < |sub| :: rest[k] != '/';
    assert tail != [] ==> rest[|sub|] == '/';
    assert v == rest[..|v|] == sub;
  }

  /** An empty blob measures zero megabytes; exactly one mebibyte measures one. */
  lemma FileSizeExamples()
    ensures FileSizeMB(0) == 0.0 && FileSizeMB(1048576) == 1.0
  {
  }
}
