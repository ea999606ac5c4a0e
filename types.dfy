/** Configuration record and library-wide constants (lib/types.ts). */
module Types {
  import opened Wrappers

  /** Number of steps of each bounded search loop. */
  const MAX_ITERATIONS: nat := 10

  /** Lowest quality the search ever asks the encoder for. */
  const MIN_QUALITY: real := 0.05

  /** Largest accepted input, in bytes: 100 MiB. */
  const MAX_FILE_SIZE: nat := 100 * 1024 * 1024

  /** Bytes per megabyte, as the library counts them. */
  const BYTES_PER_MB: nat := 1024 * 1024

  /** Input MIME types the library accepts, in the order its error message lists them. */
  const SUPPORTED_TYPES: seq<string> :=
    ["image/jpeg", "image/png", "image/bmp", "image/webp", "image/gif"]

  /**
   * The options a caller passes. Absent properties are `None`; the library's
   * truthiness tests on them are modelled where they are made.
   */
  datatype Options = Options(
    maxSizeMB: Option<real>,
    maxWidthOrHeight: Option<real>,
    initialQuality: Option<real>,
    fileType: Option<string>,
    outputType: Option<string>)

  /** `SUPPORTED_TYPES.includes(t)`. */
  predicate IsSupportedType(t: string)
  {
    t in SUPPORTED_TYPES
  }

  /** The supported set is exactly the five listed formats. */
  lemma SupportedTypesExactly(t: string)
    ensures IsSupportedType(t) <==>
      t == "image/jpeg" || t == "image/png" || t == "image/bmp" ||
      t == "image/webp" || t == "image/gif"
  {
  }

  /** TIFF, Photoshop and camera RAW types are rejected. */
  lemma UnsupportedFormats()
    ensures !IsSupportedType("image/tiff")
    ensures !IsSupportedType("image/vnd.adobe.photoshop") && !IsSupportedType("application/psd")
    ensures !IsSupportedType("image/raw") && !IsSupportedType("image/x-canon-cr2")
    ensures !IsSupportedType("image/x-nikon-nef")
  {
  }

  /** The constants have the values the library documents. */
  lemma ConstantValues()
    ensures MAX_ITERATIONS == 10 && MIN_QUALITY == 1.0 / 20.0
    ensures MAX_FILE_SIZE == 104857600 && BYTES_PER_MB == 1048576
    ensures |SUPPORTED_TYPES| == 5
  {
  }
}
