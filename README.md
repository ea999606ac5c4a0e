# Browser image compression, modelled in Dafny

A model of the core of `@miconvert/browser-image-compression`, a TypeScript
library that compresses images in the browser: it draws the image on a
canvas (optionally fitted inside a maximum side), then asks the browser's
encoder for blobs at varying qualities and canvas sizes until one fits a
size limit. The model covers:

- the main-thread engine `smartCompress` (lib/compress.ts) and the engine
  that runs inside the inline Web Worker (the script in lib/worker.ts),
  both as imperative methods whose loops carry invariants;
- the shared search they perform, described once as a trace of encoder
  calls (`Search.Step`, `Search.Trace`) parameterised by a `Policy`: the
  baseline call at the initial quality, the binary search over the quality,
  the downscale loop, and the refining binary search on the first canvas
  that fits;
- the geometry of lib/resize.ts and the pixel cap of the worker;
- the EXIF orientation parser of lib/exif.ts over a sequence of bytes,
  both as recursive functions and as the parser's own loops proved equal to
  them, and the orientation transform table;
- the output file-name rule, `fileSizeMB` and the null-blob rule of
  lib/utils.ts;
- input validation, error wrapping and delivery in lib/index.ts, and the
  constants of lib/types.ts.

The browser encoder is a parameter `encode: (mime, canvas, quality) ->
Option<nat>` (the byte size of the blob, or `None` for a null blob or a
rejected `convertToBlob`). Every engine method returns, beside its outcome,
the sequence of calls it made to `encode` (`calls`) and the progress values
it reported (`progress`), and its postcondition ties the outcome to them:
the calls form a legal trace (`Trace`), each recorded answer is what
`encode` gives (`Genuine`), the run stops only where `Finished` says, the
returned blob is the one `BestIndex` or `ResultIndex` names, and the
progress log is exactly the values the code reports for that sequence of
calls. Under a size limit (`Logged`) that log is non-decreasing, within
[0, 100], and ends in 100 exactly on success; without one it is the fixed
opening values followed, on success, by 100 on the main thread and by 95
in the worker.

Files: `wrappers.dfy` (Option, Result), `numeric.dfy` (`Math.round`,
`Math.floor`, halving), `types.dfy`, `utils.dfy`, `resize.dfy`,
`search.dfy` (the shared trace and its lemmas), `bisect.dfy` (the binary
search loop both engines run twice), `compress.dfy`, `worker.dfy`,
`exif.dfy`, `index.dfy`.

Where the code and the library's written description differ, the model
follows the code:

- `calculateResizedDimensions` and the worker's pixel cap do not clamp a
  side to at least one pixel; a 10000 by 1 image fitted into 100 becomes
  100 by 0 (`Resize.ResizeExamples`). Only `scaleCanvas` clamps.
- `imageCompression` (lib/index.ts) always calls `smartCompress`; the
  worker engine is never reached from it.
- `smartCompress` passes `exifOrientation` to `drawImageToCanvas`, which
  ignores it: the main-thread path never applies an orientation.
- A run makes at most 31 encoder calls (1 + 3 * MAX_ITERATIONS), and at most
  11 in the worker for a lossless output.
- After downscaling runs out, `smartCompress` returns the last (oversized)
  blob, while the worker returns its best blob, which then is the
  oversized baseline.
- Without a size limit the worker posts 95 and then its result, never 100;
  `smartCompress` reports 100.
- After a downscaled canvas fits, both engines (the worker only for lossy
  outputs; for a lossless one it keeps the fitting blob) refine the
  quality and return the best blob; when no refining call fits, that is
  still the oversized baseline, not the blob that fitted.
- The worker reads `options.initialQuality || 1.0`, so a quality of 0
  becomes 1; `smartCompress` uses 1.0 only when the option is absent.
- `getOutputFileName('photo.jpg', 'image/jpeg')` is `photo.jpeg`; the
  extension is the MIME subtype as written (test/bugfix.test.ts:145-151
  expects `photo.jpg`).

## Model

| member | source | states |
|---|---|---|
| Types.SupportedTypesExactly | lib/types.ts:36-42 | a type is supported exactly when it is one of jpeg, png, bmp, webp, gif |
| Types.UnsupportedFormats | test/phase3.test.ts:63-76 | TIFF, both PSD types and the RAW types are not supported |
| Types.ConstantValues | lib/types.ts:27-42 | MAX_ITERATIONS is 10, MIN_QUALITY 0.05, MAX_FILE_SIZE 104857600, five supported types |
| Numeric.Round | lib/compress.ts:48 | `Math.round` is the integer within half of its argument, ties up |
| Numeric.Floor | lib/worker.ts:101-102 | `Math.floor` is the integer at most the argument and within one of it |
| Utils.CanvasToBlob | lib/utils.ts:30-48 | the promise fails exactly when the encoder yields no blob, with the null-blob message; otherwise it is the blob of that size |
| Utils.FileSizeMB | lib/utils.ts:63-65 | size in MiB: times 1048576 gives the byte size back; zero exactly for an empty blob |
| Utils.FileSizeExamples | test/phase1.test.ts:63-76 | an empty blob is 0 MB, 1048576 bytes are 1 MB |
| Utils.Subtype | lib/utils.ts:76 | `split('/')[1]`: absent exactly without a slash; slash-free; the whole text after the first slash up to the next slash or the end |
| Utils.SubtypeOfMime | lib/utils.ts:76 | for `type/subtype`, possibly followed by more `/`-separated parts, the subtype is the second part |
| Utils.ExtensionFor | lib/utils.ts:76 | the subtype when non-empty, else "jpg"; never empty |
| Utils.StripExtension | lib/utils.ts:77 | removes exactly the final dot and its non-empty dot-free suffix; a name without one is unchanged |
| Utils.GetOutputFileName | lib/utils.ts:70-79 | an absent or empty type keeps the name; otherwise base name, a dot and the extension |
| Utils.DotlessNameGainsExtension | test/phase1.test.ts:92-94 | a name without a dot keeps all its text and gains ".ext" |
| Utils.ReplacesExtensionBySubtype | test/phase1.test.ts:84-98 | `base.ext` with type `top/sub` becomes `base.sub` |
| Utils.OutputFileNameIdempotent | lib/utils.ts:74-78 | applying the rule twice with a type whose extension has no dot equals applying it once |
| Resize.FitRatioBounds | lib/resize.ts:31-34 | both sides times `min(max/w, max/h)` are within max; the longer side lands on max |
| Resize.CalculateResizedDimensions | lib/resize.ts:19-41 | unchanged and `resized` false exactly when both sides fit; otherwise both sides times the ratio, rounded |
| Resize.ResizedFitsIntegerMax | lib/resize.ts:31-38 | for an integer max, resized sides are within it and the longer one (both, for a square) equals it |
| Resize.AspectRatioPreserved | lib/resize.ts:31-38 | the cross products of old and new sides differ by at most half the old perimeter |
| Resize.ResizeExamples | test/phase1.test.ts:12-56 | the test sizes: 800x600 and 1920x1080 unchanged, 4000x3000 to 1920x1440, a square to 1920x1920 |
| Resize.DrawTargetDimensions | lib/resize.ts:74-83 | the fit rule applies only for a positive `maxWidthOrHeight`, otherwise the natural size |
| Resize.ScaledSide | lib/resize.ts:51-52 | `max(1, round(side * scale))` is at least 1 |
| Resize.ScaledSideNeverGrows | lib/resize.ts:51-52 | a scale in (0, 1] never enlarges a side |
| Resize.ScaledSideFixedPoints | lib/resize.ts:51-52 | the 0.8 step stalls exactly on sides up to 2, the 0.9 step on sides up to 5 |
| Resize.ScaleCanvas | lib/resize.ts:47-58 | the new canvas has sides at least 1, no larger for a scale in (0, 1], same background |
| Search.OutputType | lib/compress.ts:53 | the requested type, else the input's type, else image/jpeg, an empty string counting as absent; never empty |
| Search.TargetBytes | lib/compress.ts:69 | the target is `maxSizeMB * 1048576`, positive for a positive limit |
| Search.BlobOf | lib/compress.ts:88 | the blob of a call has that call's size, canvas, quality and the output type |
| Search.CloseEnough | lib/compress.ts:103-106 | a blob is close enough exactly when it has a size within [0.9 target, target]; such a blob fits |
| Search.Midpoint | lib/compress.ts:82-97 | the first search call is halfway between MIN_QUALITY and the initial quality; each later one moves from the previous by Span(W, i+1), up exactly after a fit |
| Search.Updates | lib/compress.ts:90-93 | a search or refinement call replaces the best blob exactly when it fits, a downscale call only when the searches are skipped, a baseline never |
| Search.Step | lib/compress.ts:72-145 | a call follows only a call with a blob, never goes back a phase, is never a baseline, and its counter is 0 exactly on a change of phase and otherwise one more |
| Search.BestIndex | lib/compress.ts:84-93 | `bestBlob`: the last call that replaces it, or the baseline; no later call replaces it |
| Search.TraceExtend | lib/compress.ts:86-88 | a trace followed by a legal call is a trace |
| Search.TracePrefix | lib/compress.ts:72-145 | every prefix of a trace is a trace |
| Search.BestIndexExtend | lib/compress.ts:90-93 | a fitting search call becomes the best blob, any other call leaves it |
| Search.TraceLength | lib/compress.ts:72-145 | a run makes at most 31 encoder calls, at most 11 without the quality searches |
| Search.PhaseOrder | lib/compress.ts:72-145 | phases never go back: baseline, quality search, downscale, refinement |
| Search.PhaseRun | lib/compress.ts:86-132 | within a phase the loop counter rises by one per call |
| Search.CloseEnoughStops | lib/compress.ts:103-109 | no call follows a close-enough quality-search call |
| Search.QualityInsideRange | lib/compress.ts:82-97 | with initialQuality at least MIN_QUALITY, every tried quality lies in [MIN_QUALITY, initialQuality], Span(W, s+1) away from both ends, strictly inside when they differ |
| Search.SearchMoves | lib/compress.ts:87-97 | after a fit later calls of that search lie in the upper half left open, after a miss in the lower half |
| Search.SearchMonotone | lib/compress.ts:90-97 | after a fit every later call of that search tries a higher quality, after a miss a lower one |
| Search.BestIsHighestFitting | lib/compress.ts:90-93 | a best blob from a search has the highest quality of all fitting calls of that search |
| Search.MissesBeforeDownscale | lib/compress.ts:112-120 | once downscaling has started, no baseline or quality-search call fitted |
| Search.PendingFacts | lib/compress.ts:46-50 | an unfinished log is non-decreasing, within [0, 100], without 100 |
| Search.CompletedFacts | lib/compress.ts:46-50 | a finished log is non-decreasing, within [0, 100], and holds 100 |
| Search.CompleteLog | lib/compress.ts:107 | reporting 100 completes a pending log |
| Search.Reports | lib/compress.ts:100 | the reports of a search loop are its report function at 0, 1, ... |
| Search.ReportsPending | lib/compress.ts:99-100 | rising reports below 100 keep a log pending |
| Search.PendingConcat | lib/compress.ts:46-50 | two pending logs joined in order make a pending log |
| Search.Posted | lib/compress.ts:46-50 | the log of a run is the reports of each call in order; one call posts its own reports |
| Search.PostedExtend | lib/compress.ts:46-50 | one more call appends its reports to the log |
| Search.PostedQuiet | lib/compress.ts:128-145 | calls that report nothing leave the log as it was |
| Search.Completion | lib/compress.ts:107 | 100 is posted at the end exactly on success |
| Bisect.ProducedBeforeLast | lib/compress.ts:88 | every call but the last of a trace produced a blob |
| Bisect.MidpointOfInterval | lib/compress.ts:87-97 | `(low + high) / 2` is the prescribed midpoint, half of the interval from each end |
| Bisect.SearchStepLegal | lib/compress.ts:86-109 | the conditions under which a search call may follow |
| Bisect.SearchInvStep | lib/compress.ts:86-109 | one iteration keeps the trace, the interval of width Span(W, i), the best index and the no-fit fact |
| Bisect.Run | lib/compress.ts:82-110 | the search loop: at most 10 calls at the midpoints on one canvas, stopping at a null blob, a close-enough blob (quality search only) or the last iteration; `best` is the best call and fits whenever any call fits |
| Bisect.PostedSearch | lib/compress.ts:99-100 | the search calls are numbered 0, 1, ... and post g(0), g(1), ... for those that produced a blob |
| Compress.InitialQuality | lib/compress.ts:39 | the default 1.0 applies only when the option is absent |
| Compress.DrawnCanvas | lib/compress.ts:58 | the drawn canvas has the fitted size and no background fill |
| Compress.Report | lib/compress.ts:46-50 | a report is an integer in [0, 100] within half of its argument |
| Compress.SearchProgress | lib/compress.ts:100 | the report after quality iteration i is 34 + 4i |
| Compress.ScaleProgress | lib/compress.ts:149 | the report after downscale step i is 77 + 2i |
| Compress.CallReports | lib/compress.ts:74-149 | the reports one call causes: at most two, each in [30, 100) |
| Compress.ResultIndex | lib/compress.ts:157 | the returned call is a call of the run |
| Compress.LoggedFacts | lib/compress.ts:46-157 | the log starts 5, 20, is non-decreasing percentages, holding 100 exactly on success, last |
| Compress.ConcludeFailure | lib/compress.ts:88 | a null blob ends the run in failure with the null-blob message |
| Compress.ConcludeFitting | lib/compress.ts:103-116 | a finished run returning a fitting blob satisfies the run's postcondition |
| Compress.ConcludeRefine | lib/compress.ts:132-145 | a full refinement returns its best blob, oversized only when it is the baseline |
| Compress.SearchLog | lib/compress.ts:74-100 | 5, 20, 30 then the search reports: pending and at most 70 |
| Compress.SearchPosted | lib/compress.ts:74-100 | the calls up to the end of the quality search report 30, then 34 + 4i for each search call with a blob |
| Compress.SearchLogged | lib/compress.ts:74-100 | 5, 20 and those reports: the log of the run so far, pending, at most 70 |
| Compress.ShrinkLogStep | lib/compress.ts:123-149 | a missed downscale step i adds 77 + 2i to the log, a fitting one nothing |
| Compress.LogOutcome | lib/compress.ts:107-157 | a pending log of the run's calls is `Logged` once 100 is added on success |
| Compress.RefinePostsNothing | lib/compress.ts:128-145 | refinement calls report nothing |
| Compress.SearchCallReports | lib/compress.ts:100 | a quality-search call with a blob reports 34 + 4i, one without nothing |
| Compress.ShrinkStep | lib/compress.ts:123-125 | one downscale call at MIN_QUALITY keeps the trace, and the loop state while it misses |
| Compress.RefineOnFit | lib/compress.ts:128-145 | on the first fitting downscale: the refinement, its best blob or the null-blob failure, and no report |
| Compress.ConcludeExhausted | lib/compress.ts:149-157 | after 10 downscale misses the returned blob exists and satisfies the run's postcondition |
| Compress.ShrinkAndRefine | lib/compress.ts:118-157 | 0.9 then 0.8 downscales at MIN_QUALITY; on the first fit the refinement and its best blob; after 10 misses the last blob; the log after 75 is 77 + 2i per missed step i, then 100 on success |
| Compress.CompressToTarget | lib/compress.ts:69-157 | a fitting baseline is returned after one call; otherwise the search; the run's postcondition, and the log is 5, 20 then the reports of its calls, then 100 on success |
| Compress.SearchThenShrink | lib/compress.ts:82-157 | quality search on the drawn canvas, then its end |
| Compress.EndOfSearch | lib/compress.ts:103-116 | a close-enough call is returned, else a fitting best blob; otherwise the search ran all 10 calls and nothing fitted |
| Compress.EndSearch | lib/compress.ts:111-157 | the end of the quality search: null blob, close-enough, best blob, or 75 and downscaling; the log is the reports of the run's calls |
| Compress.SmartCompress | lib/compress.ts:32-158 | without a limit one call at the initial quality, progress 5, 20 and 100 on success; with one the run's postcondition and the log 5, 20, the reports of each call in order (30; 34 + 4i; 75 and 77 + 2i), 100 on success; failure exactly at a null blob |
| Worker.InitialQuality | lib/worker.ts:126 | an absent or zero initial quality becomes 1, any other is kept |
| Worker.IsTransparent | lib/worker.ts:115-116 | only supported types keep transparency |
| Worker.IsLossless | lib/worker.ts:130-131 | only supported types are lossless |
| Worker.OutputFormatClasses | lib/worker.ts:115-131 | jpeg: white, searched; png, gif: transparent, not searched; bmp: white, not searched; webp: transparent, searched |
| Worker.WorkerPolicy | lib/worker.ts:160-212 | factor 0.8 at every step; the quality searches exactly for a lossy output; downscaling at quality 1 when lossless, else MIN_QUALITY |
| Worker.CapPixels | lib/worker.ts:97-103 | the area is within 16777216, no side grows, the size is unchanged when under the cap, and one more pixel per side would exceed it |
| Worker.CapBounds | lib/worker.ts:100-102 | sides scaled by `sqrt(cap / area)` and floored are tightly capped |
| Worker.ScaledSides | lib/worker.ts:100-102 | both scaled sides are positive, no longer, and multiply to the cap |
| Worker.FloorProduct | lib/worker.ts:101-102 | flooring two factors of the cap stays within it; one more unit each exceeds it |
| Worker.DrawnCanvas | lib/worker.ts:84-121 | fitted size capped in area; white background exactly when the output is not png, webp or gif |
| Worker.SearchProgress | lib/worker.ts:177 | the value after search iteration i is 45 + 3i |
| Worker.ScaleProgress | lib/worker.ts:235 | the value after downscale step i is 80 + round(1.5 i) |
| Worker.CallReports | lib/worker.ts:155-235 | the values one call causes: at most two, each in [45, 100) |
| Worker.OversizedIsBaseline | lib/worker.ts:157 | in a finished run an oversized best blob is the baseline, after a refinement or exhausted downscaling |
| Worker.ConcludeFailure | lib/worker.ts:243-245 | a failed encode ends the run, posting the rejection's text |
| Worker.ConcludeBest | lib/worker.ts:239-241 | a finished run returning its best blob satisfies the run's postcondition |
| Worker.SearchLog | lib/worker.ts:155-178 | 5, 15, 25, 35, 45 then the search values: pending and at most 80 |
| Worker.SearchPosted | lib/worker.ts:155-178 | the calls up to the end of the quality search post 45, then 45 + 3i for each search call with a blob |
| Worker.SearchLogged | lib/worker.ts:155-178 | 5, 15, 25, 35 and those values: the log of the run so far, pending, at most 80 |
| Worker.ShrinkLogStep | lib/worker.ts:213-236 | a missed downscale step i adds 80 + round(1.5i) to the log, a fitting one nothing |
| Worker.LogOutcome | lib/worker.ts:239-245 | a pending log of the run's calls is `Logged` once 100 is added on success |
| Worker.RefinePostsNothing | lib/worker.ts:215-228 | refinement calls post nothing |
| Worker.SearchCallReports | lib/worker.ts:177-178 | a quality-search call with a blob posts 45 + 3i, one without nothing |
| Worker.ShrinkStep | lib/worker.ts:196-213 | one 0.8 downscale call at the policy's quality keeps the trace and the loop state |
| Worker.ShrinkAndRefine | lib/worker.ts:193-241 | 0.8 downscales at quality 1 (lossless) or MIN_QUALITY; on the first fit the refinement or that blob; the best blob is returned; the log after 80 is 80 + round(1.5i) per missed step i, then 100 on success |
| Worker.FinishOnFit | lib/worker.ts:213-232 | a lossy output refines and a lossless one keeps the fitting blob; the best blob is returned; nothing more is posted |
| Worker.SearchThenShrink | lib/worker.ts:157-194 | lossy quality search on the drawn canvas, then its end |
| Worker.EndOfSearch | lib/worker.ts:180-190 | a fitting best blob ends the run; otherwise the search ran all 10 calls and nothing fitted |
| Worker.EndSearch | lib/worker.ts:185-241 | the end of the search: rejection, best blob, or 80 and downscaling; the log is the values posted for the run's calls |
| Worker.CompressToTarget | lib/worker.ts:142-241 | fitting baseline returned; lossy outputs search, lossless ones go straight to 80 and downscaling; the log is 5, 15, 25, 35, the values posted for its calls, 100 on success |
| Worker.ShrinkBaseline | lib/worker.ts:155-241 | a lossless output posts 45 and 80 after its baseline and goes straight to downscaling |
| Worker.WorkerCompress | lib/worker.ts:59-245 | a failed decode posts only 5 and its error, with no encoder call; without a limit one call, progress 5, 15, 25, 35 and 95 on success; with one the run's postcondition under the policy the output type selects and the log 5, 15, 25, 35, the values of each call in order (45; 45 + 3i; 80 and 80 + round(1.5i)), 100 on success |
| Exif.U16 | lib/exif.ts:86 | `getUint16` reads two in-bounds bytes in the given byte order |
| Exif.U32 | lib/exif.ts:132 | `getUint32` reads two in-bounds halfwords in the given byte order |
| Exif.NextSegment | lib/exif.ts:80-88 | SOI and EOI advance by 2, other markers by 2 plus the length; the offset always grows |
| Exif.ScanMarkers | lib/exif.ts:66-91 | the marker loop's result is in 1..8 |
| Exif.ExifOrientation | lib/exif.ts:55-92 | the parser's result is in 1..8, and 1 without the SOI marker |
| Exif.App1Orientation | lib/exif.ts:97-155 | the APP1 result is in 1..8 |
| Exif.ValidOrientation | lib/exif.ts:148 | a value is kept exactly when it is in 1..8, else 1 |
| Exif.IfdOrientation | lib/exif.ts:140-154 | the IFD entry loop's result is in 1..8 |
| Exif.ParseExifOrientation | lib/exif.ts:55-92 | the marker loop computes `ExifOrientation`, every read in bounds, the offset strictly growing |
| Exif.ParseApp1 | lib/exif.ts:97-155 | the header checks compute `App1Orientation`, every read in bounds |
| Exif.ScanIfd | lib/exif.ts:140-154 | the entry loop computes `IfdOrientation`, every read in bounds |
| Exif.ScanReachesApp1 | lib/exif.ts:66-77 | a scan that reaches an APP1 returns that segment's result |
| Exif.FirstApp1Decides | lib/exif.ts:74-77 | the first APP1 segment reached decides the orientation |
| Exif.ScanWithoutApp1 | lib/exif.ts:66-91 | without an APP1 marker the scan gives 1 |
| Exif.OrientationNeedsApp1 | lib/exif.ts:59-91 | an orientation other than 1 needs the SOI marker and an APP1 marker |
| Exif.OrientedJpeg | test/phase2.test.ts:88-135 | the test buffer is 40 bytes long |
| Exif.OrientedJpegRoundTrip | test/phase2.test.ts:54-71 | a test buffer built with a value decodes to that value when in 1..8, else 1 |
| Exif.BareJpeg | test/phase2.test.ts:42-52 | SOI followed by EOI gives 1 |
| Exif.GetExifOrientation | lib/exif.ts:23-37 | in 1..8; 1 for a non-empty type other than image/jpeg and for a failed read |
| Exif.ReadLimit | lib/exif.ts:31 | bytes after the first 65536 never change the result |
| Exif.OrientedImageFillsCanvas | lib/exif.ts:166-213 | each transform places the image exactly on a canvas whose sides are swapped exactly for orientations 5 to 8 |
| Exif.OrientationTransform | lib/exif.ts:172-204 | each transform is a rotation or reflection (orthonormal linear part); the identity exactly outside 2..8 |
| Exif.NeedsSwapDimensions | lib/exif.ts:211-213 | the sides are swapped exactly for the transforms that send the x axis onto the y axis |
| Index.Decimal | lib/index.ts:40 | the numeral has only digits and no leading zero |
| Index.DecimalRoundTrip | lib/index.ts:40 | reading a numeral back gives its number |
| Index.ToFixed1 | lib/index.ts:40 | `toFixed(1)`: digits, a point and one digit, reading back as the rounded number of tenths |
| Index.Tenths | lib/index.ts:40 | a count of tenths written with one decimal reads back as that count |
| Index.ValidateInput | lib/index.ts:27-51 | a missing input and a non-Blob get their fixed messages without suggestion; accepted exactly for a file within 100 MiB whose type is empty or supported; the size check comes before the type check; suggestions exactly on file errors |
| Index.ValidationBoundaries | lib/index.ts:38-50 | exactly 100 MiB and 0-byte files pass, one byte more fails on size, an empty type is never refused |
| Index.SizeText | lib/index.ts:40 | a 150 MiB file is reported as "150.0" |
| Index.TooLargeMessage | lib/index.ts:40 | "File too large (", the size in MiB with one decimal, "MB). Maximum supported size is 100MB." |
| Index.UnsupportedTypeMessage | lib/index.ts:47 | "File type \"", the type as given, then the list of supported types joined by ", " |
| Index.Rethrown | lib/index.ts:102-111 | a library error is rethrown unchanged; any other is prefixed with "Browser compression failed: " and gets the retry suggestion |
| Index.RethrowIdempotent | lib/index.ts:103-104 | a rethrown error passes another handler unchanged |
| Index.Deliver | lib/index.ts:95-101 | a data URL exactly for `outputType === 'base64'`, else a file named by `getOutputFileName`; the blob is kept |
| Index.ReturnedCall | lib/index.ts:92 | the call whose blob is returned is a call of the run |
| Index.ImageCompression | lib/index.ts:85-112 | validation errors come out as they are with no encoder call; load failures and null blobs come out wrapped; on success the delivered blob of the returned call |

## Left out

- Browser primitives are not modelled: `canvas.toBlob` and `convertToBlob` become the `encode` parameter; `fileToImage` becomes the decoded size parameter of `Index.ImageCompression` (`None` when loading fails), and the worker's two `createImageBitmap` attempts become the `decoded` parameter of `Worker.WorkerCompress` (`None` when both fail, with the error text as a parameter). The same goes for `createCanvas`, `drawImage`, `fillRect`, `blobToFile`, `blobToBase64` and `readBlobAsArrayBuffer`. The pixels drawn are not modelled; a canvas is its size and whether it was filled with white.
- JavaScript numbers are exact reals and integers: no IEEE rounding, overflow or NaN. `Math.sqrt` is a parameter assumed exact (`Worker.IsSquareRoot`).
- Worker plumbing (`getWorker`, `terminateWorker`, `compressInWorker`, message ids, transfer of buffers, `isWorkerSupported`) and the AbortSignal cancellation are message passing and concurrency; only the worker script's algorithm is modelled.
- lib/watermark.ts is not part of this model: it is canvas drawing with a timed image load.
- `onProgress` is modelled as the returned progress sequence; callback timing is not.
- `applyExifOrientation` is modelled by its transform coefficients only, not by the drawing it affects.
- `createCanvas` throwing when no 2D context is available is not modelled.
- Worker.WorkerCompress: the text of an encoder rejection is a parameter (`rejection`) rather than derived from the error object.
- Index.ImageCompression: a load failure's message is the fixed text of the browser's error event; inputs are files with a name, so a nameless Blob is not modelled.
- Index.UnsupportedTypeMessage: the list of supported types in the message is stated as `Join` of the constant list, not spelled out character by character.
- Compress.ResultIndex: it states only that the index is a call of the run; what that call is, is stated by `Compress.Concluded`, used by `Compress.SmartCompress`.
- The mock size function of the test suite is not instantiated; the engines are proved for every encoder.
