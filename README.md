# QuickConvert core, modelled in Dafny

QuickConvert is a browser page that converts an image to another format
using FFmpeg compiled to WebAssembly. This project models the part of it
that is its own logic rather than UI or library wiring, all of it from
`src/lib/utils.ts` and `src/lib/constants.ts`:

- `splitExtension` (module `FileName`, file `file_name.dfy`). It is built on a
  model of JavaScript's `lastIndexOf` and `slice` (module `JsString`), which
  includes how `slice` clamps arguments and counts negative ones from the end.
  When a name has no `.`, `lastIndexOf` gives -1. Then `extension` is the
  whole name, and `name` is the name without its last character,
  because `slice(0, -1)` drops that character.
- `formatFileSize` (module `FileSize`). It is a method with the source's
  `while` loop over `i` and `newSize`. It is proved against a threshold
  definition of the chosen unit (`UnitIndex`), and the loop's own stopping
  rule (`IsUnitChoice`) is proved to pick the same unit and no other.
  Sizes are exact reals. `toFixed(2)` is a function parameter.
- `convertFile` (module `Conversion`). The FFmpeg engine is a class `Engine`
  whose field `files` is the virtual file system and whose ghost field
  `commands` records every `exec` argument vector. The effect of `exec` is
  the uninterpreted function `transcode`, which the engine is created with.
  `ConvertFile` is proved to match the pure reference `Convert`. The
  lemmas next to `Convert` state the command, the staging of the input, the
  MIME tag, the result record and the error cases.
- The output-format list and the MIME allow-list (module `Constants`).
  Their structural facts are proved, and so is how they relate to the
  `image/<ext>` tag that `convertFile` produces.

Module `Wrappers` holds `Option` (for `number | undefined`) and `Result`
(for operations that throw).

Three facts about the code that the model keeps:
- The allow-list has seven keys, `image/webp` among them.
- `convertFile` never checks that the output extension is a supported
  format. A tag such as `image/jpg` is produced without complaint (see
  `JpgOutputTagNotAccepted`).
- A name without a `.` gives as `name` the name minus its last character.

## Model

| member | source | states |
|---|---|---|
| JsString.LastIndexOf | src/lib/utils.ts:23 | the result is -1 exactly when there is no `.`; otherwise it is an index holding `.` with no `.` after it |
| JsString.RelativeIndex | src/lib/utils.ts:26-27 | a `slice` argument inside `-len..len` is an index, counted from the end when negative; further out it is clamped to the nearer end |
| JsString.Slice | src/lib/utils.ts:26 | `slice(start, end)` is the run beginning at the relative start, as long as the gap to the relative end, and empty when the end is not after the start |
| JsString.SliceFrom | src/lib/utils.ts:27 | `slice(start)` is the suffix from `start` (from the end when negative), empty past the end, the whole string before its start |
| JsString.SliceWithin | src/lib/utils.ts:26-27 | `slice` with indices inside the string is the ordinary subsequence |
| JsString.SliceNegativeEnd | src/lib/utils.ts:26 | `slice(0, -k)` drops the last `k` characters |
| JsString.SliceEndBeforeStart | src/lib/utils.ts:26 | `slice(0, -k)` on a string shorter than `k` is empty |
| FileName.SplitExtension | src/lib/utils.ts:21-30 | with a `.`: `name + "." + extension` rebuilds the file name and `extension` has no `.`; without one: `extension` is the whole name and `name` drops its last character (both empty for `""`) |
| FileName.LastDotAt | src/lib/utils.ts:23 | a `.` with no `.` after it is the index `lastIndexOf` returns |
| FileName.SplitAtLastDot | src/lib/utils.ts:23-29 | any way of writing the file name as `n + "." + e` with a dot-free `e` is the split: `name` is everything before the last `.` |
| FileName.TrailingDot | src/lib/utils.ts:26-27 | a name ending in `.` has an empty extension |
| FileName.LeadingOnlyDot | src/lib/utils.ts:26-27 | a name whose only `.` comes first (`.png`) has an empty `name` |
| FileName.InnerDotStaysInName | src/lib/utils.ts:23 | only the last `.` splits; earlier ones stay in `name` |
| FileName.EmptyFileName | src/lib/utils.ts:26-27 | `""` splits into two empty parts |
| FileName.DottedExamples | src/lib/utils.ts:47 | `output.jpg` and `archive.tar.gz` split as `output`/`jpg` and `archive.tar`/`gz` |
| FileName.DotlessExample | src/lib/utils.ts:26-27 | `README` splits as `READM`/`README` |
| FileSize.UnitIndex | src/lib/utils.ts:34 | the chosen unit index is always within the unit list |
| FileSize.Scaled | src/lib/utils.ts:39-40 | the shown value never moves away from zero or across it; negative sizes and sizes below 1000 are shown unscaled |
| FileSize.GuardAt | src/lib/utils.ts:38 | the loop guard holds at every index below the chosen unit and fails at the chosen unit |
| FileSize.UnitChoiceIsUnitIndex | src/lib/utils.ts:36-41 | the loop's stopping rule (the first index that is the last unit or has a value below 1000) holds exactly at the threshold-defined unit |
| FileSize.FormatFileSize | src/lib/utils.ts:32-44 | `undefined` gives exactly "Unknown size"; otherwise the text is the rendered value divided by 1000 once per unit step, a space, and the chosen unit |
| FileSize.ScaledBounds | src/lib/utils.ts:38 | on exit the value is below 1000 or the unit is TB; above bytes the value is at least 1 |
| FileSize.SmallSizeInBytes | src/lib/utils.ts:38 | a size below 1000, negative sizes included, stays unscaled in bytes |
| FileSize.HugeSizeInTerabytes | src/lib/utils.ts:38 | sizes of 10^15 and more stay in TB with a value of at least 1000 |
| FileSize.Examples | src/lib/utils.ts:43 | 500 is 500 bytes, 1500 is 1.5 KB, 1000000 is 1 MB |
| Constants.ImageOutputFormat | src/lib/constants.ts:2 | the output-format list png, jpeg, webp, in the source's order |
| Constants.ImageMimeTypes | src/lib/constants.ts:5-13 | the seven MIME types with their extension lists, as the source writes them |
| Constants.OutputFormatsExactly | src/lib/constants.ts:2 | the output formats are exactly png, jpeg and webp, with no duplicates |
| Constants.OutputFormatsHaveNoDot | src/lib/constants.ts:2 | no output format contains a `.` |
| Constants.OutputFormatsAreAccepted | src/lib/constants.ts:2-8 | for every output format `f`, `image/f` is an allow-list key and accepts `.f` |
| Constants.ExtensionsStartWithDot | src/lib/constants.ts:5-13 | every listed extension begins with `.` and has more after it |
| Constants.ExtensionsHaveOneMimeType | src/lib/constants.ts:5-13 | no extension is listed under two MIME types |
| Constants.JpegAliases | src/lib/constants.ts:7 | `image/jpeg` accepts `.jpeg` and `.jpg`; there is no `image/jpg` key |
| Constants.AllowListExamples | src/lib/constants.ts:5-13 | `application/pdf` is not in the allow-list; `image/png` is |
| Conversion.MimeTag | src/lib/utils.ts:60 | for an output name `stem.ext` with a dot-free `ext` the tag is `image/ext`; for a name without a `.` it is `image/` followed by the whole name |
| Conversion.Convert | src/lib/utils.ts:60-85 | success exactly when the output name exists after exec; the result then keeps the output name, carries those bytes and their count, and is tagged with `MimeTag` of the output name; failure is `FileNotFound` of the output name |
| Conversion.Engine.constructor | src/lib/utils.ts:7-15 | a loaded engine starts with an empty file system and has run no command |
| Conversion.Engine.WriteFile | src/lib/utils.ts:63 | the file system maps the path to the data, every other file unchanged; the command history is kept |
| Conversion.Engine.Exec | src/lib/utils.ts:71 | the file system becomes the transcoder's image of it, and the command is appended to the history |
| Conversion.Engine.ReadFile | src/lib/utils.ts:75 | a stored path yields its bytes; a missing one yields `FileNotFound` |
| Conversion.ConvertFile | src/lib/utils.ts:48-90 | no engine: `EngineNotLoaded` and nothing written; otherwise exactly one exec with `["-i", file.name, outputFullName]` (line 67) is appended, and the engine's files and the outcome are those of `Convert` |
| Conversion.ConvertState | src/lib/utils.ts:63-71 | the final file system is one exec of `["-i", file.name, outputFullName]` on the file system with the input's bytes stored under its name |
| Conversion.SupportedOutputIsAccepted | src/lib/utils.ts:79 | an output name `stem.f` for a supported format `f` is tagged `image/f`, an allow-listed type |
| Conversion.JpgOutputTagNotAccepted | src/lib/utils.ts:47 | `output.jpg` is tagged `image/jpg`, which is not an allow-list key, though `image/jpeg` lists `.jpg` |
| Conversion.ConvertToJpeg | src/lib/utils.ts:60-85 | converting to `out.jpeg`, once the engine has produced it, yields a result named `out.jpeg`, tagged `image/jpeg`, with the output's byte count |

## Left out

- `loadFfmpeg`: fetching the engine's assets over the network and initialising WebAssembly are I/O into a foreign library. The `Engine` constructor stands for the resulting empty engine.
- The effect of `ffmpeg.exec`: the transcoding belongs to FFmpeg. It is the uninterpreted `transcode` function.
- A failing `writeFile` or `exec`: the engine's own failures are not visible here. The model lets the write and the exec always complete. Only the null engine and a missing output file fail.
- `fetchFile`, `Blob` construction, `URL.createObjectURL` and `downloadFile`: browser and DOM side effects. The result record holds the blob (bytes and MIME type) in place of its object URL, and its size is the byte count.
- `cn`: a wrapper over the clsx and tailwind-merge libraries.
- FileSize.FormatFileSize: the IEEE-754 rounding of `/= 1000` and the `toFixed(2)` rendering are floating point. The size is an exact real, and the rendering is the `toFixed2` parameter. NaN and the infinities are not modelled.
- The asynchronous `await` sequencing and the `console.log`/`console.error` calls of `convertFile`. The steps run in sequence, and the catch-and-rethrow is an unchanged `Err` result.
- Concurrent conversions racing on one engine's file names: the model runs one conversion at a time.
- `src/components/Dropzone.tsx` and `src/App.tsx`: the React UI. MIME filtering is done by react-dropzone. Only the allow-list lookup is modelled (`Constants.IsAcceptedMimeType`).
- Strings are sequences of Dafny characters, which are Unicode scalar values. JavaScript strings are sequences of UTF-16 code units. The two agree on characters outside the astral planes. There is no Unicode normalisation.
- FileName.SplitExtension: indices count scalar values, not UTF-16 code units. For a name with no `.`, the model drops the last scalar value, where `slice(0, -1)` drops the last code unit. For a name ending in an astral character, JavaScript leaves a lone surrogate behind, and in that case the two differ. Names that contain a `.` split the same way in both.
- Conversion.Convert: `mimeType` is the `type` option passed to `new Blob` at src/lib/utils.ts:79, not the blob's `type` property. The File API lower-cases that option, and it gives `""` when the option has a character outside U+0020 to U+007E. So for `photo.PNG` the model's tag is `image/PNG` while the browser's blob type is `image/png`.
