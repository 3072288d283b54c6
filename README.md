# Slideshow maker, modelled in Dafny

The script `index.js` turns a folder of photos and video clips into one MP4
slideshow set to music. It runs in three stages:

1. It checks that `./music.mp3` exists. It then lists `./media` and keeps the
   names that end in an image extension (`jpg`, `jpeg`, `png`) or a video
   extension (`mp4`, `mov`, `avi`, `mkv`), ignoring case. If either check
   fails, it stops.
2. It normalises each media file, in order, into `tmp/clip_<index>.mp4`.
   - An image is held for 4 + 1 seconds.
   - A video is cut to at most 5 seconds. Its length comes from `ffprobe`, or
     is taken as 5 when probing fails.
   - A clip whose encode fails is skipped. If every encode fails, the script
     stops.
3. It joins the surviving clips with a chain of `xfade` cross-fades. It
   formats the result as `[video_out]`, loops the music under it as the last
   input, and renders `output/slideshow.mp4`.

The modules follow those stages:

- `wrappers.dfy` holds `Option`.
- `config.dfy` holds the script's constants: the paths, and the durations 4, 5 and 1.
- `text.dfy` holds decimal numerals, and `join`/`split` with their round trip.
- `media_names.dfy` holds the name filter and the image test.
- `normalize.dfy` holds the per-file loop and the list of surviving clips.
- `xfade.dfy` holds the filter-graph builder, as a loop proved against the
  specification function `FilterComplex`.
- `render.dfy` holds the final command and the whole script, `MakeSlideshow`.

The model follows the code as written, including its quirks:

- The running offset is used before it is advanced, so the first fade starts
  at 0 seconds. Each later fade starts 3 or 4 seconds after the one before.
  A fade that waited for the first clip would start at 3 after an image and
  at 4 after a video. The code starts it at 0: image, video, image gives
  fades at 0 and 3 (`Xfade.MixedFourClipPlan`), and a video first gives 0
  and 4 (`Xfade.MisalignedBasisAfterFailure`).
- The kind that decides the 3 or the 4 is read from the original media list
  at position i-1, not from the surviving clips. After a failed encode the
  kinds no longer line up with the clips (`Xfade.MisalignedBasisAfterFailure`).
  The script never reads past the end of that list: position i-1 is at most
  N-2, and N never exceeds the number of media files. `Xfade.Basis` still
  gives the video basis past the end, as JavaScript's `undefined` would fail
  the image test, but only to make the function total; `Render.MakeSlideshow`
  never reaches that case.
- With a single clip no fade is emitted, and the graph text starts with a
  stray `;` (`Xfade.SingleClipGraph`).

The external world enters as parameters of `Render.MakeSlideshow`:

- `musicExists` is the existence test of the music file.
- `listing` is the directory listing, already in collation order.
- `probe` is the duration query, which returns `None` when it fails.
- `encoded(i)` says whether the encode of media file i succeeds.
- `renders` says whether the final render succeeds.

## Model

| member | source | states |
|---|---|---|
| Config.PathJoin | index.js:9 | `path.join` of a `./` directory and a plain name drops the `./`; characterised by `Config.JoinedPaths` |
| Config.JoinedPaths | index.js:9 | the media, clip and output paths are `media/<name>`, `tmp/<name>` and `output/slideshow.mp4` |
| Text.Join | index.js:89 | `Array.prototype.join` with a one-character separator; characterised by `Text.SplitJoin` and `Text.JoinAppend` |
| Text.Decimal | index.js:56 | a number is written as a non-empty run of digits with no leading zero |
| Text.ParseDecimalOfDecimal | index.js:112 | reading back the written numeral gives the number again |
| Text.DecimalInjective | index.js:56 | different numbers are written differently |
| Text.SplitJoin | index.js:89 | splitting a join of separator-free pieces at the separator gives the pieces back |
| Text.JoinAppend | index.js:107 | joining two non-empty lists is joining each and putting one separator between them |
| Text.SplitJoinThen | index.js:107 | a join followed by a separator and a tail splits into the pieces (one empty piece when there are none) and then the tail |
| MediaNames.IsMedia | index.js:29 | the media test; equal to the literal pattern by `MediaNames.IsMediaMatchesPattern` |
| MediaNames.IsImage | index.js:57 | the image test; equal to the literal pattern by `MediaNames.IsImageMatchesPattern` |
| MediaNames.EndsWithExtension | index.js:29 | the pattern `\.ext$` with the `i` flag, read literally; `MediaNames.IsMediaMatchesPattern` and `MediaNames.IsImageMatchesPattern` compare the tests against it |
| MediaNames.KindOf | index.js:57-62 | the `isImage` branch that picks the encoder options; its effect on each request is stated by `Normalize.NormalizeAll` through `Normalize.ClipSeconds` |
| MediaNames.ExtensionOfIsAfterLastDot | index.js:29 | the extension is exactly the text after the last dot, and a name without a dot has none |
| MediaNames.ExtensionOfDotless | index.js:29 | a name without a dot has no extension |
| MediaNames.ExtensionOfDotted | index.js:29 | `stem.ext` has extension `ext` whatever the stem holds |
| MediaNames.LowerKeepsDots | index.js:29 | case folding moves no dot |
| MediaNames.PatternIsLastDotExtension | index.js:29 | a name ends in `.e`, ignoring case, exactly when its last-dot extension folds to `e` |
| MediaNames.IsMediaMatchesPattern | index.js:29 | the media test accepts exactly the names ending in one of the seven extensions, ignoring case |
| MediaNames.IsImageMatchesPattern | index.js:57 | the image test accepts exactly the names ending in `.jpg`, `.jpeg` or `.png`, ignoring case |
| MediaNames.ImageIsMedia | index.js:96 | every image passes the media filter, and a media name that is not an image ends in a video extension |
| MediaNames.LowerIdempotent | index.js:29 | folding twice is folding once |
| MediaNames.PatternIgnoresCase | index.js:29 | whether a name ends in an extension does not change when the name is folded to lower case |
| MediaNames.TestsIgnoreCase | index.js:29 | both tests give the same answer for a name and its lower-case form |
| MediaNames.MediaFiles | index.js:28-29 | the kept names are exactly the listed media names: none added, every media name kept, none longer than the listing |
| MediaNames.MediaFilesOne | index.js:29 | a one-entry listing keeps its entry exactly when it is a media name |
| MediaNames.MediaFilesAppend | index.js:29 | filtering works entry by entry, so the kept names stay in listing order with one copy per media entry |
| MediaNames.MediaFilesEmpty | index.js:32-35 | the list is empty exactly when no listed name is a media file |
| MediaNames.SampleImageNames | index.js:57 | `photo.JPG` and `scan.Jpeg` are images |
| MediaNames.SampleVideoNames | index.js:29 | `clip.MkV` and `a.png.mp4` are media but not images |
| MediaNames.SampleOtherNames | index.js:29 | `jpg`, `notes.txt` and `movie.mp4.bak` are not media |
| Normalize.SourcePath | index.js:55 | `path.join(MEDIA_DIR, file)`, which is `media/<file>` by `Config.JoinedPaths` |
| Normalize.ClipPath | index.js:56 | `path.join(TMP_DIR, 'clip_<index>.mp4')`; distinct per index by `Normalize.ClipPathInjective` |
| Normalize.ClipPathInjective | index.js:56 | two media positions never share a clip file |
| Normalize.ProbedSeconds | index.js:38-46 | the probed length when probing works, and the cut length 5 when it fails |
| Normalize.ClipSeconds | index.js:62-71 | an image lasts 5 s; a video lasts at most 5 s, exactly 5 when probing fails, and its probed length when that is at most 5 |
| Normalize.RequestFor | index.js:54-71 | the encoder request for one media file; `Normalize.NormalizeAll` issues exactly these, one per file in order, and `Normalize.ClipSeconds` fixes their length |
| Normalize.SurvivingIndices | index.js:73-79 | the positions whose encode succeeded, strictly increasing, no others |
| Normalize.Survivors | index.js:52-80 | the contents of `processedFiles` after the first n files; characterised by `Normalize.SurvivorsAreClipsOfSurvivingIndices` and the lemmas after it |
| Normalize.SurvivorsAreClipsOfSurvivingIndices | index.js:54-80 | entry k of `processedFiles` is the clip path of the k-th successful position |
| Normalize.SurvivorsComeFromSuccesses | index.js:73-79 | every clip in the list is the clip of some successful encode, and there are no more entries than files |
| Normalize.EverySuccessSurvives | index.js:73-79 | every successful encode contributes its clip |
| Normalize.SurvivorsAreDistinct | index.js:75 | no clip appears twice |
| Normalize.SurvivorsEmptyIffAllFailed | index.js:82-85 | nothing survives exactly when every encode failed |
| Normalize.OneFailureOfFive | index.js:73-79 | when the third of five encodes fails, the clips 0, 1, 3 and 4 remain, in order |
| Normalize.NormalizeAll | index.js:54-80 | one request per media file, in order, each with its source, clip path, kind and length, and `processedFiles` equal to the surviving clips |
| Xfade.LabelText | index.js:99-100 | how input labels `[k:v]` and step labels `[vi]` are written; characterised by `Xfade.LabelTextInjective` and `Xfade.LabelSamples` |
| Xfade.Basis | index.js:96-97 | 4 when the original name at the position is an image, and 5 otherwise, including past the end of the list; used by `Xfade.PlanOffsets` |
| Xfade.StepOffset | index.js:92-104 | the offset when step i is emitted; characterised by `Xfade.StepOffsetClosedForm` and `Xfade.OffsetsGrow` |
| Xfade.PreviousOutput | index.js:93-103 | the value of `lastOutput` when step i is emitted; `Xfade.PlanIsChained` shows it is `[0:v]` first and the previous step's output after |
| Xfade.StepAt | index.js:99-102 | one pushed step; `Xfade.PlanAt` places it in the plan and `Xfade.PlanIsChained` gives its labels |
| Xfade.Plan | index.js:95-105 | the steps the loop emits; characterised by `Xfade.PlanIsChained`, `Xfade.PlanOffsets` and `Xfade.EachLabelReadOnce` |
| Xfade.StepText | index.js:102 | the text of one fade step; it holds no `;` by `Xfade.NoSemicolonInStep` |
| Xfade.FormatStep | index.js:107 | the format step on the last output; `Xfade.FilterComplexPieces` shows it is the last `;`-separated piece |
| Xfade.FilterComplex | index.js:107 | the whole graph text; characterised by `Xfade.FilterComplexPieces` and `Xfade.FilterComplexEndsWithVideoOut`, and produced by `Xfade.BuildFilterComplex` |
| Xfade.LabelTextInjective | index.js:99-100 | different stream labels are written differently |
| Xfade.NextStep | index.js:95-105 | one round of the loop extends the emitted steps by the next planned step, advances the offset by the basis less the transition, and moves the running label |
| Xfade.BuildFilterComplex | index.js:91-107 | the built `filterComplex` is the planned steps joined by `;`, then `;`, then the format step on the last output |
| Xfade.PlanLength | index.js:95 | N clips give N-1 fades, and none for zero clips |
| Xfade.PlanAt | index.js:95-105 | the k-th emitted step is the step of round k+1 |
| Xfade.PlanIsChained | index.js:93-103 | the first fade reads `[0:v]`, each later fade reads the previous output, step i blends `[i:v]` into `[vi]`, and the format step reads the last output |
| Xfade.EachLabelReadOnce | index.js:99-103 | each step output is read only by the next step, each input is blended once, and no input label is ever a step output |
| Xfade.PlanOffsets | index.js:92-104 | the first fade is at 0, and each later offset is the previous one plus the basis of the original media file at the previous position, less 1 |
| Xfade.ImagesAmongFirstStep | index.js:96 | widening the window by one position adds one exactly when that position names an image |
| Xfade.StepOffsetClosedForm | index.js:96-104 | the offset of step i is 4(i-1) less one for each image among the first i-1 original names |
| Xfade.OffsetsGrow | index.js:96-104 | between steps i and j the offset grows by at least 3(j-i) and at most 4(j-i) seconds |
| Xfade.PlanOffsetsIncrease | index.js:104 | the fade offsets are strictly increasing |
| Xfade.NoSemicolonInLabel | index.js:99-100 | no label contains `;` |
| Xfade.NoSemicolonInStep | index.js:102 | no fade step contains `;` |
| Xfade.NoSemicolonInSteps | index.js:102 | no emitted fade step contains `;` |
| Xfade.NoSemicolonInFormatStep | index.js:107 | the format step contains no `;` |
| Xfade.FilterComplexEndsWithVideoOut | index.js:107 | the graph text always ends with `[video_out]` |
| Xfade.FilterComplexPieces | index.js:107 | split at `;`, the graph text is the fade steps followed by the format step, with one empty leading piece when there is a single clip |
| Xfade.LabelSamples | index.js:93 | inputs are written `[0:v]`, `[12:v]`, and step outputs `[v3]` |
| Xfade.SingleClipGraph | index.js:107 | one clip gives no fade and the text `;` plus the format step on `[0:v]` |
| Xfade.TwoImagesGraph | index.js:91-107 | two images give one fade of `[0:v]` into `[1:v]` at offset 0, then the format step on `[v1]` |
| Xfade.MixedFourClipPlan | index.js:96-104 | image, video, image, video give fades at 0, 3 and 7 |
| Xfade.MisalignedBasisAfterFailure | index.js:96 | when the first video fails, the second fade over three images is at 4, not at 3 |
| Render.InputList | index.js:89 | `inputList`; characterised by `Render.InputListWords` and `Render.RenderInputsAreSurvivingClips` |
| Render.InputArg | index.js:89 | the `-i "<clip>"` template for one clip; `Render.InputWordsAt` and `Render.InputListIsJoinedWords` give its two words |
| Render.InputWordsAt | index.js:89 | the input words come in pairs, `-i` and then the quoted path of clip k |
| Render.InputListIsJoinedWords | index.js:89 | `inputList` is those words joined by single spaces |
| Render.InputWordsHaveNoSpace | index.js:89 | for space-free paths, no input word holds a space |
| Render.InputListWords | index.js:89 | splitting `inputList` at its spaces gives the input words back |
| Render.ClipPathHasNoSpace | index.js:56 | clip paths hold no space |
| Render.RenderInputsAreSurvivingClips | index.js:89 | the k-th input of the final render is the clip of the k-th successful encode |
| Render.RenderCommandFor | index.js:110-114 | the varying parts of the final command; characterised by `Render.AudioMapSelectsMusic` and `Render.VideoMapIsGraphOutput` |
| Render.AudioMapSelectsMusic | index.js:110-112 | the audio map is `N:a`, where N is the number of surviving clips, which is also the number of `-i` inputs before the music |
| Render.VideoMapIsGraphOutput | index.js:107-112 | the video map is the label the graph ends with |
| Render.MakeSlideshow | index.js:22-122 | it stops for a missing music file, for an empty media list, or when no clip survives; otherwise it renders the surviving clips with the fade graph of the original list, and it reports a render failure |

## Left out

- Sorting: the listing is taken as already sorted by `localeCompare`. Collation order is locale-dependent and is not modelled.
- File-system calls (`existsSync`, `readdirSync`, `mkdirSync`) are not modelled. Their results become the parameters `musicExists` and `listing`, and directory creation is omitted.
- External processes (`ffprobe`, and both kinds of `ffmpeg` run through `execSync`) are not modelled. Their outcomes become `probe`, `encoded` and `renders`.
- `parseFloat` of the probe output, including `NaN`, is not modelled. `probe` returns the number it parsed, or `None` when the call fails. How a real length is printed into `-t` is not modelled either.
- The encoder options are fixed strings: scaling, padding, frame rate, codecs, `-loop`, `-ss`, `-an`, `-stream_loop`, `-shortest` and the shell quoting of the whole command line. `ClipRequest` and `RenderCommand` keep only the parts the script varies.
- Console output and emoji messages are not modelled.
- `process.exit(1)` is modelled as the `Abort` outcome of `Render.MakeSlideshow`, not as leaving the process.
- `path.join` is modelled by `Config.PathJoin` only for a directory written as `./<dir>` and a plain file name, which is how the script calls it. Normalisation of other paths (containing `..`, repeated `/` or an absolute part) is not modelled.
- Render.RenderInputsAreSurvivingClips: states the input order for clip paths only, which hold no spaces. Quoting of paths with spaces or quotes is part of the shell quoting left out above.
