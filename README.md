# dotgo-transcode: a Dafny model of the transcoding pipeline core

dotgo-transcode turns one source video into an adaptive-bitrate package. The pipeline has four stages:

- **scaler**: keeps a fixed table of seven resolution presets, from 2160p down to 240p. It picks an initial preset for a source, filters the table for a client, and takes the adaptive step during playback.
- **transcoder**: loads and checks a transcoding profile. It builds ffmpeg command lines, then transcodes each rung of the variant ladder that fits the source and is not a duplicate. It records one output or one error per rung.
- **segmenter**: cuts every transcoded variant into HLS or DASH segments. Each variant goes into a directory named after its resolution label. The stage collects the variant manifests.
- **manifester**: writes the master manifest. This is an HLS `master.m3u8`, either fresh or reconciled with the one already on disk, or a DASH `master.mpd`.

Two small utilities are modelled as well: the bitrate parser (`"3000k"` to kbps) and the file-name slug. The Go library functions these rely on are modelled in two modules:

- `GoStrings` covers `strings` and `strconv`: TrimSpace, ToLower, Split, Join, `%d`, Atoi, 64-bit wrap-around and truncating division.
- `GoPath` covers `path/filepath` on a Unix host: Base, Ext, Clean and Join.

Pure Go code becomes functions with lemmas. Code that loops or updates state becomes methods with loop invariants, proved against specification functions:

- the filter and variant loops of `Transcode`;
- the variant loop of `SegmentMedia`;
- the parse, merge, ordering and write loops of the HLS reconciler;
- the write loop of the DASH master.

Go structs become classes: `TranscodeProfile`, `TranscodeResult` and `SegmentResult`. `ApplyDefaults` updates a `TranscodeProfile` in place. The two results are built once, by their constructors, from the records and errors that the variant loops collect. The goroutine-per-variant loops run one variant after another.

The outside world enters as parameters:

- whether paths are valid and directories can be created (`pathsValid`, `mkdirOk`);
- whether a given ffmpeg command line succeeds (`ffmpegOk`, `segmentOk`);
- whether a profile file could be read and decoded (`readOk`, `decoded`);
- the text of an existing master (`readMaster`, None when it cannot be read);
- whether a file can be created (`createOk`).

The masters are returned as a path together with the text written to it.

What is proved, among other things:

- **SelectResolutions** returns exactly the table presets that pass its three filters, in table order.
- **AdjustResolution**:
  - a matching manual override wins over every other rule;
  - a drop picks the lowest affordable tier below the current one;
  - a bump picks the highest affordable tier above it;
  - adjusting twice is the same as adjusting once.
- **Transcode**:
  - attempts every allowed variant key exactly once;
  - records a success or an error for each attempt, never both;
  - gives the recorded variants pairwise distinct output files.
- **SegmentMedia** gives one manifest path `dir/label/label.ext` or one error per variant.
- **HLS masters**:
  - parsing a written HLS master gives back its entries (a round trip through a model of `fmt.Sscanf`);
  - a reconciled master lists every merged label with a canonical prefix exactly once, in canonical order;
  - reconciling again against the text just written gives a valid listing again;
  - it writes the same text when at most one label shares each canonical prefix.
- **The DASH master** has the XML and MPD framing and one five-line adaptation set per manifest, in order. Its text is exactly what the Go writer emits.

In these places the model follows the code as written, which a reader may not expect:

- **`AdjustResolution`** bumps to the *highest* affordable preset above the current one, because the loop walks the table from 2160p down. It does not step up one tier at a time.
- **`resolutionFromLabel`** has no entry for 1440p or 2160p. Those labels get the default `640x360`.
- **`estimateBitrate`** reads the second `_`-separated part of the label. The segmenter names manifests `720p.m3u8`, whose label has no `_`, so every entry gets the 1 Mbps default (`EstimateWithoutUnderscore`).
- **The filter loop of `Transcode`** compares only the preset's height with the source height. The width is not compared.
- **`ClientContext`** is declared with four fields, but `AdjustResolution` reads three more: `ManualOverride`, `AdaptiveEnabled` and `RecentFailures`. The model's `ClientContext` has all seven.
- **`TranscodeProfile`** gains the fields `Variants` and `PreserveManifest`, which the stage and the pipeline read.
- **`buildFFmpegCommand`** is declared with a resolution string but called with a `Variant`. The model passes the variant's `Resolution`.
- **`SegmentResult`** gains the field `Media`, which the stage sets.

## Model

| member | source | states |
|---|---|---|
| Scaler.OneDefault | internal/scaler/presets.go:7-51 | exactly one preset is marked default, and it is the 1080p tier |
| Scaler.TableDescending | internal/scaler/presets.go:7-51 | heights, widths and minimum bitrates strictly decrease along the table, from 2160 to 240 |
| Scaler.LabelsAreHeights | internal/scaler/presets.go:7-51 | every preset's label is its decimal height followed by 'p' |
| Scaler.TableLabels | internal/scaler/presets.go:7-51 | labels are pairwise distinct and none is 144p |
| Scaler.NormalizeShape | internal/scaler/helpers.go:12-14 | a normalised label has no whitespace at its ends and no upper-case letter |
| Scaler.NormalizeIdempotent | internal/scaler/helpers.go:12-14 | normalising twice equals normalising once |
| Scaler.DigitsAndPNormal | internal/scaler/helpers.go:12-14 | a label of digits and 'p' is its own normal form |
| Scaler.PresetLabelsNormal | internal/scaler/helpers.go:34 | every table label is already in normal form |
| Scaler.NormalizedLabels | internal/scaler/helpers.go:33-34 | one normalised label per preset, position by position |
| Scaler.StandardLabelsNormalized | internal/scaler/helpers.go:33-34 | the normal forms of the table's labels are exactly the seven literal labels |
| Scaler.LabelIndexFromFinds | internal/scaler/helpers.go:33-37 | the lookup loop finds the first matching position at or after its start, and fails only when none matches |
| Scaler.LabelIndexMatches | internal/scaler/helpers.go:31-37 | a label's index is the first preset whose normalised label equals the label's normal form |
| Scaler.DimensionsForLabelMatches | internal/scaler/helpers.go:31-39 | a label resolves exactly when some preset's label equals its normal form, then to that preset's width and height; otherwise (0, 0) with the "resolution label not found" error |
| Scaler.DimensionsOfPresetLabel | internal/scaler/helpers.go:31-37 | every table label resolves to its own preset's dimensions |
| Scaler.Dimensions720 | internal/scaler/helpers.go:31-37 | " 720P " resolves to 1280x720: whitespace and case do not matter |
| Scaler.Dimensions144 | internal/scaler/helpers.go:38 | "144p" does not resolve and gives (0, 0) with an error |
| Scaler.SDAndHDSeparate | internal/scaler/types_helpers.go:15-22 | no preset is both SD and HD, heights strictly between 480 and 720 are neither, and every table tier is one of the two |
| Scaler.LabelWithDimensions | internal/scaler/types_helpers.go:10-12 | the text starts with the label and " (" and ends with ")" |
| Scaler.LabelWithDimensionsReadBack | internal/scaler/types_helpers.go:10-12 | the width and height are the decimals between the parentheses, separated by 'x' |
| Scaler.Summary | internal/scaler/types_helpers.go:25-27 | the summary is "Selected <label (WxH)> for playback. Reason: " followed by exactly the reason |
| Scaler.ClientContextPredicates | internal/scaler/client_context.go:15-22 | a nil context is neither mobile nor constrained; mobile means device type exactly "mobile" (case-sensitive); constrained means 0 < bandwidth < 2500, the 720p tier's minimum |
| Scaler.FirstSurvivor | internal/scaler/selector.go:14-36 | the first table index passing the upscale and bandwidth filters; none exactly when no preset passes |
| Scaler.FirstDefault | internal/scaler/selector.go:39-46 | the first index marked default; none exactly when no preset is default |
| Scaler.SelectPresetFrom | internal/scaler/selector.go:13-49 | over any table: the choice is a table preset, and the "no valid resolution preset found" error happens exactly when no preset survives and none is default |
| Scaler.SelectPreset | internal/scaler/selector.go:13-49 | over the standard table the choice always succeeds and is a table preset |
| Scaler.SelectPresetFirstSurvivor | internal/scaler/selector.go:14-36 | when some preset survives, the answer is the first survivor, with the survivor reason |
| Scaler.SelectPresetRespectsFilters | internal/scaler/selector.go:16-25 | outside the fallback the choice fits the source unless upscaling is preferred, and respects a known bandwidth |
| Scaler.SelectPresetLargestFitting | internal/scaler/selector.go:14-20 | without a context, when some preset fits, the choice is the largest fitting preset |
| Scaler.SelectPresetFallback | internal/scaler/selector.go:39-46 | when nothing survives, the 1080p default comes back with the fallback reason |
| Scaler.SelectPresetFallbackUpscales | internal/scaler/selector.go:39-46 | a 320x180 source without a context falls back to 1080p, an upscale |
| Scaler.LastBelow | internal/scaler/adaptive.go:21-26 | the last index affordable at the bandwidth and lower than the height; none exactly when no such preset exists |
| Scaler.FirstAbove | internal/scaler/adaptive.go:31-35 | the first index affordable at the bandwidth and higher than the height; none exactly when no such preset exists |
| Scaler.OverrideIndex | internal/scaler/adaptive.go:7-13 | a non-empty override selects the preset whose label is its normal form, and none when no label matches |
| Scaler.AdjustResolution | internal/scaler/adaptive.go:5-40 | the result is the current preset or a table preset |
| Scaler.AdjustOverride | internal/scaler/adaptive.go:7-13 | a matching manual override wins over every other rule |
| Scaler.AdjustOverrideExample | internal/scaler/adaptive.go:7-13 | the override " 720P " selects the 720p tier even with adaptation disabled |
| Scaler.AdjustDisabled | internal/scaler/adaptive.go:15-17 | without a matching override, a disabled adaptive switch keeps the current preset |
| Scaler.AdjustDrop | internal/scaler/adaptive.go:20-27 | after three or more failures: the lowest affordable preset below the current height, else the current preset |
| Scaler.AdjustBump | internal/scaler/adaptive.go:30-36 | with no failure: the highest affordable preset above the current height, else the current preset |
| Scaler.AdjustHysteresis | internal/scaler/adaptive.go:20-39 | one or two failures, or a negative count, change nothing |
| Scaler.AdjustIdempotent | internal/scaler/adaptive.go:5-40 | adjusting twice with the same context equals adjusting once |
| Scaler.Selection | internal/scaler/scaler.go:14-31 | the filtered selection is no longer than the table |
| Scaler.SelectionMembers | internal/scaler/scaler.go:14-31 | a preset is selected exactly when it is in the table and passes all three filters |
| Scaler.SelectionStep | internal/scaler/scaler.go:14-31 | one more table preset extends the selection by that preset exactly when it passes |
| Scaler.SelectionDescending | internal/scaler/scaler.go:14-31 | filtering a table with strictly decreasing heights keeps them strictly decreasing |
| Scaler.SelectResolutions | internal/scaler/scaler.go:11-38 | the loop returns the filtered selection, or the "no suitable resolutions found" error exactly when it is empty |
| Scaler.SelectionProperties | internal/scaler/scaler.go:14-35 | the selection is strictly descending and holds exactly the table presets that pass; none upscales without preference, none is SD when low resolutions are refused, none exceeds a known bandwidth |
| Transcoder.CheckProfileFilename | internal/transcoder/config_loader.go:18-34 | the name passes exactly when it is non-empty and its lower-cased extension is .json, .yaml or .yml; otherwise a "validate" error on "profiles/" (empty name) or on the name |
| Transcoder.CheckByExtension | internal/transcoder/config_loader.go:27-34 | for a name ending in "." and a plain tail, only the lower-cased tail decides, and a refusal quotes it |
| Transcoder.NoExtRefused | internal/transcoder/config_loader.go:27-34 | a name without a dot in its last element is refused, quoting "" |
| Transcoder.WithDefaultAudio | internal/transcoder/config_loader.go:89-91 | the codec after defaults is never empty and a set codec is kept |
| Transcoder.WithDefaultBitrate | internal/transcoder/config_loader.go:92-94 | the bitrate map after defaults is never nil and a set map is kept |
| Transcoder.DefaultsIdempotent | internal/transcoder/config_loader.go:88-95 | applying the defaults twice equals applying them once |
| Transcoder.ApplyDefaults | internal/transcoder/config_loader.go:88-95 | sets the audio codec and bitrate map to their defaults and leaves every other field unchanged |
| Transcoder.ValidateProfile | internal/transcoder/config_loader.go:99-129 | no problem exactly when input path, output dir, resolutions, video codec and container are present and the segment length is non-negative; otherwise the first failing check's message |
| Transcoder.LoadProfile | internal/transcoder/config_loader.go:17-84 | name errors first, then a "read" error on profiles/name, then an "unmarshal_json"/"unmarshal_yaml" error by extension, then defaults applied, every other field of the decoded profile kept, and a "validate" error or the profile; on the earlier errors the profile is untouched |
| Transcoder.SafeBase | internal/transcoder/helpers.go:28-29 | the safe base name has no space |
| Transcoder.SafeBaseNoSlash | internal/transcoder/helpers.go:28-29 | a base name other than "/" gives a safe base without '/' |
| Transcoder.FFmpegArgs | internal/transcoder/helpers.go:43-51 | the twelve arguments in order: ffmpeg, -i input, -vf scale, -c:v codec, -b:v bitrate, -c:a codec, output |
| Transcoder.BuildFFmpegCommand | internal/transcoder/helpers.go:26-52 | twelve arguments with scale=-2:res, the configured bitrate text as given (or ""), and the output dir joined with the generated file name last |
| Transcoder.KbpsOfInteger | internal/transcoder/helpers.go:33-40 | a plain integer bitrate gives that integer divided by 1000, truncated toward zero |
| Transcoder.KbpsOfSuffixed | internal/transcoder/helpers.go:33-37 | a bitrate with a unit suffix such as "5000k" does not parse, so it gives 0 kbps |
| Transcoder.KbpsOfNegative | internal/transcoder/helpers.go:40 | "-1500" gives -1 kbps (truncation, not flooring) |
| Transcoder.FilenameShape | internal/transcoder/helpers.go:40 | the generated name is base_resp_Nkbps.container with those parts in order |
| Transcoder.ItoaNoSlash | internal/transcoder/helpers.go:40 | a decimal numeral holds no '/' |
| Transcoder.FFmpegOutputIsFilename | internal/transcoder/helpers.go:40-50 | with a real base name and slash-free resolution and container, the last argument's base name is the generated file name |
| Transcoder.Allowed | internal/transcoder/transcoder.go:64-76 | the kept variants are no more than the ladder |
| Transcoder.AllowedMembers | internal/transcoder/transcoder.go:64-76 | a variant is kept exactly when it is in the ladder and its label names a preset no taller than the source |
| Transcoder.Variant144Dropped | internal/transcoder/transcoder.go:66-70 | a 144p rung names no preset and is never kept |
| Transcoder.AllowedRecord | internal/transcoder/transcoder.go:71-148 | a kept variant's preset is no taller than the source, and its record takes that preset's size |
| Transcoder.Keys | internal/transcoder/transcoder.go:130 | every variant's resolution_bitrate key is among the keys |
| Transcoder.KeysExactly | internal/transcoder/transcoder.go:130 | the key set is exactly the set of Resolution+"_"+Bitrate keys of the variants |
| Transcoder.Dedup | internal/transcoder/transcoder.go:130-140 | the deduplicated variants have pairwise distinct keys, the same key set as the input, and come from the input |
| Transcoder.DedupKeepsFirst | internal/transcoder/transcoder.go:130-140 | a variant whose key no earlier variant has is kept: only later duplicates are dropped |
| Transcoder.AttemptedVariants | internal/transcoder/transcoder.go:64-140 | the attempted variants are kept ladder variants with distinct keys, covering every kept key; none exactly when nothing is kept |
| Transcoder.Succeeded | internal/transcoder/transcoder.go:159-185 | the produced variants are no more than the attempted ones |
| Transcoder.Failed | internal/transcoder/transcoder.go:164-173 | the failed variants are no more than the attempted ones |
| Transcoder.RecordsOf | internal/transcoder/transcoder.go:178-184 | one record per produced variant |
| Transcoder.ErrorsOf | internal/transcoder/transcoder.go:168-171 | one error per failed variant |
| Transcoder.OutcomesCount | internal/transcoder/transcoder.go:159-185 | produced plus failed equals attempted |
| Transcoder.OutcomesMembers | internal/transcoder/transcoder.go:159-185 | the produced variants are exactly the attempted ones that succeed, the failed ones exactly those that fail |
| Transcoder.SucceededDistinct | internal/transcoder/transcoder.go:130-184 | produced variants keep pairwise distinct keys |
| Transcoder.RecordsOfAt | internal/transcoder/transcoder.go:178-184 | the i-th record is the record of the i-th produced variant |
| Transcoder.ErrorsOfAt | internal/transcoder/transcoder.go:168-171 | the i-th error is the error of the i-th failed variant |
| Transcoder.FilenameDeterminesKey | internal/transcoder/transcoder.go:130-151 | two output names of one slug are equal only for variants with the same key |
| Transcoder.RecordedFilenamesDistinct | internal/transcoder/transcoder.go:151-184 | no two records of a session share an output file name |
| Transcoder.RecordedVariant | internal/transcoder/transcoder.go:143-184 | each record belongs to a kept ladder variant whose command succeeded, with "auto" scaling, the generated file name and its preset's size, no taller than the source |
| Transcoder.RecordedError | internal/transcoder/transcoder.go:153-173 | each error belongs to a ladder variant whose command failed: "execution"/"transcode", exit code 1, the failed command, whose last argument is the error's output path |
| Transcoder.FilterAllowed | internal/transcoder/transcoder.go:64-76 | the filtering loop returns exactly the allowed variants, in order |
| Transcoder.RunVariant | internal/transcoder/transcoder.go:142-185 | one variant gives its record when its command succeeds and its error when it fails |
| Transcoder.RunVariants | internal/transcoder/transcoder.go:125-189 | the variant loop records exactly the produced variants of the deduplicated list, and the errors of the failed ones, in order |
| Transcoder.SessionDir | internal/transcoder/transcoder.go:37-39 | the slug and the output dir joined with it |
| Transcoder.TranscodeVariants | internal/transcoder/transcoder.go:63-189 | filter then variant loop: the records and errors of exactly the attempted variants |
| Transcoder.Transcode | internal/transcoder/transcoder.go:25-196 | a "validation" error for bad paths, a "filesystem" error when the slug dir cannot be made, else a fresh result over the slug dir whose variants and errors are those of the attempted variants, successful exactly when there is no error |
| Transcoder.TranscodeResult.constructor | internal/transcoder/transcoder.go:50-56 | a result holding its fields, successful exactly when it has no errors |
| Segmenter.LabelFromPartsIsFirst | internal/segmenter/types_helpers.go:15-21 | the label is the first part ending in 'p', else "unknown" exactly when no part ends in 'p' |
| Segmenter.LabelFromFilenameIsFirst | internal/segmenter/types_helpers.go:14-22 | the label is the first '_'-separated part ending in 'p', "unknown" exactly when none does, and holds no '_' |
| Segmenter.LabelOfVariantFile | internal/segmenter/types_helpers.go:14-22 | a transcoder name slug_res_rest with a slug not ending in 'p' gives res |
| Segmenter.SlugEndingInPIsLabel | internal/segmenter/types_helpers.go:15-21 | a slug ending in 'p' is taken as the label instead |
| Segmenter.ManifestExtensionIgnoresCase | internal/segmenter/helpers.go:76-85 | the extension is m3u8 exactly for "hls" and mpd exactly for "dash" in any case, txt otherwise |
| Segmenter.Fixed2OfWhole | internal/segmenter/helpers.go:34 | a whole number of seconds is written with two zero decimals |
| Segmenter.ForceKeyframes | internal/segmenter/helpers.go:32-36 | two arguments when the media has a positive keyframe interval, none otherwise |
| Segmenter.HLSCommand | internal/segmenter/helpers.go:29-56 | the HLS command copies streams as hls with the decimal segment time, a vod playlist with outputDir/segment_%03d.ts, the keyframe pair if any, and the bare manifest name last |
| Segmenter.HLSLayout | internal/segmenter/helpers.go:39-56 | the positions of every argument of the HLS command |
| Segmenter.DASHCommand | internal/segmenter/helpers.go:29-67 | the DASH command copies streams as dash with the decimal segment duration, timeline and template on, the keyframe pair if any, and outputDir/manifest last |
| Segmenter.DASHLayout | internal/segmenter/helpers.go:58-67 | the positions of every argument of the DASH command |
| Segmenter.UnsupportedCommand | internal/segmenter/helpers.go:69-70 | any other format gives the echo placeholder command |
| Segmenter.SegmentLengthRule | internal/segmenter/segmenter.go:72-81 | a positive configured length wins, a negative one gives 4, zero without an interval gives 4; the rounded length is never negative and zero only for an interval under half a second |
| Segmenter.SegmentLengthExamples | internal/segmenter/segmenter.go:73-74 | a 3.2 s interval gives 3 and a 3.5 s interval gives 4 |
| Segmenter.Outcomes | internal/segmenter/segmenter.go:51-104 | one outcome per variant |
| Segmenter.Manifests | internal/segmenter/segmenter.go:101 | the collected manifests are no more than the outcomes |
| Segmenter.Failures | internal/segmenter/segmenter.go:64-94 | the collected errors are no more than the outcomes |
| Segmenter.SegmentVariant | internal/segmenter/segmenter.go:56-102 | one variant's work gives exactly its outcome: filesystem error, segment error or the manifest path |
| Segmenter.SegmentVariants | internal/segmenter/segmenter.go:51-104 | the loop collects exactly the manifests and the errors of the outcomes, in order |
| Segmenter.SegmentMedia | internal/segmenter/segmenter.go:34-108 | a "validate" error without a result or variants; else a fresh result with the session dir, format, media, the collected manifests and errors, successful exactly when there is no error |
| Segmenter.SegmentResult.constructor | internal/segmenter/segmenter.go:40-45 | a result holding its fields, successful exactly when it has no errors |
| Segmenter.CollectCount | internal/segmenter/segmenter.go:61-102 | manifests plus errors equals outcomes |
| Segmenter.OutcomesAt | internal/segmenter/segmenter.go:51-104 | the i-th outcome belongs to the i-th variant |
| Segmenter.CollectMembers | internal/segmenter/segmenter.go:61-102 | each collected manifest and error comes from an outcome |
| Segmenter.OutcomeShape | internal/segmenter/segmenter.go:57-85 | a manifest path is outputDir/label/label.ext; an error is "filesystem" exactly when the directory cannot be made, else "segment" |
| Segmenter.SameLabelSameManifest | internal/segmenter/segmenter.go:57-85 | two successful variants with the same label write the same manifest path |
| Segmenter.SegmentCounts | internal/segmenter/segmenter.go:61-102 | every variant gives exactly one manifest path or one error |
| Segmenter.SegmentedManifest | internal/segmenter/segmenter.go:57-101 | each collected manifest is outputDir/label/label.ext of a variant whose directory was created |
| Segmenter.SegmentedError | internal/segmenter/segmenter.go:64-94 | each collected error is a "filesystem" error naming a label or a "segment" error naming a file |
| Helpers.ParseBitrateKbps | internal/utils/helpers/bitrate.go:11-22 | the result is a Go int, and 0 whenever the cleaned-up text is not a decimal integer |
| Helpers.ParseBitrateAccepts | internal/utils/helpers/bitrate.go:12-21 | an integer with whitespace padding and an optional "k" or "K" suffix reads as that integer, as in " 3000K " |
| Helpers.ParseBitrateRejects | internal/utils/helpers/bitrate.go:17-20 | a character that is not a digit, sign, whitespace or 'k' anywhere in the text gives 0 |
| Helpers.ParseBitrateBlank | internal/utils/helpers/bitrate.go:14-16 | empty or all-whitespace text gives 0 |
| Helpers.ParseBitrateLoneK | internal/utils/helpers/bitrate.go:13-16 | a suffix with nothing before it, "k" or " K ", gives 0 |
| Helpers.ParseBitrate3000K | internal/utils/helpers/bitrate.go:12-13 | " 3000K " is 3000 |
| Helpers.ParseBitrate3000kk | internal/utils/helpers/bitrate.go:13-20 | only one "k" is removed, so "3000kk" gives 0 |
| Helpers.ParseBitrateUnreadable | internal/utils/helpers/bitrate.go:14-20 | "", "k" and "abc" give 0 |
| Helpers.DigitsOfPlainK | internal/utils/helpers/bitrate.go:12-13 | for plain lower-case text ending in a digit, adding "k" is undone by the clean-up |
| Helpers.ParseFormatted | internal/utils/helpers/bitrate.go:11-22 | a formatted int, with or without "k", parses back to itself |
| Namer.SlugFromPath | internal/utils/namer/namer.go:9-12 | the slug followed by the extension is the base name, and holds no '/' unless it is "/" |
| Namer.SlugWithoutExt | internal/utils/namer/namer.go:9-12 | a dot-free file name, alone or after '/', is its own slug |
| Namer.SlugDropsLastExt | internal/utils/namer/namer.go:9-12 | only the last extension is removed: dir/a.b.c gives a.b |
| GoStrings.TrimSpace | internal/utils/helpers/bitrate.go:12 | the trimmed text has no whitespace at its ends |
| GoStrings.TrimSpaceOfTrimmed | internal/scaler/helpers.go:13 | text without whitespace at its ends is left alone |
| GoStrings.ToLower | internal/manifester/manifester.go:20 | same length, each character lower-cased |
| GoStrings.ToLowerIdempotent | internal/manifester/manifester.go:20 | lower-casing twice equals once |
| GoStrings.TrimSuffix | internal/utils/namer/namer.go:11 | a present suffix is removed and the rest plus the suffix is the input; otherwise the input comes back |
| GoStrings.Split | internal/segmenter/types_helpers.go:15 | at least one piece, none containing the separator |
| GoStrings.JoinSplit | internal/segmenter/types_helpers.go:15 | joining the pieces of a split gives the input back |
| GoStrings.SplitJoin | internal/manifester/hls.go:170 | splitting a join of separator-free pieces gives the pieces back |
| GoStrings.Itoa | internal/manifester/hls.go:44-47 | a non-empty decimal numeral with an optional '-', no whitespace, newline or comma |
| GoStrings.Atoi | internal/utils/helpers/bitrate.go:17 | a value is an optional sign and digits with a 64-bit result |
| GoStrings.AtoiItoa | internal/manifester/hls.go:66 | Atoi reads back every formatted 64-bit int |
| GoStrings.Wrap64 | internal/manifester/hls.go:67 | Go's 64-bit wrap-around: the result is in range, equal to the input when that is, and congruent modulo 2^64 |
| GoStrings.Quote | internal/transcoder/config_loader.go:32 | `%q` text: the escaped text between double quotes |
| GoStrings.UnquoteQuote | internal/transcoder/config_loader.go:32 | unquoting the `%q` text gives back the quoted string, so no bare '"' is left inside |
| GoStrings.UnescapeEscaped | internal/transcoder/config_loader.go:32 | decoding the escaped text gives back the original text |
| GoStrings.EscapedPlain | internal/transcoder/config_loader.go:32 | text without quotes, backslashes or control characters is quoted as it stands |
| GoStrings.QuoteOfQuote | internal/transcoder/config_loader.go:32 | `%q` of `.x"y` is `".x\"y"` |
| GoStrings.TruncDiv | internal/transcoder/helpers.go:40 | Go's division truncates toward zero |
| GoPath.Base | internal/utils/namer/namer.go:10 | a non-empty base name without '/' unless it is "/", and "." for the empty path |
| GoPath.Ext | internal/utils/namer/namer.go:11 | a suffix of the path that is empty or a dot followed by no dot or '/' |
| GoPath.JoinNormal | internal/manifester/hls.go:42 | joining two plain elements puts one '/' between them |
| GoPath.BaseOfJoin | internal/manifester/dash.go:40 | the base name of dir joined with a plain name is the name |
| GoPath.ExtOfSuffix | internal/transcoder/config_loader.go:27 | the extension of stem.tail is .tail for a dot- and slash-free tail |
| Manifester.ExtractLabel | internal/manifester/hls.go:55-58 | the label followed by the extension is the base name of the path |
| Manifester.EstimateBitrate | internal/manifester/hls.go:62-71 | always a 64-bit int |
| Manifester.EstimateWithoutUnderscore | internal/manifester/hls.go:63-70 | a label without '_' gets the 1 Mbps default |
| Manifester.EstimateOfKbps | internal/manifester/hls.go:63-68 | res_Nkbps gets N*1000 wrapped to 64 bits |
| Manifester.ResolutionFromLabel | internal/manifester/hls.go:74-93 | always one of the six table resolutions |
| Manifester.ResolutionIsWord | internal/manifester/hls.go:74-93 | every resolution is a non-empty word without whitespace, not starting with '#' |
| Manifester.ResolutionOfFirstPart | internal/manifester/hls.go:75-92 | only the part before the first '_' matters; 1440p and 2160p get the 640x360 default |
| Manifester.TerminatedAppend | internal/manifester/hls.go:33-47 | the text of two line lists is the texts one after the other |
| Manifester.SplitTerminated | internal/manifester/hls.go:170 | splitting newline-terminated newline-free lines at '\n' gives the lines and an empty last piece |
| Manifester.EntryLines | internal/manifester/hls.go:44-162 | two lines per entry |
| Manifester.HLSTextStep | internal/manifester/hls.go:36-48 | one more entry appends its stream-info line and URI, each with a newline |
| Manifester.HLSLinesShape | internal/manifester/hls.go:33-48 | the header, then a stream-info line and the URI of each entry, in order |
| Manifester.ScanDecimal | internal/manifester/hls.go:179 | Sscanf's %d reads a 64-bit value and moves forward |
| Manifester.ScanWord | internal/manifester/hls.go:179 | Sscanf's %s reads a non-empty word without whitespace and moves forward |
| Manifester.ScanItem | internal/manifester/hls.go:179 | one format item moves forward within the line |
| Manifester.SscanfScannable | internal/manifester/hls.go:179 | every scanned value is one its verb can deliver |
| Manifester.ScanStreamInf | internal/manifester/hls.go:179 | a scanned stream-info line gives a 64-bit bandwidth and a resolution word |
| Manifester.ScanStreamInfOfWritten | internal/manifester/hls.go:44-179 | the scanner reads back the bandwidth and resolution of every written stream-info line |
| Manifester.EntryFrom | internal/manifester/hls.go:174-186 | a line pair gives an entry exactly when the first has the tag and scans; then its label comes from the URL line |
| Manifester.ParsedFromLines | internal/manifester/hls.go:169-190 | every parsed entry's label comes from its URL, its bandwidth is 64-bit, its resolution a word, its URL a line of the text |
| Manifester.ParseHLSManifest | internal/manifester/hls.go:169-190 | the parse loop returns the entries of the consecutive line pairs, in order |
| Manifester.OneLinesConcat | internal/manifester/hls.go:170 | newline-free line lists concatenate to a newline-free list |
| Manifester.HLSLinesOneLine | internal/manifester/hls.go:44-47 | no line of a master of readable entries holds a newline |
| Manifester.HLSRoundTrip | internal/manifester/hls.go:155-190 | parsing the text of a master of readable entries gives exactly those entries back |
| HLSMaster.NotTagLine | internal/manifester/hls.go:174 | a URI starting with a plain label and '/' is not a stream-info line |
| HLSMaster.FreshEntries | internal/manifester/hls.go:36-48 | one entry per manifest |
| HLSMaster.FreshEntriesAt | internal/manifester/hls.go:37-42 | the i-th entry carries the i-th manifest's label, bitrate, resolution and label/label.m3u8 |
| HLSMaster.HLSTextSnoc | internal/manifester/hls.go:44-47 | one more entry appends exactly its two lines to the text |
| HLSMaster.HeaderText | internal/manifester/hls.go:33-34 | the text without entries is "#EXTM3U\n#EXT-X-VERSION:3\n" |
| HLSMaster.GenerateHLSText | internal/manifester/hls.go:33-48 | the writes give the text of the fresh entries |
| HLSMaster.FreshURI | internal/manifester/hls.go:42 | a plain label's URI is label/label.m3u8, a single newline-free, non-tag line whose label is the label |
| HLSMaster.FreshLines | internal/manifester/hls.go:33-48 | the fresh master's lines: the header, then per manifest its stream-info line and label/label.m3u8 |
| HLSMaster.FreshReadable | internal/manifester/hls.go:36-48 | a fresh entry of a plain label is read back by the parser |
| HLSMaster.FreshRoundTrip | internal/manifester/hls.go:25-190 | parsing a fresh master of plain labels gives back its entries |
| HLSMaster.EntriesByLabelKeys | internal/manifester/hls.go:126-129 | the labels of a map by label are the entries' labels, each mapped to one of the entries with that label |
| HLSMaster.EntriesByLabelLastWins | internal/manifester/hls.go:127-129 | the last entry with a label is that label's entry |
| HLSMaster.ReconcileEntries | internal/manifester/hls.go:115-123 | one entry per manifest |
| HLSMaster.ReconcileEntriesAt | internal/manifester/hls.go:116-122 | the i-th entry has the manifest's label, estimates and label/base-name URI |
| HLSMaster.MergedEntries | internal/manifester/hls.go:126-132 | merging keeps every old and new label; a new entry replaces an old one with its label; every entry sits under its own label |
| HLSMaster.BuildNewEntries | internal/manifester/hls.go:114-123 | the loop gives the new entries by label, a later manifest replacing an earlier one |
| HLSMaster.MergeEntries | internal/manifester/hls.go:126-132 | the two loops give the existing entries by label overwritten by the new entries |
| HLSMaster.RankPrefix | internal/manifester/hls.go:135-139 | a label has the prefix at place r exactly when its rank is r |
| HLSMaster.PrefixFree | internal/manifester/hls.go:135 | no label has two canonical prefixes |
| HLSMaster.PickGroup | internal/manifester/hls.go:138-142 | the inner loop lists every merged label with the prefix once, in some map order, with its entry |
| HLSMaster.ListedStep | internal/manifester/hls.go:137-143 | appending the next prefix group extends a listing by one place |
| HLSMaster.ReconcileOrder | internal/manifester/hls.go:134-143 | the ordering loops list every merged label with a canonical prefix exactly once, in canonical order, with its entry |
| HLSMaster.WriteHLSText | internal/manifester/hls.go:155-162 | the writes give the HLS text of the listed entries |
| HLSMaster.GenerateHLSMaster | internal/manifester/hls.go:25-51 | the fresh master at outputDir/master.m3u8, or the "write_file" error when it cannot be created |
| HLSMaster.ReconcileHLSMaster | internal/manifester/hls.go:97-165 | a "read_file" error when the master cannot be read; a "write_file" error when it cannot be created again; otherwise the text of a reconciled listing of the parsed existing entries merged with the new ones |
| HLSMaster.ReconcileReadable | internal/manifester/hls.go:116-122 | a listable manifest's reconciled entry is read back by the parser |
| HLSMaster.ReconcileAllReadable | internal/manifester/hls.go:114-123 | every reconciled entry of listable manifests is read back |
| HLSMaster.ListedReadable | internal/manifester/hls.go:126-143 | a listing of readable existing and listable new entries is readable |
| HLSMaster.ListingTransfer | internal/manifester/hls.go:137-143 | a listing depends only on the map's canonical labels |
| HLSMaster.ListedLabels | internal/manifester/hls.go:137-143 | each listed entry carries the label it is listed under |
| HLSMaster.RelistedKeys | internal/manifester/hls.go:127-143 | a listing keyed by label again agrees with the map on the canonical labels |
| HLSMaster.RelistAgrees | internal/manifester/hls.go:126-132 | re-merging the listing with the same manifests agrees with the first merge on the canonical labels |
| HLSMaster.ReconcileStable | internal/manifester/hls.go:97-190 | reconciling again against the written text: it parses back to the listing, which is again a valid listing |
| HLSMaster.StrictlyRankedUnique | internal/manifester/hls.go:135-143 | two sequences in strictly increasing canonical rank with the same members are equal |
| HLSMaster.ListingUnique | internal/manifester/hls.go:134-143 | with at most one label per prefix a map has one listing |
| HLSMaster.ReconcileIdempotent | internal/manifester/hls.go:97-165 | with at most one label per canonical prefix, reconciling again writes the same entries and text |
| DASHMaster.Representations | internal/manifester/dash.go:35-50 | one representation per manifest |
| DASHMaster.RepresentationsAt | internal/manifester/dash.go:36-40 | the i-th representation is the i-th manifest's label, its estimated bandwidth and label/base name |
| DASHMaster.BodyLines | internal/manifester/dash.go:42-49 | five lines per representation |
| DASHMaster.BodyLinesAt | internal/manifester/dash.go:35-50 | lines 5i to 5i+5 of the body form the i-th representation's adaptation set |
| DASHMaster.DASHFrame | internal/manifester/dash.go:31-53 | 5n+5 lines: the XML declaration, MPD and Period openers first, the Period and MPD closers last |
| DASHMaster.DASHBlockAt | internal/manifester/dash.go:35-50 | the i-th manifest's adaptation set names its label as id, the label's bandwidth, and label/file name as base URL |
| DASHMaster.RepresentationURL | internal/manifester/dash.go:40 | the base URL ends in the manifest's file name, and is label/name for a plain label |
| DASHMaster.WrittenStep | internal/manifester/dash.go:35-50 | one more manifest appends exactly its adaptation-set text |
| DASHMaster.GenerateDASHText | internal/manifester/dash.go:31-53 | the writes give the text of the master lines of the manifests' representations |
| DASHMaster.GenerateDASHMaster | internal/manifester/dash.go:23-56 | the master at outputDir/master.mpd, or the "write_file" error when it cannot be created |
| MasterManifest.FormatOfHLS | internal/manifester/manifester.go:20-21 | HLS is selected exactly by "hls" in any mix of cases |
| MasterManifest.FormatOfDASH | internal/manifester/manifester.go:20-26 | DASH is selected exactly by "dash" in any mix of cases |
| MasterManifest.FormatOfLower | internal/manifester/manifester.go:20 | lower-casing the format first selects the same format |
| MasterManifest.GenerateMasterManifest | internal/manifester/manifester.go:15-31 | a "validate" error without manifests or for an unsupported format; otherwise the DASH master, the reconciled HLS master with preserve, or the fresh HLS master |

## Left out

- **File system, ffmpeg runs and the clock** are not modelled; they are parameters. The metadata file, the progress ticker, logging and `time.Since` are not modelled.
- **Concurrency** is not modelled. The per-variant goroutines of `Transcode` and `SegmentMedia` run sequentially, in input order. In Go, the records, errors and manifests are appended in completion order, so the model fixes one of the possible orders.
- **Go map order** is not modelled. Within one canonical prefix the reconciler visits the labels in an unspecified order, which the model leaves open with a nondeterministic choice. Only order-free facts are stated for a group, and idempotence is proved as "same text" only when at most one label shares each prefix.
- **Error causes** are not kept. Every error keeps its operation and message; the wrapped Go `error` of `os`, `exec` and the decoders is dropped, and so are the `Error()` strings.
- Transcoder.Transcode: Go allocates the result before the variant loop, and the goroutines append to `result.Variants` and `result.Errors` while it runs. The model collects the records and errors first and then builds the result once. The final result is the same, but the model does not capture the partly filled result while variants are still running, or the shared lock.
- Segmenter.SegmentMedia: in the same way, Go appends to the fields of `segResult` inside the goroutines. The model builds the `SegmentResult` once from the collected manifests and errors.
- **`%q` of non-ASCII text**: `GoStrings.Quote` escapes `"`, `\` and the ASCII control characters as `strconv.Quote` does. Non-printable non-ASCII characters and invalid UTF-8 are written as they stand, where Go writes `\u`, `\U` or `\x` escapes.
- **Profile decoding** (JSON and YAML unmarshalling) is outside the model. `LoadProfile` receives the decoded profile, or null for a decode failure.
- **Analyzer, thumbnailer, executil, metadata and the cmd/pipeline programs** are outside this model. Only the `MediaInfo` record is modelled.
- **The passthrough and adaptive-server paths** are outside this model.
- **`AspectRatio`** returns a floating-point value and is not modelled.
- **ToLower**: `GoStrings.ToLower` lower-cases ASCII letters only. Go's `strings.ToLower` also maps non-ASCII letters.
- **`%.2f` of the keyframe interval**: `Segmenter.Fixed2` rounds the exact real half up. Go formats the nearest binary float, which can round a tie the other way.
- **`int(x + 0.5)`**: the segment-length rounding is done on reals, not on float64.
- **DASH parsing**: the DASH master is not parsed back. The model proves the exact text and line structure, but not that splitting the text at newlines returns the rendered lines. The XML literals are long, which makes that proof impractically expensive.
- **`%+v` text**: the `" and client context %+v"` text of `SelectPreset` prints the four declared `ClientContext` fields, as `&{DeviceType:… AllowLowRes:…}`. The three fields that only the adaptive step reads are not printed.
- Manifester.EstimateBitrate: its own contract states only the 64-bit range. Its value is stated by `EstimateWithoutUnderscore` and `EstimateOfKbps`, not for every label shape, such as labels with a sign or several parts.
