/**
 * The segmentation stage: each transcoded variant is cut into HLS or DASH segments by
 * one ffmpeg run, in a directory named after the variant's resolution label, and the
 * stage collects the manifest path of every variant that succeeded and an error for
 * every one that did not.
 *
 * Creating a directory and running ffmpeg are parameters: `mkdirOk` says whether a
 * directory can be created and `segmentOk` whether a command line succeeds.
 */
module Segmenter {
  import opened Wrappers
  import opened GoStrings
  import GoPath
  import Analyzer
  import Transcoder

  // ---------------------------------------------------------------------------
  // Records

  /** An error of the stage: the operation and a summary (the wrapped cause is not kept). */
  datatype SegmenterError = SegmenterError(Op: string, Msg: string)

  /** What the stage produced for a transcoding session. */
  class SegmentResult {
    var OutputDir: string
    var Format: string
    var Success: bool
    var Manifests: seq<string>
    var Errors: seq<SegmenterError>
    var Media: Option<Analyzer.MediaInfo>

    /** A result holding the manifests and errors of the stage; it succeeded when there are no errors. */
    constructor (outputDir: string, format: string, media: Option<Analyzer.MediaInfo>,
                 manifests: seq<string>, errors: seq<SegmenterError>)
      ensures OutputDir == outputDir && Format == format && Media == media
      ensures Manifests == manifests && Errors == errors && Success == (errors == [])
    {
      OutputDir := outputDir;
      Format := format;
      Success := errors == [];
      Manifests := manifests;
      Errors := errors;
      Media := media;
    }
  }

  // ---------------------------------------------------------------------------
  // Labels

  /** The first of `parts` that ends in 'p', or "unknown". */
  function LabelFromParts(parts: seq<string>): string
  {
    if |parts| == 0 then "unknown"
    else if HasSuffix(parts[0], "p") then parts[0]
    else LabelFromParts(parts[1..])
  }

  /** `LabelFromFilename`: the first '_'-separated part of the name that ends in 'p', or "unknown". */
  function LabelFromFilename(filename: string): string
  {
    LabelFromParts(Split(filename, '_'))
  }

  lemma {:induction false} LabelFromPartsIsFirst(parts: seq<string>)
    ensures var r := LabelFromParts(parts);
            (r == "unknown" <==> forall i :: 0 <= i < |parts| ==> !HasSuffix(parts[i], "p"))
            && (r != "unknown" ==> exists i :: 0 <= i < |parts| && parts[i] == r && HasSuffix(r, "p")
                                               && forall j :: 0 <= j < i ==> !HasSuffix(parts[j], "p"))
    decreases |parts|
  {
    if |parts| > 0 && !HasSuffix(parts[0], "p") {
      var rest := parts[1..];
      LabelFromPartsIsFirst(rest);
      assert forall i :: 1 <= i < |parts| ==> parts[i] == rest[i - 1];
      var r := LabelFromParts(parts);
      if r != "unknown" {
        var i :| 0 <= i < |rest| && rest[i] == r && HasSuffix(r, "p") && forall j :: 0 <= j < i ==> !HasSuffix(rest[j], "p");
        assert parts[i + 1] == r;
      }
    }
  }

  /**
   * The label is the first '_'-separated part ending in 'p', and "unknown" exactly when
   * no part ends in 'p'; it never holds a '_'.
   */
  lemma LabelFromFilenameIsFirst(filename: string)
    ensures var r := LabelFromFilename(filename);
            var parts := Split(filename, '_');
            '_' !in r
            && (r == "unknown" <==> forall i :: 0 <= i < |parts| ==> !HasSuffix(parts[i], "p"))
            && (r != "unknown" ==> exists i :: 0 <= i < |parts| && parts[i] == r && HasSuffix(r, "p")
                                               && forall j :: 0 <= j < i ==> !HasSuffix(parts[j], "p"))
  {
    LabelFromPartsIsFirst(Split(filename, '_'));
  }

  /** A generated name slug_res_rest, with a slug not ending in 'p', gives the resolution. */
  lemma LabelOfVariantFile(slug: string, res: string, rest: string)
    requires '_' !in slug && !HasSuffix(slug, "p")
    requires '_' !in res && HasSuffix(res, "p")
    ensures LabelFromFilename(slug + "_" + (res + "_" + rest)) == res
  {
    var tail := res + ['_'] + rest;
    SplitCons(res, '_', rest);
    SplitCons(slug, '_', tail);
    var parts := [slug] + Split(tail, '_');
    assert parts[1..] == Split(tail, '_');
    assert LabelFromParts(parts) == LabelFromParts(Split(tail, '_'));
  }

  /** A slug ending in 'p' comes first, so it is taken for the label. */
  lemma SlugEndingInPIsLabel(slug: string, rest: string)
    requires '_' !in slug && HasSuffix(slug, "p")
    ensures LabelFromFilename(slug + "_" + rest) == slug
  {
    SplitCons(slug, '_', rest);
  }

  // ---------------------------------------------------------------------------
  // Command construction

  /** `manifestExtension`: "m3u8" for HLS, "mpd" for DASH, "txt" otherwise, ignoring case. */
  function ManifestExtension(format: string): string
  {
    var f := ToLower(format);
    if f == "hls" then "m3u8" else if f == "dash" then "mpd" else "txt"
  }

  /** Only the lower-cased format matters to the extension. */
  lemma ManifestExtensionIgnoresCase(format: string)
    ensures ManifestExtension(ToLower(format)) == ManifestExtension(format)
    ensures ManifestExtension(format) in {"m3u8", "mpd", "txt"}
    ensures ManifestExtension(format) == "m3u8" <==> ToLower(format) == "hls"
    ensures ManifestExtension(format) == "mpd" <==> ToLower(format) == "dash"
  {
    ToLowerIdempotent(format);
  }

  /**
   * `%.2f` of a non-negative real: the value rounded to two decimals, half up. Go formats
   * the binary float nearest to the interval, which can round a tie the other way.
   */
  function Fixed2(x: real): (s: string)
    requires x >= 0.0
  {
    var n := (x * 100.0 + 0.5).Floor;
    Itoa(n / 100) + "." + [DigitChar(n % 100 / 10), DigitChar(n % 10)]
  }

  /** A whole number of seconds is written with two zero decimals. */
  lemma Fixed2OfWhole(k: nat)
    ensures Fixed2(k as real) == Itoa(k) + ".00"
  {
    var n := (k as real * 100.0 + 0.5).Floor;
    assert n == 100 * k;
  }

  /** The `-force_key_frames` expression for a keyframe interval. */
  function KeyframeExpr(interval: real): string
    requires interval >= 0.0
  {
    "expr:gte(t,n_forced*" + Fixed2(interval) + ")"
  }

  /** Whether the media has a keyframe interval to align segments to. */
  predicate HasKeyframeInterval(media: Option<Analyzer.MediaInfo>) {
    media.Some? && media.value.KeyframeInterval > 0.0
  }

  /** The `-force_key_frames` pair when the media has a keyframe interval, else nothing. */
  function ForceKeyframes(media: Option<Analyzer.MediaInfo>): (r: seq<string>)
    ensures |r| == if HasKeyframeInterval(media) then 2 else 0
  {
    if HasKeyframeInterval(media) then ["-force_key_frames", KeyframeExpr(media.value.KeyframeInterval)] else []
  }

  /** `buildSegmentCommand`: the ffmpeg command line for the lower-cased format. */
  function BuildSegmentCommand(inputPath: string, outputDir: string, manifestName: string, format: string,
                               segmentLength: int, media: Option<Analyzer.MediaInfo>): seq<string>
  {
    CommandForFormat(ToLower(format), inputPath, GoPath.Join(outputDir, SegmentFilePattern), manifestName,
                     GoPath.Join(outputDir, manifestName), Itoa(segmentLength), ForceKeyframes(media))
  }

  /** The name pattern of the numbered segment files of HLS. */
  const SegmentFilePattern := "segment_%03d.ts"

  /**
   * The command line for a lower-cased format `f`, given the segment file pattern, the
   * manifest as a name and as a path in the output directory, the segment length and the
   * keyframe arguments.
   */
  function CommandForFormat(f: string, inputPath: string, segmentFiles: string, manifestName: string,
                            manifestPath: string, segLen: string, force: seq<string>): seq<string>
  {
    if f == "hls" then
      ["ffmpeg", "-i", inputPath, "-c", "copy", "-f", "hls", "-hls_time", segLen, "-hls_playlist_type", "vod",
       "-hls_segment_filename", segmentFiles] + force + [manifestName]
    else if f == "dash" then
      ["ffmpeg", "-i", inputPath, "-c", "copy", "-f", "dash", "-seg_duration", segLen, "-use_timeline", "1",
       "-use_template", "1"] + force + [manifestPath]
    else
      ["echo", "unsupported format"]
  }

  /**
   * The HLS command copies the streams of the input without re-encoding as "hls", with
   * the segment time as the decimal length, a VOD playlist whose segments are
   * outputDir/segment_%03d.ts, the keyframe pair (when the media has an interval) just
   * before the end, and the bare manifest name last.
   */
  lemma HLSCommand(inputPath: string, outputDir: string, manifestName: string, format: string,
                   segmentLength: int, media: Option<Analyzer.MediaInfo>)
    requires ToLower(format) == "hls"
    ensures var cmd := BuildSegmentCommand(inputPath, outputDir, manifestName, format, segmentLength, media);
            |cmd| == 14 + |ForceKeyframes(media)|
            && cmd[0] == "ffmpeg" && cmd[2] == inputPath && cmd[4] == "copy" && cmd[6] == "hls"
            && cmd[7] == "-hls_time" && cmd[8] == Itoa(segmentLength) && cmd[10] == "vod"
            && cmd[12] == GoPath.Join(outputDir, SegmentFilePattern)
            && cmd[13..|cmd| - 1] == ForceKeyframes(media)
            && cmd[|cmd| - 1] == manifestName
  {
    HLSLayout(inputPath, GoPath.Join(outputDir, SegmentFilePattern), manifestName, GoPath.Join(outputDir, manifestName),
              Itoa(segmentLength), ForceKeyframes(media));
  }

  lemma HLSLayout(inputPath: string, segmentFiles: string, manifestName: string, manifestPath: string,
                  segLen: string, force: seq<string>)
    ensures var cmd := CommandForFormat("hls", inputPath, segmentFiles, manifestName, manifestPath, segLen, force);
            |cmd| == 14 + |force|
            && cmd[0] == "ffmpeg" && cmd[2] == inputPath && cmd[4] == "copy" && cmd[6] == "hls"
            && cmd[7] == "-hls_time" && cmd[8] == segLen && cmd[10] == "vod"
            && cmd[12] == segmentFiles
            && cmd[13..|cmd| - 1] == force
            && cmd[|cmd| - 1] == manifestName
  {
    var cmd := CommandForFormat("hls", inputPath, segmentFiles, manifestName, manifestPath, segLen, force);
    assert cmd[13..|cmd| - 1] == force;
  }

  /**
   * The DASH command copies the streams of the input without re-encoding as "dash",
   * with the segment duration as the decimal length, timeline and template on, the
   * keyframe pair (when the media has an interval) just before the end, and outputDir
   * joined with the manifest name last.
   */
  lemma DASHCommand(inputPath: string, outputDir: string, manifestName: string, format: string,
                    segmentLength: int, media: Option<Analyzer.MediaInfo>)
    requires ToLower(format) == "dash"
    ensures var cmd := BuildSegmentCommand(inputPath, outputDir, manifestName, format, segmentLength, media);
            |cmd| == 14 + |ForceKeyframes(media)|
            && cmd[0] == "ffmpeg" && cmd[2] == inputPath && cmd[4] == "copy" && cmd[6] == "dash"
            && cmd[7] == "-seg_duration" && cmd[8] == Itoa(segmentLength)
            && cmd[10] == "1" && cmd[12] == "1"
            && cmd[13..|cmd| - 1] == ForceKeyframes(media)
            && cmd[|cmd| - 1] == GoPath.Join(outputDir, manifestName)
  {
    DASHLayout(inputPath, GoPath.Join(outputDir, SegmentFilePattern), manifestName, GoPath.Join(outputDir, manifestName),
               Itoa(segmentLength), ForceKeyframes(media));
  }

  lemma DASHLayout(inputPath: string, segmentFiles: string, manifestName: string, manifestPath: string,
                   segLen: string, force: seq<string>)
    ensures var cmd := CommandForFormat("dash", inputPath, segmentFiles, manifestName, manifestPath, segLen, force);
            |cmd| == 14 + |force|
            && cmd[0] == "ffmpeg" && cmd[2] == inputPath && cmd[4] == "copy" && cmd[6] == "dash"
            && cmd[7] == "-seg_duration" && cmd[8] == segLen
            && cmd[10] == "1" && cmd[12] == "1"
            && cmd[13..|cmd| - 1] == force
            && cmd[|cmd| - 1] == manifestPath
  {
    var cmd := CommandForFormat("dash", inputPath, segmentFiles, manifestName, manifestPath, segLen, force);
    assert cmd[13..|cmd| - 1] == force;
  }

  /** Any other format gives the placeholder command. */
  lemma UnsupportedCommand(inputPath: string, outputDir: string, manifestName: string, format: string,
                           segmentLength: int, media: Option<Analyzer.MediaInfo>)
    requires ToLower(format) != "hls" && ToLower(format) != "dash"
    ensures BuildSegmentCommand(inputPath, outputDir, manifestName, format, segmentLength, media) == ["echo", "unsupported format"]
  {
  }

  // ---------------------------------------------------------------------------
  // Segment length

  /**
   * The segment length of the stage: the keyframe interval rounded by adding a half and
   * truncating when none is configured and the media has an interval, else the configured
   * length when it is positive, else 4.
   */
  function SegmentLengthFor(configured: int, media: Option<Analyzer.MediaInfo>): int
  {
    if configured == 0 && HasKeyframeInterval(media) then (media.value.KeyframeInterval + 0.5).Floor
    else if configured > 0 then configured
    else 4
  }

  /**
   * A positive configured length wins; a negative one gives 4 whatever the media; the
   * rounded interval is never negative, and the length is zero only for an interval
   * under half a second.
   */
  lemma SegmentLengthRule(configured: int, media: Option<Analyzer.MediaInfo>)
    ensures var r := SegmentLengthFor(configured, media);
            r >= 0
            && (configured > 0 ==> r == configured)
            && (configured < 0 ==> r == 4)
            && (configured == 0 && !HasKeyframeInterval(media) ==> r == 4)
            && (r == 0 <==> configured == 0 && HasKeyframeInterval(media) && media.value.KeyframeInterval < 0.5)
  {
  }

  /** An interval of 3.2 seconds gives 3, and one of 3.5 seconds gives 4. */
  lemma SegmentLengthExamples(m: Analyzer.MediaInfo)
    ensures m.KeyframeInterval == 3.2 ==> SegmentLengthFor(0, Some(m)) == 3
    ensures m.KeyframeInterval == 3.5 ==> SegmentLengthFor(0, Some(m)) == 4
  {
  }

  // ---------------------------------------------------------------------------
  // SegmentMedia: the specification

  /** The directory a variant's segments go to: the session directory joined with its label. */
  function SegmentDir(outputDir: string, v: Transcoder.ResolutionVariant): string
  {
    GoPath.Join(outputDir, LabelFromFilename(v.OutputFilename))
  }

  /** The manifest name of a variant: its label with the format's extension. */
  function ManifestName(format: string, v: Transcoder.ResolutionVariant): string
  {
    LabelFromFilename(v.OutputFilename) + "." + ManifestExtension(format)
  }

  /** The command run for a variant. */
  function SegmentCommand(outputDir: string, format: string, configured: int, media: Option<Analyzer.MediaInfo>,
                          v: Transcoder.ResolutionVariant): seq<string>
  {
    BuildSegmentCommand(GoPath.Join(outputDir, v.OutputFilename), SegmentDir(outputDir, v), ManifestName(format, v), format,
                        SegmentLengthFor(configured, media), media)
  }

  /**
   * What one variant contributes: a "filesystem" error when its directory cannot be
   * created, a "segment" error when its command fails, and otherwise its manifest path.
   */
  function VariantOutcome(outputDir: string, format: string, configured: int, media: Option<Analyzer.MediaInfo>,
                          mkdirOk: string -> bool, segmentOk: seq<string> -> bool,
                          v: Transcoder.ResolutionVariant): Result<string, SegmenterError>
  {
    var lbl := LabelFromFilename(v.OutputFilename);
    if !mkdirOk(SegmentDir(outputDir, v)) then
      Err(SegmenterError("filesystem", "failed to create segment dir for " + lbl))
    else if !segmentOk(SegmentCommand(outputDir, format, configured, media, v)) then
      Err(SegmenterError("segment", "failed to segment " + v.OutputFilename))
    else
      Ok(GoPath.Join(SegmentDir(outputDir, v), ManifestName(format, v)))
  }

  function Outcomes(outputDir: string, format: string, configured: int, media: Option<Analyzer.MediaInfo>,
                    mkdirOk: string -> bool, segmentOk: seq<string> -> bool,
                    vs: seq<Transcoder.ResolutionVariant>): (r: seq<Result<string, SegmenterError>>)
    ensures |r| == |vs|
  {
    if |vs| == 0 then []
    else Outcomes(outputDir, format, configured, media, mkdirOk, segmentOk, vs[..|vs| - 1])
         + [VariantOutcome(outputDir, format, configured, media, mkdirOk, segmentOk, vs[|vs| - 1])]
  }

  /** The manifest paths among the outcomes, in order. */
  function Manifests(os: seq<Result<string, SegmenterError>>): (r: seq<string>)
    ensures |r| <= |os|
  {
    if |os| == 0 then []
    else Manifests(os[..|os| - 1]) + (if os[|os| - 1].Ok? then [os[|os| - 1].value] else [])
  }

  /** The errors among the outcomes, in order. */
  function Failures(os: seq<Result<string, SegmenterError>>): (r: seq<SegmenterError>)
    ensures |r| <= |os|
  {
    if |os| == 0 then []
    else Failures(os[..|os| - 1]) + (if os[|os| - 1].Err? then [os[|os| - 1].error] else [])
  }

  lemma OutcomesStep(outputDir: string, format: string, configured: int, media: Option<Analyzer.MediaInfo>,
                     mkdirOk: string -> bool, segmentOk: seq<string> -> bool,
                     vs: seq<Transcoder.ResolutionVariant>, i: nat)
    requires i < |vs|
    ensures Outcomes(outputDir, format, configured, media, mkdirOk, segmentOk, vs[..i + 1])
            == Outcomes(outputDir, format, configured, media, mkdirOk, segmentOk, vs[..i])
               + [VariantOutcome(outputDir, format, configured, media, mkdirOk, segmentOk, vs[i])]
  {
    assert vs[..i + 1][..i] == vs[..i];
  }

  lemma CollectSnoc(os: seq<Result<string, SegmenterError>>, o: Result<string, SegmenterError>)
    ensures Manifests(os + [o]) == Manifests(os) + (if o.Ok? then [o.value] else [])
    ensures Failures(os + [o]) == Failures(os) + (if o.Err? then [o.error] else [])
  {
    assert (os + [o])[..|os|] == os;
  }

  // ---------------------------------------------------------------------------
  // SegmentMedia: the method

  /**
   * The work for one variant: create its directory, settle the segment length, build the
   * command and run it.
   */
  method SegmentVariant(outputDir: string, format: string, configured: int, media: Option<Analyzer.MediaInfo>,
                        mkdirOk: string -> bool, segmentOk: seq<string> -> bool, v: Transcoder.ResolutionVariant)
    returns (outcome: Result<string, SegmenterError>)
    ensures outcome == VariantOutcome(outputDir, format, configured, media, mkdirOk, segmentOk, v)
  {
    var inputPath := GoPath.Join(outputDir, v.OutputFilename);
    var lbl := LabelFromFilename(v.OutputFilename);
    var dir := GoPath.Join(outputDir, lbl);
    if !mkdirOk(dir) {
      return Err(SegmenterError("filesystem", "failed to create segment dir for " + lbl));
    }
    var segmentLength := configured;
    if segmentLength == 0 && media.Some? && media.value.KeyframeInterval > 0.0 {
      segmentLength := (media.value.KeyframeInterval + 0.5).Floor;
    } else if segmentLength > 0 {
    } else {
      segmentLength := 4;
    }
    var manifestName := lbl + "." + ManifestExtension(format);
    var manifestPath := GoPath.Join(dir, manifestName);
    var cmd := BuildSegmentCommand(inputPath, dir, manifestName, format, segmentLength, media);
    if !segmentOk(cmd) {
      return Err(SegmenterError("segment", "failed to segment " + v.OutputFilename));
    }
    return Ok(manifestPath);
  }

  /** The loop over the variants: every outcome is an error or a manifest path. */
  method SegmentVariants(outputDir: string, format: string, configured: int, media: Option<Analyzer.MediaInfo>,
                         mkdirOk: string -> bool, segmentOk: seq<string> -> bool, variants: seq<Transcoder.ResolutionVariant>)
    returns (manifests: seq<string>, errors: seq<SegmenterError>)
    ensures manifests == Manifests(Outcomes(outputDir, format, configured, media, mkdirOk, segmentOk, variants))
    ensures errors == Failures(Outcomes(outputDir, format, configured, media, mkdirOk, segmentOk, variants))
  {
    manifests, errors := [], [];
    var i := 0;
    while i < |variants|
      invariant 0 <= i <= |variants|
      invariant manifests == Manifests(Outcomes(outputDir, format, configured, media, mkdirOk, segmentOk, variants[..i]))
      invariant errors == Failures(Outcomes(outputDir, format, configured, media, mkdirOk, segmentOk, variants[..i]))
    {
      OutcomesStep(outputDir, format, configured, media, mkdirOk, segmentOk, variants, i);
      var outcome := SegmentVariant(outputDir, format, configured, media, mkdirOk, segmentOk, variants[i]);
      CollectSnoc(Outcomes(outputDir, format, configured, media, mkdirOk, segmentOk, variants[..i]), outcome);
      if outcome.Err? {
        errors := errors + [outcome.error];
      } else {
        manifests := manifests + [outcome.value];
      }
      i := i + 1;
    }
    assert variants[..i] == variants;
  }

  /**
   * `SegmentMedia`, with the variants handled one after another. A missing result or one
   * without variants is refused.
   */
  method SegmentMedia(result: Transcoder.TranscodeResult?, format: string, media: Option<Analyzer.MediaInfo>,
                      mkdirOk: string -> bool, segmentOk: seq<string> -> bool)
    returns (r: Result<SegmentResult, SegmenterError>)
    ensures (result == null || result.Variants == []) ==> r == Err(SegmenterError("validate", "no variants to segment"))
    ensures result != null && result.Variants != [] ==> r.Ok? && fresh(r.value)
    ensures r.Ok? ==>
              result != null &&
              var res := r.value;
              var outcomes := Outcomes(result.OutputDir, format, result.Profile.SegmentLength, media, mkdirOk, segmentOk, result.Variants);
              res.OutputDir == result.OutputDir && res.Format == format && res.Media == media
              && res.Manifests == Manifests(outcomes) && res.Errors == Failures(outcomes)
              && res.Success == (res.Errors == [])
  {
    if result == null || |result.Variants| == 0 {
      return Err(SegmenterError("validate", "no variants to segment"));
    }
    var manifests, errors := SegmentVariants(result.OutputDir, format, result.Profile.SegmentLength, media,
                                             mkdirOk, segmentOk, result.Variants);
    var segResult := new SegmentResult(result.OutputDir, format, media, manifests, errors);
    return Ok(segResult);
  }

  // ---------------------------------------------------------------------------
  // SegmentMedia: properties

  /** Every variant gives exactly one manifest or one error. */
  lemma {:induction false} CollectCount(os: seq<Result<string, SegmenterError>>)
    ensures |Manifests(os)| + |Failures(os)| == |os|
    decreases |os|
  {
    if |os| > 0 {
      CollectCount(os[..|os| - 1]);
    }
  }

  lemma {:induction false} OutcomesAt(outputDir: string, format: string, configured: int, media: Option<Analyzer.MediaInfo>,
                                      mkdirOk: string -> bool, segmentOk: seq<string> -> bool,
                                      vs: seq<Transcoder.ResolutionVariant>, i: nat)
    requires i < |vs|
    ensures Outcomes(outputDir, format, configured, media, mkdirOk, segmentOk, vs)[i]
            == VariantOutcome(outputDir, format, configured, media, mkdirOk, segmentOk, vs[i])
    decreases |vs|
  {
    if i < |vs| - 1 {
      OutcomesAt(outputDir, format, configured, media, mkdirOk, segmentOk, vs[..|vs| - 1], i);
    }
  }

  /** Each collected manifest path and each error comes from one of the outcomes. */
  lemma {:induction false} CollectMembers(os: seq<Result<string, SegmenterError>>)
    ensures forall m :: m in Manifests(os) <==> Ok(m) in os
    ensures forall e :: e in Failures(os) <==> Err(e) in os
    decreases |os|
  {
    if |os| > 0 {
      var init := os[..|os| - 1];
      CollectMembers(init);
      assert os == init + [os[|os| - 1]];
    }
  }

  /**
   * A variant's outcome: its manifest path is outputDir/label/label.ext, and its error is
   * a "filesystem" or a "segment" error.
   */
  lemma OutcomeShape(outputDir: string, format: string, configured: int, media: Option<Analyzer.MediaInfo>,
                     mkdirOk: string -> bool, segmentOk: seq<string> -> bool, v: Transcoder.ResolutionVariant)
    ensures var o := VariantOutcome(outputDir, format, configured, media, mkdirOk, segmentOk, v);
            var lbl := LabelFromFilename(v.OutputFilename);
            (o.Ok? ==> o.value == GoPath.Join(GoPath.Join(outputDir, lbl), lbl + "." + ManifestExtension(format)))
            && (o.Err? ==> o.error.Op == "filesystem" || o.error.Op == "segment")
            && (o.Err? && o.error.Op == "filesystem" <==> !mkdirOk(GoPath.Join(outputDir, lbl)))
  {
  }

  /** Two variants with the same label that both succeed write the same manifest path. */
  lemma SameLabelSameManifest(outputDir: string, format: string, configured: int, media: Option<Analyzer.MediaInfo>,
                              mkdirOk: string -> bool, segmentOk: seq<string> -> bool,
                              v: Transcoder.ResolutionVariant, w: Transcoder.ResolutionVariant)
    requires LabelFromFilename(v.OutputFilename) == LabelFromFilename(w.OutputFilename)
    requires VariantOutcome(outputDir, format, configured, media, mkdirOk, segmentOk, v).Ok?
    requires VariantOutcome(outputDir, format, configured, media, mkdirOk, segmentOk, w).Ok?
    ensures VariantOutcome(outputDir, format, configured, media, mkdirOk, segmentOk, v)
            == VariantOutcome(outputDir, format, configured, media, mkdirOk, segmentOk, w)
  {
    OutcomeShape(outputDir, format, configured, media, mkdirOk, segmentOk, v);
    OutcomeShape(outputDir, format, configured, media, mkdirOk, segmentOk, w);
  }
  /** Every variant gives exactly one manifest path or one error of the stage. */
  lemma SegmentCounts(outputDir: string, format: string, configured: int, media: Option<Analyzer.MediaInfo>,
                      mkdirOk: string -> bool, segmentOk: seq<string> -> bool, vs: seq<Transcoder.ResolutionVariant>)
    ensures var os := Outcomes(outputDir, format, configured, media, mkdirOk, segmentOk, vs);
            |Manifests(os)| + |Failures(os)| == |vs|
  {
    CollectCount(Outcomes(outputDir, format, configured, media, mkdirOk, segmentOk, vs));
  }

  /**
   * Each collected manifest path belongs to a variant whose directory was created: it is
   * outputDir/label/label.ext for that variant's label.
   */
  lemma SegmentedManifest(outputDir: string, format: string, configured: int, media: Option<Analyzer.MediaInfo>,
                          mkdirOk: string -> bool, segmentOk: seq<string> -> bool,
                          vs: seq<Transcoder.ResolutionVariant>, m: string)
    requires m in Manifests(Outcomes(outputDir, format, configured, media, mkdirOk, segmentOk, vs))
    ensures exists i :: 0 <= i < |vs| &&
              var lbl := LabelFromFilename(vs[i].OutputFilename);
              mkdirOk(GoPath.Join(outputDir, lbl))
              && m == GoPath.Join(GoPath.Join(outputDir, lbl), lbl + "." + ManifestExtension(format))
  {
    var os := Outcomes(outputDir, format, configured, media, mkdirOk, segmentOk, vs);
    CollectMembers(os);
    var k :| 0 <= k < |os| && os[k] == Ok(m);
    OutcomesAt(outputDir, format, configured, media, mkdirOk, segmentOk, vs, k);
    OutcomeShape(outputDir, format, configured, media, mkdirOk, segmentOk, vs[k]);
  }

  /**
   * Each collected error belongs to a variant: a "filesystem" error naming its label, or
   * a "segment" error naming its file.
   */
  lemma SegmentedError(outputDir: string, format: string, configured: int, media: Option<Analyzer.MediaInfo>,
                       mkdirOk: string -> bool, segmentOk: seq<string> -> bool,
                       vs: seq<Transcoder.ResolutionVariant>, e: SegmenterError)
    requires e in Failures(Outcomes(outputDir, format, configured, media, mkdirOk, segmentOk, vs))
    ensures exists i :: 0 <= i < |vs| &&
              (e == SegmenterError("filesystem", "failed to create segment dir for " + LabelFromFilename(vs[i].OutputFilename))
               || e == SegmenterError("segment", "failed to segment " + vs[i].OutputFilename))
  {
    var os := Outcomes(outputDir, format, configured, media, mkdirOk, segmentOk, vs);
    CollectMembers(os);
    var k :| 0 <= k < |os| && os[k] == Err(e);
    OutcomesAt(outputDir, format, configured, media, mkdirOk, segmentOk, vs, k);
  }
}
