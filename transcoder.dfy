/**
 * The transcoding stage: the profile that drives it, the checks and defaults applied
 * when a profile is loaded, the ffmpeg argument builder, and `Transcode`, which filters
 * the profile's variant ladder against the source, skips duplicate variants and records
 * one success or one error for each remaining variant.
 *
 * The outcomes of the outside world are parameters: whether the input and output paths
 * are usable, whether the slug directory could be created, whether a profile file could
 * be read and decoded, and whether a given ffmpeg command line succeeds.
 */
module Transcoder {
  import opened Wrappers
  import opened GoStrings
  import GoPath
  import Scaler
  import Analyzer
  import Namer

  // ---------------------------------------------------------------------------
  // Records

  /** One rung of a variant ladder: a resolution label and a bitrate in ffmpeg's notation. */
  datatype Variant = Variant(Resolution: string, Bitrate: string)

  /** The standard ladder, from 1080p at 8000k down to 144p at 150k. */
  const DefaultVariants: seq<Variant> := [
    Variant("1080p", "8000k"),
    Variant("1080p", "5000k"),
    Variant("720p", "3000k"),
    Variant("720p", "2500k"),
    Variant("480p", "1500k"),
    Variant("360p", "1000k"),
    Variant("240p", "500k"),
    Variant("144p", "150k")
  ]

  /**
   * The parameters of one transcoding session. `Bitrate` is `None` where the Go map is
   * nil. `Variants` and `PreserveManifest` are the fields the stage and the pipeline read
   * beyond the declared ones.
   */
  class TranscodeProfile {
    var InputPath: string
    var OutputDir: string
    var Resolutions: seq<string>
    var AudioCodec: string
    var VideoCodec: string
    var Bitrate: Option<map<string, string>>
    var SegmentLength: int
    var Container: string
    var UseHardwareAccel: bool
    var Variants: seq<Variant>
    var PreserveManifest: bool

    /** The values of the fields at this moment. */
    function Fields(): ProfileFields
      reads this
    {
      ProfileFields(InputPath, OutputDir, Resolutions, AudioCodec, VideoCodec, Bitrate, SegmentLength, Container,
                    UseHardwareAccel, Variants, PreserveManifest)
    }
  }

  /**
   * A profile's field values. The command builder and the transcoding stage only read
   * the profile, so they are stated over these values.
   */
  datatype ProfileFields = ProfileFields(
    InputPath: string,
    OutputDir: string,
    Resolutions: seq<string>,
    AudioCodec: string,
    VideoCodec: string,
    Bitrate: Option<map<string, string>>,
    SegmentLength: int,
    Container: string,
    UseHardwareAccel: bool,
    Variants: seq<Variant>,
    PreserveManifest: bool)

  /** One variant that was produced. */
  datatype ResolutionVariant = ResolutionVariant(Width: int, Height: int, Bitrate: string, ScaleFlag: string, OutputFilename: string)

  /** An error of the stage, with the context it was raised in. A nil command is the empty sequence. */
  datatype TranscoderError = TranscoderError(
    Stage: string,
    Operation: string,
    InputPath: string,
    OutputPath: string,
    Command: seq<string>,
    ExitCode: int,
    Message: string)

  /** What a session produced. */
  class TranscodeResult {
    var InputPath: string
    var OutputDir: string
    var Duration: real
    var Success: bool
    var Variants: seq<ResolutionVariant>
    var Profile: TranscodeProfile
    var Errors: seq<TranscoderError>

    /** A result holding the records and errors of a session; it succeeded when there are no errors. */
    constructor (inputPath: string, outputDir: string, duration: real, profile: TranscodeProfile, variants: seq<ResolutionVariant>, errors: seq<TranscoderError>)
      ensures InputPath == inputPath && OutputDir == outputDir && Duration == duration && Profile == profile
      ensures Success == (errors == []) && Variants == variants && Errors == errors
    {
      InputPath := inputPath;
      OutputDir := outputDir;
      Duration := duration;
      Success := errors == [];
      Variants := variants;
      Profile := profile;
      Errors := errors;
    }
  }

  /** The underlying cause of a configuration error: a message, or a failed read or decode. */
  datatype ConfigCause = Reason(Text: string) | ReadFailed | DecodeFailed

  datatype ConfigError = ConfigError(Op: string, Path: string, Err: ConfigCause)

  // ---------------------------------------------------------------------------
  // Loading a profile

  predicate SupportedProfileExt(ext: string) {
    ext == ".json" || ext == ".yaml" || ext == ".yml"
  }

  /** The checks `LoadProfile` makes on the file name before reading anything. */
  function CheckProfileFilename(filename: string): (r: Option<ConfigError>)
    ensures r.None? <==> filename != "" && SupportedProfileExt(ToLower(GoPath.Ext(filename)))
    ensures r.Some? ==> r.value.Op == "validate"
    ensures filename == "" ==> r == Some(ConfigError("validate", "profiles/", Reason("filename is empty")))
    ensures filename != "" && r.Some? ==> r.value.Path == filename
  {
    if filename == "" then
      Some(ConfigError("validate", "profiles/", Reason("filename is empty")))
    else
      var ext := ToLower(GoPath.Ext(filename));
      if !SupportedProfileExt(ext) then
        Some(ConfigError("validate", filename, Reason("unsupported file extension " + Quote(ext))))
      else
        None
  }

  /**
   * For a name ending in "." and a dot- and slash-free tail, the check looks at that tail
   * only, lower-cased: it passes when the lower-cased extension is supported and otherwise
   * refuses the name, quoting the lower-cased extension.
   */
  lemma CheckByExtension(stem: string, tail: string)
    requires '.' !in tail && '/' !in tail
    ensures var name := stem + "." + tail;
            var ext := "." + ToLower(tail);
            CheckProfileFilename(name) ==
              if SupportedProfileExt(ext) then None
              else Some(ConfigError("validate", name, Reason("unsupported file extension " + Quote(ext))))
  {
    GoPath.ExtOfSuffix(stem, tail);
    var name := stem + "." + tail;
    assert name != "";
    assert ToLower("." + tail) == "." + ToLower(tail);
  }

  /** A name without a dot after its last '/' has no extension and is refused, quoting "". */
  lemma NoExtRefused(dir: string, name: string)
    requires dir == "" || dir[|dir| - 1] == '/'
    requires name != "" && '.' !in name && '/' !in name
    ensures CheckProfileFilename(dir + name) ==
            Some(ConfigError("validate", dir + name, Reason("unsupported file extension " + Quote(""))))
  {
    GoPath.ExtWithoutDot(dir, name);
  }

  /** The audio codec after defaults: "aac" in place of an empty one. */
  function WithDefaultAudio(codec: string): (r: string)
    ensures r != ""
    ensures codec != "" ==> r == codec
  {
    if codec == "" then "aac" else codec
  }

  /** The bitrate map after defaults: an empty map in place of a nil one. */
  function WithDefaultBitrate(bitrate: Option<map<string, string>>): (r: Option<map<string, string>>)
    ensures r.Some?
    ensures bitrate.Some? ==> r == bitrate
  {
    if bitrate.None? then Some(map[]) else bitrate
  }

  /** Filling in defaults twice is filling them in once. */
  lemma DefaultsIdempotent(codec: string, bitrate: Option<map<string, string>>)
    ensures WithDefaultAudio(WithDefaultAudio(codec)) == WithDefaultAudio(codec)
    ensures WithDefaultBitrate(WithDefaultBitrate(bitrate)) == WithDefaultBitrate(bitrate)
    ensures WithDefaultAudio("") == "aac" && WithDefaultBitrate(None) == Some(map[])
  {
  }

  /** `applyDefaults`: fills in the audio codec and the bitrate map, and touches nothing else. */
  method ApplyDefaults(p: TranscodeProfile)
    modifies p
    ensures p.AudioCodec == WithDefaultAudio(old(p.AudioCodec))
    ensures p.Bitrate == WithDefaultBitrate(old(p.Bitrate))
    ensures p.InputPath == old(p.InputPath) && p.OutputDir == old(p.OutputDir)
    ensures p.Resolutions == old(p.Resolutions) && p.VideoCodec == old(p.VideoCodec)
    ensures p.SegmentLength == old(p.SegmentLength) && p.Container == old(p.Container)
    ensures p.UseHardwareAccel == old(p.UseHardwareAccel) && p.Variants == old(p.Variants)
    ensures p.PreserveManifest == old(p.PreserveManifest)
  {
    if p.AudioCodec == "" {
      p.AudioCodec := "aac";
    }
    if p.Bitrate.None? {
      p.Bitrate := Some(map[]);
    }
  }

  /** Every check of a profile that fails, in the order `validateProfile` makes them. */
  function ProfileProblems(p: TranscodeProfile): seq<string>
    reads p
  {
    (if p.InputPath == "" then ["missing input_path"] else [])
    + (if p.OutputDir == "" then ["missing output_dir"] else [])
    + (if |p.Resolutions| == 0 then ["target_res must include at least one resolution"] else [])
    + (if p.VideoCodec == "" then ["missing video_codec"] else [])
    + (if p.Container == "" then ["missing container format"] else [])
    + (if p.SegmentLength < 0 then ["segment_length must be zero or a positive integer"] else [])
  }

  /**
   * `validateProfile`: the message of the first failing check; none exactly when the
   * required fields are present and the segment length is zero or positive.
   */
  function ValidateProfile(p: TranscodeProfile): (r: Option<string>)
    reads p
    ensures r.None? <==> p.InputPath != "" && p.OutputDir != "" && |p.Resolutions| > 0
                         && p.VideoCodec != "" && p.Container != "" && p.SegmentLength >= 0
    ensures r == if ProfileProblems(p) == [] then None else Some(ProfileProblems(p)[0])
  {
    if p.InputPath == "" then Some("missing input_path")
    else if p.OutputDir == "" then Some("missing output_dir")
    else if |p.Resolutions| == 0 then Some("target_res must include at least one resolution")
    else if p.VideoCodec == "" then Some("missing video_codec")
    else if p.Container == "" then Some("missing container format")
    else if p.SegmentLength < 0 then Some("segment_length must be zero or a positive integer")
    else None
  }

  /**
   * `LoadProfile`. `readOk` says whether the file could be read; `decoded` is the profile
   * the decoder produced from it, or null when decoding failed.
   */
  method LoadProfile(filename: string, readOk: bool, decoded: TranscodeProfile?) returns (r: Result<TranscodeProfile, ConfigError>)
    modifies decoded
    ensures CheckProfileFilename(filename).Some? ==> r == Err(CheckProfileFilename(filename).value)
    ensures CheckProfileFilename(filename).None? && !readOk ==>
              r == Err(ConfigError("read", GoPath.Join("profiles", filename), ReadFailed))
    ensures CheckProfileFilename(filename).None? && readOk && decoded == null ==>
              var op := if ToLower(GoPath.Ext(filename)) == ".json" then "unmarshal_json" else "unmarshal_yaml";
              r == Err(ConfigError(op, GoPath.Join("profiles", filename), DecodeFailed))
    ensures CheckProfileFilename(filename).None? && readOk && decoded != null ==>
              decoded.Fields() == old(decoded.Fields()).(AudioCodec := WithDefaultAudio(old(decoded.AudioCodec)),
                                                          Bitrate := WithDefaultBitrate(old(decoded.Bitrate)))
              && (ValidateProfile(decoded).None? ==> r == Ok(decoded))
              && (ValidateProfile(decoded).Some? ==>
                    r == Err(ConfigError("validate", filename, Reason(ValidateProfile(decoded).value))))
    ensures r.Ok? ==> ValidateProfile(r.value).None? && r.value.AudioCodec != "" && r.value.Bitrate.Some?
    ensures (CheckProfileFilename(filename).Some? || !readOk) && decoded != null ==>
              decoded.Fields() == old(decoded.Fields())
  {
    var check := CheckProfileFilename(filename);
    if check.Some? {
      return Err(check.value);
    }
    var ext := ToLower(GoPath.Ext(filename));
    var path := GoPath.Join("profiles", filename);
    if !readOk {
      return Err(ConfigError("read", path, ReadFailed));
    }
    if decoded == null {
      var op := if ext == ".json" then "unmarshal_json" else "unmarshal_yaml";
      return Err(ConfigError(op, path, DecodeFailed));
    }
    ApplyDefaults(decoded);
    var problem := ValidateProfile(decoded);
    if problem.Some? {
      return Err(ConfigError("validate", filename, Reason(problem.value)));
    }
    return Ok(decoded);
  }

  // ---------------------------------------------------------------------------
  // The ffmpeg command

  /** `profile.Bitrate[res]`: the configured bitrate, or "" when the key or the map is missing. */
  function BitrateFor(bitrate: Option<map<string, string>>, res: string): string {
    if bitrate.Some? && res in bitrate.value then bitrate.value[res] else ""
  }

  /** The input's base name without the input's extension, with spaces turned into underscores. */
  function SafeBase(inputPath: string): (r: string)
    ensures ' ' !in r
  {
    var base := GoPath.Base(inputPath);
    ReplaceChar(TrimSuffix(base, GoPath.Ext(inputPath)), ' ', '_')
  }

  /** A base name other than "/" has no '/', and neither has the safe base made from it. */
  lemma SafeBaseNoSlash(inputPath: string)
    requires GoPath.Base(inputPath) != "/"
    ensures '/' !in SafeBase(inputPath)
  {
    var base := GoPath.Base(inputPath);
    var stem := TrimSuffix(base, GoPath.Ext(inputPath));
    assert '/' !in stem by {
      if HasSuffix(base, GoPath.Ext(inputPath)) {
        assert stem + GoPath.Ext(inputPath) == base;
      }
    }
  }

  /** The bitrate in kbps for the file name: Go's truncating `n / 1000`, or 0 when `n` does not parse. */
  function KbpsOf(bitrateStr: string): int {
    match Atoi(bitrateStr)
    case Some(n) => TruncDiv(n, 1000)
    case None => 0
  }

  /** The file name `buildFFmpegCommand` gives the output. */
  function FFmpegFilename(profile: ProfileFields, res: string): string
  {
    SafeBase(profile.InputPath) + "_" + res + "p_" + Itoa(KbpsOf(BitrateFor(profile.Bitrate, res))) + "kbps." + profile.Container
  }

  /** The argument list of an ffmpeg run that scales, re-encodes at a bitrate and writes one file. */
  function FFmpegArgs(input: string, scale: string, videoCodec: string, bitrate: string, audioCodec: string, output: string): (r: seq<string>)
    ensures |r| == 12 && r[0] == "ffmpeg" && r[1] == "-i" && r[2] == input
    ensures r[3] == "-vf" && r[4] == scale && r[5] == "-c:v" && r[6] == videoCodec
    ensures r[7] == "-b:v" && r[8] == bitrate && r[9] == "-c:a" && r[10] == audioCodec
    ensures r[11] == output
  {
    ["ffmpeg", "-i", input, "-vf", scale, "-c:v", videoCodec, "-b:v", bitrate, "-c:a", audioCodec, output]
  }

  /**
   * `buildFFmpegCommand`: twelve arguments; `-b:v` gets the configured bitrate text as it
   * is, and the last argument is the output directory joined with the generated name.
   */
  function BuildFFmpegCommand(profile: ProfileFields, res: string): (r: seq<string>)
    ensures |r| == 12 && r[0] == "ffmpeg" && r[2] == profile.InputPath && r[4] == "scale=-2:" + res
    ensures r[6] == profile.VideoCodec && r[8] == BitrateFor(profile.Bitrate, res) && r[10] == profile.AudioCodec
    ensures r[11] == GoPath.Join(profile.OutputDir, FFmpegFilename(profile, res))
  {
    FFmpegArgs(profile.InputPath, "scale=-2:" + res, profile.VideoCodec, BitrateFor(profile.Bitrate, res), profile.AudioCodec,
               GoPath.Join(profile.OutputDir, FFmpegFilename(profile, res)))
  }

  /** A bitrate written as a plain integer gives that integer divided by 1000, truncated toward zero. */
  lemma KbpsOfInteger(n: int)
    requires InInt64(n)
    ensures KbpsOf(Itoa(n)) == TruncDiv(n, 1000)
  {
    AtoiItoa(n);
  }

  /** A bitrate with a unit suffix such as "5000k" does not parse, so it gives 0 kbps. */
  lemma KbpsOfSuffixed(s: string)
    requires s != [] && !IsDigit(s[|s| - 1])
    ensures KbpsOf(s) == 0
  {
    if |s| >= 2 {
      assert s[|s| - 1] == s[1..][|s| - 2];
    }
  }

  /** Truncation, not flooring: "-1500" gives -1 kbps. */
  lemma KbpsOfNegative()
    ensures KbpsOf(Itoa(-1500)) == -1
  {
    KbpsOfInteger(-1500);
  }

  /** The shape of a generated output name, whatever its parts. */
  lemma FilenameShape(base: string, res: string, kbps: string, container: string)
    ensures var name := base + "_" + res + "p_" + kbps + "kbps." + container;
            HasPrefix(name, base + "_" + res + "p_") && HasSuffix(name, "kbps." + container)
            && ('/' !in base && '/' !in res && '/' !in kbps && '/' !in container ==> GoPath.NormalElement(name))
  {
    var head := base + "_" + res + "p_";
    var tail := "kbps." + container;
    var name := head + kbps + "kbps." + container;
    assert name == head + (kbps + tail);
    assert name[..|head|] == head;
    assert name == (head + kbps) + tail;
    assert name[|name| - |tail|..] == tail;
    assert |name| >= 8;
  }

  /** A decimal numeral holds no '/'. */
  lemma ItoaNoSlash(n: int)
    ensures '/' !in Itoa(n)
  {
    var s := Itoa(n);
    if n < 0 {
      assert s == [s[0]] + s[1..];
    }
  }

  /**
   * When the input has a real base name and neither the resolution nor the container
   * holds a '/', the last argument names the generated file, which starts with the
   * space-free base name and the resolution and ends with the container.
   */
  lemma FFmpegOutputIsFilename(profile: ProfileFields, res: string)
    requires GoPath.Base(profile.InputPath) != "/"
    requires '/' !in res && '/' !in profile.Container
    ensures var name := FFmpegFilename(profile, res);
            GoPath.Base(BuildFFmpegCommand(profile, res)[11]) == name
            && HasPrefix(name, SafeBase(profile.InputPath) + "_" + res + "p_")
            && HasSuffix(name, "kbps." + profile.Container)
  {
    var base := SafeBase(profile.InputPath);
    var kbps := KbpsOf(BitrateFor(profile.Bitrate, res));
    SafeBaseNoSlash(profile.InputPath);
    ItoaNoSlash(kbps);
    FilenameShape(base, res, Itoa(kbps), profile.Container);
    GoPath.BaseOfJoin(profile.OutputDir, FFmpegFilename(profile, res));
  }

  // ---------------------------------------------------------------------------
  // Transcode: the specification

  /** A variant is kept when its label names a preset no taller than the source; the width is not compared. */
  predicate AllowedFor(v: Variant, media: Analyzer.MediaInfo) {
    var d := Scaler.DimensionsForLabel(v.Resolution);
    d.Err.None? && d.Height <= media.Height
  }

  /** The variants that are kept, in their original order. */
  function Allowed(vs: seq<Variant>, media: Analyzer.MediaInfo): (r: seq<Variant>)
    ensures |r| <= |vs|
  {
    if |vs| == 0 then []
    else
      var last := vs[|vs| - 1];
      Allowed(vs[..|vs| - 1], media) + (if AllowedFor(last, media) then [last] else [])
  }

  lemma AllowedStep(vs: seq<Variant>, i: nat, media: Analyzer.MediaInfo)
    requires i < |vs|
    ensures Allowed(vs[..i + 1], media) == Allowed(vs[..i], media) + (if AllowedFor(vs[i], media) then [vs[i]] else [])
  {
    assert vs[..i + 1][..i] == vs[..i];
  }

  lemma AllowedSnoc(xs: seq<Variant>, v: Variant, media: Analyzer.MediaInfo)
    ensures Allowed(xs + [v], media) == Allowed(xs, media) + (if AllowedFor(v, media) then [v] else [])
  {
    assert (xs + [v])[..|xs|] == xs;
  }

  /** The key under which duplicates are recognised. */
  function Key(v: Variant): string { v.Resolution + "_" + v.Bitrate }

  /** The keys of a sequence of variants. */
  function Keys(vs: seq<Variant>): (r: set<string>)
    ensures forall i :: 0 <= i < |vs| ==> Key(vs[i]) in r
  {
    if |vs| == 0 then {} else Keys(vs[..|vs| - 1]) + {Key(vs[|vs| - 1])}
  }

  /** `Keys` holds exactly the keys of the variants, and nothing else. */
  lemma {:induction false} KeysExactly(vs: seq<Variant>)
    ensures Keys(vs) == set v | v in vs :: Key(v)
    decreases |vs|
  {
    if |vs| > 0 {
      var init := vs[..|vs| - 1];
      assert vs == init + [vs[|vs| - 1]];
      KeysExactly(init);
    }
  }

  predicate DistinctKeys(vs: seq<Variant>) {
    forall i, j :: 0 <= i < j < |vs| ==> Key(vs[i]) != Key(vs[j])
  }

  /** Each variant whose key has not been seen before, in order: later duplicates are dropped. */
  function Dedup(vs: seq<Variant>): (r: seq<Variant>)
    ensures DistinctKeys(r)
    ensures Keys(r) == Keys(vs)
    ensures forall v :: v in r ==> v in vs
  {
    if |vs| == 0 then []
    else
      var init := vs[..|vs| - 1];
      var last := vs[|vs| - 1];
      var d := Dedup(init);
      if Key(last) in Keys(d) then d
      else
        assert (d + [last])[..|d|] == d;
        d + [last]
  }

  function Slug(profile: ProfileFields): string
  {
    Namer.SlugFromPath(profile.InputPath)
  }

  /** The directory the session writes into: the output directory joined with the slug. */
  function SlugDir(profile: ProfileFields): string
  {
    GoPath.Join(profile.OutputDir, Slug(profile))
  }

  /** The file a variant is written to: slug_resolution_bitratebps.mp4. */
  function VariantFilename(slug: string, v: Variant): string {
    slug + "_" + v.Resolution + "_" + v.Bitrate + "bps.mp4"
  }

  function VariantPath(profile: ProfileFields, v: Variant): string
  {
    GoPath.Join(SlugDir(profile), VariantFilename(Slug(profile), v))
  }

  /** The command run for a variant: the built command with its last argument replaced by the variant's path. */
  function VariantCommand(profile: ProfileFields, v: Variant): seq<string>
  {
    BuildFFmpegCommand(profile, v.Resolution)[11 := VariantPath(profile, v)]
  }

  /** Whether the command run for a variant succeeds. */
  function CommandSucceeds(profile: ProfileFields, ffmpegOk: seq<string> -> bool): Variant -> bool
  {
    v => ffmpegOk(VariantCommand(profile, v))
  }

  /** The variants that succeed, in order. */
  function Succeeded(ok: Variant -> bool, ds: seq<Variant>): (r: seq<Variant>)
    ensures |r| <= |ds|
  {
    if |ds| == 0 then []
    else
      var last := ds[|ds| - 1];
      Succeeded(ok, ds[..|ds| - 1]) + (if ok(last) then [last] else [])
  }

  /** The variants that fail, in order. */
  function Failed(ok: Variant -> bool, ds: seq<Variant>): (r: seq<Variant>)
    ensures |r| <= |ds|
  {
    if |ds| == 0 then []
    else
      var last := ds[|ds| - 1];
      Failed(ok, ds[..|ds| - 1]) + (if ok(last) then [] else [last])
  }

  /** The record of a produced variant: the preset's size when the label resolves, else the source's. */
  function RecordFor(slug: string, media: Analyzer.MediaInfo, v: Variant): ResolutionVariant {
    var d := Scaler.DimensionsForLabel(v.Resolution);
    var width := if d.Err.None? then d.Width else media.Width;
    var height := if d.Err.None? then d.Height else media.Height;
    ResolutionVariant(width, height, v.Bitrate, "auto", VariantFilename(slug, v))
  }

  function ErrorFor(profile: ProfileFields, v: Variant): TranscoderError
  {
    TranscoderError("execution", "transcode", profile.InputPath, VariantPath(profile, v), VariantCommand(profile, v), 1, "ffmpeg command failed")
  }

  function RecordsOf(slug: string, media: Analyzer.MediaInfo, vs: seq<Variant>): (r: seq<ResolutionVariant>)
    ensures |r| == |vs|
  {
    if |vs| == 0 then [] else RecordsOf(slug, media, vs[..|vs| - 1]) + [RecordFor(slug, media, vs[|vs| - 1])]
  }

  function ErrorsOf(profile: ProfileFields, vs: seq<Variant>): (r: seq<TranscoderError>)
    ensures |r| == |vs|
  {
    if |vs| == 0 then [] else ErrorsOf(profile, vs[..|vs| - 1]) + [ErrorFor(profile, vs[|vs| - 1])]
  }

  /** The distinct allowed variants of the profile: those `Transcode` attempts. */
  function Attempted(profile: ProfileFields, media: Analyzer.MediaInfo): seq<Variant>
  {
    Dedup(Allowed(profile.Variants, media))
  }

  lemma KeysSnoc(xs: seq<Variant>, v: Variant)
    ensures Keys(xs + [v]) == Keys(xs) + {Key(v)}
  {
    assert (xs + [v])[..|xs|] == xs;
  }

  lemma DedupSnoc(xs: seq<Variant>, v: Variant)
    ensures Dedup(xs + [v]) == if Key(v) in Keys(xs) then Dedup(xs) else Dedup(xs) + [v]
  {
    assert (xs + [v])[..|xs|] == xs;
  }

  lemma DedupStep(vs: seq<Variant>, j: nat)
    requires j < |vs|
    ensures Keys(vs[..j + 1]) == Keys(vs[..j]) + {Key(vs[j])}
    ensures Dedup(vs[..j + 1]) == if Key(vs[j]) in Keys(vs[..j]) then Dedup(vs[..j]) else Dedup(vs[..j]) + [vs[j]]
  {
    assert vs[..j + 1][..j] == vs[..j];
  }

  lemma OutcomesSnoc(ok: Variant -> bool, ds: seq<Variant>, v: Variant)
    ensures Succeeded(ok, ds + [v]) == Succeeded(ok, ds) + (if ok(v) then [v] else [])
            && Failed(ok, ds + [v]) == Failed(ok, ds) + (if ok(v) then [] else [v])
  {
    assert (ds + [v])[..|ds|] == ds;
  }

  lemma RecordsSnoc(slug: string, media: Analyzer.MediaInfo, vs: seq<Variant>, v: Variant)
    ensures RecordsOf(slug, media, vs + [v]) == RecordsOf(slug, media, vs) + [RecordFor(slug, media, v)]
  {
    assert (vs + [v])[..|vs|] == vs;
  }

  lemma ErrorsSnoc(profile: ProfileFields, vs: seq<Variant>, v: Variant)
    ensures ErrorsOf(profile, vs + [v]) == ErrorsOf(profile, vs) + [ErrorFor(profile, v)]
  {
    assert (vs + [v])[..|vs|] == vs;
  }

  /** How one attempted variant extends the records. */
  lemma RecordsStep(ok: Variant -> bool, slug: string, media: Analyzer.MediaInfo, ds: seq<Variant>, v: Variant)
    ensures RecordsOf(slug, media, Succeeded(ok, ds + [v])) ==
              RecordsOf(slug, media, Succeeded(ok, ds)) + (if ok(v) then [RecordFor(slug, media, v)] else [])
  {
    OutcomesSnoc(ok, ds, v);
    var before := Succeeded(ok, ds);
    if ok(v) {
      assert Succeeded(ok, ds + [v]) == before + [v];
      RecordsSnoc(slug, media, before, v);
    } else {
      assert Succeeded(ok, ds + [v]) == before;
    }
  }

  /** How one attempted variant extends the errors. */
  lemma ErrorsStep(profile: ProfileFields, ok: Variant -> bool, ds: seq<Variant>, v: Variant)
    ensures ErrorsOf(profile, Failed(ok, ds + [v])) ==
              ErrorsOf(profile, Failed(ok, ds)) + (if ok(v) then [] else [ErrorFor(profile, v)])
  {
    OutcomesSnoc(ok, ds, v);
    var before := Failed(ok, ds);
    if ok(v) {
      assert Failed(ok, ds + [v]) == before;
    } else {
      assert Failed(ok, ds + [v]) == before + [v];
      ErrorsSnoc(profile, before, v);
    }
  }

  // ---------------------------------------------------------------------------
  // Transcode: the method

  /** The filtering loop at the start of `Transcode`: keeps the variants that are allowed for the source. */
  method FilterAllowed(variants: seq<Variant>, media: Analyzer.MediaInfo) returns (allowed: seq<Variant>)
    ensures allowed == Allowed(variants, media)
  {
    allowed := [];
    var i := 0;
    while i < |variants|
      invariant 0 <= i <= |variants|
      invariant allowed == Allowed(variants[..i], media)
    {
      var v := variants[i];
      AllowedStep(variants, i, media);
      var d := Scaler.DimensionsForLabel(v.Resolution);
      if d.Err.Some? {
        i := i + 1;
        continue;
      }
      if d.Height <= media.Height {
        allowed := allowed + [v];
      }
      i := i + 1;
    }
    assert variants[..i] == variants;
  }

  /** Proof helper for `RunVariant`: the command with its output path set is `VariantCommand`. */
  lemma VariantCommandIs(profile: ProfileFields, v: Variant, slugDir: string, cmd: seq<string>)
    requires slugDir == SlugDir(profile)
    requires cmd == BuildFFmpegCommand(profile, v.Resolution)[11 := GoPath.Join(slugDir, VariantFilename(Slug(profile), v))]
    ensures cmd == VariantCommand(profile, v)
  {
  }

  /**
   * One pass of the variant loop of `Transcode`: look up the size, build the command
   * with the variant's own output path, run it, and give the variant's record or its error.
   */
  method RunVariant(profile: ProfileFields, media: Analyzer.MediaInfo, slug: string, slugDir: string, v: Variant,
                    ffmpegOk: seq<string> -> bool)
    returns (outcome: Result<ResolutionVariant, TranscoderError>)
    requires slug == Slug(profile) && slugDir == SlugDir(profile)
    ensures outcome == if ffmpegOk(VariantCommand(profile, v)) then Ok(RecordFor(slug, media, v)) else Err(ErrorFor(profile, v))
  {
    var d := Scaler.DimensionsForLabel(v.Resolution);
    var width, height := d.Width, d.Height;
    if d.Err.Some? {
      width, height := media.Width, media.Height;
    }
    var outputFilename := VariantFilename(slug, v);
    var outputPath := GoPath.Join(slugDir, outputFilename);
    var cmd := BuildFFmpegCommand(profile, v.Resolution);
    cmd := cmd[|cmd| - 1 := outputPath];
    VariantCommandIs(profile, v, slugDir, cmd);
    if !ffmpegOk(cmd) {
      return Err(TranscoderError("execution", "transcode", profile.InputPath, outputPath, cmd, 1, "ffmpeg command failed"));
    }
    return Ok(ResolutionVariant(width, height, v.Bitrate, "auto", outputFilename));
  }

  /**
   * The variant loop of `Transcode`: variants whose key was seen before are skipped, and
   * every other one gives a record when its command succeeds and an error when it fails.
   */
  method RunVariants(profile: ProfileFields, media: Analyzer.MediaInfo, slug: string, slugDir: string,
                     allowed: seq<Variant>, ffmpegOk: seq<string> -> bool)
    returns (variants: seq<ResolutionVariant>, errors: seq<TranscoderError>)
    requires slug == Slug(profile) && slugDir == SlugDir(profile)
    ensures variants == RecordsOf(slug, media, Succeeded(CommandSucceeds(profile, ffmpegOk), Dedup(allowed)))
    ensures errors == ErrorsOf(profile, Failed(CommandSucceeds(profile, ffmpegOk), Dedup(allowed)))
  {
    variants, errors := [], [];
    ghost var ok := CommandSucceeds(profile, ffmpegOk);
    var seen: set<string> := {};
    var j := 0;
    while j < |allowed|
      invariant 0 <= j <= |allowed|
      invariant seen == Keys(allowed[..j])
      invariant variants == RecordsOf(slug, media, Succeeded(ok, Dedup(allowed[..j])))
      invariant errors == ErrorsOf(profile, Failed(ok, Dedup(allowed[..j])))
    {
      var v := allowed[j];
      DedupStep(allowed, j);
      var key := v.Resolution + "_" + v.Bitrate;
      if key in seen {
        j := j + 1;
        continue;
      }
      seen := seen + {key};
      var outcome := RunVariant(profile, media, slug, slugDir, v, ffmpegOk);
      RecordsStep(ok, slug, media, Dedup(allowed[..j]), v);
      ErrorsStep(profile, ok, Dedup(allowed[..j]), v);
      if outcome.Err? {
        errors := errors + [outcome.error];
      } else {
        variants := variants + [outcome.value];
      }
      j := j + 1;
    }
    assert allowed[..j] == allowed;
  }

  /** The slug of the input and the directory the session writes into. */
  method SessionDir(profile: ProfileFields) returns (slug: string, slugDir: string)
    ensures slug == Slug(profile) && slugDir == SlugDir(profile)
  {
    slug := Namer.SlugFromPath(profile.InputPath);
    slugDir := GoPath.Join(profile.OutputDir, slug);
  }

  /** The filtering loop followed by the variant loop: the records and errors of one session. */
  method TranscodeVariants(profile: ProfileFields, media: Analyzer.MediaInfo, slug: string, slugDir: string,
                           ffmpegOk: seq<string> -> bool)
    returns (variants: seq<ResolutionVariant>, errors: seq<TranscoderError>)
    requires slug == Slug(profile) && slugDir == SlugDir(profile)
    ensures variants == RecordsOf(slug, media, Succeeded(CommandSucceeds(profile, ffmpegOk), Attempted(profile, media)))
    ensures errors == ErrorsOf(profile, Failed(CommandSucceeds(profile, ffmpegOk), Attempted(profile, media)))
  {
    var allowed := FilterAllowed(profile.Variants, media);
    variants, errors := RunVariants(profile, media, slug, slugDir, allowed, ffmpegOk);
  }

  /**
   * `Transcode`, with the variants handled one after another. `pathsValid` is the outcome
   * of the path checks, `mkdirOk` that of creating the slug directory, and `ffmpegOk`
   * says which command lines succeed.
   */
  method Transcode(profile: TranscodeProfile, media: Analyzer.MediaInfo, pathsValid: bool, mkdirOk: bool, ffmpegOk: seq<string> -> bool)
    returns (r: Result<TranscodeResult, TranscoderError>)
    ensures !pathsValid ==>
              r == Err(TranscoderError("validation", "path_check", profile.InputPath, profile.OutputDir, [], 0, "invalid input or output path"))
    ensures pathsValid && !mkdirOk ==>
              r == Err(TranscoderError("filesystem", "mkdir", profile.InputPath, SlugDir(profile.Fields()), [], 0, "failed to create slug directory"))
    ensures pathsValid && mkdirOk ==> r.Ok? && fresh(r.value)
    ensures r.Ok? ==>
              var res := r.value;
              var fields := profile.Fields();
              var attempted := Attempted(fields, media);
              res.InputPath == profile.InputPath && res.OutputDir == SlugDir(fields)
              && res.Duration == media.Duration && res.Profile == profile
              && res.Variants == RecordsOf(Slug(fields), media, Succeeded(CommandSucceeds(fields, ffmpegOk), attempted))
              && res.Errors == ErrorsOf(fields, Failed(CommandSucceeds(fields, ffmpegOk), attempted))
              && res.Success == (res.Errors == [])
  {
    if !pathsValid {
      return Err(TranscoderError("validation", "path_check", profile.InputPath, profile.OutputDir, [], 0, "invalid input or output path"));
    }
    var fields := profile.Fields();
    var slug, slugDir := SessionDir(fields);
    if !mkdirOk {
      return Err(TranscoderError("filesystem", "mkdir", profile.InputPath, slugDir, [], 0, "failed to create slug directory"));
    }
    var variants, errors := TranscodeVariants(fields, media, slug, slugDir, ffmpegOk);
    var result := new TranscodeResult(profile.InputPath, slugDir, media.Duration, profile, variants, errors);
    return Ok(result);
  }

  // ---------------------------------------------------------------------------
  // Transcode: properties

  /** A variant is kept exactly when it is in the ladder and passes the height check. */
  lemma {:induction false} AllowedMembers(vs: seq<Variant>, media: Analyzer.MediaInfo)
    ensures forall v :: v in Allowed(vs, media) <==> v in vs && AllowedFor(v, media)
    decreases |vs|
  {
    if |vs| > 0 {
      var init := vs[..|vs| - 1];
      AllowedMembers(init, media);
      assert vs == init + [vs[|vs| - 1]];
    }
  }

  /** The 144p rung of the standard ladder names no preset, so it is never transcoded. */
  lemma Variant144Dropped(bitrate: string, media: Analyzer.MediaInfo)
    ensures !AllowedFor(Variant("144p", bitrate), media)
    ensures DefaultVariants[7] == Variant("144p", "150k")
  {
    Scaler.Dimensions144();
  }

  /** A kept variant names a preset no taller than the source, and its record takes that preset's size. */
  lemma AllowedRecord(slug: string, media: Analyzer.MediaInfo, v: Variant)
    requires AllowedFor(v, media)
    ensures var rec := RecordFor(slug, media, v);
            rec.Height <= media.Height && rec.ScaleFlag == "auto" && rec.Bitrate == v.Bitrate
            && rec.OutputFilename == slug + "_" + v.Resolution + "_" + v.Bitrate + "bps.mp4"
            && exists k :: 0 <= k < |Scaler.StandardPresets| && Scaler.StandardPresets[k].Label == Scaler.NormalizeLabel(v.Resolution)
                           && rec.Width == Scaler.StandardPresets[k].Width && rec.Height == Scaler.StandardPresets[k].Height
  {
    Scaler.DimensionsForLabelMatches(v.Resolution);
  }

  /** A variant whose key no earlier variant has is kept: only later duplicates are dropped. */
  lemma {:induction false} DedupKeepsFirst(vs: seq<Variant>, i: nat)
    requires i < |vs|
    requires Key(vs[i]) !in Keys(vs[..i])
    ensures vs[i] in Dedup(vs)
    decreases |vs|
  {
    var init := vs[..|vs| - 1];
    var last := vs[|vs| - 1];
    var d := Dedup(init);
    assert Dedup(vs) == if Key(last) in Keys(d) then d else d + [last];
    if i < |vs| - 1 {
      assert vs[i] in d by {
        assert init[..i] == vs[..i] && init[i] == vs[i];
        DedupKeepsFirst(init, i);
      }
    } else {
      assert Key(last) !in Keys(d) by {
        assert vs[..i] == init;
      }
    }
  }

  /**
   * The attempted variants are kept variants of the ladder with pairwise distinct keys,
   * and every key of a kept variant is attempted; there are none exactly when nothing is kept.
   */
  lemma AttemptedVariants(profile: ProfileFields, media: Analyzer.MediaInfo)
    ensures var attempted := Attempted(profile, media);
            (forall v :: v in attempted ==> v in profile.Variants && AllowedFor(v, media))
            && DistinctKeys(attempted)
            && Keys(attempted) == Keys(Allowed(profile.Variants, media))
            && (attempted == [] <==> Allowed(profile.Variants, media) == [])
  {
    var allowed := Allowed(profile.Variants, media);
    AllowedMembers(profile.Variants, media);
    if allowed != [] {
      assert Key(allowed[0]) in Keys(allowed);
    }
  }

  /** Every attempted variant ends up produced or failed, never both: the two counts add up. */
  lemma {:induction false} OutcomesCount(ok: Variant -> bool, ds: seq<Variant>)
    ensures |Succeeded(ok, ds)| + |Failed(ok, ds)| == |ds|
    decreases |ds|
  {
    if |ds| > 0 {
      OutcomesCount(ok, ds[..|ds| - 1]);
    }
  }

  /** The produced variants are the attempted ones that succeed, and the failed ones the rest. */
  lemma {:induction false} OutcomesMembers(ok: Variant -> bool, ds: seq<Variant>)
    ensures forall v :: v in Succeeded(ok, ds) <==> v in ds && ok(v)
    ensures forall v :: v in Failed(ok, ds) <==> v in ds && !ok(v)
    decreases |ds|
  {
    if |ds| > 0 {
      var init := ds[..|ds| - 1];
      var last := ds[|ds| - 1];
      OutcomesMembers(ok, init);
      assert ds == init + [last];
    }
  }

  /** Keeping only the produced variants keeps their keys distinct. */
  lemma {:induction false} SucceededDistinct(ok: Variant -> bool, ds: seq<Variant>)
    requires DistinctKeys(ds)
    ensures DistinctKeys(Succeeded(ok, ds))
    decreases |ds|
  {
    if |ds| > 0 {
      var init := ds[..|ds| - 1];
      var last := ds[|ds| - 1];
      assert DistinctKeys(init) by {
        assert forall i :: 0 <= i < |init| ==> init[i] == ds[i];
      }
      SucceededDistinct(ok, init);
      OutcomesMembers(ok, init);
      OutcomesSnoc(ok, init, last);
      var before := Succeeded(ok, init);
      forall w | w in before
        ensures Key(w) != Key(last)
      {
        var i :| 0 <= i < |init| && init[i] == w;
        assert ds[i] == w;
      }
    }
  }

  lemma {:induction false} RecordsOfAt(slug: string, media: Analyzer.MediaInfo, vs: seq<Variant>, i: nat)
    requires i < |vs|
    ensures RecordsOf(slug, media, vs)[i] == RecordFor(slug, media, vs[i])
    decreases |vs|
  {
    if i < |vs| - 1 {
      RecordsOfAt(slug, media, vs[..|vs| - 1], i);
    }
  }

  lemma {:induction false} ErrorsOfAt(profile: ProfileFields, vs: seq<Variant>, i: nat)
    requires i < |vs|
    ensures ErrorsOf(profile, vs)[i] == ErrorFor(profile, vs[i])
    decreases |vs|
  {
    if i < |vs| - 1 {
      ErrorsOfAt(profile, vs[..|vs| - 1], i);
    }
  }

  /** Output file names of one slug are equal only for variants with the same key. */
  lemma FilenameDeterminesKey(slug: string, v: Variant, w: Variant)
    requires VariantFilename(slug, v) == VariantFilename(slug, w)
    ensures Key(v) == Key(w)
  {
    var a := VariantFilename(slug, v);
    var k := |slug| + 1;
    assert a == (slug + "_") + Key(v) + "bps.mp4";
    assert a[k..|a| - 7] == Key(v);
    assert VariantFilename(slug, w) == (slug + "_") + Key(w) + "bps.mp4";
  }

  /** No two variants recorded by one session share an output file name. */
  lemma RecordedFilenamesDistinct(profile: ProfileFields, media: Analyzer.MediaInfo, ffmpegOk: seq<string> -> bool)
    ensures var recs := RecordsOf(Slug(profile), media, Succeeded(CommandSucceeds(profile, ffmpegOk), Attempted(profile, media)));
            forall i, j :: 0 <= i < j < |recs| ==> recs[i].OutputFilename != recs[j].OutputFilename
  {
    var slug := Slug(profile);
    var produced := Succeeded(CommandSucceeds(profile, ffmpegOk), Attempted(profile, media));
    SucceededDistinct(CommandSucceeds(profile, ffmpegOk), Attempted(profile, media));
    var recs := RecordsOf(slug, media, produced);
    forall i, j | 0 <= i < j < |recs|
      ensures recs[i].OutputFilename != recs[j].OutputFilename
    {
      RecordsOfAt(slug, media, produced, i);
      RecordsOfAt(slug, media, produced, j);
      if recs[i].OutputFilename == recs[j].OutputFilename {
        FilenameDeterminesKey(slug, produced[i], produced[j]);
      }
    }
  }

  /**
   * The i-th record of a session belongs to a ladder variant whose command succeeded,
   * has "auto" scaling, the generated file name and the size of the preset it names,
   * which is no taller than the source.
   */
  lemma RecordedVariant(profile: ProfileFields, media: Analyzer.MediaInfo, ffmpegOk: seq<string> -> bool, i: nat)
    requires i < |Succeeded(CommandSucceeds(profile, ffmpegOk), Attempted(profile, media))|
    ensures var produced := Succeeded(CommandSucceeds(profile, ffmpegOk), Attempted(profile, media));
            var v := produced[i];
            var rec := RecordsOf(Slug(profile), media, produced)[i];
            v in profile.Variants && ffmpegOk(VariantCommand(profile, v))
            && rec.ScaleFlag == "auto" && rec.Bitrate == v.Bitrate && rec.Height <= media.Height
            && rec.OutputFilename == Slug(profile) + "_" + v.Resolution + "_" + v.Bitrate + "bps.mp4"
            && exists k :: 0 <= k < |Scaler.StandardPresets| && Scaler.StandardPresets[k].Label == Scaler.NormalizeLabel(v.Resolution)
                           && rec.Width == Scaler.StandardPresets[k].Width && rec.Height == Scaler.StandardPresets[k].Height
  {
    var attempted := Attempted(profile, media);
    var produced := Succeeded(CommandSucceeds(profile, ffmpegOk), attempted);
    var v := produced[i];
    OutcomesMembers(CommandSucceeds(profile, ffmpegOk), attempted);
    AttemptedVariants(profile, media);
    RecordsOfAt(Slug(profile), media, produced, i);
    AllowedRecord(Slug(profile), media, v);
  }

  /**
   * The i-th error of a session belongs to a ladder variant whose command failed: stage
   * "execution", operation "transcode", exit code 1, and the failed command, whose last
   * argument is the error's output path.
   */
  lemma RecordedError(profile: ProfileFields, media: Analyzer.MediaInfo, ffmpegOk: seq<string> -> bool, i: nat)
    requires i < |Failed(CommandSucceeds(profile, ffmpegOk), Attempted(profile, media))|
    ensures var failed := Failed(CommandSucceeds(profile, ffmpegOk), Attempted(profile, media));
            var v := failed[i];
            var e := ErrorsOf(profile, failed)[i];
            v in profile.Variants && AllowedFor(v, media) && !ffmpegOk(e.Command)
            && e.Stage == "execution" && e.Operation == "transcode" && e.ExitCode == 1
            && e.InputPath == profile.InputPath && e.Command == VariantCommand(profile, v)
            && |e.Command| == 12 && e.Command[11] == e.OutputPath
            && e.OutputPath == GoPath.Join(SlugDir(profile), VariantFilename(Slug(profile), v))
  {
    var attempted := Attempted(profile, media);
    var failed := Failed(CommandSucceeds(profile, ffmpegOk), attempted);
    OutcomesMembers(CommandSucceeds(profile, ffmpegOk), attempted);
    AttemptedVariants(profile, media);
    ErrorsOfAt(profile, failed, i);
  }
}
