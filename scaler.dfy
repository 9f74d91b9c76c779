/**
 * The rendition catalog and the decision engine: a fixed table of resolution presets,
 * label normalisation and lookup, the initial choice of one preset for a source
 * (`SelectPreset`), the filtering of the whole catalog (`SelectResolutions`) and the
 * adaptive step taken during playback (`AdjustResolution`).
 */
module Scaler {
  import opened Wrappers
  import opened GoStrings
  import Analyzer

  /** One rendition tier: its frame size, label, minimum bitrate in kbps and default flag. */
  datatype ResolutionPreset = ResolutionPreset(Width: int, Height: int, Label: string, MinBitrate: int, IsDefault: bool)

  /** A chosen preset with the explanation given for it. */
  datatype ScalingDecision = ScalingDecision(Preset: ResolutionPreset, Reason: string)

  /**
   * Hints about the playback client. The first four fields are the declared ones; the
   * last three are the fields the adaptive step reads.
   */
  datatype ClientContext = ClientContext(
    DeviceType: string,
    BandwidthKbps: int,
    PreferUpscale: bool,
    AllowLowRes: bool,
    ManualOverride: string,
    RecentFailures: int,
    AdaptiveEnabled: bool)

  datatype ScalerError = ScalerError(Op: string, Msg: string)

  /** The result of a label lookup: a width, a height and an optional error message. */
  datatype LabelDimensions = LabelDimensions(Width: int, Height: int, Err: Option<string>)

  // ---------------------------------------------------------------------------
  // The preset table

  const StandardPresets: seq<ResolutionPreset> := [
    ResolutionPreset(3840, 2160, "2160p", 12000, false),
    ResolutionPreset(2560, 1440, "1440p", 8000, false),
    ResolutionPreset(1920, 1080, "1080p", 5000, true),
    ResolutionPreset(1280, 720, "720p", 2500, false),
    ResolutionPreset(854, 480, "480p", 1000, false),
    ResolutionPreset(640, 360, "360p", 600, false),
    ResolutionPreset(426, 240, "240p", 300, false)
  ]

  /** Exactly one preset is the default, and it is the 1080p tier. */
  lemma OneDefault()
    ensures forall i :: 0 <= i < |StandardPresets| ==> (StandardPresets[i].IsDefault <==> i == 2)
    ensures StandardPresets[2].Label == "1080p"
  {
  }

  /** Heights, widths and minimum bitrates all strictly decrease along the table. */
  lemma TableDescending()
    ensures forall i, j :: 0 <= i < j < |StandardPresets| ==>
      StandardPresets[i].Height > StandardPresets[j].Height
      && StandardPresets[i].Width > StandardPresets[j].Width
      && StandardPresets[i].MinBitrate > StandardPresets[j].MinBitrate
    ensures StandardPresets[0].Height == 2160 && StandardPresets[|StandardPresets| - 1].Height == 240
  {
  }

  /** Each label is the decimal height followed by 'p'. */
  lemma LabelsAreHeights()
    ensures forall i :: 0 <= i < |StandardPresets| ==> StandardPresets[i].Label == NatToDecimal(StandardPresets[i].Height) + "p"
  {
    forall i | 0 <= i < |StandardPresets|
      ensures StandardPresets[i].Label == NatToDecimal(StandardPresets[i].Height) + "p"
    {
      if i < 4 { UpperLabelIsHeight(i); } else { LowerLabelIsHeight(i); }
    }
  }

  lemma UpperLabelIsHeight(i: nat)
    requires i < 4
    ensures StandardPresets[i].Label == NatToDecimal(StandardPresets[i].Height) + "p"
  {
    if i == 0 {
      assert NatToDecimal(216) == "216" by { assert NatToDecimal(21) == "21"; }
    } else if i == 1 {
      assert NatToDecimal(144) == "144" by { assert NatToDecimal(14) == "14"; }
    } else if i == 2 {
      assert NatToDecimal(108) == "108" by { assert NatToDecimal(10) == "10"; }
    } else {
      assert NatToDecimal(72) == "72";
    }
  }

  lemma LowerLabelIsHeight(i: nat)
    requires 4 <= i < |StandardPresets|
    ensures StandardPresets[i].Label == NatToDecimal(StandardPresets[i].Height) + "p"
  {
    if i == 4 {
      assert NatToDecimal(48) == "48";
    } else if i == 5 {
      assert NatToDecimal(36) == "36";
    } else {
      assert NatToDecimal(24) == "24";
    }
  }

  /** Labels are pairwise distinct, and none of them is 144p. */
  lemma TableLabels()
    ensures forall i, j :: 0 <= i < j < |StandardPresets| ==> StandardPresets[i].Label != StandardPresets[j].Label
    ensures forall i :: 0 <= i < |StandardPresets| ==> StandardPresets[i].Label != "144p"
  {
    forall i, j | 0 <= i < j < |StandardPresets|
      ensures StandardPresets[i].Label != StandardPresets[j].Label
    {
      var a := StandardPresets[i].Label;
      var b := StandardPresets[j].Label;
      assert |a| != |b| || a[0] != b[0] || a[1] != b[1];
    }
    forall i | 0 <= i < |StandardPresets|
      ensures StandardPresets[i].Label != "144p"
    {
      var a := StandardPresets[i].Label;
      assert |a| != 4 || a[0] != '1' || a[1] != '4' || a[2] != '4';
    }
  }

  // ---------------------------------------------------------------------------
  // Labels and lookup

  /** Trim surrounding whitespace, then lower-case. */
  function NormalizeLabel(name: string): string
  {
    ToLower(TrimSpace(name))
  }

  /** A normalised label has no whitespace at its ends and no upper-case letter. */
  lemma NormalizeShape(name: string)
    ensures var r := NormalizeLabel(name);
            (r == [] || (!IsSpace(r[0]) && !IsSpace(r[|r| - 1])))
            && forall i :: 0 <= i < |r| ==> !('A' <= r[i] <= 'Z')
  {
    ToLowerKeepsEnds(TrimSpace(name));
  }

  /** Normalising twice is normalising once. */
  lemma NormalizeIdempotent(name: string)
    ensures NormalizeLabel(NormalizeLabel(name)) == NormalizeLabel(name)
  {
    var n := NormalizeLabel(name);
    NormalizeShape(name);
    TrimSpaceOfTrimmed(n);
    ToLowerOfLower(n);
  }

  /** A label made of digits and 'p' is its own normal form. */
  lemma DigitsAndPNormal(l: string)
    requires forall i :: 0 <= i < |l| ==> IsDigit(l[i]) || l[i] == 'p'
    ensures NormalizeLabel(l) == l
  {
    TrimSpaceOfTrimmed(l);
    ToLowerOfLower(l);
  }

  lemma Normalize720()
    ensures NormalizeLabel(" 720P ") == "720p"
  {
    assert SkipSpaceFrom(" 720P ", 0) == 1;
    assert TrimLeftSpace(" 720P ") == "720P ";
    assert TrimSpaceEnd("720P ", 5) == 4;
    assert TrimRightSpace("720P ") == "720P";
    assert ToLower("720P") == "720p";
  }

  /** Every label of the table is already in normal form. */
  lemma PresetLabelsNormal()
    ensures forall i :: 0 <= i < |StandardPresets| ==> NormalizeLabel(StandardPresets[i].Label) == StandardPresets[i].Label
  {
    forall i | 0 <= i < |StandardPresets|
      ensures NormalizeLabel(StandardPresets[i].Label) == StandardPresets[i].Label
    {
      DigitsAndPNormal(StandardPresets[i].Label);
    }
  }

  /** The target is larger than the source in at least one dimension. */
  predicate IsUpscale(sourceWidth: int, sourceHeight: int, targetWidth: int, targetHeight: int) {
    targetWidth > sourceWidth || targetHeight > sourceHeight
  }

  /** The labels of a table, each normalised. */
  function NormalizedLabels(presets: seq<ResolutionPreset>): (r: seq<string>)
    ensures |r| == |presets|
    ensures forall i :: 0 <= i < |presets| ==> r[i] == NormalizeLabel(presets[i].Label)
  {
    if |presets| == 0 then [] else NormalizedLabels(presets[..|presets| - 1]) + [NormalizeLabel(presets[|presets| - 1].Label)]
  }

  /**
   * The normal forms of the table's labels, which every lookup compares against. The
   * table is constant, so they are written out once; `StandardLabelsNormalized` shows
   * they are exactly what normalising each preset's label gives.
   */
  const StandardLabels: seq<string> := ["2160p", "1440p", "1080p", "720p", "480p", "360p", "240p"]

  lemma StandardLabelsAreLabels()
    ensures |StandardLabels| == |StandardPresets|
    ensures forall i :: 0 <= i < |StandardPresets| ==> StandardLabels[i] == StandardPresets[i].Label
  {
  }

  lemma StandardLabelsNormalized()
    ensures StandardLabels == NormalizedLabels(StandardPresets)
  {
    PresetLabelsNormal();
    StandardLabelsAreLabels();
    var n := NormalizedLabels(StandardPresets);
    assert forall i :: 0 <= i < |n| ==> n[i] == StandardLabels[i];
  }

  /**
   * The loop of `DimensionsForLabel`, from table position `k` on: the first position at
   * or after `k` whose normalised label is `key`.
   */
  function LabelIndexFrom(key: string, k: nat): Option<nat>
    decreases |StandardLabels| - k
  {
    if k >= |StandardLabels| then None
    else if StandardLabels[k] == key then Some(k)
    else LabelIndexFrom(key, k + 1)
  }

  /** The search finds the first matching position at or after `k`, and fails only when there is none. */
  lemma {:induction false} LabelIndexFromFinds(key: string, k: nat)
    ensures var r := LabelIndexFrom(key, k);
            (r.Some? ==> k <= r.value < |StandardLabels| && StandardLabels[r.value] == key
                         && forall j :: k <= j < r.value ==> StandardLabels[j] != key)
            && (r.None? ==> forall j :: k <= j < |StandardLabels| ==> StandardLabels[j] != key)
    decreases |StandardLabels| - k
  {
    if k < |StandardLabels| && StandardLabels[k] != key {
      LabelIndexFromFinds(key, k + 1);
    }
  }

  /** The position of the preset whose normalised label equals `name`'s normal form. */
  function LabelIndex(name: string): Option<nat>
  {
    LabelIndexFrom(NormalizeLabel(name), 0)
  }

  lemma LabelIndexMatches(name: string)
    ensures var r := LabelIndex(name);
            (r.Some? ==> r.value < |StandardPresets| && StandardPresets[r.value].Label == NormalizeLabel(name))
            && (r.None? ==> forall j :: 0 <= j < |StandardPresets| ==> StandardPresets[j].Label != NormalizeLabel(name))
  {
    LabelIndexFromFinds(NormalizeLabel(name), 0);
    StandardLabelsAreLabels();
  }

  /**
   * `DimensionsForLabel`: the width and height of the first preset whose label matches
   * `name` after normalising both, or (0, 0) and an error message when none does.
   */
  function DimensionsForLabel(name: string): LabelDimensions
  {
    match LabelIndex(name)
    case Some(i) => LabelDimensions(StandardPresets[i].Width, StandardPresets[i].Height, None)
    case None => LabelDimensions(0, 0, Some("resolution label not found: " + name))
  }

  /**
   * A label resolves exactly when some preset's label equals its normalised form, and
   * then to that preset's size; otherwise the result is (0, 0) with the error message.
   */
  lemma DimensionsForLabelMatches(name: string)
    ensures var r := DimensionsForLabel(name);
            (r.Err.None? <==> exists i :: 0 <= i < |StandardPresets| && StandardPresets[i].Label == NormalizeLabel(name))
            && (r.Err.None? ==> exists i :: 0 <= i < |StandardPresets| && StandardPresets[i].Label == NormalizeLabel(name)
                                            && r.Width == StandardPresets[i].Width && r.Height == StandardPresets[i].Height)
            && (r.Err.Some? ==> r.Width == 0 && r.Height == 0 && r.Err.value == "resolution label not found: " + name)
  {
    LabelIndexMatches(name);
  }

  /** Every table label resolves to its own preset's dimensions. */
  lemma DimensionsOfPresetLabel(i: nat)
    requires i < |StandardPresets|
    ensures DimensionsForLabel(StandardPresets[i].Label) == LabelDimensions(StandardPresets[i].Width, StandardPresets[i].Height, None)
  {
    PresetLabelsNormal();
    TableLabels();
    DimensionsForLabelMatches(StandardPresets[i].Label);
    var r := DimensionsForLabel(StandardPresets[i].Label);
    var k :| 0 <= k < |StandardPresets| && StandardPresets[k].Label == StandardPresets[i].Label
             && r.Width == StandardPresets[k].Width && r.Height == StandardPresets[k].Height;
    assert k == i;
  }

  /** Whitespace and case do not matter: " 720P " names the 1280x720 tier. */
  lemma Dimensions720()
    ensures DimensionsForLabel(" 720P ") == LabelDimensions(1280, 720, None)
  {
    Normalize720();
    TableLabels();
    DimensionsForLabelMatches(" 720P ");
    var r := DimensionsForLabel(" 720P ");
    assert StandardPresets[3].Label == NormalizeLabel(" 720P ");
    var k :| 0 <= k < |StandardPresets| && StandardPresets[k].Label == NormalizeLabel(" 720P ")
             && r.Width == StandardPresets[k].Width && r.Height == StandardPresets[k].Height;
    assert k == 3;
  }

  /** There is no 144p tier, so its lookup fails with (0, 0). */
  lemma Dimensions144()
    ensures DimensionsForLabel("144p") == LabelDimensions(0, 0, Some("resolution label not found: " + "144p"))
  {
    DigitsAndPNormal("144p");
    TableLabels();
    DimensionsForLabelMatches("144p");
  }

  // ---------------------------------------------------------------------------
  // Small predicates and text

  predicate IsSD(p: ResolutionPreset) { p.Height <= 480 }

  predicate IsHD(p: ResolutionPreset) { p.Height >= 720 }

  /** SD and HD never overlap, heights strictly between 480 and 720 are neither, and the table has no such tier. */
  lemma SDAndHDSeparate(p: ResolutionPreset)
    ensures !(IsSD(p) && IsHD(p))
    ensures 480 < p.Height < 720 ==> !IsSD(p) && !IsHD(p)
    ensures forall i :: 0 <= i < |StandardPresets| ==> IsSD(StandardPresets[i]) || IsHD(StandardPresets[i])
  {
  }

  /** A label followed by its frame size, as in "720p (1280x720)". */
  function LabelWithDimensions(p: ResolutionPreset): (r: string)
    ensures HasPrefix(r, p.Label + " (") && HasSuffix(r, ")")
    ensures |r| > |p.Label| + 3
  {
    p.Label + " (" + Itoa(p.Width) + "x" + Itoa(p.Height) + ")"
  }

  /** The width and height can be read back from the text between the parentheses. */
  lemma LabelWithDimensionsReadBack(p: ResolutionPreset)
    requires InInt64(p.Width) && InInt64(p.Height)
    ensures var inner := Split(LabelWithDimensions(p)[|p.Label| + 2..|LabelWithDimensions(p)| - 1], 'x');
            |inner| == 2 && Atoi(inner[0]) == Some(p.Width) && Atoi(inner[1]) == Some(p.Height)
  {
    var w := Itoa(p.Width);
    var h := Itoa(p.Height);
    var t := LabelWithDimensions(p);
    assert t == p.Label + " (" + (w + "x" + h) + ")";
    assert t[|p.Label| + 2..|t| - 1] == w + "x" + h;
    assert 'x' !in w && 'x' !in h by {
      assert forall i :: 0 <= i < |w| ==> w[i] == '-' || IsDigit(w[i]);
      assert forall i :: 0 <= i < |h| ==> h[i] == '-' || IsDigit(h[i]);
    }
    SplitCons(w, 'x', h);
    AtoiItoa(p.Width);
    AtoiItoa(p.Height);
  }

  /** The playback summary of a decision. */
  function Summary(d: ScalingDecision): (r: string)
    ensures HasPrefix(r, "Selected " + LabelWithDimensions(d.Preset) + " for playback. Reason: ")
    ensures HasSuffix(r, d.Reason)
    ensures |r| == |"Selected " + LabelWithDimensions(d.Preset) + " for playback. Reason: "| + |d.Reason|
  {
    "Selected " + LabelWithDimensions(d.Preset) + " for playback. Reason: " + d.Reason
  }

  /** A client whose device type is exactly "mobile"; false without a context. */
  predicate IsMobile(ctx: Option<ClientContext>) {
    ctx.Some? && ctx.value.DeviceType == "mobile"
  }

  /** A client with a known bandwidth below the 720p tier's 2500 kbps; false without a context. */
  predicate IsBandwidthConstrained(ctx: Option<ClientContext>) {
    ctx.Some? && ctx.value.BandwidthKbps > 0 && ctx.value.BandwidthKbps < 2500
  }

  /** Nil contexts are neither; the device test is case-sensitive; 2500 kbps and unknown bandwidth are not constrained. */
  lemma ClientContextPredicates(c: ClientContext)
    ensures !IsMobile(None) && !IsBandwidthConstrained(None)
    ensures IsMobile(Some(c)) <==> c.DeviceType == "mobile"
    ensures !IsMobile(Some(c.(DeviceType := "Mobile")))
    ensures IsBandwidthConstrained(Some(c)) <==> 0 < c.BandwidthKbps < 2500
    ensures !IsBandwidthConstrained(Some(c.(BandwidthKbps := 2500)))
    ensures c.BandwidthKbps <= 0 ==> !IsBandwidthConstrained(Some(c))
    ensures IsBandwidthConstrained(Some(c)) ==> c.BandwidthKbps < StandardPresets[3].MinBitrate
  {
    assert "Mobile" != "mobile" by { assert "Mobile"[0] != "mobile"[0]; }
  }

  // ---------------------------------------------------------------------------
  // SelectPreset

  /** A preset passes the upscale filter and the bandwidth filter of the initial choice. */
  predicate Survives(p: ResolutionPreset, sourceWidth: int, sourceHeight: int, ctx: Option<ClientContext>) {
    (!IsUpscale(sourceWidth, sourceHeight, p.Width, p.Height) || (ctx.Some? && ctx.value.PreferUpscale))
    && !(ctx.Some? && ctx.value.BandwidthKbps > 0 && p.MinBitrate > ctx.value.BandwidthKbps)
  }

  function BoolText(b: bool): string { if b then "true" else "false" }

  /** `%+v` of a context pointer, over the declared fields. */
  function ContextText(c: ClientContext): string {
    "&{DeviceType:" + c.DeviceType + " BandwidthKbps:" + Itoa(c.BandwidthKbps)
    + " PreferUpscale:" + BoolText(c.PreferUpscale) + " AllowLowRes:" + BoolText(c.AllowLowRes) + "}"
  }

  /** The reason given when a preset survives the filters. */
  function SurvivorReason(name: string, sourceWidth: int, sourceHeight: int, ctx: Option<ClientContext>): string {
    "Selected " + name + " based on source " + Itoa(sourceWidth) + "x" + Itoa(sourceHeight)
    + (if ctx.Some? then " and client context " + ContextText(ctx.value) else "")
  }

  const FallbackReason: string := "No suitable preset found; falling back to default preset"

  /** Index of the first preset that survives the filters. */
  function FirstSurvivor(presets: seq<ResolutionPreset>, sourceWidth: int, sourceHeight: int, ctx: Option<ClientContext>): (r: Option<nat>)
    ensures r.Some? ==> r.value < |presets| && Survives(presets[r.value], sourceWidth, sourceHeight, ctx)
    ensures r.Some? ==> forall j :: 0 <= j < r.value ==> !Survives(presets[j], sourceWidth, sourceHeight, ctx)
    ensures r.None? <==> forall j :: 0 <= j < |presets| ==> !Survives(presets[j], sourceWidth, sourceHeight, ctx)
  {
    if |presets| == 0 then None
    else if Survives(presets[0], sourceWidth, sourceHeight, ctx) then Some(0)
    else
      match FirstSurvivor(presets[1..], sourceWidth, sourceHeight, ctx)
      case None => None
      case Some(k) => Some(k + 1)
  }

  /** Index of the first preset marked default. */
  function FirstDefault(presets: seq<ResolutionPreset>): (r: Option<nat>)
    ensures r.Some? ==> r.value < |presets| && presets[r.value].IsDefault
    ensures r.None? <==> forall j :: 0 <= j < |presets| ==> !presets[j].IsDefault
  {
    if |presets| == 0 then None
    else if presets[0].IsDefault then Some(0)
    else
      match FirstDefault(presets[1..])
      case None => None
      case Some(k) => Some(k + 1)
  }

  /** The initial choice over any table: first survivor, else first default, else an error. */
  function SelectPresetFrom(presets: seq<ResolutionPreset>, sourceWidth: int, sourceHeight: int, ctx: Option<ClientContext>): (r: Result<ScalingDecision, ScalerError>)
    ensures r.Ok? ==> r.value.Preset in presets
    ensures r.Err? <==> (forall j :: 0 <= j < |presets| ==> !Survives(presets[j], sourceWidth, sourceHeight, ctx) && !presets[j].IsDefault)
    ensures r.Err? ==> r.error == ScalerError("SelectPreset", "no valid resolution preset found")
  {
    match FirstSurvivor(presets, sourceWidth, sourceHeight, ctx)
    case Some(i) =>
      Ok(ScalingDecision(presets[i], SurvivorReason(presets[i].Label, sourceWidth, sourceHeight, ctx)))
    case None =>
      match FirstDefault(presets)
      case Some(i) => Ok(ScalingDecision(presets[i], FallbackReason))
      case None => Err(ScalerError("SelectPreset", "no valid resolution preset found"))
  }

  /** `SelectPreset`: the initial choice over the standard table. */
  function SelectPreset(sourceWidth: int, sourceHeight: int, ctx: Option<ClientContext>): (r: Result<ScalingDecision, ScalerError>)
    ensures r.Ok?
    ensures r.value.Preset in StandardPresets
  {
    SelectPresetFrom(StandardPresets, sourceWidth, sourceHeight, ctx)
  }

  /** When some preset survives, the answer is the first survivor in table order, with its reason. */
  lemma SelectPresetFirstSurvivor(sourceWidth: int, sourceHeight: int, ctx: Option<ClientContext>, i: nat)
    requires i < |StandardPresets| && Survives(StandardPresets[i], sourceWidth, sourceHeight, ctx)
    requires forall j :: 0 <= j < i ==> !Survives(StandardPresets[j], sourceWidth, sourceHeight, ctx)
    ensures SelectPreset(sourceWidth, sourceHeight, ctx) ==
            Ok(ScalingDecision(StandardPresets[i], SurvivorReason(StandardPresets[i].Label, sourceWidth, sourceHeight, ctx)))
  {
    var k := FirstSurvivor(StandardPresets, sourceWidth, sourceHeight, ctx);
    assert k.Some?;
    assert !(k.value < i) && !(i < k.value);
  }

  /**
   * Outside the fallback, the choice fits the source unless the client prefers upscaling,
   * and it respects a known bandwidth.
   */
  lemma SelectPresetRespectsFilters(sourceWidth: int, sourceHeight: int, ctx: Option<ClientContext>)
    requires exists i :: 0 <= i < |StandardPresets| && Survives(StandardPresets[i], sourceWidth, sourceHeight, ctx)
    ensures var p := SelectPreset(sourceWidth, sourceHeight, ctx).value.Preset;
            (!(ctx.Some? && ctx.value.PreferUpscale) ==> p.Width <= sourceWidth && p.Height <= sourceHeight)
            && (ctx.Some? && ctx.value.BandwidthKbps > 0 ==> p.MinBitrate <= ctx.value.BandwidthKbps)
  {
    var k := FirstSurvivor(StandardPresets, sourceWidth, sourceHeight, ctx);
    assert k.Some?;
  }

  /** Without a context, and when some preset fits, the choice is the largest preset that fits. */
  lemma SelectPresetLargestFitting(sourceWidth: int, sourceHeight: int)
    requires exists i :: 0 <= i < |StandardPresets| && !IsUpscale(sourceWidth, sourceHeight, StandardPresets[i].Width, StandardPresets[i].Height)
    ensures var p := SelectPreset(sourceWidth, sourceHeight, None).value.Preset;
            !IsUpscale(sourceWidth, sourceHeight, p.Width, p.Height)
            && forall j :: 0 <= j < |StandardPresets| && !IsUpscale(sourceWidth, sourceHeight, StandardPresets[j].Width, StandardPresets[j].Height) ==>
                 StandardPresets[j].Width <= p.Width && StandardPresets[j].Height <= p.Height
  {
    TableDescending();
    var k := FirstSurvivor(StandardPresets, sourceWidth, sourceHeight, None);
    assert k.Some?;
    forall j | 0 <= j < |StandardPresets| && !IsUpscale(sourceWidth, sourceHeight, StandardPresets[j].Width, StandardPresets[j].Height)
      ensures StandardPresets[j].Width <= StandardPresets[k.value].Width && StandardPresets[j].Height <= StandardPresets[k.value].Height
    {
      assert Survives(StandardPresets[j], sourceWidth, sourceHeight, None);
      assert k.value <= j;
    }
  }

  /** When nothing survives, the 1080p default comes back with the fallback reason, whatever it costs. */
  lemma SelectPresetFallback(sourceWidth: int, sourceHeight: int, ctx: Option<ClientContext>)
    requires forall j :: 0 <= j < |StandardPresets| ==> !Survives(StandardPresets[j], sourceWidth, sourceHeight, ctx)
    ensures SelectPreset(sourceWidth, sourceHeight, ctx) == Ok(ScalingDecision(StandardPresets[2], FallbackReason))
    ensures StandardPresets[2].Label == "1080p"
  {
    var d := FirstDefault(StandardPresets);
    assert d == Some(2);
  }

  /** A tiny source with no context and no preference falls back to 1080p, an upscale. */
  lemma SelectPresetFallbackUpscales()
    ensures SelectPreset(320, 180, None) == Ok(ScalingDecision(StandardPresets[2], FallbackReason))
    ensures IsUpscale(320, 180, StandardPresets[2].Width, StandardPresets[2].Height)
  {
    SelectPresetFallback(320, 180, None);
  }

  // ---------------------------------------------------------------------------
  // AdjustResolution

  /** Index of the last preset affordable at `bandwidth` and strictly lower than `height`. */
  function LastBelow(presets: seq<ResolutionPreset>, bandwidth: int, height: int): (r: Option<nat>)
    ensures r.Some? ==> r.value < |presets| && presets[r.value].MinBitrate <= bandwidth && presets[r.value].Height < height
    ensures r.Some? ==> forall j :: r.value < j < |presets| ==> !(presets[j].MinBitrate <= bandwidth && presets[j].Height < height)
    ensures r.None? <==> forall j :: 0 <= j < |presets| ==> !(presets[j].MinBitrate <= bandwidth && presets[j].Height < height)
  {
    if |presets| == 0 then None
    else
      var last := presets[|presets| - 1];
      if last.MinBitrate <= bandwidth && last.Height < height then Some(|presets| - 1)
      else LastBelow(presets[..|presets| - 1], bandwidth, height)
  }

  /** Index of the first preset affordable at `bandwidth` and strictly higher than `height`. */
  function FirstAbove(presets: seq<ResolutionPreset>, bandwidth: int, height: int): (r: Option<nat>)
    ensures r.Some? ==> r.value < |presets| && presets[r.value].MinBitrate <= bandwidth && presets[r.value].Height > height
    ensures r.Some? ==> forall j :: 0 <= j < r.value ==> !(presets[j].MinBitrate <= bandwidth && presets[j].Height > height)
    ensures r.None? <==> forall j :: 0 <= j < |presets| ==> !(presets[j].MinBitrate <= bandwidth && presets[j].Height > height)
  {
    if |presets| == 0 then None
    else if presets[0].MinBitrate <= bandwidth && presets[0].Height > height then Some(0)
    else
      match FirstAbove(presets[1..], bandwidth, height)
      case None => None
      case Some(k) => Some(k + 1)
  }

  /** The preset named by a non-empty manual override, if its normal form is a table label. */
  function OverrideIndex(ctx: ClientContext): (r: Option<nat>)
    ensures r.Some? ==> ctx.ManualOverride != "" && r.value < |StandardPresets|
                        && StandardPresets[r.value].Label == NormalizeLabel(ctx.ManualOverride)
    ensures r.None? ==> ctx.ManualOverride == ""
                        || forall j :: 0 <= j < |StandardPresets| ==> StandardPresets[j].Label != NormalizeLabel(ctx.ManualOverride)
  {
    LabelIndexMatches(ctx.ManualOverride);
    if ctx.ManualOverride != "" then LabelIndex(ctx.ManualOverride) else None
  }

  /** The adaptive step: override, then the adaptive switch, then drop after failures or bump when stable. */
  function AdjustResolution(current: ResolutionPreset, ctx: ClientContext): (r: ResolutionPreset)
    ensures r == current || r in StandardPresets
  {
    match OverrideIndex(ctx)
    case Some(i) => StandardPresets[i]
    case None =>
      if !ctx.AdaptiveEnabled then current
      else
        var drop := if ctx.RecentFailures >= 3 then LastBelow(StandardPresets, ctx.BandwidthKbps, current.Height) else None;
        if drop.Some? then StandardPresets[drop.value]
        else if ctx.RecentFailures == 0 then
          match FirstAbove(StandardPresets, ctx.BandwidthKbps, current.Height)
          case Some(i) => StandardPresets[i]
          case None => current
        else current
  }

  /** A matching manual override wins over every other rule. */
  lemma AdjustOverride(current: ResolutionPreset, ctx: ClientContext, i: nat)
    requires ctx.ManualOverride != "" && i < |StandardPresets| && StandardPresets[i].Label == NormalizeLabel(ctx.ManualOverride)
    ensures AdjustResolution(current, ctx) == StandardPresets[i]
  {
    TableLabels();
    var k := OverrideIndex(ctx);
    assert k.Some?;
    assert k.value == i;
  }

  /** An override written " 720P " selects the 720p tier even with adaptation off. */
  lemma AdjustOverrideExample(current: ResolutionPreset, ctx: ClientContext)
    requires ctx.ManualOverride == " 720P "
    ensures AdjustResolution(current, ctx) == StandardPresets[3]
  {
    Normalize720();
    AdjustOverride(current, ctx, 3);
  }

  /** Without a matching override, a disabled adaptive switch leaves the current preset. */
  lemma AdjustDisabled(current: ResolutionPreset, ctx: ClientContext)
    requires OverrideIndex(ctx).None? && !ctx.AdaptiveEnabled
    ensures AdjustResolution(current, ctx) == current
  {
  }

  /**
   * After three or more failures: the lowest affordable preset below the current height,
   * or the current preset when there is none.
   */
  lemma AdjustDrop(current: ResolutionPreset, ctx: ClientContext)
    requires OverrideIndex(ctx).None? && ctx.AdaptiveEnabled && ctx.RecentFailures >= 3
    ensures var r := AdjustResolution(current, ctx);
            if exists j :: 0 <= j < |StandardPresets| && StandardPresets[j].MinBitrate <= ctx.BandwidthKbps && StandardPresets[j].Height < current.Height
            then r in StandardPresets && r.MinBitrate <= ctx.BandwidthKbps && r.Height < current.Height
                 && forall j :: 0 <= j < |StandardPresets| && StandardPresets[j].MinBitrate <= ctx.BandwidthKbps && StandardPresets[j].Height < current.Height ==>
                      r.Height <= StandardPresets[j].Height
            else r == current
  {
    TableDescending();
    var d := LastBelow(StandardPresets, ctx.BandwidthKbps, current.Height);
    if d.Some? {
      forall j | 0 <= j < |StandardPresets| && StandardPresets[j].MinBitrate <= ctx.BandwidthKbps && StandardPresets[j].Height < current.Height
        ensures StandardPresets[d.value].Height <= StandardPresets[j].Height
      {
        assert j <= d.value;
      }
    }
  }

  /**
   * With no recent failure: the highest affordable preset above the current height,
   * or the current preset when there is none.
   */
  lemma AdjustBump(current: ResolutionPreset, ctx: ClientContext)
    requires OverrideIndex(ctx).None? && ctx.AdaptiveEnabled && ctx.RecentFailures == 0
    ensures var r := AdjustResolution(current, ctx);
            if exists j :: 0 <= j < |StandardPresets| && StandardPresets[j].MinBitrate <= ctx.BandwidthKbps && StandardPresets[j].Height > current.Height
            then r in StandardPresets && r.MinBitrate <= ctx.BandwidthKbps && r.Height > current.Height
                 && forall j :: 0 <= j < |StandardPresets| && StandardPresets[j].MinBitrate <= ctx.BandwidthKbps && StandardPresets[j].Height > current.Height ==>
                      StandardPresets[j].Height <= r.Height
            else r == current
  {
    TableDescending();
    var u := FirstAbove(StandardPresets, ctx.BandwidthKbps, current.Height);
    if u.Some? {
      forall j | 0 <= j < |StandardPresets| && StandardPresets[j].MinBitrate <= ctx.BandwidthKbps && StandardPresets[j].Height > current.Height
        ensures StandardPresets[j].Height <= StandardPresets[u.value].Height
      {
        assert u.value <= j;
      }
    }
  }

  /** One or two recent failures, or a negative count, is the hysteresis band: nothing changes. */
  lemma AdjustHysteresis(current: ResolutionPreset, ctx: ClientContext)
    requires OverrideIndex(ctx).None? && (ctx.RecentFailures < 0 || ctx.RecentFailures == 1 || ctx.RecentFailures == 2)
    ensures AdjustResolution(current, ctx) == current
  {
  }

  /** Adjusting twice with the same context is adjusting once. */
  lemma AdjustIdempotent(current: ResolutionPreset, ctx: ClientContext)
    ensures AdjustResolution(AdjustResolution(current, ctx), ctx) == AdjustResolution(current, ctx)
  {
    TableDescending();
    var r := AdjustResolution(current, ctx);
    if OverrideIndex(ctx).None? && ctx.AdaptiveEnabled {
      var bw := ctx.BandwidthKbps;
      var d := if ctx.RecentFailures >= 3 then LastBelow(StandardPresets, bw, current.Height) else None;
      if d.Some? {
        // The drop lands on the last affordable preset below; every later tier is cheaper,
        // so it is the last tier of the table, and nothing lies below it.
        assert d.value == |StandardPresets| - 1;
        assert LastBelow(StandardPresets, bw, r.Height).None?;
      } else if ctx.RecentFailures == 0 {
        var u := FirstAbove(StandardPresets, bw, current.Height);
        if u.Some? {
          // Every tier above the bump target was already above the current height and unaffordable.
          assert FirstAbove(StandardPresets, bw, r.Height).None?;
        }
      }
    }
  }

  // ---------------------------------------------------------------------------
  // SelectResolutions

  /** A preset passes the upscale, low-resolution and bandwidth filters of the catalog selection. */
  predicate Keeps(p: ResolutionPreset, media: Analyzer.MediaInfo, ctx: Option<ClientContext>) {
    (!IsUpscale(media.Width, media.Height, p.Width, p.Height) || (ctx.Some? && ctx.value.PreferUpscale))
    && !(ctx.Some? && !ctx.value.AllowLowRes && IsSD(p))
    && !(ctx.Some? && ctx.value.BandwidthKbps > 0 && p.MinBitrate > ctx.value.BandwidthKbps)
  }

  /** The presets that pass the filters, in their original order. */
  function Selection(presets: seq<ResolutionPreset>, media: Analyzer.MediaInfo, ctx: Option<ClientContext>): (r: seq<ResolutionPreset>)
    ensures |r| <= |presets|
  {
    if |presets| == 0 then []
    else
      var last := presets[|presets| - 1];
      Selection(presets[..|presets| - 1], media, ctx) + (if Keeps(last, media, ctx) then [last] else [])
  }

  /** A preset is selected exactly when it is in the table and passes the filters. */
  lemma {:induction false} SelectionMembers(presets: seq<ResolutionPreset>, media: Analyzer.MediaInfo, ctx: Option<ClientContext>)
    ensures forall p :: p in Selection(presets, media, ctx) <==> p in presets && Keeps(p, media, ctx)
    decreases |presets|
  {
    if |presets| > 0 {
      var init := presets[..|presets| - 1];
      var last := presets[|presets| - 1];
      SelectionMembers(init, media, ctx);
      assert presets == init + [last];
    }
  }

  /** One more preset of the table extends the selection by that preset exactly when it passes. */
  lemma SelectionStep(presets: seq<ResolutionPreset>, i: nat, media: Analyzer.MediaInfo, ctx: Option<ClientContext>)
    requires i < |presets|
    ensures Selection(presets[..i + 1], media, ctx) ==
            Selection(presets[..i], media, ctx) + (if Keeps(presets[i], media, ctx) then [presets[i]] else [])
  {
    assert presets[..i + 1][..i] == presets[..i];
  }

  predicate StrictlyDescendingHeights(ps: seq<ResolutionPreset>) {
    forall i, j :: 0 <= i < j < |ps| ==> ps[i].Height > ps[j].Height
  }

  /** Filtering a table whose heights strictly decrease keeps them strictly decreasing. */
  lemma {:induction false} SelectionDescending(presets: seq<ResolutionPreset>, media: Analyzer.MediaInfo, ctx: Option<ClientContext>)
    requires StrictlyDescendingHeights(presets)
    ensures StrictlyDescendingHeights(Selection(presets, media, ctx))
    decreases |presets|
  {
    if |presets| > 0 {
      var init := presets[..|presets| - 1];
      var last := presets[|presets| - 1];
      SelectionDescending(init, media, ctx);
      SelectionMembers(init, media, ctx);
      var s := Selection(init, media, ctx);
      forall q | q in s ensures q.Height > last.Height {
        var k :| 0 <= k < |init| && init[k] == q;
      }
    }
  }

  /** `SelectResolutions`: walks the table and appends every preset that passes the filters. */
  method SelectResolutions(media: Analyzer.MediaInfo, ctx: Option<ClientContext>) returns (r: Result<seq<ResolutionPreset>, ScalerError>)
    ensures var s := Selection(StandardPresets, media, ctx);
            if s == [] then r == Err(ScalerError("SelectResolutions", "no suitable resolutions found")) else r == Ok(s)
  {
    var selected: seq<ResolutionPreset> := [];
    var i := 0;
    while i < |StandardPresets|
      invariant 0 <= i <= |StandardPresets|
      invariant selected == Selection(StandardPresets[..i], media, ctx)
    {
      var preset := StandardPresets[i];
      SelectionStep(StandardPresets, i, media, ctx);
      if IsUpscale(media.Width, media.Height, preset.Width, preset.Height) && (ctx.None? || !ctx.value.PreferUpscale) {
        i := i + 1;
        continue;
      }
      if ctx.Some? && !ctx.value.AllowLowRes && IsSD(preset) {
        i := i + 1;
        continue;
      }
      if ctx.Some? && ctx.value.BandwidthKbps > 0 && preset.MinBitrate > ctx.value.BandwidthKbps {
        i := i + 1;
        continue;
      }
      selected := selected + [preset];
      i := i + 1;
    }
    assert StandardPresets[..i] == StandardPresets;
    if |selected| == 0 {
      return Err(ScalerError("SelectResolutions", "no suitable resolutions found"));
    }
    return Ok(selected);
  }

  /**
   * The selection is the table's filtered subsequence: heights strictly decrease, and a
   * preset is in it exactly when it is in the table and passes every filter, so nothing
   * upscales without the client's preference, nothing is SD when low resolutions are
   * refused, and nothing exceeds a known bandwidth.
   */
  lemma SelectionProperties(media: Analyzer.MediaInfo, ctx: Option<ClientContext>)
    ensures var s := Selection(StandardPresets, media, ctx);
            StrictlyDescendingHeights(s)
            && (forall p :: p in s <==> p in StandardPresets && Keeps(p, media, ctx))
            && (!(ctx.Some? && ctx.value.PreferUpscale) ==> forall i :: 0 <= i < |s| ==> !IsUpscale(media.Width, media.Height, s[i].Width, s[i].Height))
            && (ctx.Some? && !ctx.value.AllowLowRes ==> forall i :: 0 <= i < |s| ==> s[i].Height > 480)
            && (ctx.Some? && ctx.value.BandwidthKbps > 0 ==> forall i :: 0 <= i < |s| ==> s[i].MinBitrate <= ctx.value.BandwidthKbps)
  {
    SelectionMembers(StandardPresets, media, ctx);
    TableDescending();
    SelectionDescending(StandardPresets, media, ctx);
    var s := Selection(StandardPresets, media, ctx);
    assert forall i :: 0 <= i < |s| ==> s[i] in s && Keeps(s[i], media, ctx);
  }
}
