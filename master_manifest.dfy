/**
 * `GenerateMasterManifest`: the entry point of the manifest stage. It checks that the
 * segmenting stage produced manifests, picks the master format from the result's
 * format name without regard to case, and writes a fresh or reconciled HLS master or
 * a DASH master.
 */
module MasterManifest {
  import opened Wrappers
  import opened GoStrings
  import Segmenter
  import opened Manifester
  import HLSMaster
  import DASHMaster

  /** The master formats the stage writes. */
  datatype MasterFormat = HLS | DASH

  /** The master format a format name selects, compared in lower case; None when unsupported. */
  function FormatOf(format: string): Option<MasterFormat>
  {
    var f := ToLower(format);
    if f == "hls" then Some(HLS) else if f == "dash" then Some(DASH) else None
  }

  lemma LowerAs(c: char, lower: char)
    requires 'a' <= lower <= 'z'
    ensures LowerChar(c) == lower <==> c == lower || c as int == lower as int - 32
  {
  }

  /** The format names that select HLS: "hls" in any mix of cases. */
  lemma FormatOfHLS(format: string)
    ensures FormatOf(format) == Some(HLS) <==>
              |format| == 3 && format[0] in "hH" && format[1] in "lL" && format[2] in "sS"
  {
    var f := ToLower(format);
    if |format| == 3 {
      LowerAs(format[0], 'h');
      LowerAs(format[1], 'l');
      LowerAs(format[2], 's');
      assert f == "hls" <==> f[0] == 'h' && f[1] == 'l' && f[2] == 's';
    }
  }

  /** The format names that select DASH: "dash" in any mix of cases. */
  lemma FormatOfDASH(format: string)
    ensures FormatOf(format) == Some(DASH) <==>
              |format| == 4 && format[0] in "dD" && format[1] in "aA" && format[2] in "sS" && format[3] in "hH"
  {
    var f := ToLower(format);
    if |format| == 4 {
      LowerAs(format[0], 'd');
      LowerAs(format[1], 'a');
      LowerAs(format[2], 's');
      LowerAs(format[3], 'h');
      assert f == "dash" <==> f[0] == 'd' && f[1] == 'a' && f[2] == 's' && f[3] == 'h';
    }
  }

  /** Lower-casing a format name first selects the same format. */
  lemma FormatOfLower(format: string)
    ensures FormatOf(ToLower(format)) == FormatOf(format)
  {
    ToLowerIdempotent(format);
  }

  /**
   * `GenerateMasterManifest`: a "validate" error when there is no result or no manifest,
   * and for a format other than hls or dash; otherwise the HLS master (reconciled with
   * the existing one when `preserve` is set) or the DASH master in the result's output
   * directory. `readMaster` and `createOk` stand for reading and creating files.
   */
  method GenerateMasterManifest(seg: Segmenter.SegmentResult?, preserve: bool,
                                readMaster: string -> Option<string>, createOk: string -> bool)
    returns (r: Result<MasterFile, ManifesterError>, ghost labels: seq<string>, ghost listed: seq<ManifestMeta>)
    ensures seg == null || seg.Manifests == [] ==> r == Err(ManifesterError("validate", "no manifests to aggregate"))
    ensures seg != null && seg.Manifests != [] ==>
              match FormatOf(seg.Format)
              case None => r == Err(ManifesterError("validate", "unsupported format: " + seg.Format))
              case Some(DASH) => DASHMaster.DASHResult(seg.OutputDir, seg.Manifests, createOk, r)
              case Some(HLS) =>
                if preserve then HLSMaster.ReconciledResult(seg.OutputDir, seg.Manifests, readMaster, createOk, r, labels, listed)
                else HLSMaster.FreshResult(seg.OutputDir, seg.Manifests, createOk, r)
  {
    labels, listed := [], [];
    if seg == null || |seg.Manifests| == 0 {
      return Err(ManifesterError("validate", "no manifests to aggregate")), labels, listed;
    }
    match FormatOf(seg.Format)
    case Some(HLS) =>
      if preserve {
        r, labels, listed := HLSMaster.ReconcileHLSMaster(seg.OutputDir, seg.Manifests, readMaster, createOk);
      } else {
        r := HLSMaster.GenerateHLSMaster(seg.OutputDir, seg.Manifests, createOk);
      }
    case Some(DASH) =>
      r := DASHMaster.GenerateDASHMaster(seg.OutputDir, seg.Manifests, createOk);
    case None =>
      r := Err(ManifesterError("validate", "unsupported format: " + seg.Format));
  }
}
