/**
 * The master-manifest stage: from the manifest paths collected by the segmenter it
 * writes one master playlist (HLS, `master.m3u8`) or one master presentation (DASH,
 * `master.mpd`) in the session directory. With `preserve`, an existing HLS master is
 * read back, merged with the new variants and written again in a canonical order.
 *
 * Files are values here: reading the existing master is the parameter `readMaster`
 * (None when it cannot be read), and `createOk` says whether a file can be created.
 * The text written is returned beside the path.
 */
module Manifester {
  import opened Wrappers
  import opened GoStrings
  import GoPath
  import Namer

  // ---------------------------------------------------------------------------
  // Records

  /** An error of the stage: the operation and a summary (the wrapped cause is not kept). */
  datatype ManifesterError = ManifesterError(Op: string, Msg: string)

  /** One variant line pair of an HLS master. */
  datatype ManifestMeta = ManifestMeta(Label: string, Bitrate: int, Resolution: string, ManifestURL: string)

  /** A master file: its path and the text written to it. */
  datatype MasterFile = MasterFile(Path: string, Text: string)

  // ---------------------------------------------------------------------------
  // Labels, bandwidth and resolution

  /** `extractLabel`: the base name of a path without its extension (the slug rule of the namer). */
  function ExtractLabel(path: string): (r: string)
    ensures r + GoPath.Ext(GoPath.Base(path)) == GoPath.Base(path)
  {
    Namer.SlugFromPath(path)
  }

  /** The bandwidth assumed when a label carries none: 1 Mbps. */
  const DefaultBandwidth: int := 1000000

  /**
   * `estimateBitrate`: the second '_'-separated part of the label, without a "kbps"
   * suffix, read as kilobits per second and scaled to bits (with Go's 64-bit wrap-around),
   * else the default.
   */
  function EstimateBitrate(lbl: string): (r: int)
    ensures InInt64(r)
  {
    var parts := Split(lbl, '_');
    if |parts| > 1 then
      match Atoi(TrimSuffix(parts[1], "kbps"))
      case Some(kbps) => Wrap64(kbps * 1000)
      case None => DefaultBandwidth
    else DefaultBandwidth
  }

  /** A label without '_' always gets the default bandwidth. */
  lemma EstimateWithoutUnderscore(lbl: string)
    requires '_' !in lbl
    ensures EstimateBitrate(lbl) == DefaultBandwidth
  {
    assert Split(lbl, '_') == [lbl];
  }

  /** A label res_Nkbps gets N thousand bits per second. */
  lemma EstimateOfKbps(res: string, n: int)
    requires '_' !in res && InInt64(n)
    ensures EstimateBitrate(res + "_" + (Itoa(n) + "kbps")) == Wrap64(n * 1000)
  {
    var tail := Itoa(n) + "kbps";
    assert '_' !in tail by {
      forall i | 0 <= i < |tail| ensures tail[i] != '_' {
        if i >= |Itoa(n)| { assert tail[i] == "kbps"[i - |Itoa(n)|]; }
        else if i > 0 || n >= 0 { assert IsDigit(Itoa(n)[i]); }
      }
    }
    SplitCons(res, '_', tail);
    assert Split(tail, '_') == [tail];
    assert TrimSuffix(tail, "kbps") == Itoa(n);
    AtoiItoa(n);
  }

  /**
   * `resolutionFromLabel`: the first '_'-separated part of the label looked up in a fixed
   * table, with 640x360 for anything else.
   */
  function ResolutionFromLabel(lbl: string): (r: string)
    ensures r in {"1920x1080", "1280x720", "854x480", "640x360", "426x240", "256x144"}
  {
    var first := Split(lbl, '_')[0];
    if first == "1080p" then "1920x1080"
    else if first == "720p" then "1280x720"
    else if first == "480p" then "854x480"
    else if first == "360p" then "640x360"
    else if first == "240p" then "426x240"
    else if first == "144p" then "256x144"
    else "640x360"
  }

  /** Every resolution of the table is a non-empty word without whitespace. */
  lemma ResolutionIsWord(lbl: string)
    ensures var r := ResolutionFromLabel(lbl); r != "" && NoSpace(r) && r[0] != '#'
  {
    var r := ResolutionFromLabel(lbl);
    assert IsDigit(r[0]);
    assert forall i :: 0 <= i < |r| ==> IsDigit(r[i]) || r[i] == 'x';
  }

  /** The resolution depends only on the part before the first '_'; 1440p and 2160p are not in the table. */
  lemma ResolutionOfFirstPart(res: string, rest: string)
    requires '_' !in res
    ensures ResolutionFromLabel(res + "_" + rest) == ResolutionFromLabel(res)
    ensures res == "1440p" || res == "2160p" ==> ResolutionFromLabel(res) == "640x360"
  {
    SplitCons(res, '_', rest);
    assert Split(res, '_') == [res];
  }
  // ---------------------------------------------------------------------------
  // Lines of text

  /** Lines written one after another, each followed by a newline. */
  function Terminated(lines: seq<string>): string
  {
    if |lines| == 0 then "" else lines[0] + "\n" + Terminated(lines[1..])
  }

  lemma {:induction false} TerminatedAppend(xs: seq<string>, ys: seq<string>)
    ensures Terminated(xs + ys) == Terminated(xs) + Terminated(ys)
    decreases |xs|
  {
    if |xs| > 0 {
      assert (xs + ys)[1..] == xs[1..] + ys;
      TerminatedAppend(xs[1..], ys);
    } else {
      assert xs + ys == ys;
    }
  }

  /** Splitting newline-terminated lines at '\n' gives the lines back, and an empty last piece. */
  lemma {:induction false} SplitTerminated(lines: seq<string>)
    requires forall i :: 0 <= i < |lines| ==> '\n' !in lines[i]
    ensures Split(Terminated(lines), '\n') == lines + [""]
    decreases |lines|
  {
    if |lines| > 0 {
      var rest := lines[1..];
      assert forall i :: 0 <= i < |rest| ==> rest[i] == lines[i + 1];
      SplitTerminated(rest);
      assert Terminated(lines) == lines[0] + ['\n'] + Terminated(rest);
      SplitCons(lines[0], '\n', Terminated(rest));
      assert lines + [""] == [lines[0]] + (rest + [""]);
    }
  }

  // ---------------------------------------------------------------------------
  // HLS master text

  const StreamInfTag := "#EXT-X-STREAM-INF"
  const BandwidthLead := "#EXT-X-STREAM-INF:BANDWIDTH="
  const ResolutionLead := ",RESOLUTION="

  /** The two header lines of an HLS master. */
  const HLSHeader: seq<string> := ["#EXTM3U", "#EXT-X-VERSION:3"]

  /** The `#EXT-X-STREAM-INF` line of a variant. */
  function StreamInf(bitrate: int, resolution: string): string
  {
    BandwidthLead + Itoa(bitrate) + ResolutionLead + resolution
  }

  /** The two lines of each entry, in order: its stream-info line, then its URI. */
  function EntryLines(es: seq<ManifestMeta>): (r: seq<string>)
    ensures |r| == 2 * |es|
  {
    if |es| == 0 then []
    else
      var e := es[|es| - 1];
      EntryLines(es[..|es| - 1]) + [StreamInf(e.Bitrate, e.Resolution), e.ManifestURL]
  }

  /** The lines of an HLS master listing `es`. */
  function HLSLines(es: seq<ManifestMeta>): seq<string>
  {
    HLSHeader + EntryLines(es)
  }

  /** The text of an HLS master listing `es`. */
  function HLSText(es: seq<ManifestMeta>): string
  {
    Terminated(HLSLines(es))
  }

  lemma EntryLinesStep(es: seq<ManifestMeta>, i: nat)
    requires i < |es|
    ensures EntryLines(es[..i + 1]) == EntryLines(es[..i]) + [StreamInf(es[i].Bitrate, es[i].Resolution), es[i].ManifestURL]
  {
    assert es[..i + 1][..i] == es[..i];
  }

  lemma {:induction false} EntryLinesAt(es: seq<ManifestMeta>, i: nat)
    requires i < |es|
    ensures EntryLines(es)[2 * i] == StreamInf(es[i].Bitrate, es[i].Resolution)
    ensures EntryLines(es)[2 * i + 1] == es[i].ManifestURL
    decreases |es|
  {
    if i < |es| - 1 {
      EntryLinesAt(es[..|es| - 1], i);
    }
  }

  /** Writing one more entry appends its stream-info line and its URI, each with a newline. */
  lemma HLSTextStep(es: seq<ManifestMeta>, i: nat)
    requires i < |es|
    ensures HLSText(es[..i + 1]) == HLSText(es[..i]) + (StreamInf(es[i].Bitrate, es[i].Resolution) + "\n" + es[i].ManifestURL + "\n")
  {
    EntryLinesStep(es, i);
    var inf, uri := StreamInf(es[i].Bitrate, es[i].Resolution), es[i].ManifestURL;
    var pair := [inf, uri];
    assert HLSLines(es[..i + 1]) == HLSLines(es[..i]) + pair;
    TerminatedAppend(HLSLines(es[..i]), pair);
    assert pair[1..] == [uri];
    assert Terminated([uri]) == uri + "\n";
    assert Terminated(pair) == inf + "\n" + uri + "\n";
  }

  /** The lines of a master: the header, then a stream-info line and a URI per entry, in order. */
  lemma HLSLinesShape(es: seq<ManifestMeta>)
    ensures var ls := HLSLines(es);
            |ls| == 2 + 2 * |es| && ls[0] == "#EXTM3U" && ls[1] == "#EXT-X-VERSION:3"
            && forall i :: 0 <= i < |es| ==> ls[2 + 2 * i] == StreamInf(es[i].Bitrate, es[i].Resolution)
                                              && ls[3 + 2 * i] == es[i].ManifestURL
  {
    var ls := HLSLines(es);
    var body := EntryLines(es);
    assert ls == HLSHeader + body;
    forall i | 0 <= i < |es|
      ensures ls[2 + 2 * i] == StreamInf(es[i].Bitrate, es[i].Resolution)
      ensures ls[3 + 2 * i] == es[i].ManifestURL
    {
      EntryLinesAt(es, i);
      assert ls[2 + 2 * i] == body[2 * i];
      assert ls[3 + 2 * i] == body[2 * i + 1];
    }
  }

  // ---------------------------------------------------------------------------
  // Scanning a stream-info line: fmt.Sscanf with "BANDWIDTH=%d,RESOLUTION=%s"

  /** The characters the scanner of `%d` collects: decimal digits only. */
  predicate ScanDigit(c: char) { IsDigit(c) }

  /** The end of the run of `%d` characters starting at `k`. */
  function DigitRunEnd(s: string, k: nat): (n: nat)
    requires k <= |s|
    ensures k <= n <= |s|
    ensures forall i :: k <= i < n ==> ScanDigit(s[i])
    ensures n == |s| || !ScanDigit(s[n])
    decreases |s| - k
  {
    if k < |s| && ScanDigit(s[k]) then DigitRunEnd(s, k + 1) else k
  }

  /** The end of the run of non-space characters starting at `k`. */
  function WordEnd(s: string, k: nat): (n: nat)
    requires k <= |s|
    ensures k <= n <= |s|
    ensures forall i :: k <= i < n ==> !IsSpace(s[i])
    ensures n == |s| || IsSpace(s[n])
    decreases |s| - k
  {
    if k < |s| && !IsSpace(s[k]) then WordEnd(s, k + 1) else k
  }

  /**
   * `%d` from index `k`: blanks are skipped, an optional sign and the run of decimal
   * digits after it form the token, which must parse as a base-10 int64. The value
   * and the index after the token. (The lines scanned never hold a newline, the one
   * blank that would stop fmt's skipping with an error.)
   */
  function ScanDecimal(s: string, k: nat): (r: Option<(int, nat)>)
    requires k <= |s|
    ensures r.Some? ==> InInt64(r.value.0) && k < r.value.1 <= |s|
  {
    var start := SkipSpaceFrom(s, k);
    var digits := if start < |s| && (s[start] == '+' || s[start] == '-') then start + 1 else start;
    var end := DigitRunEnd(s, digits);
    if end == digits then None
    else
      match Atoi(s[start..end])
      case Some(v) => Some((v, end))
      case None => None
  }

  /** `%s` from index `k`: blanks are skipped and the following non-empty run of non-space characters is read; the word and the index after it. */
  function ScanWord(s: string, k: nat): (r: Option<(string, nat)>)
    requires k <= |s|
    ensures r.Some? ==> r.value.0 != "" && NoSpace(r.value.0) && k < r.value.1 <= |s|
  {
    var start := SkipSpaceFrom(s, k);
    if start == |s| then None else Some((s[start..WordEnd(s, start)], WordEnd(s, start)))
  }

  /** The pieces of a scan format: literal text, a `%d` verb and a `%s` verb. */
  datatype FormatItem = Lit(text: string) | IntVerb | StrVerb

  /** A value a verb scanned. */
  datatype ScanValue = IntValue(i: int) | StrValue(s: string)

  /** What `%d` and `%s` can deliver: a 64-bit integer, a non-empty word without whitespace. */
  predicate Scannable(v: ScanValue) {
    match v
    case IntValue(i) => InInt64(i)
    case StrValue(w) => w != "" && NoSpace(w)
  }

  /** One item of a scan format at index `k`: the values it scans (none for literal text) and the index after it. */
  function ScanItem(s: string, k: nat, item: FormatItem): (r: Option<(seq<ScanValue>, nat)>)
    requires k <= |s|
    ensures r.Some? ==> k <= r.value.1 <= |s|
  {
    match item
    case Lit(text) => if HasPrefix(s[k..], text) then Some(([], k + |text|)) else None
    case IntVerb =>
      (match ScanDecimal(s, k)
       case None => None
       case Some((v, n)) => Some(([IntValue(v)], n)))
    case StrVerb =>
      (match ScanWord(s, k)
       case None => None
       case Some((w, n)) => Some(([StrValue(w)], n)))
  }

  /**
   * `fmt.Sscanf` on `s` from index `k` under `format`: literal text must follow exactly,
   * each verb scans one value; the values in order, or None at the first failure. Text
   * left after the format is ignored.
   */
  function Sscanf(s: string, k: nat, format: seq<FormatItem>): (r: Option<seq<ScanValue>>)
    requires k <= |s|
    decreases |format|
  {
    if format == [] then Some([])
    else
      match ScanItem(s, k, format[0])
      case None => None
      case Some((vs, n)) =>
        match Sscanf(s, n, format[1..])
        case None => None
        case Some(rest) => Some(vs + rest)
  }

  /** The format of a stream-info line. */
  const StreamInfFormat: seq<FormatItem> := [Lit(BandwidthLead), IntVerb, Lit(ResolutionLead), StrVerb]

  /**
   * `fmt.Sscanf(line, "#EXT-X-STREAM-INF:BANDWIDTH=%d,RESOLUTION=%s", ...)`: the bandwidth
   * and the resolution, when the whole format scans.
   */
  function ScanStreamInf(line: string): (r: Option<(int, string)>)
    ensures r.Some? ==> InInt64(r.value.0) && r.value.1 != "" && NoSpace(r.value.1)
  {
    var scanned := Sscanf(line, 0, StreamInfFormat);
    SscanfScannable(line, 0, StreamInfFormat);
    if scanned.Some? && |scanned.value| == 2 && scanned.value[0].IntValue? && scanned.value[1].StrValue? then
      assert Scannable(scanned.value[0]) && Scannable(scanned.value[1]);
      Some((scanned.value[0].i, scanned.value[1].s))
    else None
  }

  lemma {:induction false} DigitRunOf(s: string, k: nat, n: nat)
    requires k <= n <= |s|
    requires forall i :: k <= i < n ==> IsDigit(s[i])
    requires n == |s| || !ScanDigit(s[n])
    ensures DigitRunEnd(s, k) == n
    decreases n - k
  {
    if k < n {
      DigitRunOf(s, k + 1, n);
    }
  }

  lemma {:induction false} WordOf(s: string, k: nat)
    requires k <= |s|
    requires forall i :: k <= i < |s| ==> !IsSpace(s[i])
    ensures WordEnd(s, k) == |s|
    decreases |s| - k
  {
    if k < |s| {
      WordOf(s, k + 1);
    }
  }

  /** `%d` at a token that starts right at `k`, ends at `end` and parses as `v`. */
  lemma ScanDecimalOfToken(s: string, k: nat, end: nat, v: int)
    requires k < end <= |s| && !IsSpace(s[k])
    requires var digits := if s[k] == '+' || s[k] == '-' then k + 1 else k;
             digits < end && (forall i :: digits <= i < end ==> IsDigit(s[i])) && (end == |s| || !ScanDigit(s[end]))
    requires Atoi(s[k..end]) == Some(v)
    ensures ScanDecimal(s, k) == Some((v, end))
  {
    assert SkipSpaceFrom(s, k) == k;
    var digits := if s[k] == '+' || s[k] == '-' then k + 1 else k;
    DigitRunOf(s, digits, end);
    assert DigitRunEnd(s, digits) == end;
  }

  /** `num` is a whole `%d` token: an optional sign, then digits only, that parses as `n`. */
  predicate DecimalToken(num: string, n: int) {
    |num| > 0 && !IsSpace(num[0])
    && (var digits := if num[0] == '+' || num[0] == '-' then 1 else 0;
        digits < |num| && forall i :: digits <= i < |num| ==> IsDigit(num[i]))
    && Atoi(num) == Some(n)
  }

  /** A written decimal is a whole `%d` token for its value. */
  lemma ItoaToken(n: int)
    requires InInt64(n)
    ensures DecimalToken(Itoa(n), n)
  {
    AtoiItoa(n);
    if n < 0 {
      assert !IsDigit(Itoa(n)[0]);
    }
  }

  /** `%d` reads back a whole token followed by a character that ends it. */
  lemma ScanDecimalOfWritten(p: string, num: string, q: string, n: int)
    requires DecimalToken(num, n) && q != [] && !ScanDigit(q[0])
    ensures ScanDecimal(p + num + q, |p|) == Some((n, |p| + |num|))
  {
    var line := p + num + q;
    var end := |p| + |num|;
    assert line[|p|..end] == num;
    var digits := if num[0] == '+' || num[0] == '-' then |p| + 1 else |p|;
    forall i | digits <= i < end ensures IsDigit(line[i]) {
      assert line[i] == num[i - |p|];
    }
    ScanDecimalOfToken(line, |p|, end, n);
  }

  /** `%s` reads back a non-empty word that runs to the end of the line. */
  lemma ScanWordOfWritten(p: string, w: string)
    requires w != "" && NoSpace(w)
    ensures ScanWord(p + w, |p|) == Some((w, |p + w|))
  {
    var line := p + w;
    assert line[|p|] == w[0];
    assert forall i :: |p| <= i < |line| ==> line[i] == w[i - |p|];
    WordOf(line, |p|);
    assert SkipSpaceFrom(line, |p|) == |p|;
    assert line[|p|..|line|] == w;
  }

  /** Every value a scan delivers is one its verb can deliver. */
  lemma {:induction false} SscanfScannable(s: string, k: nat, format: seq<FormatItem>)
    requires k <= |s|
    ensures Sscanf(s, k, format).Some? ==> forall v :: v in Sscanf(s, k, format).value ==> Scannable(v)
    decreases |format|
  {
    if format != [] {
      match ScanItem(s, k, format[0])
      case None =>
      case Some((vs, n)) =>
        SscanfScannable(s, n, format[1..]);
    }
  }

  /** Literal text that follows is consumed. */
  lemma SscanfLit(s: string, k: nat, text: string, rest: seq<FormatItem>)
    requires k <= |s| && HasPrefix(s[k..], text)
    ensures k + |text| <= |s|
    ensures Sscanf(s, k, [Lit(text)] + rest) == Sscanf(s, k + |text|, rest)
  {
    var f := [Lit(text)] + rest;
    assert f[0] == Lit(text) && f[1..] == rest;
    assert ScanItem(s, k, f[0]) == Some(([], k + |text|));
    match Sscanf(s, k + |text|, rest)
    case None =>
    case Some(vs) =>
      assert [] + vs == vs;
  }

  /** A `%d` that scans `v` up to `n`, followed by a successful rest. */
  lemma SscanfInt(s: string, k: nat, rest: seq<FormatItem>, v: int, n: nat, vs: seq<ScanValue>)
    requires k <= |s| && ScanDecimal(s, k) == Some((v, n)) && Sscanf(s, n, rest) == Some(vs)
    ensures Sscanf(s, k, [IntVerb] + rest) == Some([IntValue(v)] + vs)
  {
    var f := [IntVerb] + rest;
    assert f[0] == IntVerb && f[1..] == rest;
    assert ScanItem(s, k, f[0]) == Some(([IntValue(v)], n));
  }

  /** A `%s` that scans `w` up to `n`, followed by a successful rest. */
  lemma SscanfStr(s: string, k: nat, rest: seq<FormatItem>, w: string, n: nat, vs: seq<ScanValue>)
    requires k <= |s| && ScanWord(s, k) == Some((w, n)) && Sscanf(s, n, rest) == Some(vs)
    ensures Sscanf(s, k, [StrVerb] + rest) == Some([StrValue(w)] + vs)
  {
    var f := [StrVerb] + rest;
    assert f[0] == StrVerb && f[1..] == rest;
    assert ScanItem(s, k, f[0]) == Some(([StrValue(w)], n));
  }

  /** `%s` at a run of non-space characters that reaches the end of the line. */
  lemma ScanWordToEnd(s: string, k: nat)
    requires k < |s| && forall i :: k <= i < |s| ==> !IsSpace(s[i])
    ensures ScanWord(s, k) == Some((s[k..], |s|))
  {
    WordOf(s, k);
    assert !IsSpace(s[k]);
    assert SkipSpaceFrom(s, k) == k;
    assert s[k..WordEnd(s, k)] == s[k..];
  }

  /** A final `%s` reads the rest of the line. */
  lemma SscanfWordToEnd(s: string, k: nat)
    requires k < |s| && forall i :: k <= i < |s| ==> !IsSpace(s[i])
    ensures Sscanf(s, k, [StrVerb]) == Some([StrValue(s[k..])])
  {
    ScanWordToEnd(s, k);
    assert Sscanf(s, |s|, []) == Some([]);
    SscanfStr(s, k, [], s[k..], |s|, []);
    assert [StrVerb] + [] == [StrVerb];
    assert [StrValue(s[k..])] + [] == [StrValue(s[k..])];
  }

  /** Literal text, then a final `%s` that reads the rest of the line. */
  lemma SscanfLitWordToEnd(s: string, k: nat, lit: string)
    requires k + |lit| < |s| && s[k..k + |lit|] == lit
    requires forall i :: k + |lit| <= i < |s| ==> !IsSpace(s[i])
    ensures Sscanf(s, k, [Lit(lit), StrVerb]) == Some([StrValue(s[k + |lit|..])])
  {
    assert s[k..][..|lit|] == lit;
    SscanfWordToEnd(s, k + |lit|);
    SscanfLit(s, k, lit, [StrVerb]);
    assert [Lit(lit)] + [StrVerb] == [Lit(lit), StrVerb];
  }

  /** Where the pieces of `p + num + lit + w` sit. */
  lemma TemplateLayout(p: string, num: string, lit: string, w: string)
    ensures var s := p + num + lit + w;
            var k1 := |p| + |num|;
            var k2 := k1 + |lit|;
            && s == p + num + (lit + w)
            && s[0..][..|p|] == p && s[k1..k2] == lit && s[k2..] == w
  {
  }

  /** No character of a word is a blank. */
  lemma WordChars(s: string, k: nat, w: string)
    requires k <= |s| && s[k..] == w && NoSpace(w)
    ensures forall i :: k <= i < |s| ==> !IsSpace(s[i])
  {
    forall i | k <= i < |s| ensures !IsSpace(s[i]) {
      assert s[i] == w[i - k];
    }
  }

  /** A `%d` that reads `n`, literal text, then a final `%s` that reads the word `w` ending the line. */
  lemma SscanfIntLitWordToEnd(s: string, k: nat, k1: nat, n: int, lit: string, w: string)
    requires k <= |s| && ScanDecimal(s, k) == Some((n, k1))
    requires k1 + |lit| <= |s| && s[k1..k1 + |lit|] == lit
    requires s[k1 + |lit|..] == w && w != "" && NoSpace(w)
    ensures Sscanf(s, k, [IntVerb, Lit(lit), StrVerb]) == Some([IntValue(n), StrValue(w)])
  {
    WordChars(s, k1 + |lit|, w);
    SscanfLitWordToEnd(s, k1, lit);
    SscanfInt(s, k, [Lit(lit), StrVerb], n, k1, [StrValue(w)]);
    assert [IntVerb] + [Lit(lit), StrVerb] == [IntVerb, Lit(lit), StrVerb];
    assert [IntValue(n)] + [StrValue(w)] == [IntValue(n), StrValue(w)];
  }

  /** A `%d` token, literal text and a final word, in that order, scan back as the token's value and the word. */
  lemma ScanTemplateTail(p: string, num: string, n: int, lit: string, w: string)
    requires DecimalToken(num, n) && lit != "" && !ScanDigit(lit[0]) && w != "" && NoSpace(w)
    ensures Sscanf(p + num + lit + w, |p|, [IntVerb, Lit(lit), StrVerb]) == Some([IntValue(n), StrValue(w)])
  {
    var s := p + num + lit + w;
    TemplateLayout(p, num, lit, w);
    ScanDecimalOfWritten(p, num, lit + w, n);
    SscanfIntLitWordToEnd(s, |p|, |p| + |num|, n, lit, w);
  }

  /** The whole template: leading text, a `%d` token, literal text and a final word. */
  lemma ScanTemplate(p: string, num: string, n: int, lit: string, w: string)
    requires DecimalToken(num, n) && lit != "" && !ScanDigit(lit[0]) && w != "" && NoSpace(w)
    ensures Sscanf(p + num + lit + w, 0, [Lit(p), IntVerb, Lit(lit), StrVerb]) == Some([IntValue(n), StrValue(w)])
  {
    var s := p + num + lit + w;
    ScanTemplateTail(p, num, n, lit, w);
    assert s[0..][..|p|] == p;
    SscanfLit(s, 0, p, [IntVerb, Lit(lit), StrVerb]);
    assert [Lit(p)] + [IntVerb, Lit(lit), StrVerb] == [Lit(p), IntVerb, Lit(lit), StrVerb];
  }

  /** The scanner reads back the value of a `%d` token and a word placed in the stream-info template. */
  lemma ScanStreamInfOf(num: string, n: int, resolution: string)
    requires DecimalToken(num, n) && resolution != "" && NoSpace(resolution)
    ensures ScanStreamInf(BandwidthLead + num + ResolutionLead + resolution) == Some((n, resolution))
  {
    assert ResolutionLead[0] == ',';
    ScanTemplate(BandwidthLead, num, n, ResolutionLead, resolution);
  }

  /** The scanner reads back the bandwidth and resolution of a written stream-info line. */
  lemma ScanStreamInfOfWritten(bitrate: int, resolution: string)
    requires InInt64(bitrate) && resolution != "" && NoSpace(resolution)
    ensures ScanStreamInf(StreamInf(bitrate, resolution)) == Some((bitrate, resolution))
  {
    ItoaToken(bitrate);
    ScanStreamInfOf(Itoa(bitrate), bitrate, resolution);
  }

  // ---------------------------------------------------------------------------
  // Parsing an HLS master (parseHLSManifest)

  /**
   * What the parser takes from a line and the line after it: nothing unless the line
   * starts with `#EXT-X-STREAM-INF` and scans; otherwise an entry whose URL is the next
   * line and whose label comes from that URL.
   */
  function EntryFrom(inf: string, next: string): (r: seq<ManifestMeta>)
    ensures |r| <= 1
    ensures r != [] <==> HasPrefix(inf, StreamInfTag) && ScanStreamInf(inf).Some?
    ensures r != [] ==> r[0] == ManifestMeta(ExtractLabel(next), ScanStreamInf(inf).value.0, ScanStreamInf(inf).value.1, next)
  {
    if !HasPrefix(inf, StreamInfTag) then []
    else
      match ScanStreamInf(inf)
      case None => []
      case Some((bandwidth, resolution)) => [ManifestMeta(ExtractLabel(next), bandwidth, resolution, next)]
  }

  /** The entries read from the consecutive line pairs of `lines`, in order. */
  function ParsedEntries(lines: seq<string>): (r: seq<ManifestMeta>)
    decreases |lines|
  {
    if |lines| < 2 then []
    else ParsedEntries(lines[..|lines| - 1]) + EntryFrom(lines[|lines| - 2], lines[|lines| - 1])
  }

  /** Line `i + 1` adds what line `i` and it yield. */
  lemma ParsedStep(lines: seq<string>, i: nat)
    requires i + 1 < |lines|
    ensures ParsedEntries(lines[..i + 2]) == ParsedEntries(lines[..i + 1]) + EntryFrom(lines[i], lines[i + 1])
  {
    assert lines[..i + 2][..i + 1] == lines[..i + 1];
  }

  /** One more line adds what its predecessor and it yield. */
  lemma ParsedSnoc(lines: seq<string>, last: string, x: string)
    requires |lines| > 0 && lines[|lines| - 1] == last
    ensures ParsedEntries(lines + [x]) == ParsedEntries(lines) + EntryFrom(last, x)
  {
    assert (lines + [x])[..|lines|] == lines;
  }

  /** `parseHLSManifest`: the text split at newlines, each line but the last tried as a stream-info line. */
  method ParseHLSManifest(raw: string) returns (entries: seq<ManifestMeta>)
    ensures entries == ParsedEntries(Split(raw, '\n'))
  {
    var lines := Split(raw, '\n');
    entries := [];
    var i := 0;
    while i < |lines| - 1
      invariant 0 <= i <= |lines| - 1
      invariant entries == ParsedEntries(lines[..i + 1])
    {
      var inf := lines[i];
      var next := lines[i + 1];
      if HasPrefix(inf, StreamInfTag) {
        var scanned := ScanStreamInf(inf);
        if scanned.Some? {
          entries := entries + [ManifestMeta(ExtractLabel(next), scanned.value.0, scanned.value.1, next)];
        }
      }
      ParsedStep(lines, i);
      i := i + 1;
    }
    assert lines[..i + 1] == lines;
  }

  /** What the parser guarantees of an entry it read from `lines`. */
  predicate ParsedFrom(e: ManifestMeta, lines: seq<string>) {
    e.Label == ExtractLabel(e.ManifestURL) && InInt64(e.Bitrate) && e.Resolution != "" && NoSpace(e.Resolution)
    && e.ManifestURL in lines
  }

  /** Every parsed entry has its label from its URL, a 64-bit bandwidth, a resolution word, and a line of the text as URL. */
  lemma {:induction false} ParsedFromLines(lines: seq<string>)
    ensures forall e :: e in ParsedEntries(lines) ==> ParsedFrom(e, lines)
    decreases |lines|
  {
    if |lines| >= 2 {
      var init := lines[..|lines| - 1];
      var earlier := ParsedEntries(init);
      var last := EntryFrom(lines[|lines| - 2], lines[|lines| - 1]);
      assert ParsedEntries(lines) == earlier + last;
      ParsedFromLines(init);
      forall e | e in earlier + last ensures ParsedFrom(e, lines) {
        if e in earlier {
          assert ParsedFrom(e, init);
          assert e.ManifestURL in lines;
        } else {
          assert e == last[0];
        }
      }
    }
  }

  // ---------------------------------------------------------------------------
  // Writing then parsing an HLS master

  /** An entry the parser reads back from its own two lines. */
  predicate Readable(e: ManifestMeta) {
    InInt64(e.Bitrate) && e.Resolution != "" && NoSpace(e.Resolution)
    && '\n' !in e.ManifestURL && !HasPrefix(e.ManifestURL, StreamInfTag)
    && e.Label == ExtractLabel(e.ManifestURL)
  }

  /** Every entry of `es` is readable. */
  predicate EveryReadable(es: seq<ManifestMeta>) {
    forall i :: 0 <= i < |es| ==> Readable(es[i])
  }

  /** The literal parts of a stream-info line hold no newline. */
  lemma LeadsOneLine()
    ensures '\n' !in BandwidthLead && '\n' !in ResolutionLead
  {
  }

  /** A written stream-info line holds no newline. */
  lemma StreamInfOneLine(bitrate: int, resolution: string)
    requires NoSpace(resolution)
    ensures '\n' !in StreamInf(bitrate, resolution)
  {
    LeadsOneLine();
    assert forall i :: 0 <= i < |resolution| ==> resolution[i] != '\n';
  }

  /** No line holds a newline. */
  predicate OneLines(ls: seq<string>) {
    forall j :: 0 <= j < |ls| ==> '\n' !in ls[j]
  }

  lemma OneLinesConcat(xs: seq<string>, ys: seq<string>)
    requires OneLines(xs) && OneLines(ys)
    ensures OneLines(xs + ys)
  {
    forall j | 0 <= j < |xs + ys| ensures '\n' !in (xs + ys)[j] {
      if j < |xs| { assert (xs + ys)[j] == xs[j]; } else { assert (xs + ys)[j] == ys[j - |xs|]; }
    }
  }

  /** One more entry appends its two lines to a master. */
  lemma HLSLinesSnoc(es: seq<ManifestMeta>)
    requires es != []
    ensures var e := es[|es| - 1];
            HLSLines(es) == HLSLines(es[..|es| - 1]) + [StreamInf(e.Bitrate, e.Resolution), e.ManifestURL]
            && HLSLines(es) == (HLSLines(es[..|es| - 1]) + [StreamInf(e.Bitrate, e.Resolution)]) + [e.ManifestURL]
  {
  }

  /** No line of a master of readable entries holds a newline. */
  lemma {:induction false} HLSLinesOneLine(es: seq<ManifestMeta>)
    requires forall i :: 0 <= i < |es| ==> NoSpace(es[i].Resolution) && '\n' !in es[i].ManifestURL
    ensures OneLines(HLSLines(es))
    decreases |es|
  {
    if es == [] {
      assert HLSLines(es) == HLSHeader;
    } else {
      var e := es[|es| - 1];
      HLSLinesOneLine(es[..|es| - 1]);
      StreamInfOneLine(e.Bitrate, e.Resolution);
      HLSLinesSnoc(es);
      OneLinesConcat(HLSLines(es[..|es| - 1]), [StreamInf(e.Bitrate, e.Resolution), e.ManifestURL]);
    }
  }

  /** The last line of a master is its last URL, or the version line when it lists nothing. */
  lemma HLSLastLine(es: seq<ManifestMeta>)
    ensures var ls := HLSLines(es);
            ls[|ls| - 1] == if es == [] then "#EXT-X-VERSION:3" else es[|es| - 1].ManifestURL
  {
    HLSLinesShape(es);
  }

  /** The header lines yield no entry. */
  lemma ParsedOfHeader()
    ensures ParsedEntries(HLSHeader) == []
  {
    assert HLSHeader[..1] == ["#EXTM3U"];
  }

  /** A readable entry's two lines, with any `%d` token for its bandwidth, yield that entry. */
  lemma EntryFromLines(num: string, e: ManifestMeta)
    requires DecimalToken(num, e.Bitrate) && Readable(e)
    ensures EntryFrom(BandwidthLead + num + ResolutionLead + e.Resolution, e.ManifestURL) == [e]
  {
    var inf := BandwidthLead + num + ResolutionLead + e.Resolution;
    ScanStreamInfOf(num, e.Bitrate, e.Resolution);
    assert inf[..|StreamInfTag|] == StreamInfTag;
  }

  /** A readable entry's two written lines yield that entry. */
  lemma EntryFromWritten(e: ManifestMeta)
    requires Readable(e)
    ensures EntryFrom(StreamInf(e.Bitrate, e.Resolution), e.ManifestURL) == [e]
  {
    ItoaToken(e.Bitrate);
    EntryFromLines(Itoa(e.Bitrate), e);
  }

  /** A non-empty sequence is its front and its last element. */
  lemma SplitLast<T>(xs: seq<T>)
    requires xs != []
    ensures xs[..|xs| - 1] + [xs[|xs| - 1]] == xs
  {
  }

  /** Every entry of `es` is readable (stated entry by entry from the last, so that a proof unfolds one step at a time). */
  predicate AllReadable(es: seq<ManifestMeta>)
    decreases |es|
  {
    es == [] || (AllReadable(es[..|es| - 1]) && Readable(es[|es| - 1]))
  }

  lemma {:induction false} AllReadableFrom(es: seq<ManifestMeta>)
    requires EveryReadable(es)
    ensures AllReadable(es)
    decreases |es|
  {
    if es != [] {
      var init := es[..|es| - 1];
      assert forall i :: 0 <= i < |init| ==> init[i] == es[i];
      AllReadableFrom(init);
    }
  }

  /** The line pairs of a master of readable entries yield those entries, in order. */
  lemma {:induction false} ParsedOfLines(es: seq<ManifestMeta>)
    requires AllReadable(es)
    ensures ParsedEntries(HLSLines(es)) == es
    decreases |es|
  {
    if es == [] {
      ParsedOfHeader();
      assert HLSLines(es) == HLSHeader;
    } else {
      var init := es[..|es| - 1];
      var e := es[|es| - 1];
      ParsedOfLines(init);
      HLSLastLine(init);
      var ls := HLSLines(init);
      var inf := StreamInf(e.Bitrate, e.Resolution);
      HLSLinesSnoc(es);
      var prev := ls[|ls| - 1];
      ParsedSnoc(ls, prev, inf);
      assert !HasPrefix(prev, StreamInfTag) by {
        if init != [] { assert Readable(init[|init| - 1]); }
      }
      assert ParsedEntries(ls + [inf]) == init;
      ParsedSnoc(ls + [inf], inf, e.ManifestURL);
      EntryFromWritten(e);
      SplitLast(es);
    }
  }

  /** Parsing the text of a master of readable entries gives back exactly those entries. */
  lemma HLSRoundTrip(es: seq<ManifestMeta>)
    requires EveryReadable(es)
    ensures ParsedEntries(Split(HLSText(es), '\n')) == es
  {
    var ls := HLSLines(es);
    HLSLinesOneLine(es);
    SplitTerminated(ls);
    AllReadableFrom(es);
    ParsedOfLines(es);
    HLSLastLine(es);
    ParsedSnoc(ls, ls[|ls| - 1], "");
  }
}
