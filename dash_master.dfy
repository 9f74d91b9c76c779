/**
 * The DASH master of a session (`generateDASHMaster`): a static MPD whose single
 * period holds one adaptation set per variant manifest, each with one representation
 * naming the variant's label, its estimated bandwidth and the manifest's location
 * relative to the session directory. The master is described as a sequence of
 * MPD lines, each rendered as the exact text the writer emits.
 */
module DASHMaster {
  import opened Wrappers
  import opened GoStrings
  import GoPath
  import opened Manifester

  /** The name of the master in the session directory. */
  const MasterName := "master.mpd"

  const XMLDeclaration := "<?xml version=\"1.0\" encoding=\"UTF-8\"?>"
  const MPDOpen := "<MPD xmlns=\"urn:mpeg:dash:schema:mpd:2011\" type=\"static\" minBufferTime=\"PT1.5S\" profiles=\"urn:mpeg:dash:profile:isoff-on-demand:2011\">"
  const PeriodOpen := "  <Period>"
  const AdaptationSetOpen := "    <AdaptationSet mimeType=\"video/mp4\" codecs=\"avc1.64001f\" segmentAlignment=\"true\" bitstreamSwitching=\"true\">"
  const RepresentationClose := "      </Representation>"
  const AdaptationSetClose := "    </AdaptationSet>"
  const PeriodClose := "  </Period>"
  const MPDClose := "</MPD>"

  function RepresentationOpen(id: string, bandwidth: int): string
  {
    "      <Representation id=\"" + id + "\" bandwidth=\"" + Itoa(bandwidth) + "\">"
  }

  function BaseURL(uri: string): string
  {
    "        <BaseURL>" + uri + "</BaseURL>"
  }

  /** The text the writer formats for one variant: its adaptation set, five lines. */
  function AdaptationSetText(id: string, bandwidth: int, uri: string): string
  {
    AdaptationSetOpen + "\n" + RepresentationOpen(id, bandwidth) + "\n" + BaseURL(uri) + "\n"
    + RepresentationClose + "\n" + AdaptationSetClose + "\n"
  }

  /** The lines of an MPD master. */
  datatype MPDLine =
    | XMLDeclarationLine
    | MPDOpenLine
    | PeriodOpenLine
    | AdaptationSetOpenLine
    | RepresentationOpenLine(Id: string, Bandwidth: int)
    | BaseURLLine(URL: string)
    | RepresentationCloseLine
    | AdaptationSetCloseLine
    | PeriodCloseLine
    | MPDCloseLine

  /** The text of a line, without its newline. */
  function Render(line: MPDLine): string
  {
    match line
    case XMLDeclarationLine => XMLDeclaration
    case MPDOpenLine => MPDOpen
    case PeriodOpenLine => PeriodOpen
    case AdaptationSetOpenLine => AdaptationSetOpen
    case RepresentationOpenLine(id, bandwidth) => RepresentationOpen(id, bandwidth)
    case BaseURLLine(uri) => BaseURL(uri)
    case RepresentationCloseLine => RepresentationClose
    case AdaptationSetCloseLine => AdaptationSetClose
    case PeriodCloseLine => PeriodClose
    case MPDCloseLine => MPDClose
  }

  /** The texts of the lines, in order. */
  function Rendered(lines: seq<MPDLine>): seq<string>
  {
    seq(|lines|, i requires 0 <= i < |lines| => Render(lines[i]))
  }

  /** What the master says about one variant. */
  datatype Representation = Representation(Id: string, Bandwidth: int, URL: string)

  /** The representation of a manifest: its label, the label's bandwidth, and label/file name. */
  function RepresentationFor(manifest: string): Representation
  {
    var l := ExtractLabel(manifest);
    Representation(l, EstimateBitrate(l), GoPath.Join(l, GoPath.Base(manifest)))
  }

  /** The representations of the manifests, in the manifests' order. */
  function Representations(manifests: seq<string>): (r: seq<Representation>)
    ensures |r| == |manifests|
  {
    if manifests == [] then []
    else Representations(manifests[..|manifests| - 1]) + [RepresentationFor(manifests[|manifests| - 1])]
  }

  /** The five lines of one adaptation set. */
  function BlockLines(rep: Representation): seq<MPDLine>
  {
    [AdaptationSetOpenLine, RepresentationOpenLine(rep.Id, rep.Bandwidth), BaseURLLine(rep.URL), RepresentationCloseLine, AdaptationSetCloseLine]
  }

  /** The adaptation sets, one after another. */
  function BodyLines(reps: seq<Representation>): (r: seq<MPDLine>)
    ensures |r| == 5 * |reps|
  {
    if reps == [] then []
    else BodyLines(reps[..|reps| - 1]) + BlockLines(reps[|reps| - 1])
  }

  const HeaderLines := [XMLDeclarationLine, MPDOpenLine, PeriodOpenLine]
  const FooterLines := [PeriodCloseLine, MPDCloseLine]

  /** The lines of the master. */
  function DASHLines(reps: seq<Representation>): seq<MPDLine>
  {
    HeaderLines + BodyLines(reps) + FooterLines
  }

  /** The text of the master: its lines rendered, each ending in a newline. */
  function DASHText(reps: seq<Representation>): string
  {
    Terminated(Rendered(DASHLines(reps)))
  }

  // ---------------------------------------------------------------------------
  // Layout

  lemma {:induction false} RepresentationsAt(manifests: seq<string>, i: nat)
    requires i < |manifests|
    ensures Representations(manifests)[i] == RepresentationFor(manifests[i])
    decreases |manifests|
  {
    var init := manifests[..|manifests| - 1];
    assert Representations(manifests) == Representations(init) + [RepresentationFor(manifests[|manifests| - 1])];
    if i < |manifests| - 1 {
      RepresentationsAt(init, i);
      assert init[i] == manifests[i];
    }
  }

  lemma BodyLinesSnoc(reps: seq<Representation>, rep: Representation)
    ensures BodyLines(reps + [rep]) == BodyLines(reps) + BlockLines(rep)
  {
    assert (reps + [rep])[..|reps|] == reps;
  }

  lemma SliceOfAppend(x: seq<MPDLine>, y: seq<MPDLine>, lo: nat, hi: nat)
    requires lo <= hi
    requires hi <= |x| || (lo == |x| && hi == |x| + |y|)
    ensures (x + y)[lo..hi] == if hi <= |x| then x[lo..hi] else y
  {
  }

  /** The `i`-th adaptation set holds the lines of the `i`-th representation. */
  lemma {:induction false} BodyLinesAt(reps: seq<Representation>, i: nat)
    requires i < |reps|
    ensures BodyLines(reps)[5 * i..5 * i + 5] == BlockLines(reps[i])
    decreases |reps|
  {
    var init := reps[..|reps| - 1];
    var body, block := BodyLines(init), BlockLines(reps[|reps| - 1]);
    assert BodyLines(reps) == body + block;
    SliceOfAppend(body, block, 5 * i, 5 * i + 5);
    if i < |reps| - 1 {
      BodyLinesAt(init, i);
      assert init[i] == reps[i];
    }
  }

  lemma FramedAt(h: seq<MPDLine>, body: seq<MPDLine>, f: seq<MPDLine>, i: nat)
    requires |h| == 3 && 5 * i + 5 <= |body|
    ensures (h + body + f)[3 + 5 * i..8 + 5 * i] == body[5 * i..5 * i + 5]
  {
  }

  /** The master opens with the XML declaration, MPD and Period lines and closes both, around five lines per manifest. */
  lemma DASHFrame(reps: seq<Representation>)
    ensures var ls := DASHLines(reps);
            |ls| == 5 * |reps| + 5 && ls[..3] == HeaderLines && ls[|ls| - 2..] == FooterLines
  {
  }

  /**
   * The `i`-th manifest's adaptation set in the master: its representation carries the
   * manifest's label as id, the label's estimated bandwidth, and label/file name as URL.
   */
  lemma DASHBlockAt(manifests: seq<string>, i: nat)
    requires i < |manifests|
    ensures var l := ExtractLabel(manifests[i]);
            DASHLines(Representations(manifests))[3 + 5 * i..8 + 5 * i]
              == [AdaptationSetOpenLine, RepresentationOpenLine(l, EstimateBitrate(l)),
                  BaseURLLine(GoPath.Join(l, GoPath.Base(manifests[i]))), RepresentationCloseLine, AdaptationSetCloseLine]
  {
    var reps := Representations(manifests);
    RepresentationsAt(manifests, i);
    BodyLinesAt(reps, i);
    FramedAt(HeaderLines, BodyLines(reps), FooterLines, i);
  }

  /** The URL of a manifest with a plain file name ends in that file name; with a plain label it is label/file name. */
  lemma RepresentationURL(manifest: string)
    requires GoPath.NormalElement(GoPath.Base(manifest))
    ensures GoPath.Base(RepresentationFor(manifest).URL) == GoPath.Base(manifest)
    ensures GoPath.NormalElement(ExtractLabel(manifest)) ==>
              RepresentationFor(manifest).URL == ExtractLabel(manifest) + "/" + GoPath.Base(manifest)
  {
    var l, b := ExtractLabel(manifest), GoPath.Base(manifest);
    GoPath.BaseOfJoin(l, b);
    if GoPath.NormalElement(l) {
      GoPath.JoinNormal(l, b);
    }
  }

  // ---------------------------------------------------------------------------
  // Writing the master

  lemma RenderedAppend(xs: seq<MPDLine>, ys: seq<MPDLine>)
    ensures Rendered(xs + ys) == Rendered(xs) + Rendered(ys)
  {
    var l, r := Rendered(xs + ys), Rendered(xs) + Rendered(ys);
    forall i | 0 <= i < |xs + ys| ensures l[i] == r[i] {
      if i < |xs| { assert (xs + ys)[i] == xs[i]; } else { assert (xs + ys)[i] == ys[i - |xs|]; }
    }
  }

  /** Appending lines appends their text. */
  lemma TextAppend(xs: seq<MPDLine>, ys: seq<MPDLine>)
    ensures Terminated(Rendered(xs + ys)) == Terminated(Rendered(xs)) + Terminated(Rendered(ys))
  {
    RenderedAppend(xs, ys);
    TerminatedAppend(Rendered(xs), Rendered(ys));
  }

  /** Proof helper: the text of two lines. */
  lemma TerminatedTwo(a: string, b: string)
    ensures Terminated([a, b]) == a + "\n" + b + "\n"
  {
    assert [a, b][1..] == [b];
    assert [b][1..] == [];
    assert Terminated([b]) == b + "\n" + "";
    assert b + "\n" + "" == b + "\n";
    assert a + "\n" + (b + "\n") == a + "\n" + b + "\n";
  }

  /** Proof helper: the text of three lines. */
  lemma TerminatedThree(a: string, b: string, c: string)
    ensures Terminated([a, b, c]) == a + "\n" + b + "\n" + c + "\n"
  {
    assert [a, b, c][1..] == [b, c];
    TerminatedTwo(b, c);
  }

  /** Proof helper: the text of five lines. */
  lemma TerminatedFive(a: string, b: string, c: string, d: string, e: string)
    ensures Terminated([a, b, c, d, e]) == a + "\n" + b + "\n" + c + "\n" + d + "\n" + e + "\n"
  {
    assert [a, b, c, d, e][1..] == [b, c, d, e];
    assert [b, c, d, e][1..] == [c, d, e];
    TerminatedThree(c, d, e);
  }

  /** Proof helper: rendering five lines one by one. */
  lemma RenderedFive(a: MPDLine, b: MPDLine, c: MPDLine, d: MPDLine, e: MPDLine)
    ensures Rendered([a, b, c, d, e]) == [Render(a), Render(b), Render(c), Render(d), Render(e)]
  {
  }

  /** Proof helper for the writer loop: the text one adaptation set adds. */
  lemma BlockText(rep: Representation)
    ensures Terminated(Rendered(BlockLines(rep))) == AdaptationSetText(rep.Id, rep.Bandwidth, rep.URL)
  {
    RenderedFive(AdaptationSetOpenLine, RepresentationOpenLine(rep.Id, rep.Bandwidth), BaseURLLine(rep.URL), RepresentationCloseLine, AdaptationSetCloseLine);
    TerminatedFive(AdaptationSetOpen, RepresentationOpen(rep.Id, rep.Bandwidth), BaseURL(rep.URL), RepresentationClose, AdaptationSetClose);
  }

  /** Proof helper for the writer loop: the text before the first adaptation set. */
  lemma HeaderText()
    ensures Terminated(Rendered(HeaderLines + BodyLines(Representations([])))) == XMLDeclaration + "\n" + MPDOpen + "\n" + PeriodOpen + "\n"
  {
    assert HeaderLines + BodyLines(Representations([])) == HeaderLines;
    assert HeaderLines[1..][1..][1..] == [];
    assert Rendered(HeaderLines) == [XMLDeclaration, MPDOpen, PeriodOpen];
    TerminatedThree(XMLDeclaration, MPDOpen, PeriodOpen);
  }

  /** One more block appends its text after any opening lines. */
  lemma BodyTextSnoc(h: seq<MPDLine>, reps: seq<Representation>, rep: Representation)
    ensures Terminated(Rendered(h + BodyLines(reps + [rep]))) == Terminated(Rendered(h + BodyLines(reps))) + Terminated(Rendered(BlockLines(rep)))
  {
    BodyLinesSnoc(reps, rep);
    assert h + (BodyLines(reps) + BlockLines(rep)) == (h + BodyLines(reps)) + BlockLines(rep);
    TextAppend(h + BodyLines(reps), BlockLines(rep));
  }

  /** Proof helper for the writer loop: one more manifest appends its block text. */
  lemma DASHTextStep(manifests: seq<string>, i: nat)
    requires i < |manifests|
    ensures Terminated(Rendered(HeaderLines + BodyLines(Representations(manifests[..i + 1]))))
            == Terminated(Rendered(HeaderLines + BodyLines(Representations(manifests[..i])))) + Terminated(Rendered(BlockLines(RepresentationFor(manifests[i]))))
  {
    assert manifests[..i + 1][..i] == manifests[..i];
    BodyTextSnoc(HeaderLines, Representations(manifests[..i]), RepresentationFor(manifests[i]));
  }

  /** Proof helper for the writer loop: the closing lines end the text. */
  lemma FooterText(reps: seq<Representation>)
    ensures DASHText(reps) == Terminated(Rendered(HeaderLines + BodyLines(reps))) + (PeriodClose + "\n") + (MPDClose + "\n")
  {
    var hb := HeaderLines + BodyLines(reps);
    TextAppend(hb, FooterLines);
    assert FooterLines[1..][1..] == [];
    assert Rendered(FooterLines) == [PeriodClose, MPDClose];
    TerminatedTwo(PeriodClose, MPDClose);
    var t := Terminated(Rendered(hb));
    assert t + (PeriodClose + "\n" + MPDClose + "\n") == t + (PeriodClose + "\n") + (MPDClose + "\n");
  }

  /** The text written once the first `i` manifests have had their adaptation sets. */
  function Written(manifests: seq<string>, i: nat): string
    requires i <= |manifests|
  {
    Terminated(Rendered(HeaderLines + BodyLines(Representations(manifests[..i]))))
  }

  lemma WrittenStep(manifests: seq<string>, i: nat)
    requires i < |manifests|
    ensures var rep := RepresentationFor(manifests[i]);
            Written(manifests, i + 1) == Written(manifests, i) + AdaptationSetText(rep.Id, rep.Bandwidth, rep.URL)
  {
    BlockText(RepresentationFor(manifests[i]));
    DASHTextStep(manifests, i);
  }

  lemma WrittenStart(manifests: seq<string>)
    ensures Written(manifests, 0) == XMLDeclaration + "\n" + MPDOpen + "\n" + PeriodOpen + "\n"
  {
    assert manifests[..0] == [];
    HeaderText();
  }

  lemma WrittenEnd(manifests: seq<string>)
    ensures DASHText(Representations(manifests)) == Written(manifests, |manifests|) + (PeriodClose + "\n") + (MPDClose + "\n")
  {
    assert manifests[..|manifests|] == manifests;
    FooterText(Representations(manifests));
  }

  /** The writes of `generateDASHMaster`, in order: the header, one adaptation set per manifest, the footer. */
  method GenerateDASHText(manifests: seq<string>) returns (text: string)
    ensures text == DASHText(Representations(manifests))
  {
    WrittenStart(manifests);
    text := XMLDeclaration + "\n";
    text := text + MPDOpen + "\n";
    text := text + PeriodOpen + "\n";
    var i := 0;
    while i < |manifests|
      invariant 0 <= i <= |manifests|
      invariant text == Written(manifests, i)
    {
      var rep := RepresentationFor(manifests[i]);
      text := text + AdaptationSetText(rep.Id, rep.Bandwidth, rep.URL);
      WrittenStep(manifests, i);
      i := i + 1;
    }
    text := text + (PeriodClose + "\n");
    text := text + (MPDClose + "\n");
    WrittenEnd(manifests);
  }

  /** The path of the master in a session directory. */
  function MasterPath(outputDir: string): string
  {
    GoPath.Join(outputDir, MasterName)
  }

  /** The master in the session directory, or a "write_file" error when it cannot be created. */
  predicate DASHResult(outputDir: string, manifests: seq<string>, createOk: string -> bool, r: Result<MasterFile, ManifesterError>) {
    var path := MasterPath(outputDir);
    r == if createOk(path) then Ok(MasterFile(path, DASHText(Representations(manifests))))
         else Err(ManifesterError("write_file", "failed to create DASH master manifest"))
  }

  /** `generateDASHMaster`; `createOk` says whether a file can be created. */
  method GenerateDASHMaster(outputDir: string, manifests: seq<string>, createOk: string -> bool)
    returns (r: Result<MasterFile, ManifesterError>)
    ensures DASHResult(outputDir, manifests, createOk, r)
  {
    var path := MasterPath(outputDir);
    if !createOk(path) {
      return Err(ManifesterError("write_file", "failed to create DASH master manifest"));
    }
    var text := GenerateDASHText(manifests);
    r := Ok(MasterFile(path, text));
  }
}
