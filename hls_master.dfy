/**
 * The two writers of an HLS master: a fresh master listing the segmenter's manifests in
 * their order (`generateHLSMaster`), and a reconciled master that merges the entries
 * parsed from the existing master with the new ones and lists them in the canonical
 * resolution order (`reconcileHLSMaster`).
 */
module HLSMaster {
  import opened Wrappers
  import opened GoStrings
  import GoPath
  import Namer
  import opened Manifester

  // ---------------------------------------------------------------------------
  // Plain labels

  /**
   * A label that names a directory of its own and cannot be mistaken for a tag line:
   * a single path element, no newline, not starting with '#'.
   */
  predicate PlainLabel(l: string) {
    GoPath.NormalElement(l) && '\n' !in l && l[0] != '#'
  }

  /** A path that starts with a plain label and a '/' is not a stream-info line. */
  lemma NotTagLine(l: string, rest: string)
    requires PlainLabel(l)
    ensures !HasPrefix(l + "/" + rest, StreamInfTag)
  {
    assert (l + "/" + rest)[0] == l[0];
  }

  /** A '/' between two newline-free strings gives a newline-free string. */
  lemma OneLineJoin(a: string, b: string)
    requires '\n' !in a && '\n' !in b
    ensures '\n' !in a + "/" + b
  {
    var s := a + "/" + b;
    forall i | 0 <= i < |s| ensures s[i] != '\n' {
      if i < |a| { assert s[i] == a[i]; }
      else if i > |a| { assert s[i] == b[i - |a| - 1]; }
    }
  }

  // ---------------------------------------------------------------------------
  // Fresh master (generateHLSMaster)

  /** The name of the master playlist in the session directory. */
  const MasterName := "master.m3u8"

  /** The entry a manifest gets in a fresh master: its label, estimates, and the URI label/label.m3u8. */
  function FreshEntry(manifest: string): ManifestMeta
  {
    var l := ExtractLabel(manifest);
    ManifestMeta(l, EstimateBitrate(l), ResolutionFromLabel(l), GoPath.Join(l, l + ".m3u8"))
  }

  /** The entries of a fresh master, one per manifest, in the manifests' order. */
  function FreshEntries(manifests: seq<string>): (r: seq<ManifestMeta>)
    ensures |r| == |manifests|
  {
    if manifests == [] then []
    else FreshEntries(manifests[..|manifests| - 1]) + [FreshEntry(manifests[|manifests| - 1])]
  }

  lemma {:induction false} FreshEntriesAt(manifests: seq<string>, i: nat)
    requires i < |manifests|
    ensures FreshEntries(manifests)[i] == FreshEntry(manifests[i])
    decreases |manifests|
  {
    var init := manifests[..|manifests| - 1];
    assert FreshEntries(manifests) == FreshEntries(init) + [FreshEntry(manifests[|manifests| - 1])];
    if i < |manifests| - 1 {
      FreshEntriesAt(init, i);
      assert init[i] == manifests[i];
    }
  }

  lemma FreshEntriesStep(manifests: seq<string>, i: nat)
    requires i < |manifests|
    ensures FreshEntries(manifests[..i + 1]) == FreshEntries(manifests[..i]) + [FreshEntry(manifests[i])]
  {
    assert manifests[..i + 1][..i] == manifests[..i];
  }

  /** One more entry appends its stream-info line and its URI to the text. */
  lemma HLSTextSnoc(es: seq<ManifestMeta>, e: ManifestMeta)
    ensures HLSText(es + [e]) == HLSText(es) + (StreamInf(e.Bitrate, e.Resolution) + "\n" + e.ManifestURL + "\n")
  {
    var s := es + [e];
    HLSTextStep(s, |es|);
    assert s[..|es|] == es;
    assert s[..|es| + 1] == s;
  }

  /** One more manifest appends its stream-info line and its URI to the fresh text. */
  lemma FreshTextStep(manifests: seq<string>, i: nat)
    requires i < |manifests|
    ensures var e := FreshEntry(manifests[i]);
            HLSText(FreshEntries(manifests[..i + 1]))
              == HLSText(FreshEntries(manifests[..i])) + (StreamInf(e.Bitrate, e.Resolution) + "\n" + e.ManifestURL + "\n")
  {
    FreshEntriesStep(manifests, i);
    HLSTextSnoc(FreshEntries(manifests[..i]), FreshEntry(manifests[i]));
  }

  /** The text of a master without entries: the two header lines. */
  lemma HeaderText()
    ensures HLSText([]) == "#EXTM3U\n#EXT-X-VERSION:3\n"
  {
    assert HLSLines([]) == HLSHeader;
    assert HLSHeader[1..] == ["#EXT-X-VERSION:3"];
    assert HLSHeader[1..][1..] == [];
  }

  /**
   * The text `generateHLSMaster` writes: the header, then for each manifest, in order,
   * its stream-info line and its URI.
   */
  method GenerateHLSText(manifests: seq<string>) returns (text: string)
    ensures text == HLSText(FreshEntries(manifests))
  {
    HeaderText();
    text := "#EXTM3U\n";
    text := text + "#EXT-X-VERSION:3\n";
    var i := 0;
    while i < |manifests|
      invariant 0 <= i <= |manifests|
      invariant text == HLSText(FreshEntries(manifests[..i]))
    {
      var lbl := ExtractLabel(manifests[i]);
      var bitrate := EstimateBitrate(lbl);
      var res := ResolutionFromLabel(lbl);
      var uri := GoPath.Join(lbl, lbl + ".m3u8");
      text := text + (StreamInf(bitrate, res) + "\n" + uri + "\n");
      FreshTextStep(manifests, i);
      i := i + 1;
    }
    assert manifests[..i] == manifests;
  }

  /** The URI of a plain label's playlist is label/label.m3u8, and its label is the label again. */
  lemma FreshURI(l: string)
    requires PlainLabel(l)
    ensures GoPath.Join(l, l + ".m3u8") == l + "/" + (l + ".m3u8")
    ensures ExtractLabel(l + "/" + (l + ".m3u8")) == l
    ensures '\n' !in l + "/" + (l + ".m3u8") && !HasPrefix(l + "/" + (l + ".m3u8"), StreamInfTag)
  {
    var name := l + ".m3u8";
    assert l + "." + "m3u8" == name;
    assert '/' !in name && '\n' !in name by {
      forall i | 0 <= i < |name| ensures name[i] != '/' && name[i] != '\n' {
        if i >= |l| { assert name[i] == ".m3u8"[i - |l|]; } else { assert name[i] == l[i]; }
      }
    }
    GoPath.JoinNormal(l, name);
    Namer.SlugDropsLastExt(l + "/", l, "m3u8");
    OneLineJoin(l, name);
    NotTagLine(l, name);
  }

  /**
   * The lines of a fresh master: the header, then for each manifest with label `l`, in
   * order, the stream-info line of its estimated bandwidth and resolution, and l/l.m3u8.
   */
  lemma FreshLines(manifests: seq<string>)
    requires forall i :: 0 <= i < |manifests| ==> PlainLabel(ExtractLabel(manifests[i]))
    ensures var ls := HLSLines(FreshEntries(manifests));
            |ls| == 2 + 2 * |manifests| && ls[0] == "#EXTM3U" && ls[1] == "#EXT-X-VERSION:3"
            && forall i :: 0 <= i < |manifests| ==>
                 var l := ExtractLabel(manifests[i]);
                 ls[2 + 2 * i] == StreamInf(EstimateBitrate(l), ResolutionFromLabel(l))
                 && ls[3 + 2 * i] == l + "/" + (l + ".m3u8")
  {
    var es := FreshEntries(manifests);
    HLSLinesShape(es);
    forall i | 0 <= i < |manifests|
      ensures var l := ExtractLabel(manifests[i]);
              HLSLines(es)[2 + 2 * i] == StreamInf(EstimateBitrate(l), ResolutionFromLabel(l))
              && HLSLines(es)[3 + 2 * i] == l + "/" + (l + ".m3u8")
    {
      FreshEntriesAt(manifests, i);
      FreshURI(ExtractLabel(manifests[i]));
    }
  }

  /** A fresh entry of a plain label is read back by the parser. */
  lemma FreshReadable(manifest: string)
    requires PlainLabel(ExtractLabel(manifest))
    ensures Readable(FreshEntry(manifest))
  {
    var l := ExtractLabel(manifest);
    FreshURI(l);
    ResolutionIsWord(l);
  }

  /** Every entry of a fresh master of plain labels is read back by the parser. */
  lemma FreshAllReadable(manifests: seq<string>)
    requires forall i :: 0 <= i < |manifests| ==> PlainLabel(ExtractLabel(manifests[i]))
    ensures EveryReadable(FreshEntries(manifests))
  {
    var es := FreshEntries(manifests);
    forall i | 0 <= i < |es| ensures Readable(es[i]) {
      FreshEntriesAt(manifests, i);
      FreshReadable(manifests[i]);
    }
  }

  /** Parsing a fresh master of plain labels gives back its entries. */
  lemma FreshRoundTrip(manifests: seq<string>)
    requires forall i :: 0 <= i < |manifests| ==> PlainLabel(ExtractLabel(manifests[i]))
    ensures ParsedEntries(Split(HLSText(FreshEntries(manifests)), '\n')) == FreshEntries(manifests)
  {
    FreshAllReadable(manifests);
    HLSRoundTrip(FreshEntries(manifests));
  }

  // ---------------------------------------------------------------------------
  // Reconciled master (reconcileHLSMaster): merging by label

  /** The entry a manifest gets when reconciling: as in a fresh master, but the URI ends in the manifest's own file name. */
  function ReconcileEntry(manifest: string): ManifestMeta
  {
    var l := ExtractLabel(manifest);
    ManifestMeta(l, EstimateBitrate(l), ResolutionFromLabel(l), GoPath.Join(l, GoPath.Base(manifest)))
  }

  /** Entries by their labels; a later entry with the same label replaces an earlier one. */
  function EntriesByLabel(es: seq<ManifestMeta>): map<string, ManifestMeta>
  {
    if es == [] then map[]
    else EntriesByLabel(es[..|es| - 1])[es[|es| - 1].Label := es[|es| - 1]]
  }

  lemma EntriesByLabelSnoc(es: seq<ManifestMeta>)
    requires es != []
    ensures EntriesByLabel(es) == EntriesByLabel(es[..|es| - 1])[es[|es| - 1].Label := es[|es| - 1]]
  {
  }

  /** The merged map: the existing entries by label, each replaced by a new entry of the same label. */
  function Merged(existing: seq<ManifestMeta>, manifests: seq<string>): map<string, ManifestMeta>
  {
    EntriesByLabel(existing) + NewEntries(manifests)
  }

  /** The labels of a map by label are the labels of the entries, and each maps to one of the entries. */
  lemma {:induction false} EntriesByLabelKeys(es: seq<ManifestMeta>)
    ensures forall k :: k in EntriesByLabel(es) <==> exists j :: 0 <= j < |es| && es[j].Label == k
    ensures forall k :: k in EntriesByLabel(es) ==> EntriesByLabel(es)[k] in es && EntriesByLabel(es)[k].Label == k
    decreases |es|
  {
    if es != [] {
      var init := es[..|es| - 1];
      var last := es[|es| - 1];
      EntriesByLabelKeys(init);
      assert forall j :: 0 <= j < |init| ==> init[j] == es[j];
      assert forall e :: e in init ==> e in es;
      EntriesByLabelSnoc(es);
    }
  }

  /** The last entry with a label decides that label's entry. */
  lemma {:induction false} EntriesByLabelLastWins(es: seq<ManifestMeta>, j: nat)
    requires j < |es|
    requires forall j2 :: j < j2 < |es| ==> es[j2].Label != es[j].Label
    ensures es[j].Label in EntriesByLabel(es) && EntriesByLabel(es)[es[j].Label] == es[j]
    decreases |es|
  {
    var init := es[..|es| - 1];
    var last := es[|es| - 1];
    EntriesByLabelSnoc(es);
    if j < |es| - 1 {
      assert init[j] == es[j];
      forall j2 | j < j2 < |init| ensures init[j2].Label != init[j].Label {
        assert init[j2] == es[j2];
      }
      EntriesByLabelLastWins(init, j);
    }
  }

  /** The entries of the manifests, in order, as the reconciler builds them. */
  function ReconcileEntries(manifests: seq<string>): (r: seq<ManifestMeta>)
    ensures |r| == |manifests|
  {
    if manifests == [] then []
    else ReconcileEntries(manifests[..|manifests| - 1]) + [ReconcileEntry(manifests[|manifests| - 1])]
  }

  lemma {:induction false} ReconcileEntriesAt(manifests: seq<string>, i: nat)
    requires i < |manifests|
    ensures ReconcileEntries(manifests)[i] == ReconcileEntry(manifests[i])
    decreases |manifests|
  {
    var init := manifests[..|manifests| - 1];
    assert ReconcileEntries(manifests) == ReconcileEntries(init) + [ReconcileEntry(manifests[|manifests| - 1])];
    if i < |manifests| - 1 {
      ReconcileEntriesAt(init, i);
      assert init[i] == manifests[i];
    }
  }

  /** The new entries by label (`newEntries`); a later manifest with the same label replaces an earlier one. */
  function NewEntries(manifests: seq<string>): map<string, ManifestMeta>
  {
    EntriesByLabel(ReconcileEntries(manifests))
  }

  /**
   * Merging keeps every old label, adds every new one, and lets a new entry replace an old
   * one of the same label: a merged entry is the new entry of its label, or else an
   * existing entry, and it is stored under its own label.
   */
  lemma MergedEntries(existing: seq<ManifestMeta>, manifests: seq<string>)
    ensures var added := ReconcileEntries(manifests);
            forall k :: k in Merged(existing, manifests) <==>
              (exists j :: 0 <= j < |existing| && existing[j].Label == k) || (exists j :: 0 <= j < |added| && added[j].Label == k)
    ensures forall k :: k in NewEntries(manifests) ==>
              Merged(existing, manifests)[k] == NewEntries(manifests)[k] && NewEntries(manifests)[k] in ReconcileEntries(manifests)
    ensures forall k :: k in Merged(existing, manifests) && k !in NewEntries(manifests) ==>
              Merged(existing, manifests)[k] in existing
    ensures forall k :: k in Merged(existing, manifests) ==> Merged(existing, manifests)[k].Label == k
  {
    var before, added := EntriesByLabel(existing), NewEntries(manifests);
    assert Merged(existing, manifests) == before + added;
    EntriesByLabelKeys(existing);
    EntriesByLabelKeys(ReconcileEntries(manifests));
  }

  lemma NewEntriesStep(manifests: seq<string>, i: nat)
    requires i < |manifests|
    ensures NewEntries(manifests[..i + 1]) == NewEntries(manifests[..i])[ExtractLabel(manifests[i]) := ReconcileEntry(manifests[i])]
  {
    assert manifests[..i + 1][..i] == manifests[..i];
    var es := ReconcileEntries(manifests[..i + 1]);
    assert es == ReconcileEntries(manifests[..i]) + [ReconcileEntry(manifests[i])];
    var init := es[..|es| - 1];
    assert init == ReconcileEntries(manifests[..i]);
    var e := es[|es| - 1];
    assert e == ReconcileEntry(manifests[i]);
    assert e.Label == ExtractLabel(manifests[i]);
    EntriesByLabelSnoc(es);
  }

  /** The `newEntries` loop: each manifest's entry stored under its label. */
  method BuildNewEntries(manifests: seq<string>) returns (m: map<string, ManifestMeta>)
    ensures m == NewEntries(manifests)
  {
    m := map[];
    var i := 0;
    while i < |manifests|
      invariant 0 <= i <= |manifests|
      invariant m == NewEntries(manifests[..i])
    {
      var lbl := ExtractLabel(manifests[i]);
      m := m[lbl := ManifestMeta(lbl, EstimateBitrate(lbl), ResolutionFromLabel(lbl), GoPath.Join(lbl, GoPath.Base(manifests[i])))];
      NewEntriesStep(manifests, i);
      i := i + 1;
    }
    assert manifests[..i] == manifests;
  }

  /**
   * The two `merged` loops: the existing entries stored by label in order, then every new
   * entry stored over them (in whatever order the map yields its labels).
   */
  method MergeEntries(existing: seq<ManifestMeta>, newEntries: map<string, ManifestMeta>) returns (merged: map<string, ManifestMeta>)
    ensures merged == EntriesByLabel(existing) + newEntries
  {
    merged := map[];
    var i := 0;
    while i < |existing|
      invariant 0 <= i <= |existing|
      invariant merged == EntriesByLabel(existing[..i])
    {
      merged := merged[existing[i].Label := existing[i]];
      assert existing[..i + 1][..i] == existing[..i];
      i := i + 1;
    }
    assert existing[..i] == existing;
    ghost var base := merged;
    var rest := newEntries.Keys;
    while rest != {}
      invariant rest <= newEntries.Keys
      invariant merged.Keys == base.Keys + (newEntries.Keys - rest)
      invariant forall k :: k in merged ==> merged[k] == if k in newEntries && k !in rest then newEntries[k] else base[k]
      decreases rest
    {
      var k :| k in rest;
      merged := merged[k := newEntries[k]];
      rest := rest - {k};
    }
    assert merged == base + newEntries;
  }

  // ---------------------------------------------------------------------------
  // Reconciled master: the canonical order

  /** The resolution prefixes in the order a reconciled master lists them. */
  const CanonicalOrder: seq<string> := ["144p", "240p", "360p", "480p", "720p", "1080p", "1440p", "2160p"]

  /** The first place from `r` on whose prefix the label has, or the end of the order. */
  function RankFrom(l: string, r: nat): (n: nat)
    requires r <= |CanonicalOrder|
    ensures r <= n <= |CanonicalOrder|
    decreases |CanonicalOrder| - r
  {
    if r == |CanonicalOrder| then r
    else if HasPrefix(l, CanonicalOrder[r]) then r
    else RankFrom(l, r + 1)
  }

  /** The place of a label in the canonical order: its first matching prefix, or 8 when none matches. */
  function Rank(l: string): nat
  {
    RankFrom(l, 0)
  }

  lemma {:induction false} RankFromFirst(l: string, r: nat)
    requires r <= |CanonicalOrder|
    ensures var n := RankFrom(l, r);
            (n < |CanonicalOrder| ==> HasPrefix(l, CanonicalOrder[n]))
            && forall a :: r <= a < n ==> !HasPrefix(l, CanonicalOrder[a])
    decreases |CanonicalOrder| - r
  {
    if r < |CanonicalOrder| && !HasPrefix(l, CanonicalOrder[r]) {
      RankFromFirst(l, r + 1);
    }
  }

  /** The first four characters of the canonical prefixes are all different. */
  lemma CanonicalHeads()
    ensures forall a :: 0 <= a < |CanonicalOrder| ==> |CanonicalOrder[a]| >= 4
    ensures forall a, b :: 0 <= a < b < |CanonicalOrder| ==> CanonicalOrder[a][..4] != CanonicalOrder[b][..4]
  {
    var heads := ["144p", "240p", "360p", "480p", "720p", "1080", "1440", "2160"];
    assert forall a :: 0 <= a < |CanonicalOrder| ==> CanonicalOrder[a][..4] == heads[a];
    assert forall a, b :: 0 <= a < b < |heads| ==> heads[a][0] != heads[b][0] || heads[a][1] != heads[b][1] || heads[a][3] != heads[b][3];
  }

  /** A prefix of at least four characters fixes the first four characters. */
  lemma PrefixHead(l: string, p: string)
    requires |p| >= 4
    ensures HasPrefix(l, p) ==> |l| >= 4 && l[..4] == p[..4]
  {
  }

  /** No label has two canonical prefixes. */
  lemma PrefixFree(l: string, a: nat, b: nat)
    requires a < |CanonicalOrder| && b < |CanonicalOrder|
    ensures HasPrefix(l, CanonicalOrder[a]) && HasPrefix(l, CanonicalOrder[b]) ==> a == b
  {
    CanonicalHeads();
    PrefixHead(l, CanonicalOrder[a]);
    PrefixHead(l, CanonicalOrder[b]);
  }

  /** A label has the prefix at place `r` exactly when its rank is `r`. */
  lemma RankPrefix(l: string, r: nat)
    requires r < |CanonicalOrder|
    ensures HasPrefix(l, CanonicalOrder[r]) <==> Rank(l) == r
  {
    RankFromFirst(l, 0);
    var n := Rank(l);
    if HasPrefix(l, CanonicalOrder[r]) && n < r {
      PrefixFree(l, n, r);
    }
  }

  /**
   * `keys` are the labels of `merged` with the given prefix, each once, in some order,
   * and `group` their entries.
   */
  predicate Group(merged: map<string, ManifestMeta>, prefix: string, keys: seq<string>, group: seq<ManifestMeta>) {
    |keys| == |group|
    && (forall i :: 0 <= i < |keys| ==> keys[i] in merged && group[i] == merged[keys[i]] && HasPrefix(keys[i], prefix))
    && (forall i, j :: 0 <= i < j < |keys| ==> keys[i] != keys[j])
    && (forall k :: k in merged && HasPrefix(k, prefix) ==> k in keys)
  }

  /**
   * One pass of the inner loop of the ordering: every entry of `merged` whose label has
   * the prefix, visiting the labels in an order the map chooses.
   */
  method PickGroup(merged: map<string, ManifestMeta>, prefix: string) returns (group: seq<ManifestMeta>, ghost keys: seq<string>)
    ensures Group(merged, prefix, keys, group)
  {
    group, keys := [], [];
    var rest := merged.Keys;
    while rest != {}
      invariant rest <= merged.Keys && |keys| == |group|
      invariant forall i :: 0 <= i < |keys| ==>
                  keys[i] in merged && keys[i] !in rest && group[i] == merged[keys[i]] && HasPrefix(keys[i], prefix)
      invariant forall i, j :: 0 <= i < j < |keys| ==> keys[i] != keys[j]
      invariant forall k :: k in merged && HasPrefix(k, prefix) && k !in rest ==> k in keys
      decreases rest
    {
      var k :| k in rest;
      if HasPrefix(k, prefix) {
        group := group + [merged[k]];
        keys := keys + [k];
      }
      rest := rest - {k};
    }
  }

  /**
   * `labels` are the labels of `merged` of rank below `r`, each once, in non-decreasing
   * rank, and `sorted` their entries.
   */
  predicate ListedBelow(merged: map<string, ManifestMeta>, labels: seq<string>, sorted: seq<ManifestMeta>, r: nat) {
    |labels| == |sorted|
    && (forall i :: 0 <= i < |labels| ==> labels[i] in merged && sorted[i] == merged[labels[i]] && Rank(labels[i]) < r)
    && (forall i, j :: 0 <= i < j < |labels| ==> labels[i] != labels[j] && Rank(labels[i]) <= Rank(labels[j]))
    && (forall k :: k in merged && Rank(k) < r ==> k in labels)
  }

  /**
   * A reconciled listing of `merged`: every label with a canonical prefix, each once, in
   * canonical order; labels without one are dropped.
   */
  predicate Listing(merged: map<string, ManifestMeta>, labels: seq<string>, sorted: seq<ManifestMeta>) {
    ListedBelow(merged, labels, sorted, |CanonicalOrder|)
  }

  /** Appending the group of place `r` extends a listing below `r` to one below `r + 1`. */
  lemma ListedStep(merged: map<string, ManifestMeta>, labels: seq<string>, sorted: seq<ManifestMeta>, r: nat,
                   keys: seq<string>, group: seq<ManifestMeta>)
    requires r < |CanonicalOrder| && ListedBelow(merged, labels, sorted, r)
    requires Group(merged, CanonicalOrder[r], keys, group)
    ensures ListedBelow(merged, labels + keys, sorted + group, r + 1)
  {
    forall i | 0 <= i < |keys| ensures Rank(keys[i]) == r {
      RankPrefix(keys[i], r);
    }
    forall k | k in merged && Rank(k) == r ensures k in keys {
      RankPrefix(k, r);
    }
    var ls, ss := labels + keys, sorted + group;
    forall i | 0 <= i < |ls| ensures ls[i] in merged && ss[i] == merged[ls[i]] && Rank(ls[i]) < r + 1 {
      if i >= |labels| { assert ls[i] == keys[i - |labels|] && ss[i] == group[i - |labels|]; }
    }
    forall i, j | 0 <= i < j < |ls| ensures ls[i] != ls[j] && Rank(ls[i]) <= Rank(ls[j]) {
      if j >= |labels| {
        assert ls[j] == keys[j - |labels|];
        if i >= |labels| { assert ls[i] == keys[i - |labels|]; }
      }
    }
    forall k | k in merged && Rank(k) < r + 1 ensures k in ls {
      if Rank(k) < r { assert k in labels; } else { assert k in keys; }
    }
  }

  /** The ordering loops of `reconcileHLSMaster`: the groups of the canonical prefixes, one after another. */
  method ReconcileOrder(merged: map<string, ManifestMeta>) returns (sorted: seq<ManifestMeta>, ghost labels: seq<string>)
    ensures Listing(merged, labels, sorted)
  {
    sorted, labels := [], [];
    var r := 0;
    while r < |CanonicalOrder|
      invariant 0 <= r <= |CanonicalOrder| && ListedBelow(merged, labels, sorted, r)
    {
      var group, keys := PickGroup(merged, CanonicalOrder[r]);
      ListedStep(merged, labels, sorted, r, keys, group);
      sorted := sorted + group;
      labels := labels + keys;
      r := r + 1;
    }
  }

  // ---------------------------------------------------------------------------
  // Writing the masters

  /** The final loop of `reconcileHLSMaster`: the header, then each entry's two lines, in order. */
  method WriteHLSText(entries: seq<ManifestMeta>) returns (text: string)
    ensures text == HLSText(entries)
  {
    HeaderText();
    text := "#EXTM3U\n";
    text := text + "#EXT-X-VERSION:3\n";
    var i := 0;
    while i < |entries|
      invariant 0 <= i <= |entries|
      invariant text == HLSText(entries[..i])
    {
      var e := entries[i];
      text := text + (StreamInf(e.Bitrate, e.Resolution) + "\n" + e.ManifestURL + "\n");
      HLSTextStep(entries, i);
      i := i + 1;
    }
    assert entries[..i] == entries;
  }

  /** The path of the master in a session directory. */
  function MasterPath(outputDir: string): string
  {
    GoPath.Join(outputDir, MasterName)
  }

  /**
   * `generateHLSMaster`: the fresh master in the session directory, or a "write_file"
   * error when it cannot be created. `createOk` says whether a file can be created.
   */
  predicate FreshResult(outputDir: string, manifests: seq<string>, createOk: string -> bool, r: Result<MasterFile, ManifesterError>) {
    var path := MasterPath(outputDir);
    r == if createOk(path) then Ok(MasterFile(path, HLSText(FreshEntries(manifests))))
         else Err(ManifesterError("write_file", "failed to create HLS master playlist"))
  }

  method GenerateHLSMaster(outputDir: string, manifests: seq<string>, createOk: string -> bool)
    returns (r: Result<MasterFile, ManifesterError>)
    ensures FreshResult(outputDir, manifests, createOk, r)
  {
    var path := MasterPath(outputDir);
    if !createOk(path) {
      return Err(ManifesterError("write_file", "failed to create HLS master playlist"));
    }
    var text := GenerateHLSText(manifests);
    r := Ok(MasterFile(path, text));
  }

  /**
   * `reconcileHLSMaster`: the existing master read back and parsed, merged with the new
   * entries, and written again as a reconciled listing; a "read_file" error when the
   * existing master cannot be read, a "write_file" error when it cannot be created again.
   * `readMaster` gives a file's text (None when it cannot be read). The order within one
   * canonical prefix is Go's map order, so the listing is returned beside the result.
   */
  predicate ReconciledResult(outputDir: string, manifests: seq<string>, readMaster: string -> Option<string>, createOk: string -> bool,
                             r: Result<MasterFile, ManifesterError>, labels: seq<string>, listed: seq<ManifestMeta>) {
    var path := MasterPath(outputDir);
    match readMaster(path)
    case None => r == Err(ManifesterError("read_file", "failed to read existing HLS master.m3u8"))
    case Some(raw) =>
      Listing(Merged(ParsedEntries(Split(raw, '\n')), manifests), labels, listed)
      && r == if createOk(path) then Ok(MasterFile(path, HLSText(listed)))
              else Err(ManifesterError("write_file", "failed to write reconciled master.m3u8"))
  }

  method ReconcileHLSMaster(outputDir: string, manifests: seq<string>, readMaster: string -> Option<string>, createOk: string -> bool)
    returns (r: Result<MasterFile, ManifesterError>, ghost labels: seq<string>, ghost listed: seq<ManifestMeta>)
    ensures ReconciledResult(outputDir, manifests, readMaster, createOk, r, labels, listed)
  {
    var path := MasterPath(outputDir);
    var existing := readMaster(path);
    if existing.None? {
      return Err(ManifesterError("read_file", "failed to read existing HLS master.m3u8")), [], [];
    }
    var existingEntries := ParseHLSManifest(existing.value);
    var newEntries := BuildNewEntries(manifests);
    var merged := MergeEntries(existingEntries, newEntries);
    var sorted;
    sorted, labels := ReconcileOrder(merged);
    listed := sorted;
    if !createOk(path) {
      return Err(ManifesterError("write_file", "failed to write reconciled master.m3u8")), labels, listed;
    }
    var text := WriteHLSText(sorted);
    r := Ok(MasterFile(path, text));
  }

  // ---------------------------------------------------------------------------
  // Reconciling twice

  /**
   * A manifest whose reconciled entry the parser reads back: its file name is a plain,
   * newline-free path element and its label is plain.
   */
  predicate Listable(manifest: string) {
    GoPath.NormalElement(GoPath.Base(manifest)) && '\n' !in GoPath.Base(manifest) && PlainLabel(ExtractLabel(manifest))
  }

  /** The URI label/name of a listable manifest gives back its label. */
  lemma ReconcileReadable(manifest: string)
    requires Listable(manifest)
    ensures Readable(ReconcileEntry(manifest))
  {
    var l, b := ExtractLabel(manifest), GoPath.Base(manifest);
    GoPath.JoinNormal(l, b);
    var uri := l + "/" + b;
    GoPath.BaseAfterSlash(l + "/", b);
    assert GoPath.Base(uri) == b;
    assert ExtractLabel(uri) == l;
    OneLineJoin(l, b);
    NotTagLine(l, b);
    ResolutionIsWord(l);
  }

  /** Every reconciled entry of listable manifests is read back. */
  lemma ReconcileAllReadable(manifests: seq<string>)
    requires forall j :: 0 <= j < |manifests| ==> Listable(manifests[j])
    ensures forall e :: e in ReconcileEntries(manifests) ==> Readable(e)
  {
    var es := ReconcileEntries(manifests);
    forall j | 0 <= j < |es| ensures Readable(es[j]) {
      ReconcileEntriesAt(manifests, j);
      ReconcileReadable(manifests[j]);
    }
  }

  /** Every entry of a reconciled listing is read back, when the existing and the new entries are. */
  lemma ListedReadable(existing: seq<ManifestMeta>, manifests: seq<string>, labels: seq<string>, sorted: seq<ManifestMeta>)
    requires forall e :: e in existing ==> Readable(e)
    requires forall j :: 0 <= j < |manifests| ==> Listable(manifests[j])
    requires Listing(Merged(existing, manifests), labels, sorted)
    ensures EveryReadable(sorted)
  {
    MergedEntries(existing, manifests);
    ReconcileAllReadable(manifests);
  }

  /** A listing of one map is a listing of any map that agrees with it on the canonical labels. */
  lemma ListingTransfer(m1: map<string, ManifestMeta>, m2: map<string, ManifestMeta>, labels: seq<string>, sorted: seq<ManifestMeta>)
    requires forall k :: Rank(k) < |CanonicalOrder| ==> (k in m1 <==> k in m2) && (k in m1 ==> m1[k] == m2[k])
    requires Listing(m1, labels, sorted)
    ensures Listing(m2, labels, sorted)
  {
  }

  /** Each listed entry carries the label it is listed under. */
  lemma ListedLabels(m: map<string, ManifestMeta>, labels: seq<string>, sorted: seq<ManifestMeta>)
    requires Listing(m, labels, sorted)
    requires forall k :: k in m ==> m[k].Label == k
    ensures forall i :: 0 <= i < |sorted| ==> sorted[i].Label == labels[i]
  {
    forall i | 0 <= i < |sorted| ensures sorted[i].Label == labels[i] {
      assert sorted[i] == m[labels[i]];
    }
  }

  /** The entries of a listing, keyed by label again, are the listed map on the canonical labels. */
  lemma RelistedKeys(m: map<string, ManifestMeta>, labels: seq<string>, sorted: seq<ManifestMeta>)
    requires Listing(m, labels, sorted)
    requires forall k :: k in m ==> m[k].Label == k
    ensures forall k :: k in EntriesByLabel(sorted) ==> k in m && EntriesByLabel(sorted)[k] == m[k]
    ensures forall k :: k in m && Rank(k) < |CanonicalOrder| ==> k in EntriesByLabel(sorted)
  {
    var r := EntriesByLabel(sorted);
    EntriesByLabelKeys(sorted);
    ListedLabels(m, labels, sorted);
    forall k | k in r ensures k in m && r[k] == m[k] {
      var i :| 0 <= i < |sorted| && sorted[i] == r[k];
      assert labels[i] == k;
    }
    forall k | k in m && Rank(k) < |CanonicalOrder| ensures k in r {
      var i :| 0 <= i < |labels| && labels[i] == k;
      assert sorted[i].Label == k;
    }
  }

  /** The map read back from a listing agrees with the listed map on the canonical labels. */
  lemma RelistAgrees(existing: seq<ManifestMeta>, manifests: seq<string>, labels: seq<string>, sorted: seq<ManifestMeta>)
    requires Listing(Merged(existing, manifests), labels, sorted)
    ensures var m1, m2 := Merged(existing, manifests), Merged(sorted, manifests);
            forall k :: Rank(k) < |CanonicalOrder| ==> (k in m1 <==> k in m2) && (k in m1 ==> m1[k] == m2[k])
  {
    var m1 := Merged(existing, manifests);
    var added := NewEntries(manifests);
    assert m1 == EntriesByLabel(existing) + added;
    assert Merged(sorted, manifests) == EntriesByLabel(sorted) + added;
    MergedEntries(existing, manifests);
    RelistedKeys(m1, labels, sorted);
  }

  /**
   * Reconciling again against the text just written: the text parses back to the listing,
   * and the listing is again a valid reconciled listing (Go's map order may still pick
   * another order within a prefix).
   */
  lemma ReconcileStable(existing: seq<ManifestMeta>, manifests: seq<string>, labels: seq<string>, sorted: seq<ManifestMeta>)
    requires forall e :: e in existing ==> Readable(e)
    requires forall j :: 0 <= j < |manifests| ==> Listable(manifests[j])
    requires Listing(Merged(existing, manifests), labels, sorted)
    ensures ParsedEntries(Split(HLSText(sorted), '\n')) == sorted
    ensures Listing(Merged(ParsedEntries(Split(HLSText(sorted), '\n')), manifests), labels, sorted)
  {
    ListedReadable(existing, manifests, labels, sorted);
    HLSRoundTrip(sorted);
    RelistAgrees(existing, manifests, labels, sorted);
    ListingTransfer(Merged(existing, manifests), Merged(sorted, manifests), labels, sorted);
  }

  /** At most one label of the map for each canonical prefix. */
  predicate OnePerPlace(m: map<string, ManifestMeta>) {
    forall k1, k2 :: k1 in m && k2 in m && Rank(k1) == Rank(k2) < |CanonicalOrder| ==> k1 == k2
  }

  /** Labels in strictly increasing rank. */
  predicate StrictlyRanked(ls: seq<string>) {
    forall i, j :: 0 <= i < j < |ls| ==> Rank(ls[i]) < Rank(ls[j])
  }

  /** Two non-empty sequences in strictly increasing rank with the same members start alike. */
  lemma StrictlyRankedHeads(a: seq<string>, b: seq<string>)
    requires StrictlyRanked(a) && StrictlyRanked(b)
    requires forall k :: k in a <==> k in b
    requires a != [] || b != []
    ensures a != [] && b != [] && a[0] == b[0]
  {
    var x := (a + b)[0];
    assert x in a + b;
    assert x in a && x in b;
    assert a[0] in b;
    var j :| 0 <= j < |b| && b[j] == a[0];
    assert b[0] in a;
    var i :| 0 <= i < |a| && a[i] == b[0];
  }

  /** Past equal heads, the tails of two such sequences have the same members. */
  lemma StrictlyRankedTails(a: seq<string>, b: seq<string>)
    requires StrictlyRanked(a) && StrictlyRanked(b)
    requires forall k :: k in a <==> k in b
    requires a != [] && b != [] && a[0] == b[0]
    ensures StrictlyRanked(a[1..]) && StrictlyRanked(b[1..])
    ensures forall k :: k in a[1..] <==> k in b[1..]
  {
    forall k ensures k in a[1..] <==> k in b[1..] {
      assert k in a[1..] <==> k in a && k != a[0];
      assert k in b[1..] <==> k in b && k != b[0];
    }
  }

  /** Two sequences in strictly increasing rank with the same members are equal. */
  lemma {:induction false} StrictlyRankedUnique(a: seq<string>, b: seq<string>)
    requires StrictlyRanked(a) && StrictlyRanked(b)
    requires forall k :: k in a <==> k in b
    ensures a == b
    decreases |a|
  {
    if a != [] || b != [] {
      StrictlyRankedHeads(a, b);
      StrictlyRankedTails(a, b);
      StrictlyRankedUnique(a[1..], b[1..]);
      assert a == [a[0]] + a[1..];
      assert b == [b[0]] + b[1..];
    }
  }

  /** With at most one label per prefix, a map has a single reconciled listing. */
  lemma ListingUnique(m: map<string, ManifestMeta>, labels1: seq<string>, sorted1: seq<ManifestMeta>,
                      labels2: seq<string>, sorted2: seq<ManifestMeta>)
    requires OnePerPlace(m) && Listing(m, labels1, sorted1) && Listing(m, labels2, sorted2)
    ensures sorted1 == sorted2
  {
    forall i, j | 0 <= i < j < |labels1| ensures Rank(labels1[i]) < Rank(labels1[j]) {
      assert labels1[i] != labels1[j];
    }
    forall i, j | 0 <= i < j < |labels2| ensures Rank(labels2[i]) < Rank(labels2[j]) {
      assert labels2[i] != labels2[j];
    }
    StrictlyRankedUnique(labels1, labels2);
    assert forall i :: 0 <= i < |sorted1| ==> sorted1[i] == sorted2[i];
  }

  /**
   * With at most one label per canonical prefix, reconciling the same manifests again
   * against the text just written writes the same text.
   */
  lemma ReconcileIdempotent(existing: seq<ManifestMeta>, manifests: seq<string>, labels1: seq<string>, sorted1: seq<ManifestMeta>,
                            labels2: seq<string>, sorted2: seq<ManifestMeta>)
    requires forall e :: e in existing ==> Readable(e)
    requires forall j :: 0 <= j < |manifests| ==> Listable(manifests[j])
    requires OnePerPlace(Merged(existing, manifests))
    requires Listing(Merged(existing, manifests), labels1, sorted1)
    requires Listing(Merged(ParsedEntries(Split(HLSText(sorted1), '\n')), manifests), labels2, sorted2)
    ensures sorted2 == sorted1 && HLSText(sorted2) == HLSText(sorted1)
  {
    ReconcileStable(existing, manifests, labels1, sorted1);
    RelistAgrees(existing, manifests, labels1, sorted1);
    ListingTransfer(Merged(sorted1, manifests), Merged(existing, manifests), labels2, sorted2);
    ListingUnique(Merged(existing, manifests), labels1, sorted1, labels2, sorted2);
  }
}
