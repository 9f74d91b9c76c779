/**
 * Go's `path/filepath` on a Unix host (separator '/', no volume names): `Base`, `Ext`,
 * `Clean` and the two-argument `Join` that the pipeline uses to name files and
 * directories.
 */
module GoPath {
  import opened GoStrings

  /** A single path element that `Clean` keeps as it is. */
  predicate NormalElement(s: string) {
    s != "" && s != "." && s != ".." && '/' !in s
  }

  /** `path` with all trailing slashes removed. */
  function TrimTrailingSlashes(path: string): (r: string)
    ensures |r| <= |path| && r == path[..|r|]
    ensures r == "" || r[|r| - 1] != '/'
    decreases |path|
  {
    if |path| > 0 && path[|path| - 1] == '/' then TrimTrailingSlashes(path[..|path| - 1]) else path
  }

  /** The part of `path` after its last '/'. */
  function LastElement(path: string): (r: string)
    ensures |r| <= |path| && r == path[|path| - |r|..]
    ensures '/' !in r
    ensures |r| < |path| ==> path[|path| - |r| - 1] == '/'
    decreases |path|
  {
    if |path| == 0 || path[|path| - 1] == '/' then "" else LastElement(path[..|path| - 1]) + [path[|path| - 1]]
  }

  /** `filepath.Base`: the last element, "." for the empty path, "/" for a path of slashes. */
  function Base(path: string): (r: string)
    ensures r != ""
    ensures r == "/" || '/' !in r
    ensures path == "" ==> r == "."
  {
    if path == "" then "."
    else
      var last := LastElement(TrimTrailingSlashes(path));
      if last == "" then "/" else last
  }

  /** `filepath.Ext`: the suffix from the last '.' of the last element, or "". */
  function Ext(path: string): (r: string)
    ensures |r| <= |path| && r == path[|path| - |r|..]
    ensures r == "" || (r[0] == '.' && '.' !in r[1..] && '/' !in r)
    decreases |path|
  {
    if |path| == 0 || path[|path| - 1] == '/' then ""
    else if path[|path| - 1] == '.' then "."
    else
      var e := Ext(path[..|path| - 1]);
      if e == "" then "" else e + [path[|path| - 1]]
  }

  /**
   * The element-stack step of `filepath.Clean`, over the elements of a path:
   * empty and "." elements vanish, ".." removes the previous real element, and a
   * ".." that would climb above the root of a rooted path is dropped.
   */
  function CleanElements(elems: seq<string>, rooted: bool): seq<string>
  {
    if |elems| == 0 then []
    else
      var done := CleanElements(elems[..|elems| - 1], rooted);
      var e := elems[|elems| - 1];
      if e == "" || e == "." then done
      else if e == ".." then
        if |done| > 0 && done[|done| - 1] != ".." then done[..|done| - 1]
        else if rooted then done
        else done + [".."]
      else done + [e]
  }

  /** `filepath.Clean`: the shortest lexically equivalent path. */
  function Clean(path: string): string
  {
    var rooted := |path| > 0 && path[0] == '/';
    var joined := GoStrings.Join(CleanElements(Split(path, '/'), rooted), '/');
    if rooted then "/" + joined else if joined == "" then "." else joined
  }

  /** `filepath.Join(dir, name)`: the non-empty arguments joined by '/', then cleaned. */
  function Join(dir: string, name: string): string
  {
    if dir != "" then Clean(dir + "/" + name)
    else if name != "" then Clean(name)
    else ""
  }

  // ---------------------------------------------------------------------------
  // Lemmas

  /** Joining two plain elements is plain concatenation with a '/' between them. */
  lemma JoinNormal(dir: string, name: string)
    requires NormalElement(dir) && NormalElement(name)
    ensures Join(dir, name) == dir + "/" + name
  {
    var path := dir + "/" + name;
    assert path[0] == dir[0];
    SplitCons(dir, '/', name);
    assert Split(name, '/') == [name];
    var elems := [dir, name];
    assert Split(path, '/') == elems;
    assert elems[..1] == [dir];
    assert [dir][..0] == [];
    assert CleanElements([dir], false) == [dir];
    assert CleanElements(elems, false) == elems;
    assert GoStrings.Join(elems, '/') == path;
  }

  lemma {:induction false} LastElementAfterSlash(prefix: string, name: string)
    requires prefix == "" || prefix[|prefix| - 1] == '/'
    requires '/' !in name
    ensures LastElement(prefix + name) == name
    decreases |name|
  {
    if name != [] {
      var init := name[..|name| - 1];
      assert (prefix + name)[..|prefix + name| - 1] == prefix + init;
      LastElementAfterSlash(prefix, init);
      assert init + [name[|name| - 1]] == name;
    } else {
      assert prefix + name == prefix;
    }
  }

  /** A plain element after a '/' (or alone) is the base name. */
  lemma BaseAfterSlash(prefix: string, name: string)
    requires prefix == "" || prefix[|prefix| - 1] == '/'
    requires NormalElement(name)
    ensures Base(prefix + name) == name
  {
    LastElementAfterSlash(prefix, name);
  }

  lemma {:induction false} JoinSnoc(parts: seq<string>, name: string)
    ensures GoStrings.Join(parts + [name], '/') ==
            if parts == [] then name else GoStrings.Join(parts, '/') + "/" + name
    decreases |parts|
  {
    if |parts| > 1 {
      assert (parts + [name])[1..] == parts[1..] + [name];
      JoinSnoc(parts[1..], name);
    } else if |parts| == 1 {
      assert parts + [name] == [parts[0], name];
    }
  }

  /** Appending a plain element to a non-empty path appends it to the cleaned path. */
  lemma CleanSnoc(dir: string, name: string)
    requires dir != "" && NormalElement(name)
    ensures var rooted := dir[0] == '/';
            var kept := CleanElements(Split(dir, '/'), rooted);
            Clean(dir + "/" + name) ==
              (if rooted then "/" else "") + (if kept == [] then "" else GoStrings.Join(kept, '/') + "/") + name
  {
    var path := dir + "/" + name;
    var rooted := dir[0] == '/';
    assert path[0] == dir[0];
    var elems := Split(dir, '/');
    SplitSnoc(dir, '/', name);
    assert Split(path, '/') == elems + [name];
    assert (elems + [name])[..|elems|] == elems;
    var kept := CleanElements(elems, rooted);
    assert CleanElements(elems + [name], rooted) == kept + [name];
    JoinSnoc(kept, name);
    var joined := GoStrings.Join(kept + [name], '/');
    assert joined != "";
    assert Clean(path) == (if rooted then "/" + joined else joined);
  }

  /** Whatever the directory, joining a plain file name onto it keeps that name as the base. */
  lemma BaseOfJoin(dir: string, name: string)
    requires NormalElement(name)
    ensures Base(Join(dir, name)) == name
  {
    if dir == "" {
      assert name[0] != '/';
      assert Split(name, '/') == [name];
      assert [name][..0] == [];
      assert CleanElements([name], false) == [name];
      assert Join(dir, name) == "" + name;
      BaseAfterSlash("", name);
    } else {
      CleanSnoc(dir, name);
      var rooted := dir[0] == '/';
      var kept := CleanElements(Split(dir, '/'), rooted);
      var prefix := (if rooted then "/" else "") + (if kept == [] then "" else GoStrings.Join(kept, '/') + "/");
      assert Join(dir, name) == prefix + name;
      BaseAfterSlash(prefix, name);
    }
  }

  /** The extension of a name ending in "." followed by dot- and slash-free text is that suffix. */
  lemma {:induction false} ExtOfSuffix(stem: string, tail: string)
    requires '.' !in tail && '/' !in tail
    ensures Ext(stem + "." + tail) == "." + tail
    decreases |tail|
  {
    var p := stem + "." + tail;
    if tail != [] {
      var init := tail[..|tail| - 1];
      assert p[..|p| - 1] == stem + "." + init;
      ExtOfSuffix(stem, init);
      assert "." + init + [tail[|tail| - 1]] == "." + tail;
    }
  }

  /** A last element with no '.' gives no extension. */
  lemma {:induction false} ExtWithoutDot(prefix: string, name: string)
    requires prefix == "" || prefix[|prefix| - 1] == '/'
    requires '.' !in name && '/' !in name
    ensures Ext(prefix + name) == ""
    decreases |name|
  {
    var p := prefix + name;
    if name != [] {
      var init := name[..|name| - 1];
      assert p[..|p| - 1] == prefix + init;
      ExtWithoutDot(prefix, init);
    } else {
      assert p == prefix;
    }
  }
}
