/** File-name slugs: the base name of a path without its extension. */
module Namer {
  import opened GoStrings
  import opened GoPath

  /** The last path element with its final extension removed. */
  function SlugFromPath(inputPath: string): (r: string)
    ensures r + Ext(Base(inputPath)) == Base(inputPath)
    ensures r == "/" || '/' !in r
  {
    var base := Base(inputPath);
    TrimSuffix(base, Ext(base))
  }

  /** A plain file name without a dot, alone or after a '/', is its own slug: "dir/video" gives "video". */
  lemma SlugWithoutExt(prefix: string, name: string)
    requires prefix == "" || prefix[|prefix| - 1] == '/'
    requires NormalElement(name) && '.' !in name
    ensures SlugFromPath(prefix + name) == name
  {
    BaseAfterSlash(prefix, name);
  }

  /**
   * Only the last extension goes: "dir/a.b.c" gives "a.b" (so slugging a slug can
   * shorten it again).
   */
  lemma SlugDropsLastExt(prefix: string, stem: string, ext: string)
    requires prefix == "" || prefix[|prefix| - 1] == '/'
    requires NormalElement(stem + "." + ext) && '.' !in ext
    ensures SlugFromPath(prefix + (stem + "." + ext)) == stem
  {
    var name := stem + "." + ext;
    BaseAfterSlash(prefix, name);
    ExtOfSuffix(stem, ext);
    assert name[..|stem|] == stem;
  }
}
