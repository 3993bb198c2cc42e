/**
 * The directory tree the catalog is served from, as the service sees it:
 * read-only, keyed by the path strings the service forms, each path naming a
 * regular file or a directory with its listing. Also the depth-first,
 * pre-order traversal of `filepath.WalkDir`.
 */
module Tree {
  import opened Strings

  /** One element of a directory listing (`os.DirEntry`): a name, and whether it is a directory. */
  datatype DirEntry = DirEntry(name: string, isDir: bool)

  /** What `os.Stat` finds at a path; a listing is in `os.ReadDir` order (by name). */
  datatype Node = Regular | Directory(listing: seq<DirEntry>)

  type FileSystem = map<string, Node>

  /** The prefix every path inside directory `dir` starts with. */
  function DirPrefix(dir: string): string {
    if dir != "" && dir[|dir| - 1] == '/' then dir else dir + "/"
  }

  /** `filepath.Join` of a directory path in clean form with one entry name. */
  function JoinName(dir: string, name: string): (p: string)
    ensures p == DirPrefix(dir) + name
    ensures name != "" ==> |p| > |dir|
  {
    if dir != "" && dir[|dir| - 1] == '/' then dir + name else dir + "/" + name
  }

  /** Listed child `e` of `dir` exists, under its joined path, with the kind the listing gives it. */
  predicate ListedChild(fs: FileSystem, dir: string, e: DirEntry) {
    && e.name != ""
    && JoinName(dir, e.name) in fs
    && fs[JoinName(dir, e.name)].Directory? == e.isDir
  }

  /** Every listing agrees with the tree: the snapshot a single request sees. */
  ghost predicate WellFormed(fs: FileSystem) {
    forall dir, e :: dir in fs && fs[dir].Directory? && e in fs[dir].listing ==> ListedChild(fs, dir, e)
  }

  /** The path with its trailing separators removed. */
  function TrimTrailingSeparators(p: string): (t: string)
    ensures HasPrefix(p, t)
    ensures forall i :: |t| <= i < |p| ==> p[i] == '/'
    ensures t == "" || t[|t| - 1] != '/'
  {
    if p != "" && p[|p| - 1] == '/' then TrimTrailingSeparators(p[..|p| - 1]) else p
  }

  /** The text after the last separator of `p` (all of `p` when it has none). */
  function LastElement(p: string): (b: string)
    ensures HasSuffix(p, b) && '/' !in b
    ensures |b| == |p| || p[|p| - |b| - 1] == '/'
  {
    if p == [] then []
    else if p[|p| - 1] == '/' then []
    else
      var b := LastElement(p[..|p| - 1]);
      assert p[..|p| - 1] + [p[|p| - 1]] == p;
      b + [p[|p| - 1]]
  }

  /**
   * `filepath.Base`: the last element of the path once trailing separators
   * are removed; "." for the empty path and "/" for a path of separators only.
   */
  function BaseName(p: string): (b: string)
    ensures p == "" ==> b == "."
    ensures p != "" && TrimTrailingSeparators(p) == "" ==> b == "/"
    ensures var t := TrimTrailingSeparators(p);
      t != "" ==> b != "" && HasSuffix(t, b) && '/' !in b && (|b| == |t| || t[|t| - |b| - 1] == '/')
  {
    if p == "" then "."
    else
      var t := TrimTrailingSeparators(p);
      if t == "" then "/" else LastElement(t)
  }

  /** One call of the `WalkDir` callback: the visited path, its entry name and kind. */
  datatype WalkItem = WalkItem(path: string, name: string, isDir: bool)

  /** Termination measure of the walk: how many tree paths are at least as long as `p`. */
  ghost function Rank(fs: FileSystem, p: string): nat {
    var longer := set k | k in fs && |k| >= |p|;
    |longer|
  }

  lemma RankShrinks(fs: FileSystem, dir: string, child: string)
    requires dir in fs && |child| > |dir|
    ensures Rank(fs, child) < Rank(fs, dir)
  {
    var small := set k | k in fs && |k| >= |child|;
    var large := set k | k in fs && |k| >= |dir|;
    assert small <= large - {dir};
    assert |small| <= |large - {dir}| by {
      assert large - {dir} == small + (large - {dir} - small);
    }
  }

  /** `filepath.WalkDir(root, ...)`: every path of the tree below `root`, in pre-order. */
  function Walk(fs: FileSystem, root: string): (w: seq<WalkItem>)
    requires WellFormed(fs)
    ensures root !in fs ==> w == []
    ensures root in fs ==> w != [] && w[0] == WalkItem(root, BaseName(root), fs[root].Directory?)
    ensures root in fs && fs[root].Regular? ==> |w| == 1
  {
    if root !in fs then []
    else
      [WalkItem(root, BaseName(root), fs[root].Directory?)]
      + (if fs[root].Directory? then WalkListing(fs, root, fs[root].listing) else [])
  }

  /** The part of the walk that visits the entries `es` of directory `dir` and everything below them. */
  function WalkListing(fs: FileSystem, dir: string, es: seq<DirEntry>): (w: seq<WalkItem>)
    requires WellFormed(fs) && dir in fs
    requires forall e :: e in es ==> ListedChild(fs, dir, e)
    decreases Rank(fs, dir), |es|
  {
    if es == [] then []
    else
      var child := JoinName(dir, es[0].name);
      assert ListedChild(fs, dir, es[0]);
      RankShrinks(fs, dir, child);
      [WalkItem(child, es[0].name, es[0].isDir)]
      + (if es[0].isDir && child in fs && fs[child].Directory?
         then WalkListing(fs, child, fs[child].listing) else [])
      + WalkListing(fs, dir, es[1..])
  }

  /** The tree has `w.path`, and it is of the kind the walk reports. */
  predicate InTree(fs: FileSystem, w: WalkItem) {
    w.path in fs && fs[w.path].Directory? == w.isDir
  }

  /**
   * The walk visits `root` first, then only paths inside it, and every visited
   * path exists in the tree with the kind the walk reports for it.
   */
  lemma WalkVisitsTree(fs: FileSystem, root: string)
    requires WellFormed(fs)
    ensures root in fs <==> |Walk(fs, root)| > 0
    ensures root in fs ==> Walk(fs, root)[0].path == root
    ensures forall i :: 0 <= i < |Walk(fs, root)| ==> InTree(fs, Walk(fs, root)[i])
    ensures forall i :: 1 <= i < |Walk(fs, root)| ==> HasPrefix(Walk(fs, root)[i].path, DirPrefix(root))
  {
    if root in fs && fs[root].Directory? {
      WalkListingVisitsTree(fs, root, fs[root].listing);
    }
  }

  lemma {:induction false} WalkListingVisitsTree(fs: FileSystem, dir: string, es: seq<DirEntry>)
    requires WellFormed(fs) && dir in fs
    requires forall e :: e in es ==> ListedChild(fs, dir, e)
    ensures forall i :: 0 <= i < |WalkListing(fs, dir, es)| ==>
      InTree(fs, WalkListing(fs, dir, es)[i]) && HasPrefix(WalkListing(fs, dir, es)[i].path, DirPrefix(dir))
    decreases Rank(fs, dir), |es|
  {
    if es != [] {
      var e := es[0];
      var child := JoinName(dir, e.name);
      assert ListedChild(fs, dir, e);
      RankShrinks(fs, dir, child);
      var below := if e.isDir && child in fs && fs[child].Directory?
        then WalkListing(fs, child, fs[child].listing) else [];
      if e.isDir {
        WalkListingVisitsTree(fs, child, fs[child].listing);
        forall i | 0 <= i < |below| ensures HasPrefix(below[i].path, DirPrefix(dir)) {
          PrefixTransitive(below[i].path, DirPrefix(child), DirPrefix(dir));
        }
      }
      WalkListingVisitsTree(fs, dir, es[1..]);
      var rest := WalkListing(fs, dir, es[1..]);
      assert WalkListing(fs, dir, es) == [WalkItem(child, e.name, e.isDir)] + below + rest;
    }
  }

  lemma PrefixTransitive(a: string, b: string, c: string)
    requires HasPrefix(a, b) && HasPrefix(b, c)
    ensures HasPrefix(a, c)
  {
    assert a[..|c|] == a[..|b|][..|c|];
  }
}
