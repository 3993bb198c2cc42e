/**
 * The request-to-feed engine of the catalog service: which names are hidden,
 * how paths are classified and confined to the trusted root, how navigation,
 * acquisition and search-result feeds are assembled, and how the handler
 * maps a request to a response.
 */
module Service {
  import opened Strings
  import opened Outcomes
  import opened Seqs
  import opened Tree
  import opened Catalog
  import opened Http

  const NavigationType := "application/atom+xml;profile=opds-catalog;kind=navigation"
  const AcquisitionType := "application/atom+xml;profile=opds-catalog;kind=acquisition"
  const SearchType := "application/opensearchdescription+xml"
  const SearchDefinitionName := "opensearch.xml"
  const SearchDefinitionPath := "/" + SearchDefinitionName
  const SearchPath := "/search"

  const SubsectionRel := "subsection"
  const ThumbnailRel := "http://opds-spec.org/image/thumbnail"
  const AcquisitionRel := "http://opds-spec.org/acquisition"

  /** The server's configuration: the trusted root and the visibility and caching switches. */
  datatype OPDS = OPDS(trustedRoot: string, hideCalibreFiles: bool, hideDotFiles: bool, noCache: bool)

  /**
   * The library calls the service makes but whose behaviour is not modelled:
   * `url.PathUnescape`, `filepath.Join` of the root with a request path,
   * `filepath.Clean`, `filepath.EvalSymlinks` (partial), `url.PathEscape`,
   * and the system's extension-to-media-type table.
   */
  datatype Host = Host(
    pathUnescape: string -> Option<string>,
    join: (string, string) -> string,
    clean: string -> string,
    evalSymlinks: string -> Option<string>,
    pathEscape: string -> string,
    systemTypeByExtension: string -> string)

  /** A GET request: `URL.Path`, `URL.RequestURI()` and the value of query parameter `q` ("" when absent). */
  datatype Request = Request(path: string, requestURI: string, query: string)

  datatype PathType = File | DirOfDirs | DirOfFiles

  // ---------------------------------------------------------------------------
  // Visibility

  /** The substrings that mark a file as Calibre library bookkeeping. */
  const CalibreMarkers := [".opf", "cover.", "metadata.db", "metadata_db_prefs_backup.json", ".caltrash", ".calnotes"]

  /**
   * Whether a name (or a path relative to the root) is hidden: never "." and
   * "..", otherwise a leading '.' under the dot-file switch, or any Calibre
   * marker anywhere in it under the Calibre switch.
   */
  function FileShouldBeIgnored(filename: string, hideCalibreFiles: bool, hideDotFiles: bool): (ignored: bool)
    ensures filename == "." || filename == ".." ==> !ignored
    ensures ignored ==> hideDotFiles || hideCalibreFiles
  {
    if filename == "." || filename == ".." then false
    else if hideDotFiles && HasPrefix(filename, ".") then true
    else if hideCalibreFiles
      && (Contains(filename, ".opf")
        || Contains(filename, "cover.")
        || Contains(filename, "metadata.db")
        || Contains(filename, "metadata_db_prefs_backup.json")
        || Contains(filename, ".caltrash")
        || Contains(filename, ".calnotes"))
    then true
    else false
  }

  /**
   * Any name other than "." and ".." is hidden exactly when the dot switch is
   * on and it starts with '.', or the Calibre switch is on and it contains
   * one of the markers.
   */
  lemma IgnoredExactly(filename: string, hideCalibreFiles: bool, hideDotFiles: bool)
    requires filename != "." && filename != ".."
    ensures FileShouldBeIgnored(filename, hideCalibreFiles, hideDotFiles) <==>
      (hideDotFiles && HasPrefix(filename, "."))
      || (hideCalibreFiles && exists m :: m in CalibreMarkers && Contains(filename, m))
  {
  }

  /** With both switches off nothing is hidden. */
  lemma NothingHiddenByDefault(filename: string)
    ensures !FileShouldBeIgnored(filename, false, false)
  {
  }

  /** Turning a switch on never makes a hidden name visible again. */
  lemma HidingIsMonotone(filename: string, calibre: bool, dot: bool, calibre': bool, dot': bool)
    requires calibre ==> calibre'
    requires dot ==> dot'
    ensures FileShouldBeIgnored(filename, calibre, dot) ==> FileShouldBeIgnored(filename, calibre', dot')
  {
  }

  /**
   * Applied to a relative path, the dot rule looks at the first path element
   * only: a dot file inside a visible directory is not hidden by it.
   */
  lemma DotRuleSeesFirstElementOnly(dir: string, name: string)
    requires dir != "" && dir[0] != '.'
    ensures !FileShouldBeIgnored(dir + "/" + name, false, true)
  {
    assert (dir + "/" + name)[0] == dir[0];
  }

  /**
   * Applied to a relative path, the Calibre rule scans every element: a
   * directory whose name holds a marker hides every file below it.
   */
  lemma CalibreRuleSeesWholePath(dir: string, name: string, marker: string, hideDotFiles: bool)
    requires marker in CalibreMarkers && Contains(dir, marker)
    ensures FileShouldBeIgnored(dir + "/" + name, true, hideDotFiles)
  {
    ContainsExtend(dir, "/" + name, marker);
    assert dir + "/" + name == dir + ("/" + name);
    assert |dir + "/" + name| >= 3 by {
      var i := Index(dir, marker);
      assert |marker| >= 3;
    }
  }

  // ---------------------------------------------------------------------------
  // Link relations and media types

  const ImageExtensions := [".png", ".jpg", ".jpeg", ".gif"]

  /**
   * The link relation of an entry: "subsection" for either kind of
   * directory; for a file, the thumbnail relation when its extension is one
   * of the image extensions (case-sensitively), the acquisition relation
   * otherwise.
   */
  function GetRel(name: string, pathType: PathType): (rel: string)
    ensures !pathType.File? <==> rel == SubsectionRel
    ensures pathType.File? ==> (rel == ThumbnailRel <==> Ext(name) in ImageExtensions)
    ensures pathType.File? ==> (rel == AcquisitionRel <==> Ext(name) !in ImageExtensions)
  {
    if pathType.DirOfFiles? || pathType.DirOfDirs? then SubsectionRel
    else
      var ext := Ext(name);
      assert ThumbnailRel != SubsectionRel && AcquisitionRel != SubsectionRel;
      if ext == ".png" || ext == ".jpg" || ext == ".jpeg" || ext == ".gif" then ThumbnailRel
      else AcquisitionRel
  }

  /** A file gets the thumbnail relation exactly when its name ends in an image extension. */
  lemma ThumbnailIffImageSuffix(name: string)
    ensures GetRel(name, File) == ThumbnailRel <==> exists x :: x in ImageExtensions && HasSuffix(name, x)
  {
    if GetRel(name, File) == ThumbnailRel {
      assert HasSuffix(name, Ext(name));
    } else {
      forall x | x in ImageExtensions ensures !HasSuffix(name, x) {
        if HasSuffix(name, x) {
          ExtOfSuffix(name, x);
        }
      }
    }
  }

  /** The e-book types registered at start-up, over the system table. */
  const EbookTypes: seq<(string, string)> := [
    (".mobi", "application/x-mobipocket-ebook"),
    (".epub", "application/epub+zip"),
    (".cbz", "application/x-cbz"),
    (".cbr", "application/x-cbr"),
    (".fb2", "text/fb2+xml"),
    (".pdf", "application/pdf")]

  /**
   * What `mime.AddExtensionType` stores: a `text/` type without a charset
   * parameter gets "; charset=utf-8" appended.
   */
  function RegisteredType(mediaType: string): string {
    if HasPrefix(mediaType, "text/") && !Contains(mediaType, "charset=")
    then mediaType + "; charset=utf-8"
    else mediaType
  }

  /** The registered override for an extension, matched without regard to ASCII case. */
  function EbookOverride(ext: string): Option<string> {
    var lower := ToLower(ext);
    if lower == ".mobi" then Some(RegisteredType("application/x-mobipocket-ebook"))
    else if lower == ".epub" then Some(RegisteredType("application/epub+zip"))
    else if lower == ".cbz" then Some(RegisteredType("application/x-cbz"))
    else if lower == ".cbr" then Some(RegisteredType("application/x-cbr"))
    else if lower == ".fb2" then Some(RegisteredType("text/fb2+xml"))
    else if lower == ".pdf" then Some(RegisteredType("application/pdf"))
    else None
  }

  /** Only the extensions registered at start-up have an override. */
  lemma OverrideIsRegistered(ext: string)
    requires EbookOverride(ext).Some?
    ensures exists k :: 0 <= k < |EbookTypes| && ToLower(ext) == EbookTypes[k].0
  {
    var lower := ToLower(ext);
    var k :=
      if lower == ".mobi" then 0 else if lower == ".epub" then 1 else if lower == ".cbz" then 2
      else if lower == ".cbr" then 3 else if lower == ".fb2" then 4 else 5;
    assert lower == EbookTypes[k].0;
  }

  /**
   * `mime.TypeByExtension` after the start-up registrations: an extension
   * registered at start-up, in any ASCII case, gets its registered type;
   * any other is looked up in the system table.
   */
  function TypeByExtension(ext: string, system: string -> string): (mediaType: string)
    ensures forall k :: 0 <= k < |EbookTypes| && ToLower(ext) == EbookTypes[k].0 ==>
      mediaType == RegisteredType(EbookTypes[k].1)
    ensures (forall k :: 0 <= k < |EbookTypes| ==> ToLower(ext) != EbookTypes[k].0) ==> mediaType == system(ext)
  {
    match EbookOverride(ext)
    case Some(t) => OverrideIsRegistered(ext); t
    case None => system(ext)
  }

  /**
   * The media type of an entry: the acquisition or navigation catalog type
   * for the two kinds of directory, the extension lookup for a file.
   */
  function GetType(name: string, pathType: PathType, system: string -> string): (mediaType: string)
    ensures pathType == DirOfFiles ==> mediaType == AcquisitionType
    ensures pathType == DirOfDirs ==> mediaType == NavigationType
    ensures pathType == File ==> mediaType == TypeByExtension(Ext(name), system)
  {
    match pathType
    case File => TypeByExtension(Ext(name), system)
    case DirOfFiles => AcquisitionType
    case DirOfDirs => NavigationType
  }

  /**
   * A file named after one of the registered e-book extensions gets the
   * registered type, whatever the system table says.
   */
  lemma EbookTypesOverrideSystemTable(name: string, k: nat, system: string -> string)
    requires k < |EbookTypes| && HasSuffix(name, EbookTypes[k].0)
    ensures GetType(name, File, system) == RegisteredType(EbookTypes[k].1)
  {
    var (ext, mediaType) := EbookTypes[k];
    ExtOfSuffix(name, ext);
    LowerCaseUnchanged(ext);
    assert EbookOverride(ext) == Some(RegisteredType(mediaType));
  }

  // ---------------------------------------------------------------------------
  // Path classification

  /** `isFile`: a listing element (or stat result) is a file when it is not a directory. */
  predicate IsFile(e: DirEntry) {
    !e.isDir
  }

  /** In a consistent tree, a listed entry is a file exactly when its path names a regular file. */
  lemma ListedFileIsRegular(fs: FileSystem, dir: string, e: DirEntry)
    requires WellFormed(fs) && dir in fs && fs[dir].Directory? && e in fs[dir].listing
    ensures JoinName(dir, e.name) in fs
    ensures IsFile(e) <==> fs[JoinName(dir, e.name)].Regular?
  {
    assert ListedChild(fs, dir, e);
  }

  /** The classification of an existing path, as a value. */
  function PathTypeOf(fs: FileSystem, p: string): PathType
    requires p in fs
  {
    match fs[p]
    case Regular => File
    case Directory(listing) => if exists e :: e in listing && IsFile(e) then DirOfFiles else DirOfDirs
  }

  /**
   * `getPathType` on an existing path: a non-directory is a File; a directory
   * with at least one non-directory entry, hidden or not, is DirOfFiles; any
   * other directory, the empty one included, is DirOfDirs.
   */
  method GetPathType(fs: FileSystem, dirpath: string) returns (pathType: PathType)
    requires dirpath in fs
    ensures pathType == File <==> fs[dirpath].Regular?
    ensures pathType == DirOfFiles <==>
      fs[dirpath].Directory? && exists i :: 0 <= i < |fs[dirpath].listing| && !fs[dirpath].listing[i].isDir
    ensures pathType == DirOfDirs <==>
      fs[dirpath].Directory? && forall i :: 0 <= i < |fs[dirpath].listing| ==> fs[dirpath].listing[i].isDir
    ensures pathType == PathTypeOf(fs, dirpath)
  {
    if fs[dirpath].Regular? {
      return File;
    }
    var dirEntries := fs[dirpath].listing;
    for i := 0 to |dirEntries|
      invariant forall j :: 0 <= j < i ==> dirEntries[j].isDir
    {
      if IsFile(dirEntries[i]) {
        return DirOfFiles;
      }
    }
    return DirOfDirs;
  }

  // ---------------------------------------------------------------------------
  // Confinement to the trusted root

  /** `inTrustedRoot` as written: a plain string-prefix test. */
  predicate InTrustedRoot(path: string, trustedRoot: string) {
    HasPrefix(path, trustedRoot)
  }

  /** The plain prefix test accepts exactly the paths that spell the root followed by any text. */
  lemma InTrustedRootIffExtends(path: string, trustedRoot: string)
    ensures InTrustedRoot(path, trustedRoot) <==> exists rest :: path == trustedRoot + rest
  {
    HasPrefixIffSplit(path, trustedRoot);
  }

  /** The root itself, or a path inside the root directory. */
  predicate WithinRoot(path: string, trustedRoot: string) {
    path == trustedRoot || HasPrefix(path, DirPrefix(trustedRoot))
  }

  /**
   * `verifyPath` as written: clean the path, resolve its symbolic links, and
   * accept the resolved path when the root is a string prefix of it. On
   * failure the path it returns beside the error is carried in `Failure`.
   */
  function VerifyPathAsWritten(host: Host, path: string, trustedRoot: string): (r: Result<string, string>)
    ensures r.Success? <==>
      host.evalSymlinks(host.clean(path)).Some?
      && InTrustedRoot(host.evalSymlinks(host.clean(path)).value, trustedRoot)
    ensures r.Success? ==> r.value == host.evalSymlinks(host.clean(path)).value
  {
    var c := host.clean(path);
    match host.evalSymlinks(c)
    case None => Failure(c)
    case Some(r) => if !InTrustedRoot(r, trustedRoot) then Failure(r) else Success(r)
  }

  /**
   * `verifyPath` with the containment test the source intends: the resolved
   * path must be the root or lie inside it, not merely share its spelling.
   */
  function VerifyPath(host: Host, path: string, trustedRoot: string): (r: Result<string, string>)
    ensures r.Success? ==> WithinRoot(r.value, trustedRoot)
    ensures r.Success? ==>
      host.evalSymlinks(host.clean(path)).Some? && r.value == host.evalSymlinks(host.clean(path)).value
    ensures r.Success? <==>
      VerifyPathAsWritten(host, path, trustedRoot).Success?
      && WithinRoot(VerifyPathAsWritten(host, path, trustedRoot).value, trustedRoot)
  {
    var c := host.clean(path);
    match host.evalSymlinks(c)
    case None => Failure(c)
    case Some(r) => if !WithinRoot(r, trustedRoot) then Failure(r) else Success(r)
  }

  /**
   * The intended test is the string-prefix test stopped at an element
   * boundary: the prefix must end the path, end in a separator, or be
   * followed by one.
   */
  lemma WithinRootIsPrefixAtBoundary(path: string, trustedRoot: string)
    ensures WithinRoot(path, trustedRoot) <==>
      InTrustedRoot(path, trustedRoot)
      && (|path| == |trustedRoot|
        || (trustedRoot != "" && trustedRoot[|trustedRoot| - 1] == '/')
        || path[|trustedRoot|] == '/')
  {
    if InTrustedRoot(path, trustedRoot) && |path| > |trustedRoot| && path[|trustedRoot|] == '/' {
      assert path[..|trustedRoot| + 1] == trustedRoot + "/";
    }
    if WithinRoot(path, trustedRoot) && path != trustedRoot {
      assert path[..|trustedRoot|] == DirPrefix(trustedRoot)[..|trustedRoot|];
    }
  }

  /**
   * The string-prefix test accepts a resolved path that only extends the
   * root's last element, such as "/srv/books-old/a.pdf" for the root
   * "/srv/books" (a symbolic link inside the root can lead there); the
   * intended test rejects it.
   */
  lemma AsWrittenAcceptsSiblingOfRoot(host: Host, path: string, trustedRoot: string, tail: string)
    requires trustedRoot != "" && trustedRoot[|trustedRoot| - 1] != '/'
    requires tail != "" && tail[0] != '/'
    requires host.evalSymlinks(host.clean(path)) == Some(trustedRoot + tail)
    ensures VerifyPathAsWritten(host, path, trustedRoot) == Success(trustedRoot + tail)
    ensures VerifyPath(host, path, trustedRoot).Failure?
  {
    var r := trustedRoot + tail;
    assert r[..|trustedRoot|] == trustedRoot;
    assert r[|trustedRoot|] == tail[0];
    WithinRootIsPrefixAtBoundary(r, trustedRoot);
  }

  /**
   * The two ways the handler's path tests are modelled: as the source writes
   * them (the plain prefix test of `inTrustedRoot`, and the relative path cut
   * at the root followed by "/"), or as intended (the element-boundary test
   * of `VerifyPath`, and the path below the root directory).
   */
  datatype Variant = AsWritten | Corrected

  /** The root check of the given variant. */
  function VerifyWith(v: Variant, host: Host, path: string, trustedRoot: string): Result<string, string> {
    if v.AsWritten? then VerifyPathAsWritten(host, path, trustedRoot) else VerifyPath(host, path, trustedRoot)
  }

  // ---------------------------------------------------------------------------
  // Feeds

  /** The two links every feed carries: the catalog start and the search description. */
  const StartLink := Link("start", "/", NavigationType, "")
  const SearchLink := Link("search", SearchDefinitionPath, SearchType, "")

  /** `os.ReadDir(fpath)`; a failure (the path is missing or not a directory) lists nothing. */
  function Listing(fs: FileSystem, fpath: string): seq<DirEntry> {
    if fpath in fs && fs[fpath].Directory? then fs[fpath].listing else []
  }

  /**
   * The classification of the listed child `name` of `fpath`. In a
   * well-formed tree the child exists; the `File` fallback is never taken.
   */
  function ChildPathType(fs: FileSystem, fpath: string, name: string): PathType {
    var child := JoinName(fpath, name);
    if child in fs then PathTypeOf(fs, child) else File
  }

  /** The listing elements a browse feed shows. */
  function Listed(s: OPDS): DirEntry -> bool {
    (e: DirEntry) => !FileShouldBeIgnored(e.name, s.hideCalibreFiles, s.hideDotFiles)
  }

  /** The entry a browse feed shows for listing element `e` of `fpath`. */
  function BrowseEntry(host: Host, fs: FileSystem, fpath: string, req: Request, e: DirEntry): Entry {
    var pathType := ChildPathType(fs, fpath, e.name);
    Entry(
      req.path + e.name,
      e.name,
      Link(
        GetRel(e.name, pathType),
        host.join(req.requestURI, host.pathEscape(e.name)),
        GetType(e.name, pathType, host.systemTypeByExtension),
        e.name))
  }

  function BrowseEntryOf(host: Host, fs: FileSystem, fpath: string, req: Request): DirEntry -> Entry {
    (e: DirEntry) => BrowseEntry(host, fs, fpath, req, e)
  }

  /** The feed for directory `fpath`: one entry per visible listing element, in listing order. */
  function BrowseFeed(s: OPDS, host: Host, fs: FileSystem, now: Time, fpath: string, req: Request): Feed {
    Feed(
      req.path,
      "Catalog in " + req.path,
      now,
      [StartLink, SearchLink],
      FilterMap(Listing(fs, fpath), Listed(s), BrowseEntryOf(host, fs, fpath, req)))
  }

  /**
   * `makeFeed`: walks the listing of `fpath`, skips the hidden elements, and
   * appends an entry for each other one, classified by a fresh look at the
   * tree.
   */
  method MakeFeed(s: OPDS, host: Host, fs: FileSystem, now: Time, fpath: string, req: Request)
    returns (feed: Feed)
    requires WellFormed(fs)
    ensures feed == BrowseFeed(s, host, fs, now, fpath, req)
  {
    var dirEntries := Listing(fs, fpath);
    ghost var listed, toEntry := Listed(s), BrowseEntryOf(host, fs, fpath, req);
    var entries: seq<Entry> := [];
    for i := 0 to |dirEntries|
      invariant entries == FilterMap(dirEntries[..i], listed, toEntry)
    {
      var entry := dirEntries[i];
      assert dirEntries[..i + 1] == dirEntries[..i] + [entry];
      FilterMapSnoc(dirEntries[..i], entry, listed, toEntry);
      if FileShouldBeIgnored(entry.name, s.hideCalibreFiles, s.hideDotFiles) {
        assert !listed(entry);
        continue;
      }
      assert ListedChild(fs, fpath, entry);
      var pathType := GetPathType(fs, JoinName(fpath, entry.name));
      var item := Entry(
        req.path + entry.name,
        entry.name,
        Link(
          GetRel(entry.name, pathType),
          host.join(req.requestURI, host.pathEscape(entry.name)),
          GetType(entry.name, pathType, host.systemTypeByExtension),
          entry.name));
      assert listed(entry) && item == toEntry(entry);
      entries := entries + [item];
    }
    assert dirEntries[..|dirEntries|] == dirEntries;
    feed := Feed(req.path, "Catalog in " + req.path, now, [StartLink, SearchLink], entries);
  }

  /**
   * A browse feed carries exactly the start and search links, and one entry
   * per visible listing element, in listing order, titled with its name and
   * identified by the request path followed directly by the name; hidden
   * elements get none. Each entry is a subsection exactly when its element
   * is a directory, and a directory's media type is the acquisition type
   * exactly when it holds a file.
   */
  lemma BrowseFeedShowsVisibleChildren(s: OPDS, host: Host, fs: FileSystem, now: Time, fpath: string, req: Request)
    requires WellFormed(fs)
    ensures var feed := BrowseFeed(s, host, fs, now, fpath, req);
      var listing := Listing(fs, fpath);
      var ix := KeptIndices(listing, Listed(s));
      && feed.links == [StartLink, SearchLink]
      && |feed.entries| == |ix|
      && (forall i :: 0 <= i < |listing| ==>
            (i in ix <==> !FileShouldBeIgnored(listing[i].name, s.hideCalibreFiles, s.hideDotFiles)))
      && (forall k, l :: 0 <= k < l < |ix| ==> ix[k] < ix[l])
      && (forall k :: 0 <= k < |ix| ==>
            && feed.entries[k].title == listing[ix[k]].name
            && feed.entries[k].id == req.path + listing[ix[k]].name
            && (feed.entries[k].link.rel == SubsectionRel <==> listing[ix[k]].isDir)
            && (listing[ix[k]].isDir ==>
                 var child := JoinName(fpath, listing[ix[k]].name);
                 && child in fs && fs[child].Directory?
                 && (feed.entries[k].link.mediaType == AcquisitionType <==>
                       exists e :: e in fs[child].listing && IsFile(e))))
  {
    var feed := BrowseFeed(s, host, fs, now, fpath, req);
    var listing := Listing(fs, fpath);
    var ix := KeptIndices(listing, Listed(s));
    FilterMapByIndices(listing, Listed(s), BrowseEntryOf(host, fs, fpath, req));
    forall k | 0 <= k < |ix|
      ensures (feed.entries[k].link.rel == SubsectionRel <==> listing[ix[k]].isDir)
      ensures listing[ix[k]].isDir ==>
        var child := JoinName(fpath, listing[ix[k]].name);
        && child in fs && fs[child].Directory?
        && (feed.entries[k].link.mediaType == AcquisitionType <==>
              exists e :: e in fs[child].listing && IsFile(e))
    {
      var e := listing[ix[k]];
      assert e in fs[fpath].listing;
      assert ListedChild(fs, fpath, e);
      assert AcquisitionType != NavigationType;
    }
  }

  // ---------------------------------------------------------------------------
  // Search

  /**
   * The part of `path` after the first occurrence of `trustedRoot + "/"`,
   * or "" when there is none (the root itself, for one).
   */
  function RelativePath(path: string, trustedRoot: string): string {
    Cut(path, trustedRoot + "/").1
  }

  /** The path below the root directory: what follows the root's directory prefix, or "" elsewhere. */
  function PathBelowRoot(path: string, trustedRoot: string): (rel: string)
    ensures HasPrefix(path, DirPrefix(trustedRoot)) ==> path == DirPrefix(trustedRoot) + rel
    ensures rel == "" || HasPrefix(path, DirPrefix(trustedRoot))
  {
    if HasPrefix(path, DirPrefix(trustedRoot)) then path[|DirPrefix(trustedRoot)|..] else ""
  }

  /** The relative path of the given variant. */
  function RelativeWith(v: Variant, path: string, trustedRoot: string): string {
    if v.AsWritten? then RelativePath(path, trustedRoot) else PathBelowRoot(path, trustedRoot)
  }

  /** The walk items a search reports: visible files whose name holds the query, case aside. */
  function IsHit(s: OPDS, v: Variant, query: string): WalkItem -> bool {
    (w: WalkItem) =>
      && !w.isDir
      && !FileShouldBeIgnored(RelativeWith(v, w.path, s.trustedRoot), s.hideCalibreFiles, s.hideDotFiles)
      && Contains(ToLower(w.name), ToLower(query))
  }

  /** The entry a search result shows for a hit: identified and linked by its path below the root. */
  function SearchEntry(s: OPDS, v: Variant, host: Host, w: WalkItem): Entry {
    var rel := RelativeWith(v, w.path, s.trustedRoot);
    Entry(
      "/" + rel,
      w.name,
      Link(
        GetRel(w.name, File),
        host.pathEscape("/" + rel),
        GetType(w.name, File, host.systemTypeByExtension),
        ""))
  }

  function SearchEntryOf(s: OPDS, v: Variant, host: Host): WalkItem -> Entry {
    (w: WalkItem) => SearchEntry(s, v, host, w)
  }

  /** The entries a search reports for a walk: one per hit, in walk order. */
  function SearchHits(s: OPDS, v: Variant, host: Host, query: string, walk: seq<WalkItem>): seq<Entry> {
    FilterMap(walk, IsHit(s, v, query), SearchEntryOf(s, v, host))
  }

  /** The search-result feed: the hits of the walk from the root. */
  function SearchFeed(s: OPDS, v: Variant, host: Host, fs: FileSystem, now: Time, req: Request, query: string): Feed
    requires WellFormed(fs)
  {
    Feed(
      req.path,
      "Folders containing files matching query " + query,
      now,
      [StartLink, SearchLink],
      SearchHits(s, v, host, query, Walk(fs, s.trustedRoot)))
  }

  /**
   * The `WalkDir` callback of `makeSearchResult` for one walked path: a
   * visible file whose name holds the query, case aside, is appended to the
   * entries and counted; anything else leaves both as they are.
   */
  method VisitWalked(s: OPDS, v: Variant, host: Host, query: string, file: WalkItem, entries: seq<Entry>, count: int)
    returns (entries': seq<Entry>, count': int)
    ensures entries' == entries + (if IsHit(s, v, query)(file) then [SearchEntry(s, v, host, file)] else [])
    ensures count' == count + (|entries'| - |entries|)
  {
    entries', count' := entries, count;
    var pathRelativeToContentRoot := RelativeWith(v, file.path, s.trustedRoot);
    if !file.isDir {
      if FileShouldBeIgnored(pathRelativeToContentRoot, s.hideCalibreFiles, s.hideDotFiles) {
        // skip
      } else if Contains(ToLower(file.name), ToLower(query)) {
        var item := Entry(
          "/" + pathRelativeToContentRoot,
          file.name,
          Link(
            GetRel(file.name, File),
            host.pathEscape("/" + pathRelativeToContentRoot),
            GetType(file.name, File, host.systemTypeByExtension),
            ""));
        entries' := entries' + [item];
        count' := count' + 1;
      }
    }
  }

  /**
   * `filepath.WalkDir` driving the callback of `makeSearchResult` over the
   * walk, in order; the entries are the hits and the count their number.
   */
  method CollectHits(s: OPDS, v: Variant, host: Host, query: string, walk: seq<WalkItem>)
    returns (entries: seq<Entry>, count: int)
    ensures entries == SearchHits(s, v, host, query, walk)
    ensures count == |entries|
  {
    ghost var hit, toEntry := IsHit(s, v, query), SearchEntryOf(s, v, host);
    entries := [];
    count := 0;
    for i := 0 to |walk|
      invariant entries == FilterMap(walk[..i], hit, toEntry)
      invariant count == |entries|
    {
      assert walk[..i + 1] == walk[..i] + [walk[i]];
      FilterMapSnoc(walk[..i], walk[i], hit, toEntry);
      entries, count := VisitWalked(s, v, host, query, walk[i], entries, count);
    }
    assert walk[..|walk|] == walk;
  }

  /**
   * `makeSearchResult`: walks the tree from the root, appends an entry for
   * each hit and counts them; the count is the number of entries.
   */
  method MakeSearchResult(s: OPDS, v: Variant, host: Host, fs: FileSystem, now: Time, req: Request, query: string)
    returns (feed: Feed, count: int)
    requires WellFormed(fs)
    ensures feed == SearchFeed(s, v, host, fs, now, req, query)
    ensures count == |feed.entries|
  {
    var walk := Walk(fs, s.trustedRoot);
    var entries;
    entries, count := CollectHits(s, v, host, query, walk);
    feed := Feed(
      req.path,
      "Folders containing files matching query " + query,
      now,
      [StartLink, SearchLink],
      entries);
  }

  /**
   * A search result carries the start and search links and one entry per
   * walked path that is a visible file whose lower-cased name holds the
   * lower-cased query, in walk order; directories and hidden files give
   * none. Each reported path is a regular file of the tree, gets a file's
   * link relation, and is identified by "/" and its path below the root.
   */
  lemma SearchFeedShowsMatchingFiles(s: OPDS, v: Variant, host: Host, fs: FileSystem, now: Time, req: Request, query: string)
    requires WellFormed(fs)
    ensures var feed := SearchFeed(s, v, host, fs, now, req, query);
      var walk := Walk(fs, s.trustedRoot);
      var ix := KeptIndices(walk, IsHit(s, v, query));
      && feed.links == [StartLink, SearchLink]
      && |feed.entries| == |ix|
      && (forall i :: 0 <= i < |walk| ==>
            (i in ix <==>
              && !walk[i].isDir
              && !FileShouldBeIgnored(RelativeWith(v, walk[i].path, s.trustedRoot), s.hideCalibreFiles, s.hideDotFiles)
              && Contains(ToLower(walk[i].name), ToLower(query))))
      && (forall k, l :: 0 <= k < l < |ix| ==> ix[k] < ix[l])
      && (forall k :: 0 <= k < |ix| ==>
            && walk[ix[k]].path in fs && fs[walk[ix[k]].path].Regular?
            && feed.entries[k].title == walk[ix[k]].name
            && feed.entries[k].id == "/" + RelativeWith(v, walk[ix[k]].path, s.trustedRoot)
            && feed.entries[k].link.rel != SubsectionRel)
  {
    var walk := Walk(fs, s.trustedRoot);
    FilterMapByIndices(walk, IsHit(s, v, query), SearchEntryOf(s, v, host));
    WalkVisitsTree(fs, s.trustedRoot);
  }

  /**
   * Below a root written without a trailing separator, the relative path of
   * every walked path after the root itself (which search identifiers are
   * built from) is that path with the root and the separator after it
   * removed.
   */
  lemma WalkedPathsRelativeToRoot(fs: FileSystem, root: string)
    requires WellFormed(fs)
    requires root != "" && root[|root| - 1] != '/'
    ensures forall i :: 1 <= i < |Walk(fs, root)| ==>
      && |root| < |Walk(fs, root)[i].path|
      && RelativePath(Walk(fs, root)[i].path, root) == Walk(fs, root)[i].path[|root| + 1..]
  {
    var walk := Walk(fs, root);
    WalkVisitsTree(fs, root);
    assert DirPrefix(root) == root + "/";
    forall i | 1 <= i < |walk|
      ensures |root| < |walk[i].path|
      ensures RelativePath(walk[i].path, root) == walk[i].path[|root| + 1..]
    {
      CutAtStart(walk[i].path, root + "/");
    }
  }

  /**
   * Below any root, with or without a trailing separator, every walked path
   * after the root itself is the root's directory prefix followed by its
   * path below the root; for a root written without a trailing separator
   * that is also the relative path the source computes.
   */
  lemma WalkedPathsBelowRoot(fs: FileSystem, root: string)
    requires WellFormed(fs)
    ensures forall i :: 1 <= i < |Walk(fs, root)| ==>
      DirPrefix(root) + PathBelowRoot(Walk(fs, root)[i].path, root) == Walk(fs, root)[i].path
    ensures root != "" && root[|root| - 1] != '/' ==>
      forall i :: 1 <= i < |Walk(fs, root)| ==>
        PathBelowRoot(Walk(fs, root)[i].path, root) == RelativePath(Walk(fs, root)[i].path, root)
  {
    var walk := Walk(fs, root);
    WalkVisitsTree(fs, root);
    forall i | 1 <= i < |walk|
      ensures DirPrefix(root) + PathBelowRoot(walk[i].path, root) == walk[i].path
    {
      assert walk[i].path == DirPrefix(root) + walk[i].path[|DirPrefix(root)|..];
    }
    if root != "" && root[|root| - 1] != '/' {
      WalkedPathsRelativeToRoot(fs, root);
    }
  }

  /**
   * With the root written with a trailing separator, as "/srv/books/", the
   * source cuts at "/srv/books//", which no path of the root followed by a
   * plain name holds: its relative path comes out as "", which no rule
   * hides, while its path below the root is the name itself.
   */
  lemma SlashedRootLosesRelativePath(root: string, name: string, hideCalibreFiles: bool, hideDotFiles: bool)
    requires root != "" && root[|root| - 1] == '/'
    requires '/' !in name
    ensures RelativePath(root + name, root) == ""
    ensures !FileShouldBeIgnored("", hideCalibreFiles, hideDotFiles)
    ensures PathBelowRoot(root + name, root) == name
  {
    var p, sep := root + name, root + "/";
    forall i: nat ensures !OccursAt(p, sep, i) {
      if i + |sep| <= |p| {
        assert p[i..i + |sep|][|root|] == name[i] != '/';
      }
    }
    ContainsIffOccurs(p, sep);
    assert p[..|root|] == root;
  }

  // ---------------------------------------------------------------------------
  // Request dispatch

  /** The errors the handler returns to its caller. */
  datatype HandlerError = UnescapeFailed | EmptyQuery | StatFailed

  /** Everything a request leaves behind: the writer's headers, status and body, and the returned error. */
  datatype Reply = Reply(headers: seq<Header>, status: Option<int>, body: Body, err: Option<HandlerError>)

  const ContentType := "Content-Type"
  const CacheControl := "Cache-Control"

  /** The fixed OpenSearch description served at "/opensearch.xml". */
  const SearchDefinition :=
    OpenSearchDescription("UTF-8", "UTF-8", OpenSearchUrl(AcquisitionType, "/search?q={searchTerms}"))

  /** The headers that forbid caching, sent before every feed when the switch is on. */
  function CacheHeaders(s: OPDS): seq<Header> {
    if s.noCache
    then [Header(CacheControl, "no-cache, no-store, must-revalidate"), Header("Expires", "0")]
    else []
  }

  /** A generated feed, served as "feed.xml" after the caching headers and its content type. */
  function FeedReply(s: OPDS, now: Time, mediaType: string, doc: Document): (r: Reply)
    ensures r.headers != [] && r.headers[|r.headers| - 1] == Header(ContentType, mediaType)
    ensures forall h :: h in r.headers && h.key == ContentType ==> h.value == mediaType
    ensures (exists h :: h in r.headers && h.key == CacheControl) <==> s.noCache
  {
    Reply(CacheHeaders(s) + [Header(ContentType, mediaType)], Some(StatusOK), Content("feed.xml", now, doc), None)
  }

  /** The body is a generated catalog feed (as opposed to the search description or a file). */
  predicate IsFeedBody(b: Body) {
    b.Content? && !b.doc.OpenSearch?
  }

  /**
   * What the handler does with a request, as a value. The decoded path
   * selects the search description, a search, or a path below the root;
   * the latter is confined to the root, looked up, and either served as a
   * file or listed as an acquisition or navigation feed. With `AsWritten`
   * this is the source's handler; `Corrected` replaces its two path tests
   * by the intended ones.
   */
  function Respond(s: OPDS, v: Variant, host: Host, fs: FileSystem, now: Time, req: Request): (r: Reply)
    requires WellFormed(fs)
    ensures r.err == Some(EmptyQuery) <==> host.pathUnescape(req.path) == Some(SearchPath) && req.query == ""
    ensures r.err.Some? && r.err != Some(StatFailed) ==> r.headers == [] && r.status.None? && r.body.NoBody?
    ensures r.status == Some(StatusNotFound) ==> r.headers == [] && r.body.NoBody?
  {
    match host.pathUnescape(req.path)
    case None => Reply([], None, NoBody, Some(UnescapeFailed))
    case Some(urlPath) =>
      if urlPath == SearchDefinitionPath then
        Reply(
          [Header(ContentType, "application/xml")],
          Some(StatusOK),
          Content(SearchDefinitionName, now, OpenSearch(SearchDefinition)),
          None)
      else if urlPath == SearchPath then
        if req.query == "" then Reply([], None, NoBody, Some(EmptyQuery))
        else
          var feed := SearchFeed(s, v, host, fs, now, req, req.query);
          FeedReply(s, now, AcquisitionType, SearchResultFeed(feed, |feed.entries|))
      else
        var fPath := host.join(s.trustedRoot, urlPath);
        if VerifyWith(v, host, fPath, s.trustedRoot).Failure? then Reply([], Some(StatusNotFound), NoBody, None)
        else if fPath !in fs then Reply([], Some(StatusNotFound), NoBody, Some(StatFailed))
        else match PathTypeOf(fs, fPath)
          case File =>
            if FileShouldBeIgnored(RelativeWith(v, fPath, s.trustedRoot), s.hideCalibreFiles, s.hideDotFiles)
            then Reply([], Some(StatusNotFound), NoBody, None)
            else Reply([], Some(StatusOK), FileAt(fPath), None)
          case DirOfFiles =>
            FeedReply(s, now, AcquisitionType, AcquisitionFeed(BrowseFeed(s, host, fs, now, fPath, req)))
          case DirOfDirs =>
            FeedReply(s, now, NavigationType, NavigationFeed(BrowseFeed(s, host, fs, now, fPath, req)))
  }

  /**
   * A file is served only when it is a regular file of the tree, its
   * resolved path has the root as a prefix (and, corrected, lies within the
   * root), and its relative path is visible; nothing else is written with it.
   */
  lemma ServedFilesAreVisible(s: OPDS, v: Variant, host: Host, fs: FileSystem, now: Time, req: Request)
    requires WellFormed(fs)
    ensures var r := Respond(s, v, host, fs, now, req);
      r.body.FileAt? ==>
        && r.body.path in fs && fs[r.body.path].Regular?
        && VerifyWith(v, host, r.body.path, s.trustedRoot).Success?
        && host.evalSymlinks(host.clean(r.body.path)).Some?
        && InTrustedRoot(host.evalSymlinks(host.clean(r.body.path)).value, s.trustedRoot)
        && (v.Corrected? ==> WithinRoot(host.evalSymlinks(host.clean(r.body.path)).value, s.trustedRoot))
        && !FileShouldBeIgnored(RelativeWith(v, r.body.path, s.trustedRoot), s.hideCalibreFiles, s.hideDotFiles)
        && r.headers == [] && r.status == Some(StatusOK) && r.err.None?
  {
  }

  /**
   * Conversely, a file that passes the root check and whose relative path is
   * visible is downloaded, with nothing else written.
   */
  lemma VisibleFilesAreServed(s: OPDS, v: Variant, host: Host, fs: FileSystem, now: Time, req: Request, urlPath: string)
    requires WellFormed(fs)
    requires host.pathUnescape(req.path) == Some(urlPath)
    requires urlPath != SearchDefinitionPath && urlPath != SearchPath
    requires var fPath := host.join(s.trustedRoot, urlPath);
      && VerifyWith(v, host, fPath, s.trustedRoot).Success?
      && fPath in fs && fs[fPath].Regular?
      && !FileShouldBeIgnored(RelativeWith(v, fPath, s.trustedRoot), s.hideCalibreFiles, s.hideDotFiles)
    ensures Respond(s, v, host, fs, now, req)
      == Reply([], Some(StatusOK), FileAt(host.join(s.trustedRoot, urlPath)), None)
  {
  }

  /**
   * Every generated feed is declared with its own kind: search results and
   * acquisition feeds with the acquisition type, navigation feeds with the
   * navigation type; a search result's total is its number of entries.
   */
  lemma ContentTypeMatchesFeed(s: OPDS, v: Variant, host: Host, fs: FileSystem, now: Time, req: Request)
    requires WellFormed(fs)
    ensures var r := Respond(s, v, host, fs, now, req);
      && (r.body.Content? ==> r.status == Some(StatusOK) && r.err.None? && r.headers != [])
      && (r.body.Content? && (r.body.doc.AcquisitionFeed? || r.body.doc.SearchResultFeed?) ==>
            Header(ContentType, AcquisitionType) in r.headers
            && forall h :: h in r.headers && h.key == ContentType ==> h.value == AcquisitionType)
      && (r.body.Content? && r.body.doc.NavigationFeed? ==>
            Header(ContentType, NavigationType) in r.headers
            && forall h :: h in r.headers && h.key == ContentType ==> h.value == NavigationType)
      && (r.body.Content? && r.body.doc.SearchResultFeed? ==>
            r.body.doc.totalResults == |r.body.doc.feed.entries|)
  {
  }

  /** The caching headers appear exactly on generated feeds, and only with the switch on. */
  lemma CacheHeadersOnlyOnFeeds(s: OPDS, v: Variant, host: Host, fs: FileSystem, now: Time, req: Request)
    requires WellFormed(fs)
    ensures var r := Respond(s, v, host, fs, now, req);
      (exists h :: h in r.headers && h.key == CacheControl) <==> s.noCache && IsFeedBody(r.body)
  {
  }

  /**
   * The search description does not depend on the configuration, the tree
   * or the request beyond its path.
   */
  lemma SearchDescriptionIsFixed(s: OPDS, s': OPDS, v: Variant, host: Host, fs: FileSystem, fs': FileSystem, now: Time, req: Request, req': Request)
    requires WellFormed(fs) && WellFormed(fs')
    requires host.pathUnescape(req.path) == Some(SearchDefinitionPath)
    requires host.pathUnescape(req'.path) == Some(SearchDefinitionPath)
    ensures Respond(s, v, host, fs, now, req) == Respond(s', v, host, fs', now, req')
    ensures Respond(s, v, host, fs, now, req).body.Content?
    ensures Respond(s, v, host, fs, now, req).body.doc == OpenSearch(SearchDefinition)
  {
  }

  /**
   * A search with a query answers with the search-result feed of the
   * whole tree and its count.
   */
  lemma SearchAnswersWithResults(s: OPDS, v: Variant, host: Host, fs: FileSystem, now: Time, req: Request)
    requires WellFormed(fs)
    requires host.pathUnescape(req.path) == Some(SearchPath) && req.query != ""
    ensures var feed := SearchFeed(s, v, host, fs, now, req, req.query);
      Respond(s, v, host, fs, now, req) == FeedReply(s, now, AcquisitionType, SearchResultFeed(feed, |feed.entries|))
  {
  }

  /**
   * For any other path, a 404 comes from exactly three causes: the joined
   * path escapes the root (no error returned), it does not exist (the stat
   * error returned), or it is a file whose path below the root is hidden.
   */
  lemma NotFoundCauses(s: OPDS, v: Variant, host: Host, fs: FileSystem, now: Time, req: Request, urlPath: string)
    requires WellFormed(fs)
    requires host.pathUnescape(req.path) == Some(urlPath)
    requires urlPath != SearchDefinitionPath && urlPath != SearchPath
    ensures var fPath := host.join(s.trustedRoot, urlPath);
      var r := Respond(s, v, host, fs, now, req);
      var escapes := VerifyWith(v, host, fPath, s.trustedRoot).Failure?;
      var missing := fPath !in fs;
      var hidden := fPath in fs && fs[fPath].Regular?
        && FileShouldBeIgnored(RelativeWith(v, fPath, s.trustedRoot), s.hideCalibreFiles, s.hideDotFiles);
      && (escapes ==> r == Reply([], Some(StatusNotFound), NoBody, None))
      && (!escapes && missing ==> r == Reply([], Some(StatusNotFound), NoBody, Some(StatFailed)))
      && (!escapes && hidden ==> r == Reply([], Some(StatusNotFound), NoBody, None))
      && (r.status == Some(StatusNotFound) <==> escapes || missing || hidden)
  {
  }

  /**
   * A directory within the root is listed as an acquisition feed when it
   * holds a file (hidden or not), and as a navigation feed otherwise, the
   * empty directory included; both list it with `BrowseFeed`.
   */
  lemma DirectoryFeedKind(s: OPDS, v: Variant, host: Host, fs: FileSystem, now: Time, req: Request, urlPath: string)
    requires WellFormed(fs)
    requires host.pathUnescape(req.path) == Some(urlPath)
    requires urlPath != SearchDefinitionPath && urlPath != SearchPath
    requires var fPath := host.join(s.trustedRoot, urlPath);
      VerifyWith(v, host, fPath, s.trustedRoot).Success? && fPath in fs && fs[fPath].Directory?
    ensures var fPath := host.join(s.trustedRoot, urlPath);
      var feed := BrowseFeed(s, host, fs, now, fPath, req);
      var holdsFile := exists e :: e in fs[fPath].listing && IsFile(e);
      && (holdsFile ==> Respond(s, v, host, fs, now, req) == FeedReply(s, now, AcquisitionType, AcquisitionFeed(feed)))
      && (!holdsFile ==> Respond(s, v, host, fs, now, req) == FeedReply(s, now, NavigationType, NavigationFeed(feed)))
  {
  }

  /**
   * The source's handler serves a visible file whose path resolves to a
   * sibling of the root that merely extends the root's name, such as
   * "/srv/books-old/a.pdf" for the root "/srv/books".
   */
  lemma AsWrittenServesSiblingOfRoot(s: OPDS, host: Host, fs: FileSystem, now: Time, req: Request, urlPath: string, tail: string)
    requires WellFormed(fs)
    requires host.pathUnescape(req.path) == Some(urlPath)
    requires urlPath != SearchDefinitionPath && urlPath != SearchPath
    requires s.trustedRoot != "" && s.trustedRoot[|s.trustedRoot| - 1] != '/'
    requires tail != "" && tail[0] != '/'
    requires var fPath := host.join(s.trustedRoot, urlPath);
      && host.evalSymlinks(host.clean(fPath)) == Some(s.trustedRoot + tail)
      && fPath in fs && fs[fPath].Regular?
      && !FileShouldBeIgnored(RelativePath(fPath, s.trustedRoot), s.hideCalibreFiles, s.hideDotFiles)
    ensures Respond(s, AsWritten, host, fs, now, req)
      == Reply([], Some(StatusOK), FileAt(host.join(s.trustedRoot, urlPath)), None)
  {
    AsWrittenAcceptsSiblingOfRoot(host, host.join(s.trustedRoot, urlPath), s.trustedRoot, tail);
  }

  /**
   * With the corrected containment test, a request whose path resolves to a
   * sibling of the root that merely extends the root's name is not found.
   */
  lemma SiblingOfRootIsNotFound(s: OPDS, host: Host, fs: FileSystem, now: Time, req: Request, urlPath: string, tail: string)
    requires WellFormed(fs)
    requires host.pathUnescape(req.path) == Some(urlPath)
    requires urlPath != SearchDefinitionPath && urlPath != SearchPath
    requires s.trustedRoot != "" && s.trustedRoot[|s.trustedRoot| - 1] != '/'
    requires tail != "" && tail[0] != '/'
    requires host.evalSymlinks(host.clean(host.join(s.trustedRoot, urlPath))) == Some(s.trustedRoot + tail)
    ensures Respond(s, Corrected, host, fs, now, req) == Reply([], Some(StatusNotFound), NoBody, None)
  {
    AsWrittenAcceptsSiblingOfRoot(host, host.join(s.trustedRoot, urlPath), s.trustedRoot, tail);
  }

  /**
   * Below a root written with a trailing separator, such as "/srv/books/",
   * the source's handler serves a dot file such as "/srv/books/.secret.epub"
   * although dot files are hidden; the corrected handler answers 404.
   */
  lemma AsWrittenServesHiddenFileBelowSlashedRoot(s: OPDS, host: Host, fs: FileSystem, now: Time, req: Request, urlPath: string, name: string)
    requires WellFormed(fs)
    requires host.pathUnescape(req.path) == Some(urlPath)
    requires urlPath != SearchDefinitionPath && urlPath != SearchPath
    requires s.trustedRoot != "" && s.trustedRoot[|s.trustedRoot| - 1] == '/' && s.hideDotFiles
    requires '/' !in name && HasPrefix(name, ".") && name != "." && name != ".."
    requires var fPath := s.trustedRoot + name;
      && host.join(s.trustedRoot, urlPath) == fPath
      && host.evalSymlinks(host.clean(fPath)) == Some(fPath)
      && fPath in fs && fs[fPath].Regular?
    ensures Respond(s, AsWritten, host, fs, now, req) == Reply([], Some(StatusOK), FileAt(s.trustedRoot + name), None)
    ensures Respond(s, Corrected, host, fs, now, req) == Reply([], Some(StatusNotFound), NoBody, None)
  {
    var fPath := s.trustedRoot + name;
    SlashedRootLosesRelativePath(s.trustedRoot, name, s.hideCalibreFiles, s.hideDotFiles);
    assert HasPrefix(fPath, s.trustedRoot);
  }

  /**
   * `Handler`: the same dispatch, performed on a fresh response writer with
   * the header, status and body writes in the source's order.
   */
  method Handler(s: OPDS, v: Variant, host: Host, fs: FileSystem, now: Time, req: Request, w: ResponseWriter)
    returns (err: Option<HandlerError>)
    requires WellFormed(fs)
    requires w.headers == [] && w.status == None && w.body == NoBody
    modifies w
    ensures Reply(w.headers, w.status, w.body, err) == Respond(s, v, host, fs, now, req)
  {
    var unescaped := host.pathUnescape(req.path);
    if unescaped.None? {
      return Some(UnescapeFailed);
    }
    var urlPath := unescaped.value;

    if urlPath == SearchDefinitionPath {
      w.AddHeader(ContentType, "application/xml");
      w.ServeContent(SearchDefinitionName, now, OpenSearch(SearchDefinition));
      return None;
    }

    var query := "";
    var fPath: string;
    if urlPath == SearchPath {
      query := req.query;
      if query == "" {
        return Some(EmptyQuery);
      }
      fPath := s.trustedRoot;
    } else {
      fPath := host.join(s.trustedRoot, urlPath);
      var verified := VerifyWith(v, host, fPath, s.trustedRoot);
      if verified.Failure? {
        w.WriteHeader(StatusNotFound);
        return None;
      }
      if fPath !in fs {
        w.WriteHeader(StatusNotFound);
        return Some(StatFailed);
      }
      var pathType := GetPathType(fs, fPath);
      if pathType == File {
        var pathRelativeToContentRoot := RelativeWith(v, fPath, s.trustedRoot);
        if FileShouldBeIgnored(pathRelativeToContentRoot, s.hideCalibreFiles, s.hideDotFiles) {
          w.WriteHeader(StatusNotFound);
        } else {
          w.ServeFile(fPath);
        }
        return None;
      }
    }

    if s.noCache {
      w.AddHeader(CacheControl, "no-cache, no-store, must-revalidate");
      w.AddHeader("Expires", "0");
    }
    assert w.headers == CacheHeaders(s) && w.status == None && w.body == NoBody;

    if urlPath == SearchPath {
      SearchAnswersWithResults(s, v, host, fs, now, req);
      var searchResult, size := MakeSearchResult(s, v, host, fs, now, req, query);
      w.AddHeader(ContentType, AcquisitionType);
      w.ServeContent("feed.xml", now, SearchResultFeed(searchResult, size));
    } else {
      var pathType := GetPathType(fs, fPath);
      DirectoryFeedKind(s, v, host, fs, now, req, urlPath);
      var navFeed := MakeFeed(s, host, fs, now, fPath, req);
      if pathType == DirOfFiles {
        w.AddHeader(ContentType, AcquisitionType);
        w.ServeContent("feed.xml", now, AcquisitionFeed(navFeed));
      } else {
        w.AddHeader(ContentType, NavigationType);
        w.ServeContent("feed.xml", now, NavigationFeed(navFeed));
      }
    }
    return None;
  }
}
