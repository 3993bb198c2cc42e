# dir2opds catalog service, modelled in Dafny

dir2opds serves a directory tree of e-books as an OPDS 1.1 catalog over
HTTP. Its request handler (`internal/service/service.go`) decodes the request
path and answers with one of five outcomes: the fixed OpenSearch description
at `/opensearch.xml`, a search-result feed for `/search?q=…`, a 404, a file
download, or a feed for a directory. A directory that holds at least one
file gets an acquisition feed. Any other directory gets a navigation feed.

This project models that handler and everything it decides, over a
read-only snapshot of the tree:

- `strings.dfy` (module `Strings`): the Go string and path helpers the
  service relies on. These are `HasPrefix`, `Index`/`Contains`, `Cut`,
  ASCII `ToLower` and `filepath.Ext`.
- `seqs.dfy` (module `Seqs`): the order-preserving filter that both feed
  loops perform (`FilterMap`), and the positions it keeps (`KeptIndices`).
- `tree.dfy` (module `Tree`): the tree as a map from path to
  `Regular | Directory(listing)`, with the `WellFormed` condition that every
  listed child exists with the listed kind. Also `filepath.WalkDir` as the
  pre-order sequence `Walk`.
- `catalog.dfy` (module `Catalog`): links, entries, feeds, the OpenSearch
  description, and the four kinds of document the service sends.
- `http.dfy` (module `Http`): a recording response writer (a class whose
  headers, status and body the handler updates).
- `outcomes.dfy` (module `Outcomes`): `Option` and `Result`.
- `service.dfy` (module `Service`): the visibility rule, link relations and
  media types, path classification, root confinement, the browse and search
  feeds, and the handler. The handler appears twice: `Respond` states the
  dispatch as a value, and the method `Handler` performs it on a
  `ResponseWriter` and is proved to leave exactly what `Respond` says.

The caching headers are added only to generated feeds, never to file
downloads: the file branch returns (service.go:140) before they are added
(:144). The search walk descends into hidden directories and filters only
files, by their path relative to the root (:222-225).

Both take a `Variant`. `AsWritten` is the handler as the source writes it:
the root check of `verifyPath` is the plain string-prefix test of
`inTrustedRoot`, and the relative path is what `strings.Cut` leaves after
the root followed by "/". `Corrected` uses the intended tests instead
(`VerifyPath` and `PathBelowRoot`; see Findings). Every handler and search
lemma holds for both variants unless it names one.

The loops of `makeFeed` and `getPathType` are methods with loop
invariants. In `makeSearchResult`, the `WalkDir` callback is the method
`VisitWalked`, and `CollectHits` is the loop that drives it over the walk.
Each method is proved equal to a specification function (`BrowseFeed`,
`SearchHits` and `SearchFeed`, `PathTypeOf`), and the lemmas state what
those functions guarantee.

The library calls whose behaviour is not modelled are fields of the `Host`
record. These are `url.PathUnescape`, `filepath.Join` of the root with the
request path, `filepath.Clean`, `filepath.EvalSymlinks` (a partial
function), `url.PathEscape`, and the system extension-to-media-type table.
The clock is the `now` parameter.

## Model

| member | source | states |
|---|---|---|
| Strings.HasPrefixIffSplit | internal/service/service.go:350-352 | strings.HasPrefix holds exactly when the string is the prefix followed by some text |
| Strings.Index | internal/service/service.go:261-266 | the result is -1 or a position where the separator occurs |
| Strings.IndexFromIsFirst | internal/service/service.go:261-266 | the scan from a position finds the first occurrence at or after it; -1 means there is none |
| Strings.IndexIsFirst | internal/service/service.go:261-266 | no position before the result holds the separator; with -1, no position at all does |
| Strings.ContainsAt | internal/service/service.go:228 | a string that occurs at some position is contained |
| Strings.ContainsIffOccurs | internal/service/service.go:228 | strings.Contains holds exactly when the substring occurs at some position |
| Strings.ContainsExtend | internal/service/service.go:222-225 | a substring of a string is a substring of every extension of it |
| Strings.Cut | internal/service/service.go:134 | the separator was found exactly when it is contained; then the input is the part before, the separator and the part after; otherwise the result is the input, "" and false |
| Strings.CutIsFirst | internal/service/service.go:134 | Cut splits at the first occurrence: the part before holds none |
| Strings.CutAtStart | internal/service/service.go:222 | with the separator at the very start, the part after is everything that follows it |
| Strings.ToLower | internal/service/service.go:228 | same length; every ASCII capital is folded, every other character is kept |
| Strings.Ext | internal/service/service.go:278 | a non-empty extension starts with '.', ends the path, and holds no further '.' or '/'; an empty one means every '.' of the path is followed by a '/' |
| Strings.ExtOfSuffix | internal/service/service.go:278-279 | a name ending in '.' plus text with no '.' or '/' has exactly that extension |
| Tree.JoinName | internal/service/service.go:192 | joining a directory with a child name gives the directory prefix followed by the name, strictly longer than the directory |
| Tree.BaseName | internal/service/service.go:217-236 | filepath.Base: "." for the empty path, "/" for a path of separators only, and otherwise the non-empty text after the last '/' once trailing separators are removed |
| Tree.Walk | internal/service/service.go:217-247 | the walk of a missing root is empty; otherwise its first visit is the root, under its base name and kind, and a regular file is the only visit of its own walk |
| Tree.WalkVisitsTree | internal/service/service.go:217 | the walk is empty exactly when the root is missing; otherwise it starts at the root; every visited path exists with the reported kind, and all after the first lie inside the root |
| Tree.WalkListingVisitsTree | internal/service/service.go:217 | the walk below a directory visits only paths inside it that exist with the reported kind |
| Seqs.KeptIndices | internal/service/service.go:187-190 | the kept positions are in range, increasing, all pass the test, and every passing position is among them |
| Seqs.FilterMapByIndices | internal/service/service.go:187-204 | the filtered sequence has one element per kept position: the image of that element, in order |
| Http.ResponseWriter.constructor | internal/service/service.go:76 | a fresh writer has no headers, no status and no body |
| Http.ResponseWriter.AddHeader | internal/service/service.go:96 | appends one header and changes nothing else |
| Http.ResponseWriter.WriteHeader | internal/service/service.go:118 | the first status written is kept; headers and body are unchanged |
| Http.ResponseWriter.ServeContent | internal/service/service.go:173 | the body becomes the document, with an OK status unless one was already written |
| Http.ResponseWriter.ServeFile | internal/service/service.go:138 | the body becomes the file, with an OK status unless one was already written |
| Service.FileShouldBeIgnored | internal/service/service.go:250-271 | "." and ".." are never hidden, and nothing is hidden unless a switch is on |
| Service.IgnoredExactly | internal/service/service.go:250-271 | any name other than "." and ".." is hidden exactly when the dot switch is on and it starts with '.', or the Calibre switch is on and it contains one of the six markers |
| Service.NothingHiddenByDefault | internal/service/service.go:250-271 | with both switches off no name is hidden |
| Service.HidingIsMonotone | internal/service/service.go:250-271 | turning a switch on never makes a hidden name visible |
| Service.DotRuleSeesFirstElementOnly | internal/service/service.go:134-135 | on a relative path, the dot rule does not hide a dot file inside a directory whose name does not start with '.' |
| Service.CalibreRuleSeesWholePath | internal/service/service.go:222-225 | on a relative path, a Calibre marker in a directory name hides everything below that directory |
| Service.GetRel | internal/service/service.go:273-285 | "subsection" exactly for the two directory kinds; for a file, the thumbnail relation exactly when the extension is .png, .jpg, .jpeg or .gif, and the acquisition relation exactly otherwise |
| Service.ThumbnailIffImageSuffix | internal/service/service.go:278-280 | a file gets the thumbnail relation exactly when its name ends in one of the four image extensions |
| Service.TypeByExtension | internal/service/service.go:26-33 | an extension registered at start-up, in any ASCII case, gets its registered type; any other extension gets the system table's answer |
| Service.GetType | internal/service/service.go:287-298 | the acquisition catalog type for a directory of files, the navigation catalog type for a directory of directories, the extension lookup for a file |
| Service.EbookTypesOverrideSystemTable | internal/service/service.go:26-33 | a file ending in one of the six registered e-book extensions gets the registered type whatever the system table says, with "; charset=utf-8" added to the text type |
| Service.ListedFileIsRegular | internal/service/service.go:60-62 | in a consistent tree, `isFile` of a listed entry holds exactly when the entry's path names a regular file |
| Service.GetPathType | internal/service/service.go:300-322 | File exactly for a regular file; DirOfFiles exactly for a directory with a non-directory entry (hidden or not); DirOfDirs exactly for a directory whose entries are all directories, the empty one included |
| Service.VerifyPathAsWritten | internal/service/service.go:331-352 | succeeds exactly when the cleaned path resolves and the root is a string prefix of the resolved path, and then returns the resolved path |
| Service.InTrustedRootIffExtends | internal/service/service.go:350-352 | `inTrustedRoot` accepts exactly the paths that spell the root followed by any text |
| Service.VerifyPath | internal/service/service.go:331-348 | succeeds exactly when the check as written succeeds and the resolved path is the root or lies inside it; then returns the resolved path |
| Service.WithinRootIsPrefixAtBoundary | internal/service/service.go:350-352 | lying within the root means the string-prefix test plus an element boundary right after the prefix |
| Service.AsWrittenAcceptsSiblingOfRoot | internal/service/service.go:350-352 | a resolved path that extends the root's last element (root "/srv/books", path "/srv/books-old/a.pdf") passes the check as written and fails the corrected one |
| Service.MakeFeed | internal/service/service.go:178-205 | the loop builds exactly the browse feed of the directory |
| Service.BrowseFeedShowsVisibleChildren | internal/service/service.go:179-204 | exactly the start and search links; one entry per visible listing element and none for a hidden one, in listing order; title is the name; id is the request path followed by the name with no separator; the relation is "subsection" exactly for directories; a directory's type is acquisition exactly when it holds a file |
| Service.VisitWalked | internal/service/service.go:217-246 | the callback appends the walked path's entry exactly when it is a hit (with the relative path of the chosen variant), and adds one to the count exactly when it appends |
| Service.CollectHits | internal/service/service.go:217-246 | driving the callback over the walk yields exactly the hits in walk order, and the count is their number |
| Service.MakeSearchResult | internal/service/service.go:208-247 | builds exactly the search feed of the walk from the root, and the count equals the number of entries |
| Service.SearchFeedShowsMatchingFiles | internal/service/service.go:216-246 | exactly the start and search links; one entry per walked path that is a file, visible by its relative path, whose lower-cased name contains the lower-cased query, in walk order; none for directories; every hit is a regular file of the tree; id is "/" plus the relative path of the chosen variant |
| Service.WalkedPathsRelativeToRoot | internal/service/service.go:222 | below a root named without a trailing '/', the relative path of every walked path after the root is that path with the root and the following '/' removed |
| Service.PathBelowRoot | internal/service/service.go:134 | the corrected relative path: a path inside the root directory is the root's directory prefix followed by it; for any other path it is "" |
| Service.WalkedPathsBelowRoot | internal/service/service.go:222 | below any root, with or without a trailing '/', every walked path after the root is the root's directory prefix followed by its corrected relative path, which agrees with the source's relative path when the root has no trailing '/' |
| Service.SlashedRootLosesRelativePath | internal/service/service.go:134 | with a root ending in '/', the source's relative path of the root followed by a plain name is "", which no rule hides, while the corrected relative path is the name |
| Service.FeedReply | internal/service/service.go:144-173 | every Content-Type header of a generated feed has the feed's media type as its value, and one is added after the caching headers (the header sequence records the order of the `Add` calls, not an order of Go's header map); the caching headers are present exactly when the switch is on |
| Service.Respond | internal/service/service.go:76-176 | in either variant: the empty-query error occurs exactly for "/search" without a query; every returned error other than the stat failure comes before anything is written; a 404 carries no headers and no body |
| Service.ServedFilesAreVisible | internal/service/service.go:111-141 | a served file is a regular file of the tree that passes the variant's root check, whose resolved path has the root as a string prefix (and lies within the root when corrected), and whose relative path is visible; it is served with an OK status, no headers and no error |
| Service.VisibleFilesAreServed | internal/service/service.go:133-139 | conversely, a non-search path whose joined path passes the variant's root check, is a regular file of the tree and has a visible relative path is downloaded: an OK status, no headers, the file as the body and no error |
| Service.ContentTypeMatchesFeed | internal/service/service.go:151-165 | the Content-Type header of search results and acquisition feeds has the acquisition type, and that of navigation feeds the navigation type; a search result's total is its number of entries |
| Service.CacheHeadersOnlyOnFeeds | internal/service/service.go:144-147 | the caching headers are present exactly on generated feeds, and only with the no-cache switch on |
| Service.SearchDescriptionIsFixed | internal/service/service.go:84-100 | the search description does not depend on the configuration, the tree or the rest of the request |
| Service.SearchAnswersWithResults | internal/service/service.go:104-155 | a search with a query answers with the search feed of the whole tree and its count, under the acquisition type |
| Service.NotFoundCauses | internal/service/service.go:111-141 | a 404 happens exactly when the joined path fails the variant's root check (no error returned), is missing (the stat error returned), or is a file whose relative path is hidden |
| Service.DirectoryFeedKind | internal/service/service.go:156-165 | a directory that passes the variant's root check gets an acquisition feed when it holds a file and a navigation feed otherwise, both built by the browse feed |
| Service.AsWrittenServesSiblingOfRoot | internal/service/service.go:112-138 | the source's handler serves a visible regular file whose path resolves to a sibling that extends the root's name, such as "/srv/books-old/a.pdf" for the root "/srv/books" |
| Service.SiblingOfRootIsNotFound | internal/service/service.go:112-120 | the corrected handler answers a request resolving to such a sibling with a 404 |
| Service.AsWrittenServesHiddenFileBelowSlashedRoot | internal/service/service.go:133-138 | with a root ending in '/' and dot files hidden, the source's handler serves a dot file directly below the root, and the corrected handler answers 404 |
| Service.Handler | internal/service/service.go:76-176 | performed on a fresh writer, the handler of either variant leaves exactly the headers, status and body that Respond of that variant gives, and returns its error |

## Left out

- XML marshalling, the XML header and the namespace attributes are not modelled. Feeds are datatypes, and a marshal error cannot occur in the model.
- The builders in opds/entry_builder.go and search/result.go are not modelled; plain datatypes replace them. `ResultSize` in search/result.go is never called.
- `url.PathUnescape`, `url.PathEscape`, `filepath.Join` of the root with the request path, `filepath.Clean`, `filepath.EvalSymlinks` and the system media-type table are uninterpreted fields of `Host`. Only the six registered e-book types are concrete.
- The `TimeNow` clock is the `now` parameter. Logging is left out.
- `os.Stat`, `os.ReadDir` and `filepath.WalkDir` read a fixed snapshot of the tree (`FileSystem`). I/O errors during a listing or a walk, symbolic links inside the tree, and changes to the tree during a request are not modelled. A failed `os.ReadDir` in `makeFeed` lists nothing.
- `getPathType` on a missing path would dereference a nil `FileInfo`. `GetPathType` therefore requires that the path exists, and every caller makes sure of that.
- The `default` branch of `getType` cannot be reached with the three path kinds, so it has no counterpart.
- `Strings.ToLower`: folds ASCII letters only, whereas Go's `strings.ToLower` also folds other Unicode letters.
- `Http.ResponseWriter.ServeContent`: conditional and range requests and the content sniffing of `http.ServeContent` are not modelled. The status is an OK status, and the body is the document.
- `Http.ResponseWriter.ServeFile`: the redirects, directory listings and content types of `http.ServeFile` are not modelled, nor its 400 answer to a request path that has a ".." element. The body names the file.
- The server's behaviour after the handler returns an error is outside the model.
- `Tree.Walk`: takes the root as a path in clean form other than ".". `filepath.WalkDir` joins the root with each child name by `filepath.Join`, which cleans. For the root "./books", Go visits "books/a.epub" where the model visits "./books/a.epub"; for the root ".", Go visits "a.epub" where the model visits "./a.epub". In both cases Go's relative path (service.go:222) is "", so the source's search hides nothing and gives every hit the id "/", where the model's relative path is "a.epub".
- `Tree.JoinName`: is `filepath.Join` only for a directory path in clean form other than "."; `filepath.Join(".", "a")` is "a", where `JoinName` gives "./a". Every path the tree and the walk form below such a root is again in clean form and not ".".

## Findings

| source | as written | input that shows it | evidently intended | confidence | as-written member | corrected member |
|---|---|---|---|---|---|---|
| internal/service/service.go:350-352 | `inTrustedRoot` accepts any path that has the root as a plain string prefix | root "/srv/books" and a symbolic link inside it that resolves to "/srv/books-old/a.pdf": the resolved path passes the check, so a file outside the root is served | accept only the root itself or a path below the root directory, i.e. a prefix that ends at a path element boundary | medium; not executed | Service.AsWrittenServesSiblingOfRoot | Service.VerifyPath |
| internal/service/service.go:134 | the relative path is what `strings.Cut` leaves after the root followed by "/" | root "/srv/books/" (with a trailing '/') and dot files hidden: "/srv/books/.secret.epub" does not hold "/srv/books//", so its relative path is "", which is not hidden, and the file is served; the same cut at line 222 makes search hide nothing and give every hit the id "/" | the path below the root directory, whichever way the root is spelled | medium; not executed | Service.AsWrittenServesHiddenFileBelowSlashedRoot | Service.PathBelowRoot |
