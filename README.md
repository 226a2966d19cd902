# HalfTunes: search results, local file paths and the download record

HalfTunes is an iOS app that searches a music store and downloads track
previews. This project models the parts of it that hold logic:

- **Search-result extraction.** `SearchViewController.updateSearchResults`
  clears the `searchResults` list. It then walks the `"results"` array of the
  parsed JSON response. For each element that is a dictionary with a string
  `previewUrl`, it appends a `Track` built from the optional string fields
  `trackName` and `artistName` and the `previewUrl`. It skips every other
  element. The model is the class `SearchResults.SearchViewController` with
  the field `searchResults` and a method whose loop does this. That method is
  proved against the function `ExtractTracks`, and lemmas state what that
  function yields: one track per qualifying element, each at the position
  given by the number of qualifying elements before it, so input order is
  kept.
- **Local path derivation.** `localFilePathForUrl` appends the URL's last
  path component to the Documents directory, and `localFileExistsForTrack`
  asks the file system whether something exists at that path. These are
  functions in `LocalFiles`. The Documents directory is a parameter, and the
  file system is the set of paths at which an entry exists.
- **The `Download` record.** This is a mutable container with a URL, an
  `isDownloading` flag, a progress fraction, an optional task handle and
  optional resume data. It is modelled as the class `Downloads.Download`,
  whose constructor gives the initial values.

The input to the search update is an already-parsed JSON value
(`Json.Json`), wrapped in an `Option`. `None` stands for both nil data and a
parse error thrown by the deserialiser; either way the list ends up empty.
When `"results"` holds something other than an array, the source's forced
cast `as! [AnyObject]` traps. The model returns the outcome `CastTrap` for
this case, and the list stays cleared, because the cast comes before the
loop.

The app's download actions (start, pause, resume, cancel) have empty bodies
in the source (HalfTunes/SearchViewController.swift:80-97), so no download
state changes are modelled.

## Model

| member | source | states |
|---|---|---|
| `Json.StringField` | HalfTunes/SearchViewController.swift:48-49 | the `as? String` cast of a dictionary entry is the string stored under the key, and `None` exactly when the key is missing or holds a non-string |
| `SearchResults.IsTrackEntry` | HalfTunes/SearchViewController.swift:46 | an element yields a track exactly when it is a dictionary whose `previewUrl` holds a string |
| `SearchResults.ExtractTracks` | HalfTunes/SearchViewController.swift:44-54 | the tracks the loop appends for a `"results"` array, never more than the array has elements; the lemmas below characterise it fully |
| `SearchResults.TrackFrom` | HalfTunes/SearchViewController.swift:46-50 | a track's `previewUrl` is the element's string `previewUrl` and is never nil; `name` and `artist` are `trackName` and `artistName` when those are strings and nil otherwise |
| `SearchResults.ExtractLength` | HalfTunes/SearchViewController.swift:45-54 | the extracted list has exactly as many tracks as the `"results"` array has dictionaries with a string `previewUrl` |
| `SearchResults.ExtractAt` | HalfTunes/SearchViewController.swift:45-54 | each qualifying element's track is in the list, at the index equal to the number of qualifying elements before it |
| `SearchResults.ExtractOrigin` | HalfTunes/SearchViewController.swift:45-54 | every track in the list was built from a qualifying element, and that element has as many qualifying elements before it as the track's index, so other elements contribute nothing |
| `SearchResults.CountIncreasing` | HalfTunes/SearchViewController.swift:45-50 | a qualifying element comes strictly before any later one in the count, so the list keeps input order |
| `SearchResults.ResultsOf` | HalfTunes/SearchViewController.swift:41-45 | no results when data is nil or unparseable, when the top level is not a dictionary or when `"results"` is missing; the elements when `"results"` is an array; a failed forced cast otherwise |
| `SearchResults.SearchViewController.constructor` | HalfTunes/SearchViewController.swift:17 | a new screen starts with an empty result list |
| `SearchResults.SearchViewController.UpdateSearchResults` | HalfTunes/SearchViewController.swift:38-63 | the previous list is always discarded; afterwards the list holds exactly the tracks extracted from the `"results"` array, or nothing if there is none; the outcome is a trap exactly when `"results"` is not an array |
| `LocalFiles.ValidUrl` | HalfTunes/SearchViewController.swift:114 | stands for `NSURL(string:)` succeeding: an accepted string is non-empty and holds no space |
| `LocalFiles.BeforeQuery` | HalfTunes/SearchViewController.swift:114 | the URL's path part is its longest prefix that holds no query or fragment marker |
| `LocalFiles.AfterLastSlash` | HalfTunes/SearchViewController.swift:114 | the text after the last `/`: the longest suffix without a `/`, preceded by a `/` unless it is the whole string |
| `LocalFiles.LastPathComponent` | HalfTunes/SearchViewController.swift:114 | a URL's last path component is the text after the last `/` of the part before any query or fragment; it is non-empty, has no `/`, and exists exactly when that part has a `/` followed by some text |
| `LocalFiles.AppendPathComponent` | HalfTunes/SearchViewController.swift:115 | appending a component to the Documents path gives the directory followed by at most one `/` and then the component |
| `LocalFiles.LocalFilePathForUrl` | HalfTunes/SearchViewController.swift:112-118 | nil exactly when the string is not a valid URL or has no last path component; otherwise the Documents directory joined with that component, so the path starts with the directory and its own last component is the URL's file name |
| `LocalFiles.AfterLastSlashOfAppended` | HalfTunes/SearchViewController.swift:115-116 | the file name is recovered from the local path: the last component of the Documents path plus a file name is that file name |
| `LocalFiles.AppendInjective` | HalfTunes/SearchViewController.swift:115 | different file names give different paths in the Documents directory |
| `LocalFiles.LocalPathDependsOnlyOnFileName` | HalfTunes/SearchViewController.swift:109-118 | two URLs with local paths get the same path exactly when they have the same last path component |
| `LocalFiles.LocalFileExistsForTrack` | HalfTunes/SearchViewController.swift:122-130 | false when the track has no `previewUrl` or no local path can be derived; otherwise true exactly when an entry exists at the derived path |
| `LocalFiles.DownloadedDependsOnlyOnFileName` | HalfTunes/SearchViewController.swift:122-130 | two tracks whose valid URLs share a file name are both downloaded or both not |
| `Downloads.Download.constructor` | HalfTunes/Download.swift:11-22 | a new download keeps the given URL unchanged, is not downloading, has progress 0.0, and has no task handle and no resume data |

## Left out

- `startDownload`, `pauseDownload`, `cancelDownload`, `resumeDownload`: their bodies are empty in the source, so there is no behaviour to model. Download state changes, progress updates and resume-data handling do not exist in the code.
- JSON deserialisation of the raw response bytes is a platform library call. The model starts from the parsed value. `None` stands for nil data and for a thrown parse error alike, because both end the same way.
- `NSSearchPathForDirectoriesInDomains` is a platform call. The Documents directory is a string parameter.
- `NSURL(string:)` and `lastPathComponent` are platform parsing, replaced by simplified stand-ins.
- LocalFiles.ValidUrl: rejects only the empty string, spaces, control characters and the ASCII characters `"`, `<`, `>`, `\`, `^`, `` ` ``, `{`, `|`, `}`. It accepts non-ASCII characters and malformed percent escapes such as `%zz`, which the platform parser rejects.
- LocalFiles.LastPathComponent: takes the text after the last `/` of the part before the first `?` or `#`. It does not separate the host from the path, strip trailing slashes or decode percent escapes.
- LocalFiles.LocalFilePathForUrl: because of that simplification, it gives `None` for `http://a/dir/` where the platform takes the component `dir`, and for a relative URL such as `song.m4a` where the platform takes `song.m4a`. For `http://host` it derives a file named `host`, where the platform's path is empty. These rest on the platform's documented behaviour.
- LocalFiles.LocalFileExistsForTrack: inherits the same differences. It answers false for the first two URLs above, where the source would look for a file, and for `http://host` it looks for a file named `host` in the Documents directory.
- `stringByAppendingPathComponent` is modelled as joining with a single `/`. It does not normalise repeated slashes in the directory.
- `NSURL(fileURLWithPath:)` and its `path` are taken to give back the same path string, so the model uses that string for the local URL.
- `NSFileManager.fileExistsAtPath` is file-system I/O. It is modelled as membership in the set of existing paths. Like the source, which ignores the `isDirectory` result, the model does not distinguish files from directories.
- The `dispatch_async` table reload after the update is concurrency plus UI. The model only reports `Reloaded` as the outcome.
- The `print` diagnostics on the skip and error branches are left out.
- `playDownload`, keyboard dismissal, the search bar, the table data source and delegate, and cell callbacks are UIKit and MediaPlayer code.
- `progress` is a 32-bit float in the source. It is only ever initialised, so it is modelled as a `real`.
- The `Track` type's own file is not part of this model. `SearchResults.Track` follows its use: three optional strings.
