# A verified model of the core of `mediafire.py`

`mediafire.py` is a command-line downloader. It takes a MediaFire file or folder link and mirrors the folder tree into a local directory. Inside each folder, it downloads the files with one worker thread per file, bounded by a semaphore. This project models the sequential core of that program in Dafny and proves properties of the model. The network, the filesystem, the clock and the threads become explicit inputs and state.

The model is split by concern, one Dafny module per file:

- **`common.dfy`** (`Common`): `Option`, bytes, and a remote file record (`filename`, `hash`, `links.normal_download`).
- **`names.dfy`** (`Names`): `normalize_file_or_folder_name`.
  - It is a position-by-position character map.
  - Python's `str.isalnum` is a parameter `alnum: char -> bool`, because it is Unicode-aware.
  - Lemmas that need concrete characters assume only that `alnum` agrees with `[a-zA-Z0-9]` on ASCII.
- **`links.dfy`** (`Links`): the `findall` over `mediafire\.com/(folder|file|file_premium)/([a-zA-Z0-9]+)` and the dispatch in `main`.
  - It is a scanning function.
  - It is proved equal to a declarative reading of the pattern: leftmost match, greedy key. The three alternatives exclude each other, so the order they are written in cannot change the result.
- **`endpoints.dfy`** (`Endpoints`): the two URL builders.
  - They are paired with a reader of the URLs they produce.
  - This proves that, when the content type and key contain no `&`, each URL gives back the operation, content type, chunk and key it was built from. A key with `&` is not read back. The key resolved from the link never has one; keys of subfolders come from the API unchecked.
- **`pagination.dfy`** (`Pagination`): the listing loop of `download_folder`.
  - It is a `while` method over a server modelled as a finite sequence of pages.
  - It is proved against a recursive specification of the listing.
- **`worker.dfy`** (`Worker`): `download_file`, as a class `Host`.
  - The class has the local files, the permits held and a log of actions.
  - Its methods are proved against staged specification functions, one per stage of the source. `Download` composes them.
  - The event is a `Schedule`: the first check, if any, that sees it set. Check 0 is the one before any request. Check `k+1` is the one before chunk `k`. The next one is after the loop.
  - Each outside answer is a field of `Request`: the `head` reply, the interstitial extraction, and the streamed body (its chunks and whether it then raises).
- **`traversal.dfy`** (`Traversal`): `get_folders`, as a class `Mirror`.
  - The class has the current directory (a stack of path components), the directories that exist, and a trace of events.
  - Its recursive methods are proved against the recursive specification `Walk`.

The model follows the code on these points, where the code does something that is easy to misremember:

- Only the root folder's name is normalised. Subfolder names are used as listed.
- The subfolder listing fetches chunk 1 only.
- A worker whose streamed `get` raises keeps its permit and leaves the partly written file in place.
- A local file whose hash differs is downloaded again over the old contents. There is no separate restart outcome.
- A file listing that hits a missing key (`KeyError`) prints "Invalid link" and starts no workers. The walk still goes on to the subfolders. Only `KeyError` is caught there; other failures of a listing request are not modelled (see "## Left out").

## Model

| member | source | states |
|---|---|---|
| Names.NormalizeChar | mediafire.py:29-31 | the result is always alphanumeric or one of `-_. `, and equals the input exactly when the input is |
| Names.Normalize | mediafire.py:26-34 | the output has the input's length and position i is the map of input position i (nothing deleted or inserted) |
| Names.OutputAllowed | mediafire.py:14-15 | every output character is alphanumeric or one of `-_. ` |
| Names.PositionwiseMap | mediafire.py:29-31 | an allowed character passes through unchanged and any other becomes `-` |
| Names.FixedPoints | mediafire.py:26-34 | a name is left unchanged if and only if all of its characters are allowed |
| Names.Idempotent | mediafire.py:26-34 | normalising twice equals normalising once |
| Names.Local | mediafire.py:26-34 | output position i depends only on input position i |
| Names.Append | mediafire.py:26-34 | normalising a concatenation normalises each part separately |
| Names.AsciiChar | mediafire.py:29-31 | on ASCII, a character is kept exactly when it is `[a-zA-Z0-9]` or one of `-_. `, otherwise it becomes `-` |
| Names.AsciiKept | mediafire.py:26-34 | an ASCII name made of allowed characters is not changed |
| Names.WeirdNameExample | mediafire.py:26-34 | `weird:name*.pdf` becomes `weird-name-.pdf` |
| Links.AlnumRun | mediafire.py:49 | the run of `[a-zA-Z0-9]` at a position is as long as possible: it ends at the end of the URL or at another character |
| Links.TryKind | mediafire.py:48-50 | one alternative matches after `mediafire.com/` exactly when its text is there and at least one `[a-zA-Z0-9]` follows its `/` |
| Links.MatchAt | mediafire.py:48-50 | a result is a match of the pattern at that position whose key cannot be extended; no result means no alternative and no key match there |
| Links.KindUnique | mediafire.py:48-50 | two matches at one position have the same alternative, and one key is a prefix of the other |
| Links.MatchAtLongest | mediafire.py:48-50 | every match at a position has the found alternative, and its key is a prefix of the found (greedy) key |
| Links.FirstMatch | mediafire.py:48-56 | the first tuple of `findall` is at the leftmost position with a match: the scan finds nothing at any earlier position, and nothing anywhere when there is no tuple |
| Links.Resolve | mediafire.py:48-64 | "Invalid link" (exit code 1) exactly when the URL has no match anywhere; `file` and `file_premium` lead to `get_file` and `folder` to `get_folders`, each with the key of the leftmost match |
| Links.ResolvedKeyGreedy | mediafire.py:48-56 | the key passed on is the whole alphanumeric run of the leftmost match |
| Links.ResolvedKeyInUrls | mediafire.py:69-80 | a resolved key contains no `&`, so both URL builders splice it in recoverably |
| Endpoints.Decimal | mediafire.py:75 | `str(chunk)` is a non-empty string of digits |
| Endpoints.DecimalRoundTrip | mediafire.py:75 | the digits of `chunk` read back as `chunk` |
| Endpoints.UpToAmp | mediafire.py:69-77 | splitting before the first `&` loses nothing |
| Endpoints.OperationDistinct | mediafire.py:74 | the URL names `get_info` exactly when `info` is set |
| Endpoints.FolderEndpoint | mediafire.py:69-77 | the URL calls `get_info` when `info` is set and `get_content` otherwise; `FolderRoundTrip` states the rest of what it carries |
| Endpoints.FileInfoEndpoint | mediafire.py:79-80 | the URL is the file API's `get_info.php?quick_key=`, then exactly the key, then `&response_format=json` |
| Endpoints.FileInfoRoundTrip | mediafire.py:79-80 | for a key without `&`, the file-info URL gives back the key it was built from |
| Endpoints.FolderRoundTrip | mediafire.py:69-77 | for a content type and folder key without `&`, the folder-API URL gives back its operation, content type, chunk and folder key |
| Endpoints.FolderEndpointInjective | mediafire.py:69-77 | different requests whose content types and keys contain no `&` get different folder-API URLs |
| Pagination.ListFrom | mediafire.py:114-125 | a completed listing starts at a well-formed chunk and begins with that chunk's files |
| Pagination.LastChunk | mediafire.py:113-121 | the loop never goes back: the last chunk requested is at least the first |
| Pagination.ChunkRequests | mediafire.py:115-118 | the requests are for chunks 1, 2, …, n of the `files` listing, in that order |
| Pagination.FetchFileListing | mediafire.py:110-126 | the loop's listing and its requests are those of the specification: the in-order files of chunks 1..k, or the abort |
| Pagination.ListingComplete | mediafire.py:114-121 | when chunk k is the first that does not say "yes", chunks 1..k are requested and the listing is their files concatenated in order |
| Pagination.ListFromSuffix | mediafire.py:114-121 | the same, for the loop from any chunk c up to k |
| Pagination.AbortedIff | mediafire.py:124-126 | the listing is abandoned if and only if a chunk the loop reaches is malformed |
| Pagination.AllPagesListed | mediafire.py:114-121 | a server whose chunks all say "yes" except the last lists every file of every chunk |
| Pagination.FlattenCount | mediafire.py:121 | the listing has as many files as the chunks together |
| Worker.StopAt | mediafire.py:211-214 | the chunks before the first set check are written; the check before the next chunk, if any, sees the event set |
| Worker.Download | mediafire.py:168-229 | the run is skipped exactly when the local file is up to date; with a limiter, the permit is taken before anything else |
| Worker.Checked | mediafire.py:172-191 | skipped exactly when the local file is up to date; cancelled before start exactly when it is not and the event is already set |
| Worker.Fetched | mediafire.py:193-206 | Blocked exactly when `head` fails or a gzip reply has no interstitial link; this stage never skips or cancels before start |
| Worker.Stream | mediafire.py:208-229 | the run ends Failed, CancelledMidStream or Completed; Failed exactly when the status is bad or, with no check having stopped the loop, the stream raises; only a Failed run keeps the permit |
| Worker.Ending | mediafire.py:210-229 | the same three outcomes once the body streams; Failed exactly when no check stopped the loop and the stream then raised; only then is the permit kept |
| Worker.Host.AcquirePermit | mediafire.py:169-170 | a permit is taken and logged, nothing else changes |
| Worker.Host.ReleasePermit | mediafire.py:179-180 | a permit is given back and logged, nothing else changes |
| Worker.Host.DownloadFile | mediafire.py:168-229 | outcome, files, permits and log are those of the specification `Download` |
| Worker.Host.CheckThenFetch | mediafire.py:172-191 | the up-to-date check, then the cancellation check, each returning the permit; otherwise the fetch |
| Worker.Host.FetchLink | mediafire.py:193-206 | `head`, then the interstitial page for a gzip reply; a failure returns the permit as Blocked |
| Worker.Host.StreamBody | mediafire.py:208-210 | a bad status raises before the file is opened; otherwise the file is truncated and streamed |
| Worker.Host.Pump | mediafire.py:210-229 | after the loop, the final check removes the file on cancellation; the permit is returned unless the stream raised |
| Worker.Host.WriteChunks | mediafire.py:211-216 | the loop writes exactly the non-empty chunks before the first set check; the file holds their bytes |
| Worker.WritesShape | mediafire.py:215-216 | each write is one non-empty chunk to the local file |
| Worker.WritesFacts | mediafire.py:211-216 | the loop takes no permit and makes no request; its writes together are the chunks' bytes |
| Worker.SkipsUpToDate | mediafire.py:176-181 | an up-to-date local file is skipped with no request, even when the event is already set |
| Worker.CancelsBeforeStart | mediafire.py:187-191 | with the event set and no up-to-date file, nothing is requested or written |
| Worker.PermitBalance | mediafire.py:168-229 | every normal return gives the permit back exactly once, as the last action, and the count is restored; only a raising stream keeps it |
| Worker.BlockedIff | mediafire.py:193-206 | Blocked exactly when both checks pass and `head` or the interstitial extraction fails; then no file changes and no body is requested |
| Worker.BodyRequest | mediafire.py:193-208 | the body is requested from a URL exactly when both checks pass and that URL is the normal link, or the interstitial anchor after a gzip reply |
| Worker.EndingData | mediafire.py:211-216 | the streaming stage writes exactly the chunks before the event was seen, never an empty one |
| Worker.EndingOutcome | mediafire.py:211-229 | Completed iff all chunks arrived, the stream did not raise and no check saw the event; a cancelled run removes the file even when every chunk was written; a completed run replaces stale contents |
| Worker.Streaming | mediafire.py:208-229 | the same for a whole run that gets a body: only chunk bytes are written, and the outcomes are as above |
| Worker.RerunSkips | mediafire.py:176-181 | after a completed download whose bytes hash to the reported hash, downloading the same entry again is skipped |
| Traversal.Mirror.GetRootFolders | mediafire.py:85-94 | fetches the root's record and walks into `output` joined with the normalised root name, as `Root` specifies |
| Traversal.Mirror.GetFolders | mediafire.py:82-108 | directories, current directory, trace and normal return are those of `Walk` |
| Traversal.Mirror.EnterFolder | mediafire.py:95-103 | creates the directory only if absent, enters it, lists its files, then requests its subfolders |
| Traversal.Mirror.VisitChildren | mediafire.py:105-108 | visits the subfolders in listing order with `chdir("..")` after each, as `WalkChildren` specifies |
| Traversal.Mirror.VisitChild | mediafire.py:107-108 | the loop body: the walk of one subfolder extends `WalkChildren` by that child, then `chdir("..")` if it returned |
| Traversal.CrashSticks | mediafire.py:101-108 | after a `KeyError` in one subfolder, no later subfolder is visited |
| Traversal.WalkOk | mediafire.py:95-108 | a walk returns normally iff every content reply has `folder_content` (an aborted file listing does not stop it), and it then ends in its starting directory |
| Traversal.ChildrenOk | mediafire.py:105-108 | the subfolder loop returns normally iff every subfolder walk does, and `chdir("..")` brings it back to the folder |
| Traversal.Covers | mediafire.py:95-96 | no directory is removed, and a completed walk leaves every directory of the tree in place |
| Traversal.MadeBeforeListed | mediafire.py:95-103 | an absent directory is created first and a present one never; the folder's files are then handed on in it, and then its subfolders are requested |
| Traversal.MkdirOnlyIfAbsent | mediafire.py:95-96 | `makedirs` runs only for a directory that does not exist |
| Traversal.NoMkdir | mediafire.py:95-96 | with the whole tree already present, a walk creates no directory |
| Traversal.RerunMakesNoDirectory | mediafire.py:95-96 | walking the same tree again after a completed walk creates no directory |
| Traversal.Levels | mediafire.py:95-108 | a folder's files are handed on in its own directory before any subfolder's, later levels lie inside it, and its direct subfolders come in listing order (all of them when the walk completes) |
| Traversal.LevelsChildren | mediafire.py:105-108 | the subfolder loop starts each direct subfolder in listing order, under its listed name |
| Traversal.InfoFirst | mediafire.py:85-94 | the root's record is requested before anything else; when its reply lacks the name, the run ends there, in the starting directory, with no directory made |
| Traversal.RootLayout | mediafire.py:85-94 | the root directory is `output` joined with the normalised root name, made of allowed characters only; subfolders keep their raw names |

## Left out

- SHA-256 and the 1024-byte read loop of `hash_file` (mediafire.py:17-24). The hash is a function parameter `digest` of the file contents.
- Network calls (`get`, `head`) and the gazpacho HTML parsing. Their answers are inputs: the `head` reply, the interstitial anchor or its absence, the streamed chunks, and the pages of each listing.
- Threads, `Event`, `BoundedSemaphore` and the polling and `KeyboardInterrupt` loop (mediafire.py:128-158).
  - The event is a schedule of when it becomes set.
  - The limiter is a count of permits held. A blocking `acquire` is not modelled.
  - The bound of at most `threads_num` holders comes from the library.
  - The walk records the listing handed to the workers of each folder as a `Level` event. It does not run the workers, whose interleaving is the point of that code. `Worker.Download` describes each of them alone.
- `get_file` (mediafire.py:160-166). It is one request, an optional `chdir`, and a worker run with no event and no limiter. The worker covers this as `Download` with `limited` false and the schedule `Never`.
- `input`, `print`, `exit`, and the messages. "Invalid link" stands for print and exit code 1 in `Links.Resolve`. It stands for the listing abort in `Pagination`.
- `KeyError` on a file record's own keys (`links.normal_download`, `filename`, `hash`) and on a subfolder record's `folderkey`/`name`. The model assumes these records are well formed. A missing `folder_content` in a subfolder reply and a missing root `folder_info` are modelled, as an exception that ends the walk.
- Traversal.Mirror.GetFolders: directory names are path components. These names are not modelled, and neither is an output path with `..`:
  - A listed name that contains `/` or is `..`. For such names `chdir("..")` would not return to the parent.
  - A listed name that is `""` or `"."`. `makedirs("")` raises, and after `chdir(".")` the following `chdir("..")` goes one level too far up.
  - A root name that normalises to `""`, `"."` or `".."`. `path.join` then adds no new directory below `output`, or names its parent.
- Pagination.FetchFileListing: the server is a finite sequence of pages, and a request past its last page gets a malformed reply. So a server whose last page still says "yes" makes the listing abort. A server that says "yes" forever, on which the loop at mediafire.py:116-122 never ends, cannot be represented. The proof that the loop terminates depends on this choice.
- Pagination.FetchFileListing: a listing request whose `get` raises (a connection error) or whose reply is not JSON (`.json()` raises `ValueError`) is not modelled. The loop at mediafire.py:116-122 catches only `KeyError` (mediafire.py:124). Such an exception escapes `download_folder`, `get_folders` (mediafire.py:99) and `main`, and ends the whole run before the subfolder request. A `Page` is either well formed or `Malformed` (the `KeyError` case). So `Traversal.Walk` always goes on from a folder's `Level` to its subfolder request, and `Pagination.AbortedIff` covers only the `KeyError` abort.
- Traversal.Mirror.EnterFolder: `path.exists` is also true for a plain file of that name, and `chdir` then fails. The model keeps only directories.
- Worker.PermitBalance: no balance is claimed for a streamed `get` that raises (status or transport error). That exception escapes `download_file` and the permit stays taken, as the code does.
- Worker.Download: a normalised file name that is an existing directory is not modelled. `path.exists` is then true, `hash_file` raises at mediafire.py:19, and the permit stays taken. The model's local files are plain files only.
