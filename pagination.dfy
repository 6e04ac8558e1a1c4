/**
 * The listing loop at the top of `MediafireDownloader.download_folder`:
 * fetch chunk 1, 2, ... of a folder's `files` listing, appending each page's
 * `files`, until a page's `more_chunks` is not `"yes"`; a response without
 * the expected keys (`KeyError`) abandons the whole listing.
 */
module Pagination {
  import opened Common
  import opened Endpoints

  /**
   * One `get_content` response: a well-formed `folder_content` with its
   * `files` and `more_chunks` fields, or one where a key the loop reads is
   * missing.
   */
  datatype Page = Page(files: seq<FileEntry>, moreChunks: string) | Malformed

  /**
   * The server's answer to the request for chunk `c`. The server is a finite
   * sequence of pages; asking past its end gets a response without the
   * `folder_content` the loop expects.
   */
  function Fetch(pages: seq<Page>, c: nat): Page
  {
    if 1 <= c <= |pages| then pages[c - 1] else Malformed
  }

  /** Chunk `c` exists and says more chunks follow. */
  predicate SaysMore(pages: seq<Page>, c: nat)
  {
    Fetch(pages, c).Page? && Fetch(pages, c).moreChunks == "yes"
  }

  /** The outcome of the listing: every file, or the "Invalid link" abort. */
  datatype Listing = Listed(files: seq<FileEntry>) | Aborted

  function Prepend(files: seq<FileEntry>, l: Listing): Listing
  {
    match l
    case Listed(rest) => Listed(files + rest)
    case Aborted => Aborted
  }

  /**
   * What the loop produces when it starts at chunk `c`: a malformed chunk
   * `c` abandons the listing, and a listing starts with chunk `c`'s files.
   */
  function ListFrom(pages: seq<Page>, c: nat): (l: Listing)
    ensures l.Listed? ==> Fetch(pages, c).Page? && Fetch(pages, c).files <= l.files
    decreases |pages| + 1 - c
  {
    match Fetch(pages, c)
    case Malformed => Aborted
    case Page(files, more) =>
      if more == "yes" then Prepend(files, ListFrom(pages, c + 1)) else Listed(files)
  }

  /** The last chunk the loop requests when it starts at chunk `c`. */
  function LastChunk(pages: seq<Page>, c: nat): (k: nat)
    ensures c <= k
    decreases |pages| + 1 - c
  {
    if SaysMore(pages, c) then LastChunk(pages, c + 1) else c
  }

  /** The URLs of the requests for chunks `1..n` of a folder's files listing. */
  function ChunkRequests(folderKey: string, n: nat): (r: seq<string>)
    ensures |r| == n
    ensures forall i :: 0 <= i < n ==> r[i] == FolderEndpoint("files", folderKey, i + 1, false)
  {
    if n == 0 then [] else ChunkRequests(folderKey, n - 1) + [FolderEndpoint("files", folderKey, n, false)]
  }

  /**
   * The loop itself. `requested` is the sequence of URLs it fetches: chunk
   * 1, 2, ... up to and including the first chunk that ends the listing.
   */
  method FetchFileListing(folderKey: string, pages: seq<Page>) returns (listing: Listing, requested: seq<string>)
    ensures listing == ListFrom(pages, 1)
    ensures requested == ChunkRequests(folderKey, LastChunk(pages, 1))
  {
    var data: seq<FileEntry> := [];
    var chunk := 1;
    var more := true;
    requested := [];
    while more
      invariant 1 <= chunk <= |pages| + 1
      invariant requested == ChunkRequests(folderKey, chunk - 1)
      invariant more ==> ListFrom(pages, 1) == Prepend(data, ListFrom(pages, chunk))
      invariant more ==> LastChunk(pages, 1) == LastChunk(pages, chunk)
      invariant !more ==> ListFrom(pages, 1) == Listed(data) && LastChunk(pages, 1) == chunk - 1
      decreases |pages| + 1 - chunk
    {
      var page := Fetch(pages, chunk);
      requested := requested + [FolderEndpoint("files", folderKey, chunk, false)];
      if page.Malformed? {
        listing := Aborted;
        return;
      }
      more := page.moreChunks == "yes";
      data := data + page.files;
      chunk := chunk + 1;
    }
    listing := Listed(data);
  }

  /** All the files of the pages, in order. */
  function Flatten(pages: seq<Page>): seq<FileEntry>
  {
    if pages == [] then []
    else (if pages[0].Page? then pages[0].files else []) + Flatten(pages[1..])
  }

  /** The first `k` chunks are well formed, every one before chunk `k` saying "yes". */
  ghost predicate EndsAt(pages: seq<Page>, k: nat)
  {
    1 <= k <= |pages| && pages[k - 1].Page? && pages[k - 1].moreChunks != "yes"
    && forall c :: 1 <= c < k ==> SaysMore(pages, c)
  }

  /**
   * Pagination completeness: when chunk `k` is the first that does not say
   * "yes", the chunks requested are exactly 1..k and the listing is the
   * in-order concatenation of their files, nothing dropped or repeated.
   */
  lemma {:induction false} ListingComplete(pages: seq<Page>, k: nat)
    requires EndsAt(pages, k)
    ensures ListFrom(pages, 1) == Listed(Flatten(pages[..k]))
    ensures LastChunk(pages, 1) == k
  {
    ListFromSuffix(pages, 1, k);
  }

  lemma {:induction false} ListFromSuffix(pages: seq<Page>, c: nat, k: nat)
    requires EndsAt(pages, k) && 1 <= c <= k
    ensures ListFrom(pages, c) == Listed(Flatten(pages[c - 1..k]))
    ensures LastChunk(pages, c) == k
    decreases k - c
  {
    var rest := pages[c - 1..k];
    assert rest[1..] == pages[c..k];
    if c < k {
      assert SaysMore(pages, c);
      ListFromSuffix(pages, c + 1, k);
    } else {
      assert rest[1..] == [];
    }
  }

  /**
   * The listing is abandoned exactly when some chunk is malformed (or
   * missing) and every chunk before it was well formed and said "yes".
   */
  lemma {:induction false} AbortedIff(pages: seq<Page>)
    ensures ListFrom(pages, 1).Aborted? <==>
            exists k :: 1 <= k && Fetch(pages, k).Malformed? && forall c :: 1 <= c < k ==> SaysMore(pages, c)
  {
    AbortedIffFrom(pages, 1);
  }

  lemma {:induction false} AbortedIffFrom(pages: seq<Page>, c: nat)
    requires 1 <= c
    ensures ListFrom(pages, c).Aborted? <==>
            exists k :: c <= k && Fetch(pages, k).Malformed? && forall j :: c <= j < k ==> SaysMore(pages, j)
    decreases |pages| + 1 - c
  {
    if SaysMore(pages, c) {
      AbortedIffFrom(pages, c + 1);
      if ListFrom(pages, c).Aborted? {
        var k :| c + 1 <= k && Fetch(pages, k).Malformed? && forall j :: c + 1 <= j < k ==> SaysMore(pages, j);
        assert forall j :: c <= j < k ==> SaysMore(pages, j);
      }
    } else if Fetch(pages, c).Malformed? {
      assert forall j: nat :: c <= j < c ==> SaysMore(pages, j);
    }
  }

  /**
   * A server of `n` well-formed pages, all but the last saying "yes": the
   * listing is the concatenation of all their files.
   */
  lemma AllPagesListed(pages: seq<Page>)
    requires pages != []
    requires forall i :: 0 <= i < |pages| ==> pages[i].Page?
    requires forall i :: 0 <= i < |pages| - 1 ==> pages[i].moreChunks == "yes"
    requires pages[|pages| - 1].moreChunks != "yes"
    ensures ListFrom(pages, 1) == Listed(Flatten(pages))
    ensures |ListFrom(pages, 1).files| == FileCount(pages)
  {
    assert pages[..|pages|] == pages;
    ListingComplete(pages, |pages|);
    FlattenCount(pages);
  }

  function FileCount(pages: seq<Page>): nat
  {
    if pages == [] then 0
    else (if pages[0].Page? then |pages[0].files| else 0) + FileCount(pages[1..])
  }

  lemma {:induction false} FlattenCount(pages: seq<Page>)
    ensures |Flatten(pages)| == FileCount(pages)
  {
    if pages != [] {
      FlattenCount(pages[1..]);
    }
  }
}
