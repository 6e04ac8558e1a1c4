/**
 * The link resolver in `MediafireDownloader.main`: the first match of
 * `mediafire\.com/(folder|file|file_premium)/([a-zA-Z0-9]+)` anywhere in the
 * URL, and the dispatch on its first group.
 */
module Links {
  import opened Common
  import Endpoints

  /** The first group of the pattern. */
  datatype Kind = Folder | File | FilePremium

  function KindText(k: Kind): string
  {
    match k
    case Folder => "folder"
    case File => "file"
    case FilePremium => "file_premium"
  }

  /** The literal part of the pattern before the first group. */
  const Site: string := "mediafire.com/"

  /** The alternative `k` with the `/` that follows it. */
  function Head(k: Kind): string
  {
    KindText(k) + "/"
  }

  /** The text a match of the pattern with groups `k` and `key` covers. */
  function Pattern(k: Kind, key: string): string
  {
    Site + Head(k) + key
  }

  /** Reference reading of the pattern: groups `k`, `key` match at `i`. */
  predicate MatchesAt(s: string, i: nat, k: Kind, key: string)
  {
    i <= |s| && key != [] && (forall c :: c in key ==> IsAsciiAlnum(c))
    && HasPrefix(s[i..], Pattern(k, key))
  }

  lemma PrefixConcat(s: string, a: string, b: string)
    ensures HasPrefix(s, a + b) <==> HasPrefix(s, a) && HasPrefix(s[|a|..], b)
  {
    if HasPrefix(s, a) && HasPrefix(s[|a|..], b) {
      assert s[..|a + b|] == s[..|a|] + s[|a|..][..|b|];
    }
    if HasPrefix(s, a + b) {
      assert s[..|a|] == (a + b)[..|a|];
      assert s[|a|..][..|b|] == (a + b)[|a|..];
    }
  }

  /** A match at `i` is the site, then the alternative, then the key. */
  lemma MatchesAtSplit(s: string, i: nat, k: Kind, key: string)
    requires i <= |s|
    ensures HasPrefix(s[i..], Pattern(k, key)) <==>
            HasPrefix(s[i..], Site) && i + |Site| <= |s| && HasPrefix(s[i + |Site|..], Head(k))
            && i + |Site| + |Head(k)| <= |s| && HasPrefix(s[i + |Site| + |Head(k)|..], key)
  {
    PrefixConcat(s[i..], Site + Head(k), key);
    PrefixConcat(s[i..], Site, Head(k));
    if HasPrefix(s[i..], Site) {
      assert s[i..][|Site|..] == s[i + |Site|..];
      if HasPrefix(s[i + |Site|..], Head(k)) {
        assert s[i..][|Site + Head(k)|..] == s[i + |Site| + |Head(k)|..];
      }
    }
  }

  /** The length of the longest run of `[a-zA-Z0-9]` starting at `i`. */
  function AlnumRun(s: string, i: nat): (n: nat)
    requires i <= |s|
    ensures i + n <= |s|
    ensures forall j :: i <= j < i + n ==> IsAsciiAlnum(s[j])
    ensures i + n == |s| || !IsAsciiAlnum(s[i + n])
    decreases |s| - i
  {
    if i < |s| && IsAsciiAlnum(s[i]) then 1 + AlnumRun(s, i + 1) else 0
  }

  /**
   * The alternative `k` followed by `/` and a greedy key, at position `p`:
   * found exactly when the alternative is there and an alphanumeric follows.
   */
  function TryKind(s: string, p: nat, k: Kind): (r: Option<string>)
    requires p <= |s|
    ensures r.Some? <==> HasPrefix(s[p..], Head(k)) && p + |Head(k)| < |s| && IsAsciiAlnum(s[p + |Head(k)|])
  {
    var q := p + |Head(k)|;
    if HasPrefix(s[p..], Head(k)) then
      var n := AlnumRun(s, q);
      if n > 0 then Some(s[q..q + n]) else None
    else None
  }

  /**
   * The pattern anchored at `i`, alternatives tried in the order they are
   * written. The key is greedy and nothing follows it, so it is the whole run.
   */
  function MatchAt(s: string, i: nat): (r: Option<(Kind, string)>)
    requires i <= |s|
    ensures r.Some? ==> MatchesAt(s, i, r.value.0, r.value.1)
    ensures r.Some? ==> var end := i + |Pattern(r.value.0, r.value.1)|;
                        end == |s| || !IsAsciiAlnum(s[end])
    ensures r.None? <==> forall k, key :: !MatchesAt(s, i, k, key)
  {
    if !HasPrefix(s[i..], Site) then
      NoSite(s, i);
      None
    else
      var p := i + |Site|;
      KindsComplete(s, i);
      match TryKind(s, p, Folder)
      case Some(key) => TryKindSound(s, i, Folder); Some((Folder, key))
      case None =>
        match TryKind(s, p, File)
        case Some(key) => TryKindSound(s, i, File); Some((File, key))
        case None =>
          match TryKind(s, p, FilePremium)
          case Some(key) => TryKindSound(s, i, FilePremium); Some((FilePremium, key))
          case None => None
  }

  lemma NoSite(s: string, i: nat)
    requires i <= |s| && !HasPrefix(s[i..], Site)
    ensures forall k, key :: !MatchesAt(s, i, k, key)
  {
    forall k, key ensures !MatchesAt(s, i, k, key) {
      MatchesAtSplit(s, i, k, key);
    }
  }

  /** What `TryKind` finds is a maximal match of the pattern. */
  lemma TryKindSound(s: string, i: nat, k: Kind)
    requires i + |Site| <= |s| && HasPrefix(s[i..], Site)
    requires TryKind(s, i + |Site|, k).Some?
    ensures var key := TryKind(s, i + |Site|, k).value;
            MatchesAt(s, i, k, key) &&
            (i + |Pattern(k, key)| == |s| || !IsAsciiAlnum(s[i + |Pattern(k, key)|]))
  {
    var p := i + |Site|;
    var q := p + |Head(k)|;
    var key := TryKind(s, p, k).value;
    var n := AlnumRun(s, q);
    assert key == s[q..q + n];
    assert s[q..][..n] == key;
    MatchesAtSplit(s, i, k, key);
    forall c | c in key ensures IsAsciiAlnum(c) {
      var j :| 0 <= j < |key| && key[j] == c;
      assert s[q + j] == c;
    }
  }

  /** Any match of the pattern at `i` is found by its own alternative. */
  lemma KindsComplete(s: string, i: nat)
    requires i + |Site| <= |s| && HasPrefix(s[i..], Site)
    ensures forall k, key :: MatchesAt(s, i, k, key) ==> TryKind(s, i + |Site|, k).Some?
  {
    forall k, key | MatchesAt(s, i, k, key) ensures TryKind(s, i + |Site|, k).Some? {
      var q := i + |Site| + |Head(k)|;
      MatchesAtSplit(s, i, k, key);
      assert s[q] == s[q..][0] == key[0];
      assert key[0] in key;
    }
  }

  /** The first five characters, "folde", "file/" and "file_", tell the alternatives apart. */
  lemma HeadsDiffer(k1: Kind, k2: Kind)
    requires k1 != k2
    ensures |Head(k1)| >= 5 && |Head(k2)| >= 5 && Head(k1)[..5] != Head(k2)[..5]
  {
    assert Head(Folder)[..5] == "folde" && Head(File)[..5] == "file/";
    assert Head(FilePremium)[..5] == "file_";
  }

  /** The three alternatives exclude each other: at most one kind matches. */
  lemma KindUnique(s: string, i: nat, k1: Kind, key1: string, k2: Kind, key2: string)
    requires MatchesAt(s, i, k1, key1) && MatchesAt(s, i, k2, key2)
    ensures k1 == k2 && (key1 <= key2 || key2 <= key1)
  {
    MatchesAtSplit(s, i, k1, key1);
    MatchesAtSplit(s, i, k2, key2);
    var p := i + |Site|;
    if k1 != k2 {
      HeadsDiffer(k1, k2);
      assert false;
    }
    var q := p + |Head(k1)|;
    if |key1| <= |key2| {
      assert key1 == s[q..][..|key1|] == key2[..|key1|];
    } else {
      assert key2 == s[q..][..|key2|] == key1[..|key2|];
    }
  }

  /** The key found at `i` is the longest key of any match there. */
  lemma {:induction false} MatchAtLongest(s: string, i: nat, k: Kind, key: string)
    requires MatchesAt(s, i, k, key)
    ensures MatchAt(s, i).Some? && MatchAt(s, i).value.0 == k && key <= MatchAt(s, i).value.1
  {
    var (k', key') := MatchAt(s, i).value;
    KindUnique(s, i, k, key, k', key');
    if !(key <= key') {
      MatchesAtSplit(s, i, k, key);
      assert false;
    }
  }

  /** Where `findall` puts its first tuple: the leftmost match at or after `i`. */
  datatype Found = Found(start: nat, kind: Kind, key: string)

  /** `MatchAt` finds nothing at any position from `i` up to, not including, `j`. */
  ghost predicate Clear(s: string, i: nat, j: nat)
    requires j <= |s| + 1
    decreases j - i
  {
    i >= j || (MatchAt(s, i).None? && Clear(s, i + 1, j))
  }

  function FirstMatch(s: string, i: nat): (r: Option<Found>)
    requires i <= |s|
    ensures r.Some? ==> i <= r.value.start <= |s|
                        && MatchAt(s, r.value.start) == Some((r.value.kind, r.value.key))
    ensures r.Some? ==> Clear(s, i, r.value.start)
    ensures r.None? ==> Clear(s, i, |s| + 1)
    decreases |s| - i
  {
    match MatchAt(s, i)
    case Some((k, key)) => Some(Found(i, k, key))
    case None => if i == |s| then None else FirstMatch(s, i + 1)
  }

  /** What `main` does with the URL. */
  datatype Command = InvalidLink | GetFile(key: string) | GetFolders(key: string)

  /** No match of the pattern starts before position `j`. */
  ghost predicate NoMatchBefore(url: string, j: nat)
  {
    forall j': nat, k, key :: j' < j ==> !MatchesAt(url, j', k, key)
  }

  /** Positions where `MatchAt` finds nothing hold no match of the pattern. */
  lemma {:induction false} NoneFrom(url: string, i: nat, j: nat)
    requires i <= j <= |url| + 1 && Clear(url, i, j)
    ensures forall j': nat, k, key :: i <= j' < j ==> !MatchesAt(url, j', k, key)
    decreases j - i
  {
    if i < j {
      NoneFrom(url, i + 1, j);
      assert MatchAt(url, i).None?;
    }
  }

  lemma NoneBefore(url: string, j: nat)
    requires j <= |url| + 1 && Clear(url, 0, j)
    ensures NoMatchBefore(url, j)
  {
    NoneFrom(url, 0, j);
  }

  /**
   * `findall(...)[0]` and the dispatch: `file` and `file_premium` both lead
   * to `get_file`, `folder` to `get_folders`, no match to "Invalid link".
   */
  function Resolve(url: string): (c: Command)
    ensures c == InvalidLink <==> NoMatchBefore(url, |url| + 1)
    ensures c.GetFile? ==> exists j: nat :: j <= |url| && NoMatchBefore(url, j)
                             && (MatchesAt(url, j, File, c.key) || MatchesAt(url, j, FilePremium, c.key))
    ensures c.GetFolders? ==> exists j: nat :: j <= |url| && NoMatchBefore(url, j)
                                && MatchesAt(url, j, Folder, c.key)
  {
    match FirstMatch(url, 0)
    case None =>
      NoneBefore(url, |url| + 1);
      InvalidLink
    case Some(Found(j, k, key)) =>
      NoneBefore(url, j);
      assert MatchesAt(url, j, k, key);
      if k == Folder then GetFolders(key) else GetFile(key)
  }

  /** The key a match ends with is the whole run of `[a-zA-Z0-9]` there. */
  predicate KeyEndsAt(url: string, j: nat, k: Kind, key: string)
  {
    var end := j + |Pattern(k, key)|;
    end <= |url| && (end == |url| || !IsAsciiAlnum(url[end]))
  }

  /**
   * The key `main` passes on is greedy: it is the leftmost match's whole
   * alphanumeric run, so nothing of the key is cut off at a `?` or `/` and
   * nothing that follows one is taken into it.
   */
  lemma ResolvedKeyGreedy(url: string)
    ensures Resolve(url).GetFile? || Resolve(url).GetFolders? ==>
              exists j: nat, k :: NoMatchBefore(url, j) && MatchesAt(url, j, k, Resolve(url).key)
                                  && KeyEndsAt(url, j, k, Resolve(url).key)
  {
    match FirstMatch(url, 0)
    case None =>
    case Some(Found(j, k, key)) =>
      NoneBefore(url, j);
      assert MatchesAt(url, j, k, key) && KeyEndsAt(url, j, k, key);
  }

  /**
   * A resolved key holds no `&`, so it survives being spliced into the
   * query strings of both APIs: the URLs built from it give it back.
   */
  lemma ResolvedKeyInUrls(url: string, contentType: string, chunk: nat, info: bool)
    requires Resolve(url) != InvalidLink && '&' !in contentType
    ensures Endpoints.ParseFileInfoEndpoint(Endpoints.FileInfoEndpoint(Resolve(url).key)) == Some(Resolve(url).key)
    ensures Endpoints.ParseFolderEndpoint(Endpoints.FolderEndpoint(contentType, Resolve(url).key, chunk, info))
            == Some(Endpoints.FolderQuery(contentType, Resolve(url).key, chunk, info))
  {
    var key := Resolve(url).key;
    match FirstMatch(url, 0)
    case Some(Found(j, k, key')) =>
      assert key' == key && MatchesAt(url, j, k, key);
      assert !IsAsciiAlnum('&');
      Endpoints.FileInfoRoundTrip(key);
      Endpoints.FolderRoundTrip(contentType, key, chunk, info);
  }
}
