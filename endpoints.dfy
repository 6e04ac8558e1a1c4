/**
 * The two URL builders of `MediafireDownloader` (f-strings) and, as their
 * partner, a reader for the URLs they produce: every request the downloader
 * makes can be told apart from every other by its URL.
 */
module Endpoints {
  import opened Common

  /** The decimal digit `d` (`str` of a one-digit number). */
  function DigitChar(d: nat): (c: char)
    requires d < 10
    ensures '0' <= c <= '9'
  {
    ('0' as int + d) as char
  }

  predicate IsDigit(c: char)
  {
    '0' <= c <= '9'
  }

  /** Python's `str(n)` for a non-negative `int`. */
  function Decimal(n: nat): (r: string)
    ensures r != [] && forall c :: c in r ==> IsDigit(c)
    ensures |r| == 1 || r[0] != '0'
    decreases n
  {
    if n < 10 then [DigitChar(n)] else Decimal(n / 10) + [DigitChar(n % 10)]
  }

  /** The number a non-empty string of digits denotes. */
  function DigitsValue(s: string): nat
    requires forall c :: c in s ==> IsDigit(c)
  {
    if s == [] then 0
    else
      assert s[|s| - 1] in s && IsDigit(s[|s| - 1]);
      DigitsValue(s[..|s| - 1]) * 10 + (s[|s| - 1] as int - '0' as int)
  }

  function ParseDecimal(s: string): (r: Option<nat>)
  {
    if s != [] && forall c :: c in s ==> IsDigit(c) then Some(DigitsValue(s)) else None
  }

  /** Reading back what `Decimal` writes gives the number again. */
  lemma {:induction false} DecimalRoundTrip(n: nat)
    ensures ParseDecimal(Decimal(n)) == Some(n)
    decreases n
  {
    var s := Decimal(n);
    if n < 10 {
      assert s[..|s| - 1] == [];
    } else {
      DecimalRoundTrip(n / 10);
      assert s[..|s| - 1] == Decimal(n / 10);
      assert DigitsValue(s) == (n / 10) * 10 + n % 10;
    }
  }

  const FolderApi: string := "https://www.mediafire.com/api/1.4/folder/"
  const QueryStart: string := ".php?r=utga&content_type="
  // The fixed parts after a spliced value start with the `&` that ends it.
  const AfterType: string := "&" + "filter=all&order_by=name&order_direction=asc&chunk="
  const AfterChunk: string := "&" + "version=1.5&folder_key="
  const ResponseFormat: string := "&" + "response_format=json"
  const FileApi: string := "https://www.mediafire.com/api/file/get_info.php?quick_key="

  /** `get_info` exactly when `info` is set. */
  function Operation(info: bool): string
  {
    if info then "get_info" else "get_content"
  }

  /**
   * `get_files_or_folders_api_endpoint(filefolder, folder_key, chunk, info)`.
   * When the spliced strings hold no `&`, the URL gives back all four
   * arguments it was built from.
   */
  function FolderEndpoint(contentType: string, folderKey: string, chunk: nat, info: bool): (u: string)
    ensures HasPrefix(u, FolderApi + Operation(info) + QueryStart)
  {
    FolderApi + (Operation(info) + QueryStart + Params(contentType, chunk, folderKey))
  }

  /** The query parameters after `content_type=`, in the order the f-string has them. */
  function Params(contentType: string, chunk: nat, folderKey: string): string
  {
    contentType + (AfterType + (Decimal(chunk) + (AfterChunk + (folderKey + ResponseFormat))))
  }

  /** `get_info_endpoint(file_key)`: the key between `quick_key=` and the response format. */
  function FileInfoEndpoint(fileKey: string): (u: string)
    ensures HasPrefix(u, FileApi) && |u| == |FileApi| + |fileKey| + |ResponseFormat|
    ensures u[|u| - |ResponseFormat|..] == ResponseFormat
    ensures u[|FileApi|..|u| - |ResponseFormat|] == fileKey
  {
    FileApi + (fileKey + ResponseFormat)
  }

  /** What a folder-API URL asks for. */
  datatype FolderQuery = FolderQuery(contentType: string, folderKey: string, chunk: nat, info: bool)

  /** Splits `s` before its first `&`. */
  function UpToAmp(s: string): (r: (string, string))
    ensures r.0 + r.1 == s && '&' !in r.0 && (r.1 == [] || r.1[0] == '&')
  {
    if s == [] || s[0] == '&' then ([], s)
    else
      var (a, b) := UpToAmp(s[1..]);
      assert [s[0]] + (a + b) == s;
      ([s[0]] + a, b)
  }

  /** Reads `AfterChunk + folderKey + ResponseFormat`. */
  function ParseKeyPart(u: string): Option<string>
  {
    if !HasPrefix(u, AfterChunk) then None
    else
      var (folderKey, rest) := UpToAmp(u[|AfterChunk|..]);
      if rest == ResponseFormat then Some(folderKey) else None
  }

  /** Reads `Decimal(chunk) + AfterChunk + folderKey + ResponseFormat`. */
  function ParseChunkPart(u: string): Option<(nat, string)>
  {
    var (digits, rest) := UpToAmp(u);
    match (ParseDecimal(digits), ParseKeyPart(rest))
    case (Some(chunk), Some(folderKey)) => Some((chunk, folderKey))
    case _ => None
  }

  /** Reads `contentType + AfterType + ...`, the part after the operation. */
  function ParseTypePart(u: string): Option<(string, nat, string)>
  {
    var (contentType, rest) := UpToAmp(u);
    if !HasPrefix(rest, AfterType) then None
    else
      match ParseChunkPart(rest[|AfterType|..])
      case Some((chunk, folderKey)) => Some((contentType, chunk, folderKey))
      case None => None
  }

  /** Reads the query parameters back out of a folder-API URL. */
  function ParseFolderEndpoint(u: string): Option<FolderQuery>
  {
    if !HasPrefix(u, FolderApi) then None
    else
      var u1 := u[|FolderApi|..];
      var info := HasPrefix(u1, Operation(true) + QueryStart);
      if !info && !HasPrefix(u1, Operation(false) + QueryStart) then None
      else
        match ParseTypePart(u1[|Operation(info) + QueryStart|..])
        case Some((contentType, chunk, folderKey)) => Some(FolderQuery(contentType, folderKey, chunk, info))
        case None => None
  }

  /** Reads the key back out of a file-info URL. */
  function ParseFileInfoEndpoint(u: string): Option<string>
  {
    if !HasPrefix(u, FileApi) then None
    else
      var (fileKey, rest) := UpToAmp(u[|FileApi|..]);
      if rest == ResponseFormat then Some(fileKey) else None
  }

  /** Splitting `a + b` at its first `&` when `a` has none and `b` starts with one. */
  lemma {:induction false} UpToAmpConcat(a: string, b: string)
    requires '&' !in a && b != [] && b[0] == '&'
    ensures UpToAmp(a + b) == (a, b)
  {
    if a != [] {
      assert a[0] in a;
      assert (a + b)[1..] == a[1..] + b;
      UpToAmpConcat(a[1..], b);
      assert [a[0]] + a[1..] == a;
    } else {
      assert a + b == b;
    }
  }

  /** The fixed parts that follow a spliced value each begin with `&`. */
  lemma Separators()
    ensures AfterType != [] && AfterType[0] == '&'
    ensures AfterChunk != [] && AfterChunk[0] == '&'
    ensures ResponseFormat != [] && ResponseFormat[0] == '&'
  {
  }

  lemma DropPrefix(a: string, b: string)
    ensures HasPrefix(a + b, a) && (a + b)[|a|..] == b
  {
  }

  /** The file-info URL determines the key it was built from. */
  lemma FileInfoRoundTrip(fileKey: string)
    requires '&' !in fileKey
    ensures ParseFileInfoEndpoint(FileInfoEndpoint(fileKey)) == Some(fileKey)
  {
    DropPrefix(FileApi, fileKey + ResponseFormat);
    UpToAmpConcat(fileKey, ResponseFormat);
  }

  lemma KeyPartRoundTrip(folderKey: string)
    requires '&' !in folderKey
    ensures ParseKeyPart(AfterChunk + (folderKey + ResponseFormat)) == Some(folderKey)
  {
    Separators();
    DropPrefix(AfterChunk, folderKey + ResponseFormat);
    UpToAmpConcat(folderKey, ResponseFormat);
  }

  lemma ChunkPartRoundTrip(chunk: nat, folderKey: string)
    requires '&' !in folderKey
    ensures ParseChunkPart(Decimal(chunk) + (AfterChunk + (folderKey + ResponseFormat)))
            == Some((chunk, folderKey))
  {
    var d := Decimal(chunk);
    Separators();
    assert '&' !in d;
    UpToAmpConcat(d, AfterChunk + (folderKey + ResponseFormat));
    DecimalRoundTrip(chunk);
    KeyPartRoundTrip(folderKey);
  }

  lemma TypePartRoundTrip(contentType: string, chunk: nat, folderKey: string)
    requires '&' !in contentType && '&' !in folderKey
    ensures ParseTypePart(Params(contentType, chunk, folderKey)) == Some((contentType, chunk, folderKey))
  {
    var rest := Decimal(chunk) + (AfterChunk + (folderKey + ResponseFormat));
    Separators();
    UpToAmpConcat(contentType, AfterType + rest);
    DropPrefix(AfterType, rest);
    ChunkPartRoundTrip(chunk, folderKey);
  }

  /** The two operations are told apart by their fifth character. */
  lemma OperationDistinct(info: bool, t: string)
    ensures HasPrefix(Operation(info) + QueryStart + t, Operation(true) + QueryStart) <==> info
  {
    if !info {
      assert (Operation(info) + QueryStart + t)[4] == 'c';
      assert (Operation(true) + QueryStart)[4] == 'i';
    }
  }

  /**
   * The folder-API URL determines all four arguments it was built from, so
   * `get_info` appears exactly when `info` is set and each of content type,
   * chunk and folder key is spliced in unaltered.
   */
  lemma FolderRoundTrip(contentType: string, folderKey: string, chunk: nat, info: bool)
    requires '&' !in contentType && '&' !in folderKey
    ensures ParseFolderEndpoint(FolderEndpoint(contentType, folderKey, chunk, info))
            == Some(FolderQuery(contentType, folderKey, chunk, info))
  {
    var t := Params(contentType, chunk, folderKey);
    var op := Operation(info) + QueryStart;
    DropPrefix(FolderApi, op + t);
    DropPrefix(op, t);
    OperationDistinct(info, t);
    TypePartRoundTrip(contentType, chunk, folderKey);
  }

  /** Distinct requests get distinct folder-API URLs. */
  lemma FolderEndpointInjective(c1: string, k1: string, n1: nat, i1: bool,
                                c2: string, k2: string, n2: nat, i2: bool)
    requires '&' !in c1 && '&' !in k1 && '&' !in c2 && '&' !in k2
    requires FolderEndpoint(c1, k1, n1, i1) == FolderEndpoint(c2, k2, n2, i2)
    ensures c1 == c2 && k1 == k2 && n1 == n2 && i1 == i2
  {
    FolderRoundTrip(c1, k1, n1, i1);
    FolderRoundTrip(c2, k2, n2, i2);
  }
}
