/** Values shared by every part of the downloader model. */
module Common {

  datatype Option<+T> = None | Some(value: T)

  /** One byte of a downloaded or local file. */
  newtype byte = x: int | 0 <= x < 256

  /**
   * One entry of a folder's `files` listing (or the `file_info` of a single
   * file): the remote name, the hex content hash the service reports and the
   * `links.normal_download` URL. The size is never read by the downloader.
   */
  datatype FileEntry = FileEntry(filename: string, hash: string, normalDownload: string)

  /** `s` begins with `p`. */
  predicate HasPrefix(s: string, p: string)
  {
    |p| <= |s| && s[..|p|] == p
  }

  /** An ASCII letter or digit: the character class `[a-zA-Z0-9]`. */
  predicate IsAsciiAlnum(c: char)
  {
    ('a' <= c <= 'z') || ('A' <= c <= 'Z') || ('0' <= c <= '9')
  }
}
