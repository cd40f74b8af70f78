/**
 * `MultiPartFileToPictureFileItemConverter`: turns an uploaded part into a picture file item
 * named after the SHA-256 digest of its content.
 */
module Converter {
  import opened Wrappers
  import opened PictureModel
  import FileSystemStorage
  import FileTree

  /** Lower-case hexadecimal text of a 256-bit digest, as Guava's `HashCode.toString()` gives. */
  predicate IsLowerHexDigest(s: string)
  {
    |s| == 64 && forall i :: 0 <= i < |s| ==> s[i] in "0123456789abcdef"
  }

  function Zeros(n: nat): (s: string)
    ensures |s| == n && forall i :: 0 <= i < n ==> s[i] == '0'
  {
    if n == 0 then "" else Zeros(n - 1) + "0"
  }

  /**
   * `Hashing.sha256().hashBytes(b).toString()`: any deterministic function from bytes to a
   * 64-character lower-case hex digest.
   */
  type Sha256Hex = f: seq<byte> -> string | forall b :: IsLowerHexDigest(f(b))
    witness (b: seq<byte>) => Zeros(64)

  /**
   * An uploaded `MultipartFile`: its declared content type, its bytes, and whether reading the
   * bytes raises an `IOException`.
   */
  datatype MultipartFile = MultipartFile(contentType: Option<string>, content: seq<byte>, readFails: bool)

  /** `MultipartFile.isEmpty()`. */
  predicate IsEmpty(source: MultipartFile)
  {
    |source.content| == 0
  }

  /**
   * `convert`: `null` for an empty upload or a failed read; otherwise the content with a record
   * keyed by its digest, the first four digest characters as directory and the digest plus
   * `.jpg` as file name, loaded at `now`. The record is built without a MIME type.
   */
  function Convert(source: MultipartFile, sha256: Sha256Hex, now: Instant): (r: Option<PictureFileItem>)
    ensures r.None? <==> IsEmpty(source) || source.readFails
    ensures r.Some? ==> r.value.fileContent == source.content
    ensures r.Some? ==> var p := r.value.pictureItem;
      && p.checksum == sha256(source.content)
      && IsLowerHexDigest(p.checksum)
      && p.directory == Some(p.checksum[..4])
      && p.fileName == Some(p.checksum + ".jpg")
      && p.mimeType == None
      && p.loadedAt == Some(now)
  {
    if IsEmpty(source) then None
    else if source.readFails then None
    else
      var checksum := sha256(source.content);
      assert IsLowerHexDigest(checksum);
      Some(PictureFileItem(Picture(checksum, None, Some(checksum + ".jpg"), Some(checksum[..4]), Some(now)), source.content))
  }

  /**
   * Conversion is content-addressed: two uploads with the same bytes get the same checksum,
   * directory and file name, whatever their declared content types and whenever they arrive.
   */
  lemma SameContentSameName(a: MultipartFile, b: MultipartFile, sha256: Sha256Hex, t1: Instant, t2: Instant)
    requires Convert(a, sha256, t1).Some? && Convert(b, sha256, t2).Some?
    requires a.content == b.content
    ensures var p, q := Convert(a, sha256, t1).value.pictureItem, Convert(b, sha256, t2).value.pictureItem;
      p.checksum == q.checksum && p.directory == q.directory && p.fileName == q.fileName
  {
  }

  /**
   * A converted item fits the file-system layout: its checksum is long enough to shard and
   * its directory is the last name of the shard directory the storage derives.
   */
  lemma ConvertedItemFitsShard(source: MultipartFile, sha256: Sha256Hex, now: Instant, root: seq<string>)
    requires Convert(source, sha256, now).Some?
    ensures var p := Convert(source, sha256, now).value.pictureItem;
      && |p.checksum| >= 4
      && FileSystemStorage.ShardDirectory(root, p.checksum) == root + [p.directory.value]
  {
  }

  /**
   * Because the record carries no MIME type, the file-system backend finds no extension for a
   * converted item and never stores it, whatever the upload declared: the save fails for the
   * missing type, unless creating the shard directory failed first.
   */
  lemma FileSystemBackendRefusesConvertedItem(source: MultipartFile, sha256: Sha256Hex, now: Instant,
                                              root: seq<string>, t: FileTree.Tree)
    requires Convert(source, sha256, now).Some?
    ensures var outcome := FileSystemStorage.SaveIn(root, t, Convert(source, sha256, now).value).0;
      outcome.Fail? && (outcome.error == UnsupportedMediaType(None) || outcome.error.DirectoryCreationFailed?)
  {
    var item := Convert(source, sha256, now).value;
    assert item.pictureItem.mimeType == None && |item.pictureItem.checksum| >= 4;
    assert FileSystemStorage.LookupFileExtension(None).Failure?;
    FileSystemStorage.UnsupportedTypeWritesNoFile(root, t, item);
  }
}
