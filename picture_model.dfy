/**
 * The values that travel through the picture storage: the picture metadata record,
 * the upload transport item and the errors the storage services raise.
 */
module PictureModel {
  import opened Wrappers

  /** A Java `byte` of uploaded content, as its unsigned value. */
  newtype byte = x: int | 0 <= x < 256

  /** A `java.time.Instant`, as milliseconds since the epoch. */
  type Instant = int

  /**
   * The picture metadata record. `checksum` is its identity. `fileName` and `directory`
   * are the fields the legacy storage path reads; `null` fields are `None`.
   */
  datatype Picture = Picture(
    checksum: string,
    mimeType: Option<string>,
    fileName: Option<string>,
    directory: Option<string>,
    loadedAt: Option<Instant>)

  /** A picture built by the no-argument constructor followed by `setChecksum`. */
  function PictureWithChecksum(checksum: string): (p: Picture)
    ensures p.checksum == checksum
    ensures p.mimeType == None && p.fileName == None && p.directory == None && p.loadedAt == None
  {
    Picture(checksum, None, None, None, None)
  }

  /** Transport item between an upload and its metadata: the record plus the raw bytes. */
  datatype PictureFileItem = PictureFileItem(pictureItem: Picture, fileContent: seq<byte>)

  /**
   * A Spring `Resource` handed back to the web layer: a `PathResource` over a file, read
   * when the response is written, or an `InputStreamResource` over downloaded bytes.
   */
  datatype Resource = PathResource(path: seq<string>) | InputStreamResource(content: seq<byte>)

  /** The `IOException` kinds `java.nio.file.Files` raises on the modelled tree. */
  datatype IoError =
    | NoSuchFile(path: seq<string>)
    | NotDirectory(path: seq<string>)
    | IsADirectory(path: seq<string>)
    | DirectoryNotEmpty(path: seq<string>)

  /** The `SdkClientException` kinds the S3 client raises. */
  datatype ClientError =
    | NoSuchBucket(bucketName: string)
    | NoSuchKey(bucketName: string, key: string)
    | TransportFailure(cause: string)

  /**
   * `PictureFileProcessingException`, one constructor per place it is thrown,
   * each keeping the underlying cause.
   */
  datatype ProcessingError =
    | DirectoryCreationFailed(ioCause: IoError)
    | RecordingFailed(ioCause: IoError)
    | DeletingFailed(ioCause: IoError)
    | UnsupportedMediaType(hint: Option<string>)
    | ClientFailure(clientCause: ClientError)

  /** What Java's string concatenation prints for a possibly-null string. */
  function JavaText(s: Option<string>): string
  {
    match s
    case Some(v) => v
    case None => "null"
  }

  /**
   * The exception message of each kind of processing error raised with a fixed text.
   * A wrapped client error has the cause's own description as its message.
   */
  function Message(e: ProcessingError): (m: string)
    requires !e.ClientFailure?
    ensures e.UnsupportedMediaType? ==> m == "Unsupported media type: " + JavaText(e.hint)
  {
    match e
    case DirectoryCreationFailed(_) => "Creation of directory failed"
    case RecordingFailed(_) => "Recording of picture file failed"
    case DeletingFailed(_) => "Deleting of file failed"
    case UnsupportedMediaType(hint) => "Unsupported media type: " + JavaText(hint)
  }
}
