/**
 * The Amazon S3 picture storage: each picture is the object keyed by its checksum in one
 * bucket fixed at construction, carrying its MIME type and byte count as metadata.
 */
module AmazonS3Storage {
  import opened Wrappers
  import opened PictureModel
  import opened S3Client

  /** The object a saved item becomes. */
  function StoredObject(item: PictureFileItem): (o: S3Object)
    ensures o.content == item.fileContent
    ensures o.metadata.contentType == item.pictureItem.mimeType
    ensures o.metadata.contentLength == |item.fileContent|
  {
    S3Object(item.fileContent, Metadata(item.pictureItem.mimeType, |item.fileContent|))
  }

  /** Every object outside `bucket`/`key` is the same in both stores, as are the bucket names. */
  ghost predicate SameExcept(s: Buckets, s': Buckets, bucket: string, key: string)
  {
    && (forall b :: b in s <==> b in s')
    && (forall b, k :: b in s && k in s[b] && (b != bucket || k != key) ==> k in s'[b] && s'[b][k] == s[b][k])
    && (forall b, k :: b in s' && k in s'[b] && (b != bucket || k != key) ==> k in s[b])
  }

  /** Saving an item: one put of its object under its checksum. */
  function SaveTo(bucketName: string, s: Buckets, item: PictureFileItem, fault: Option<string>)
    : (r: (Outcome<ProcessingError>, Buckets))
    ensures r.0.Pass? <==> fault.None? && bucketName in s
    ensures r.0.Fail? ==> r.1 == s && r.0.error.ClientFailure?
  {
    match PutIn(s, bucketName, item.pictureItem.checksum, StoredObject(item), fault)
    case Failure(e) => (Fail(ClientFailure(e)), s)
    case Success(s') => (Pass, s')
  }

  /** Resolving a picture downloads the object under its checksum. */
  function ResolveFrom(bucketName: string, s: Buckets, picture: Picture, fault: Option<string>)
    : (r: Result<Resource, ProcessingError>)
    ensures r.Success? <==> fault.None? && bucketName in s && picture.checksum in s[bucketName]
    ensures r.Success? ==> r.value == InputStreamResource(s[bucketName][picture.checksum].content)
    ensures r.Failure? ==> r.error.ClientFailure?
  {
    match GetIn(s, bucketName, picture.checksum, fault)
    case Failure(e) => Failure(ClientFailure(e))
    case Success(o) => Success(InputStreamResource(o.content))
  }

  /** Deleting a picture removes the object under its checksum. */
  function DeleteFrom(bucketName: string, s: Buckets, picture: Picture, fault: Option<string>)
    : (r: (Outcome<ProcessingError>, Buckets))
    ensures r.0.Pass? <==> fault.None? && bucketName in s
    ensures r.0.Fail? ==> r.1 == s && r.0.error.ClientFailure?
  {
    match DeleteIn(s, bucketName, picture.checksum, fault)
    case Failure(e) => (Fail(ClientFailure(e)), s)
    case Success(s') => (Pass, s')
  }

  /**
   * A successful save puts exactly the uploaded bytes, with the MIME type and byte count as
   * metadata, under the key `checksum` of the configured bucket, and changes no other object.
   */
  lemma SaveStoresUnderChecksum(bucketName: string, s: Buckets, item: PictureFileItem)
    requires bucketName in s
    ensures var r := SaveTo(bucketName, s, item, None);
      && r.0.Pass?
      && bucketName in r.1 && item.pictureItem.checksum in r.1[bucketName]
      && r.1[bucketName][item.pictureItem.checksum].content == item.fileContent
      && r.1[bucketName][item.pictureItem.checksum].metadata == Metadata(item.pictureItem.mimeType, |item.fileContent|)
      && SameExcept(s, r.1, bucketName, item.pictureItem.checksum)
  {
  }

  /** Resolving after a save returns the saved content unchanged. */
  lemma SaveThenResolve(bucketName: string, s: Buckets, item: PictureFileItem)
    requires SaveTo(bucketName, s, item, None).0.Pass?
    ensures ResolveFrom(bucketName, SaveTo(bucketName, s, item, None).1, item.pictureItem, None)
      == Success(InputStreamResource(item.fileContent))
  {
  }

  /**
   * A successful delete removes exactly the object under `checksum`; resolving afterwards
   * fails with a missing-key error.
   */
  lemma DeleteRemovesOnlyChecksum(bucketName: string, s: Buckets, picture: Picture)
    requires bucketName in s
    ensures var r := DeleteFrom(bucketName, s, picture, None);
      && r.0.Pass?
      && bucketName in r.1 && picture.checksum !in r.1[bucketName]
      && SameExcept(s, r.1, bucketName, picture.checksum)
      && ResolveFrom(bucketName, r.1, picture, None)
         == Failure(ClientFailure(NoSuchKey(bucketName, picture.checksum)))
  {
  }

  /** Deleting a key that is not there succeeds and changes nothing. */
  lemma DeleteMissingKey(bucketName: string, s: Buckets, picture: Picture)
    requires bucketName in s && picture.checksum !in s[bucketName]
    ensures DeleteFrom(bucketName, s, picture, None) == (Pass, s)
  {
    assert s[bucketName] - {picture.checksum} == s[bucketName];
    assert s[bucketName := s[bucketName]] == s;
  }

  /** A client failure in any operation surfaces as a processing error wrapping that cause. */
  lemma FailuresWrapTheCause(bucketName: string, s: Buckets, item: PictureFileItem, picture: Picture, cause: string)
    ensures SaveTo(bucketName, s, item, Some(cause)) == (Fail(ClientFailure(TransportFailure(cause))), s)
    ensures ResolveFrom(bucketName, s, picture, Some(cause)) == Failure(ClientFailure(TransportFailure(cause)))
    ensures DeleteFrom(bucketName, s, picture, Some(cause)) == (Fail(ClientFailure(TransportFailure(cause))), s)
    ensures bucketName !in s ==>
      SaveTo(bucketName, s, item, None) == (Fail(ClientFailure(NoSuchBucket(bucketName))), s)
  {
  }

  /** `AmazonS3PictureStorageService`: a client and the bucket name every call uses. */
  class AmazonS3PictureStorageService {
    const client: AmazonS3
    const bucketName: string

    constructor (client: AmazonS3, bucketName: string)
      ensures this.client == client && this.bucketName == bucketName
    {
      this.client := client;
      this.bucketName := bucketName;
    }

    /** `deletePictureFile`: one delete of the key `checksum` in the bucket. */
    method DeletePictureFile(picture: Picture, fault: Option<string>) returns (r: Outcome<ProcessingError>)
      modifies client
      ensures (r, client.buckets) == DeleteFrom(bucketName, old(client.buckets), picture, fault)
    {
      var deleted := client.DeleteObject(bucketName, picture.checksum, fault);
      if deleted.Fail? {
        return Fail(ClientFailure(deleted.error));
      }
      return Pass;
    }

    /** `resolvePictureResource`: the content of the object under `checksum`. */
    method ResolvePictureResource(picture: Picture, fault: Option<string>) returns (r: Result<Resource, ProcessingError>)
      ensures r == ResolveFrom(bucketName, client.buckets, picture, fault)
    {
      var got := client.GetObject(bucketName, picture.checksum, fault);
      if got.Failure? {
        return Failure(ClientFailure(got.error));
      }
      return Success(InputStreamResource(got.value.content));
    }

    /** `savePictureFileItem`: fill the metadata, then put the bytes under `checksum`. */
    method SavePictureFileItem(item: PictureFileItem, fault: Option<string>) returns (r: Outcome<ProcessingError>)
      modifies client
      ensures (r, client.buckets) == SaveTo(bucketName, old(client.buckets), item, fault)
    {
      var metadata := new ObjectMetadata();
      metadata.SetContentLength(|item.fileContent|);
      metadata.SetContentType(item.pictureItem.mimeType);
      var put := client.PutObject(bucketName, item.pictureItem.checksum, item.fileContent, metadata, fault);
      if put.Fail? {
        return Fail(ClientFailure(put.error));
      }
      return Pass;
    }
  }
}
