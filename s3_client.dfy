/**
 * The part of the Amazon S3 client the storage service uses, over an in-memory store of
 * buckets. A transport failure of a call is given as `fault`.
 */
module S3Client {
  import opened Wrappers
  import opened PictureModel

  /** The values an `ObjectMetadata` carries once filled in. */
  datatype Metadata = Metadata(contentType: Option<string>, contentLength: int)

  datatype S3Object = S3Object(content: seq<byte>, metadata: Metadata)

  type Bucket = map<string, S3Object>

  /** Every bucket of the account, by name. */
  type Buckets = map<string, Bucket>

  /** `putObject(bucket, key, stream, metadata)`: adds or replaces the object under `key`. */
  function PutIn(s: Buckets, bucket: string, key: string, obj: S3Object, fault: Option<string>)
    : (r: Result<Buckets, ClientError>)
    ensures r.Success? <==> fault.None? && bucket in s
    ensures r.Success? ==> r.value == s[bucket := s[bucket][key := obj]]
  {
    if fault.Some? then Failure(TransportFailure(fault.value))
    else if bucket !in s then Failure(NoSuchBucket(bucket))
    else Success(s[bucket := s[bucket][key := obj]])
  }

  /** `getObject(bucket, key)`: a missing bucket or key is an error. */
  function GetIn(s: Buckets, bucket: string, key: string, fault: Option<string>)
    : (r: Result<S3Object, ClientError>)
    ensures r.Success? <==> fault.None? && bucket in s && key in s[bucket]
    ensures r.Success? ==> r.value == s[bucket][key]
  {
    if fault.Some? then Failure(TransportFailure(fault.value))
    else if bucket !in s then Failure(NoSuchBucket(bucket))
    else if key !in s[bucket] then Failure(NoSuchKey(bucket, key))
    else Success(s[bucket][key])
  }

  /** `deleteObject(bucket, key)`: removing a missing key succeeds, as S3 does. */
  function DeleteIn(s: Buckets, bucket: string, key: string, fault: Option<string>)
    : (r: Result<Buckets, ClientError>)
    ensures r.Success? <==> fault.None? && bucket in s
    ensures r.Success? ==> r.value == s[bucket := s[bucket] - {key}]
  {
    if fault.Some? then Failure(TransportFailure(fault.value))
    else if bucket !in s then Failure(NoSuchBucket(bucket))
    else Success(s[bucket := s[bucket] - {key}])
  }

  /** The store after a call: the new one on success, the old one on failure. */
  function After(s: Buckets, r: Result<Buckets, ClientError>): Buckets
  {
    match r
    case Success(s') => s'
    case Failure(_) => s
  }

  /** `com.amazonaws.services.s3.model.ObjectMetadata`, filled through its setters. */
  class ObjectMetadata {
    var contentLength: int
    var contentType: Option<string>

    constructor ()
      ensures contentLength == 0 && contentType == None
    {
      contentLength := 0;
      contentType := None;
    }

    method SetContentLength(n: int)
      modifies this
      ensures contentLength == n && contentType == old(contentType)
    {
      contentLength := n;
    }

    method SetContentType(t: Option<string>)
      modifies this
      ensures contentType == t && contentLength == old(contentLength)
    {
      contentType := t;
    }

    function Value(): Metadata
      reads this
    {
      Metadata(contentType, contentLength)
    }
  }

  /** The S3 service as the client reaches it. */
  class AmazonS3 {
    var buckets: Buckets

    constructor (initial: Buckets)
      ensures buckets == initial
    {
      buckets := initial;
    }

    method PutObject(bucket: string, key: string, content: seq<byte>, metadata: ObjectMetadata, fault: Option<string>)
      returns (r: Outcome<ClientError>)
      modifies this
      ensures var put := PutIn(old(buckets), bucket, key, S3Object(content, metadata.Value()), fault);
        && buckets == After(old(buckets), put)
        && r == (if put.Success? then Pass else Fail(put.error))
    {
      var put := PutIn(buckets, bucket, key, S3Object(content, metadata.Value()), fault);
      buckets := After(buckets, put);
      r := if put.Success? then Pass else Fail(put.error);
    }

    method GetObject(bucket: string, key: string, fault: Option<string>) returns (r: Result<S3Object, ClientError>)
      ensures r == GetIn(buckets, bucket, key, fault)
    {
      r := GetIn(buckets, bucket, key, fault);
    }

    method DeleteObject(bucket: string, key: string, fault: Option<string>) returns (r: Outcome<ClientError>)
      modifies this
      ensures var del := DeleteIn(old(buckets), bucket, key, fault);
        && buckets == After(old(buckets), del)
        && r == (if del.Success? then Pass else Fail(del.error))
    {
      var del := DeleteIn(buckets, bucket, key, fault);
      buckets := After(buckets, del);
      r := if del.Success? then Pass else Fail(del.error);
    }
  }
}
