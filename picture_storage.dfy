/**
 * `PictureStorageService`: the three storage operations every backend offers, dispatched to
 * the file-system or the S3 backend, with the contract both honour stated on a value model of
 * the storage state.
 */
module PictureStorage {
  import opened Wrappers
  import opened PictureModel
  import opened FileTree
  import FileSystemStorage
  import AmazonS3Storage
  import S3Client

  /** The storage state a backend sees: a rooted file tree, or a bucket of an S3 account. */
  datatype StorageModel =
    | FsModel(root: Path, tree: Tree)
    | S3Model(bucketName: string, buckets: S3Client.Buckets)

  /** The file-system backend derives paths from the first four checksum characters. */
  predicate Accepts(m: StorageModel, picture: Picture)
  {
    m.S3Model? || |picture.checksum| >= 4
  }

  /** `savePictureFileItem`; `fault` is a client failure of the S3 call. */
  function SaveSpec(m: StorageModel, item: PictureFileItem, fault: Option<string>)
    : (r: (Outcome<ProcessingError>, StorageModel))
    requires Accepts(m, item.pictureItem)
    ensures r.1.FsModel? == m.FsModel?
    ensures r.1.FsModel? ==> r.1.root == m.root
    ensures r.1.S3Model? ==> r.1.bucketName == m.bucketName
  {
    match m
    case FsModel(root, tree) =>
      var (o, tree') := FileSystemStorage.SaveIn(root, tree, item);
      (o, FsModel(root, tree'))
    case S3Model(bucketName, buckets) =>
      var (o, buckets') := AmazonS3Storage.SaveTo(bucketName, buckets, item, fault);
      (o, S3Model(bucketName, buckets'))
  }

  /** `resolvePictureResource`. */
  function ResolveSpec(m: StorageModel, picture: Picture, fault: Option<string>)
    : (r: Result<Resource, ProcessingError>)
    requires Accepts(m, picture)
    ensures r.Success? && m.FsModel? ==> r.value.PathResource?
    ensures r.Success? && m.S3Model? ==> r.value.InputStreamResource?
  {
    match m
    case FsModel(root, _) => FileSystemStorage.ResolveIn(root, picture)
    case S3Model(bucketName, buckets) => AmazonS3Storage.ResolveFrom(bucketName, buckets, picture, fault)
  }

  /** `deletePictureFile`. */
  function DeleteSpec(m: StorageModel, picture: Picture, fault: Option<string>)
    : (r: (Outcome<ProcessingError>, StorageModel))
    requires Accepts(m, picture)
    ensures r.1.FsModel? == m.FsModel?
    ensures r.0.Fail? ==> r.1 == m
  {
    match m
    case FsModel(root, tree) =>
      var (o, tree') := FileSystemStorage.DeleteFrom(root, tree, picture);
      (o, FsModel(root, tree'))
    case S3Model(bucketName, buckets) =>
      var (o, buckets') := AmazonS3Storage.DeleteFrom(bucketName, buckets, picture, fault);
      (o, S3Model(bucketName, buckets'))
  }

  /** What reading a resource yields against the storage state; `None` when it cannot be read. */
  function ReadResource(m: StorageModel, res: Resource): Option<seq<byte>>
  {
    match res
    case InputStreamResource(content) => Some(content)
    case PathResource(p) => if m.FsModel? then ReadIn(m.tree, p) else None
  }

  /** The picture's content is held by the storage. */
  predicate Stored(m: StorageModel, picture: Picture)
    requires Accepts(m, picture)
  {
    match m
    case FsModel(root, tree) =>
      var located := FileSystemStorage.LocatePicture(root, picture);
      located.Success? && located.value in tree && tree[located.value].File?
    case S3Model(bucketName, buckets) =>
      bucketName in buckets && picture.checksum in buckets[bucketName]
  }

  /**
   * Resolving yields readable content exactly when the storage holds the picture; otherwise
   * either the resolve itself or the later read fails.
   */
  lemma ResolveReadsStored(m: StorageModel, picture: Picture)
    requires Accepts(m, picture)
    ensures (ResolveSpec(m, picture, None).Success?
             && ReadResource(m, ResolveSpec(m, picture, None).value).Some?)
            <==> Stored(m, picture)
  {
  }

  /**
   * The interface documents that resolving fails when the file is not found. The file-system
   * backend does not check: for a supported type it returns a path resource even when no file
   * is stored, and only the later read of that resource fails.
   */
  lemma FsResolveIgnoresMissingFile(root: Path, t: Tree, picture: Picture, fault: Option<string>)
    requires |picture.checksum| >= 4
    requires FileSystemStorage.LookupFileExtension(picture.mimeType).Success?
    requires !Stored(FsModel(root, t), picture)
    ensures ResolveSpec(FsModel(root, t), picture, fault).Success?
    ensures ReadResource(FsModel(root, t), ResolveSpec(FsModel(root, t), picture, fault).value).None?
  {
  }

  /** The S3 backend keeps the documented promise: without a fault, resolving succeeds iff the object is stored. */
  lemma S3ResolveFailsWhenMissing(bucketName: string, buckets: S3Client.Buckets, picture: Picture)
    ensures ResolveSpec(S3Model(bucketName, buckets), picture, None).Success?
      <==> Stored(S3Model(bucketName, buckets), picture)
  {
  }

  /** After a successful save, resolving the picture reads back exactly the saved bytes. */
  lemma SaveThenRead(m: StorageModel, item: PictureFileItem)
    requires Accepts(m, item.pictureItem)
    requires SaveSpec(m, item, None).0.Pass?
    ensures var m' := SaveSpec(m, item, None).1;
      && ResolveSpec(m', item.pictureItem, None).Success?
      && ReadResource(m', ResolveSpec(m', item.pictureItem, None).value) == Some(item.fileContent)
  {
    match m
    case FsModel(root, tree) =>
      FileSystemStorage.SaveThenResolve(root, tree, item);
    case S3Model(bucketName, buckets) =>
      AmazonS3Storage.SaveThenResolve(bucketName, buckets, item);
  }

  /** After a successful delete, the picture is no longer stored. */
  lemma DeleteThenGone(m: StorageModel, picture: Picture)
    requires Accepts(m, picture)
    requires DeleteSpec(m, picture, None).0.Pass?
    ensures !Stored(DeleteSpec(m, picture, None).1, picture)
  {
    match m
    case FsModel(root, tree) =>
    case S3Model(bucketName, buckets) =>
      AmazonS3Storage.DeleteRemovesOnlyChecksum(bucketName, buckets, picture);
  }

  /** A picture storage service: one of the two backends. */
  datatype PictureStorageService =
    | FileSystemBackend(fs: FileSystemStorage.FileSystemPictureStorageService)
    | AmazonS3Backend(s3: AmazonS3Storage.AmazonS3PictureStorageService)
  {
    /** The objects whose state the backend changes. */
    ghost function Repr(): set<object>
    {
      match this
      case FileSystemBackend(fs) => {fs.disk}
      case AmazonS3Backend(s3) => {s3.client}
    }

    /** The storage state the backend sees now. */
    function Model(): StorageModel
      reads Repr()
    {
      match this
      case FileSystemBackend(fs) => FsModel(fs.rootPath, fs.disk.tree)
      case AmazonS3Backend(s3) => S3Model(s3.bucketName, s3.client.buckets)
    }

    /** `deletePictureFile`. */
    method DeletePictureFile(picture: Picture, fault: Option<string>) returns (r: Outcome<ProcessingError>)
      requires Accepts(Model(), picture)
      modifies Repr()
      ensures (r, Model()) == DeleteSpec(old(Model()), picture, fault)
    {
      match this
      case FileSystemBackend(fs) =>
        r := fs.DeletePictureFile(picture);
      case AmazonS3Backend(s3) =>
        r := s3.DeletePictureFile(picture, fault);
    }

    /** `resolvePictureResource`. */
    method ResolvePictureResource(picture: Picture, fault: Option<string>) returns (r: Result<Resource, ProcessingError>)
      requires Accepts(Model(), picture)
      ensures r == ResolveSpec(Model(), picture, fault)
    {
      match this
      case FileSystemBackend(fs) =>
        r := fs.ResolvePictureResource(picture);
      case AmazonS3Backend(s3) =>
        r := s3.ResolvePictureResource(picture, fault);
    }

    /** `savePictureFileItem`. */
    method SavePictureFileItem(item: PictureFileItem, fault: Option<string>) returns (r: Outcome<ProcessingError>)
      requires Accepts(Model(), item.pictureItem)
      modifies Repr()
      ensures (r, Model()) == SaveSpec(old(Model()), item, fault)
    {
      match this
      case FileSystemBackend(fs) =>
        r := fs.SavePictureFileItem(item);
      case AmazonS3Backend(s3) =>
        r := s3.SavePictureFileItem(item, fault);
    }
  }
}
