/**
 * The file-system picture storage: each picture lives at
 * `root/<first four checksum characters>/<checksum>.<extension>`, the extension coming from
 * a closed table of image MIME types.
 */
module FileSystemStorage {
  import opened Wrappers
  import opened PictureModel
  import opened FileTree

  /** The supported MIME types and the file extension of each. */
  const MIME_TYPES_MAP: map<string, string> :=
    map["image/jpeg" := "jpg", "image/png" := "png", "image/gif" := "gif", "image/bmp" := "bmp"]

  /** The extension for a MIME type hint; any other hint, `null` included, is unsupported. */
  function LookupFileExtension(hint: Option<string>): (r: Result<string, ProcessingError>)
    ensures r.Success? <==> hint.Some? && hint.value in MIME_TYPES_MAP
    ensures r.Success? ==> r.value == MIME_TYPES_MAP[hint.value]
    ensures r.Failure? ==> r.error == UnsupportedMediaType(hint)
  {
    if hint.Some? && hint.value in MIME_TYPES_MAP then Success(MIME_TYPES_MAP[hint.value])
    else Failure(UnsupportedMediaType(hint))
  }

  /** The shard directory of a checksum: the root resolved against its first four characters. */
  function ShardDirectory(root: Path, checksum: string): (d: Path)
    requires |checksum| >= 4
    ensures |d| == |root| + 1 && d[..|root|] == root && d[|root|] == checksum[..4]
  {
    Resolve(root, checksum[..4])
  }

  /** The file of a checksum with a given extension: `<checksum>.<ext>` inside its shard. */
  function PictureFilePath(root: Path, checksum: string, ext: string): (p: Path)
    requires |checksum| >= 4
    ensures |p| == |root| + 2 && p[..|root| + 1] == ShardDirectory(root, checksum)
    ensures p[|root| + 1] == checksum + "." + ext
  {
    Resolve(ShardDirectory(root, checksum), checksum + "." + ext)
  }

  /** The file a picture record designates, or the unsupported-type error. */
  function LocatePicture(root: Path, picture: Picture): (r: Result<Path, ProcessingError>)
    requires |picture.checksum| >= 4
    ensures r.Success? <==> LookupFileExtension(picture.mimeType).Success?
    ensures r.Success? ==>
      r.value == PictureFilePath(root, picture.checksum, MIME_TYPES_MAP[picture.mimeType.value])
    ensures r.Failure? ==> r.error == UnsupportedMediaType(picture.mimeType)
  {
    var ext :- LookupFileExtension(picture.mimeType);
    Success(PictureFilePath(root, picture.checksum, ext))
  }

  /**
   * Saving an item: the shard directory is created when no entry exists at its path, then the
   * extension is looked up, then the bytes are written. Returns the outcome and the new tree.
   */
  function SaveIn(root: Path, t: Tree, item: PictureFileItem): (r: (Outcome<ProcessingError>, Tree))
    requires |item.pictureItem.checksum| >= 4
    ensures r.0.Fail? && r.0.error.DirectoryCreationFailed? ==>
      !Present(t, ShardDirectory(root, item.pictureItem.checksum)) && r.1 == t
    ensures r.0.Fail? && r.0.error.UnsupportedMediaType? ==>
      r.0.error.hint == item.pictureItem.mimeType && !(item.pictureItem.mimeType.Some? && item.pictureItem.mimeType.value in MIME_TYPES_MAP)
    ensures r.0.Pass? ==> LocatePicture(root, item.pictureItem).Success?
    ensures r.0.Pass? ==> ReadIn(r.1, LocatePicture(root, item.pictureItem).value) == Some(item.fileContent)
    ensures r.0.Pass? ==> IsDirectory(r.1, ShardDirectory(root, item.pictureItem.checksum))
  {
    var checksum := item.pictureItem.checksum;
    var dir := ShardDirectory(root, checksum);
    var created := EnsureDirectory(t, dir);
    if created.Failure? then (Fail(DirectoryCreationFailed(created.error)), t)
    else
      var ext := LookupFileExtension(item.pictureItem.mimeType);
      if ext.Failure? then (Fail(ext.error), created.value)
      else
        var written := WriteIn(created.value, Resolve(dir, checksum + "." + ext.value), item.fileContent);
        if written.Failure? then (Fail(RecordingFailed(written.error)), created.value)
        else (Pass, written.value)
  }

  /** Resolving a picture designates its file; nothing is read until the resource is. */
  function ResolveIn(root: Path, picture: Picture): (r: Result<Resource, ProcessingError>)
    requires |picture.checksum| >= 4
    ensures r.Success? <==> LocatePicture(root, picture).Success?
    ensures r.Success? ==> r.value == PathResource(LocatePicture(root, picture).value)
    ensures r.Failure? ==> r.error == UnsupportedMediaType(picture.mimeType)
  {
    var path :- LocatePicture(root, picture);
    Success(PathResource(path))
  }

  /** Deleting a picture removes its file; a missing file is an error. */
  function DeleteFrom(root: Path, t: Tree, picture: Picture): (r: (Outcome<ProcessingError>, Tree))
    requires |picture.checksum| >= 4
    ensures r.0.Pass? <==> LocatePicture(root, picture).Success? && DeleteIn(t, LocatePicture(root, picture).value).Success?
    ensures r.0.Pass? ==> r.1 == t - {LocatePicture(root, picture).value}
    ensures r.0.Fail? ==> r.1 == t
    ensures r.0.Fail? ==> r.0.error.UnsupportedMediaType? || r.0.error.DeletingFailed?
  {
    match LocatePicture(root, picture)
    case Failure(e) => (Fail(e), t)
    case Success(path) =>
      match DeleteIn(t, path)
      case Failure(e) => (Fail(DeletingFailed(e)), t)
      case Success(t') => (Pass, t')
  }

  /** The extension table is closed: exactly the four image types have an extension. */
  lemma LookupIsClosed(hint: Option<string>)
    ensures LookupFileExtension(hint).Success? <==>
      hint in {Some("image/jpeg"), Some("image/png"), Some("image/gif"), Some("image/bmp")}
    ensures LookupFileExtension(hint).Success? ==> LookupFileExtension(hint).value in {"jpg", "png", "gif", "bmp"}
    ensures LookupFileExtension(hint).Failure? ==>
      Message(LookupFileExtension(hint).error) == "Unsupported media type: " + JavaText(hint)
  {
  }

  /** An existing shard directory is reused: saving never reports a directory error then. */
  lemma ExistingShardIsReused(root: Path, t: Tree, item: PictureFileItem)
    requires |item.pictureItem.checksum| >= 4
    requires IsDirectory(t, ShardDirectory(root, item.pictureItem.checksum))
    ensures !(SaveIn(root, t, item).0.Fail? && SaveIn(root, t, item).0.error.DirectoryCreationFailed?)
  {
  }

  /**
   * Below a gallery root that is a directory, a missing shard is created as exactly one new
   * directory, so saving never reports a directory error there.
   */
  lemma ShardCreatedBelowRoot(root: Path, t: Tree, item: PictureFileItem)
    requires |item.pictureItem.checksum| >= 4
    requires WellFormed(t) && IsDirectory(t, root)
    requires !Present(t, ShardDirectory(root, item.pictureItem.checksum))
    ensures CreateDirectoriesIn(t, ShardDirectory(root, item.pictureItem.checksum))
      == Success(t[ShardDirectory(root, item.pictureItem.checksum) := Dir])
    ensures !(SaveIn(root, t, item).0.Fail? && SaveIn(root, t, item).0.error.DirectoryCreationFailed?)
  {
    CreateBelowDirectory(t, root, item.pictureItem.checksum[..4]);
  }

  /**
   * When the shard path is a regular file, directory creation is skipped because the path
   * exists, and the write below it fails: nothing changes and a recording error is reported.
   */
  lemma ShardIsRegularFile(root: Path, t: Tree, item: PictureFileItem)
    requires |item.pictureItem.checksum| >= 4
    requires var dir := ShardDirectory(root, item.pictureItem.checksum); dir in t && t[dir].File?
    requires LookupFileExtension(item.pictureItem.mimeType).Success?
    ensures SaveIn(root, t, item)
      == (Fail(RecordingFailed(NotDirectory(ShardDirectory(root, item.pictureItem.checksum)))), t)
  {
    var checksum := item.pictureItem.checksum;
    var dir := ShardDirectory(root, checksum);
    var ext := LookupFileExtension(item.pictureItem.mimeType).value;
    assert Resolve(dir, checksum + "." + ext)[..|dir|] == dir;
  }

  /** When the target file path is a directory, saving fails with a recording error. */
  lemma TargetIsDirectory(root: Path, t: Tree, item: PictureFileItem)
    requires |item.pictureItem.checksum| >= 4
    requires LocatePicture(root, item.pictureItem).Success?
    requires var p := LocatePicture(root, item.pictureItem).value; p in t && t[p].Dir?
    requires IsDirectory(t, ShardDirectory(root, item.pictureItem.checksum))
    ensures SaveIn(root, t, item)
      == (Fail(RecordingFailed(IsADirectory(LocatePicture(root, item.pictureItem).value))), t)
  {
    var p := LocatePicture(root, item.pictureItem).value;
    assert p[..|p| - 1] == ShardDirectory(root, item.pictureItem.checksum);
  }

  /**
   * An unsupported MIME type fails before anything is written: the tree differs from the
   * old one at most by the shard directories created first, and no file changes.
   */
  lemma UnsupportedTypeWritesNoFile(root: Path, t: Tree, item: PictureFileItem)
    requires |item.pictureItem.checksum| >= 4
    requires LookupFileExtension(item.pictureItem.mimeType).Failure?
    ensures SaveIn(root, t, item).0 == Fail(UnsupportedMediaType(item.pictureItem.mimeType))
      || SaveIn(root, t, item).0.error.DirectoryCreationFailed?
    ensures forall q :: q in SaveIn(root, t, item).1 && q !in t ==> SaveIn(root, t, item).1[q] == Dir
    ensures forall q :: q in t ==> q in SaveIn(root, t, item).1 && SaveIn(root, t, item).1[q] == t[q]
  {
    var dir := ShardDirectory(root, item.pictureItem.checksum);
    if !Present(t, dir) && CreateDirectoriesIn(t, dir).Success? {
      CreatedEntriesAreDirectories(t, dir, 0);
    }
  }

  /** `Files.createDirectories` adds nothing but directories. */
  lemma {:induction false} CreatedEntriesAreDirectories(t: Tree, p: Path, i: nat)
    requires i <= |p|
    requires i == 0 || (p[..i] in t && t[p[..i]].Dir?)
    requires CreateFrom(t, p, i).Success?
    ensures forall q :: q in CreateFrom(t, p, i).value && q !in t ==> CreateFrom(t, p, i).value[q] == Dir
    decreases |p| - i
  {
    if i < |p| {
      var q := p[..i + 1];
      if q !in t {
        CreatedEntriesAreDirectories(t[q := Dir], p, i + 1);
      } else {
        CreatedEntriesAreDirectories(t, p, i + 1);
      }
    }
  }

  /** Saving changes no entry except the picture's file (any new shard is a new entry). */
  lemma SaveChangesOnlyTheFile(root: Path, t: Tree, item: PictureFileItem)
    requires |item.pictureItem.checksum| >= 4
    requires SaveIn(root, t, item).0.Pass?
    ensures forall q :: q in t && q != LocatePicture(root, item.pictureItem).value ==>
      q in SaveIn(root, t, item).1 && SaveIn(root, t, item).1[q] == t[q]
  {
  }

  /** Resolving designates exactly the path saving writes to, and reading it gives the bytes. */
  lemma SaveThenResolve(root: Path, t: Tree, item: PictureFileItem)
    requires |item.pictureItem.checksum| >= 4
    requires SaveIn(root, t, item).0.Pass?
    ensures ResolveIn(root, item.pictureItem).Success?
    ensures var res := ResolveIn(root, item.pictureItem).value;
      res.PathResource? && ReadIn(SaveIn(root, t, item).1, res.path) == Some(item.fileContent)
  {
  }

  /** Saving the same item again succeeds and leaves the tree as the first save left it. */
  lemma SaveIsIdempotent(root: Path, t: Tree, item: PictureFileItem)
    requires |item.pictureItem.checksum| >= 4
    requires SaveIn(root, t, item).0.Pass?
    ensures SaveIn(root, SaveIn(root, t, item).1, item) == SaveIn(root, t, item)
  {
    var t1 := SaveIn(root, t, item).1;
    var p := LocatePicture(root, item.pictureItem).value;
    assert p[..|p| - 1] == ShardDirectory(root, item.pictureItem.checksum);
    assert t1[p := File(item.fileContent)] == t1;
  }

  /**
   * Deleting a saved picture succeeds, leaves the file unreadable and keeps the shard
   * directory in place.
   */
  lemma SaveThenDelete(root: Path, t: Tree, item: PictureFileItem)
    requires |item.pictureItem.checksum| >= 4
    requires SaveIn(root, t, item).0.Pass?
    ensures var d := DeleteFrom(root, SaveIn(root, t, item).1, item.pictureItem);
      && d.0.Pass?
      && ReadIn(d.1, LocatePicture(root, item.pictureItem).value) == None
      && IsDirectory(d.1, ShardDirectory(root, item.pictureItem.checksum))
  {
    var p := LocatePicture(root, item.pictureItem).value;
    assert p != ShardDirectory(root, item.pictureItem.checksum) by {
      assert |p| != |ShardDirectory(root, item.pictureItem.checksum)|;
    }
  }

  /** Deleting a picture whose file is missing fails and changes nothing. */
  lemma DeleteMissingFails(root: Path, t: Tree, picture: Picture)
    requires |picture.checksum| >= 4
    requires LocatePicture(root, picture).Success? && LocatePicture(root, picture).value !in t
    ensures DeleteFrom(root, t, picture)
      == (Fail(DeletingFailed(NoSuchFile(LocatePicture(root, picture).value))), t)
  {
  }

  /** Saving and deleting keep the tree well formed. */
  lemma StorageKeepsWellFormed(root: Path, t: Tree, item: PictureFileItem, picture: Picture)
    requires |item.pictureItem.checksum| >= 4 && |picture.checksum| >= 4
    requires WellFormed(t)
    ensures WellFormed(SaveIn(root, t, item).1)
    ensures WellFormed(DeleteFrom(root, t, picture).1)
  {
    var checksum := item.pictureItem.checksum;
    var dir := ShardDirectory(root, checksum);
    var t1 := t;
    if !Present(t, dir) && CreateDirectoriesIn(t, dir).Success? {
      CreateDirectoriesKeepsWellFormed(t, dir);
      t1 := CreateDirectoriesIn(t, dir).value;
    }
    var ext := LookupFileExtension(item.pictureItem.mimeType);
    if ext.Success? {
      var p := Resolve(dir, checksum + "." + ext.value);
      if WriteIn(t1, p, item.fileContent).Success? {
        WriteKeepsWellFormed(t1, p, item.fileContent);
      }
    }
    var located := LocatePicture(root, picture);
    if located.Success? && DeleteIn(t, located.value).Success? {
      DeleteKeepsWellFormed(t, located.value);
    }
  }

  /** `FileSystemPictureStorageService`: a root path on a file system. */
  class FileSystemPictureStorageService {
    const rootPath: Path
    const disk: FileSystem

    constructor (rootPath: Path, disk: FileSystem)
      ensures this.rootPath == rootPath && this.disk == disk
    {
      this.rootPath := rootPath;
      this.disk := disk;
    }

    /** `savePictureFileItem`: create the shard if missing, look up the extension, write. */
    method SavePictureFileItem(item: PictureFileItem) returns (r: Outcome<ProcessingError>)
      requires |item.pictureItem.checksum| >= 4
      modifies disk
      ensures (r, disk.tree) == SaveIn(rootPath, old(disk.tree), item)
    {
      var checksum := item.pictureItem.checksum;
      var dir := ShardDirectory(rootPath, checksum);
      var present := disk.Exists(dir);
      if !present {
        var created := disk.CreateDirectories(dir);
        if created.Fail? {
          return Fail(DirectoryCreationFailed(created.error));
        }
      }
      var ext := LookupFileExtension(item.pictureItem.mimeType);
      if ext.Failure? {
        return Fail(ext.error);
      }
      var written := disk.Write(Resolve(dir, checksum + "." + ext.value), item.fileContent);
      if written.Fail? {
        return Fail(RecordingFailed(written.error));
      }
      return Pass;
    }

    /** `resolvePictureResource`: a path resource over the picture's file. */
    method ResolvePictureResource(picture: Picture) returns (r: Result<Resource, ProcessingError>)
      requires |picture.checksum| >= 4
      ensures r == ResolveIn(rootPath, picture)
    {
      var ext := LookupFileExtension(picture.mimeType);
      if ext.Failure? {
        return Failure(ext.error);
      }
      return Success(PathResource(Resolve(ShardDirectory(rootPath, picture.checksum), picture.checksum + "." + ext.value)));
    }

    /** `deletePictureFile`: deletes the picture's file. */
    method DeletePictureFile(picture: Picture) returns (r: Outcome<ProcessingError>)
      requires |picture.checksum| >= 4
      modifies disk
      ensures (r, disk.tree) == DeleteFrom(rootPath, old(disk.tree), picture)
    {
      var ext := LookupFileExtension(picture.mimeType);
      if ext.Failure? {
        return Fail(ext.error);
      }
      var path := Resolve(ShardDirectory(rootPath, picture.checksum), picture.checksum + "." + ext.value);
      var deleted := disk.Delete(path);
      if deleted.Fail? {
        return Fail(DeletingFailed(deleted.error));
      }
      return Pass;
    }
  }
}
