/**
 * The legacy `FileStorageService`: stores an upload at `root/<directory>/<fileName>` as named
 * by its record, and keeps the metadata repository in step, skipping checksums it already has.
 */
module LegacyFileStorage {
  import opened Wrappers
  import opened PictureModel
  import opened FileTree
  import Repository

  /** The record names its directory and file, as the converter fills them in. */
  predicate Named(p: Picture)
  {
    && p.directory.Some? && |p.directory.value| > 0
    && p.fileName.Some? && |p.fileName.value| > 0
  }

  /** `getPictureDirectory`: `root/<directory>`. */
  function PictureDirectory(root: Path, p: Picture): (d: Path)
    requires Named(p)
    ensures d == Resolve(root, p.directory.value)
  {
    Resolve(root, p.directory.value)
  }

  /** The path a record's file is written to. */
  function PictureFile(root: Path, p: Picture): (f: Path)
    requires Named(p)
    ensures |f| == |root| + 2 && f[..|root| + 1] == PictureDirectory(root, p) && f[|root| + 1] == p.fileName.value
  {
    Resolve(PictureDirectory(root, p), p.fileName.value)
  }

  /** The outcome of a save, the tree and the repository after it. */
  datatype SaveRun = SaveRun(result: Result<Picture, ProcessingError>, tree: Tree, pictures: map<string, Picture>)

  /** `savePictureFileItem`. */
  function SaveSpec(root: Path, t: Tree, pictures: map<string, Picture>, item: PictureFileItem): (r: SaveRun)
    requires Named(item.pictureItem)
    ensures item.pictureItem.checksum in pictures ==>
      r == SaveRun(Success(pictures[item.pictureItem.checksum]), t, pictures)
    ensures r.result.Failure? ==> r.pictures == pictures
    ensures r.result.Failure? ==> r.result.error.DirectoryCreationFailed? || r.result.error.RecordingFailed?
    ensures r.result.Success? && item.pictureItem.checksum !in pictures ==>
      && r.result.value == item.pictureItem
      && r.pictures == pictures[item.pictureItem.checksum := item.pictureItem]
      && ReadIn(r.tree, PictureFile(root, item.pictureItem)) == Some(item.fileContent)
  {
    var checksum := item.pictureItem.checksum;
    if checksum in pictures then SaveRun(Success(pictures[checksum]), t, pictures)
    else
      var dir := PictureDirectory(root, item.pictureItem);
      match EnsureDirectory(t, dir)
      case Failure(e) => SaveRun(Failure(DirectoryCreationFailed(e)), t, pictures)
      case Success(t1) =>
        match WriteIn(t1, Resolve(dir, item.pictureItem.fileName.value), item.fileContent)
        case Failure(e) => SaveRun(Failure(RecordingFailed(e)), t1, pictures)
        case Success(t2) => SaveRun(Success(item.pictureItem), t2, pictures[checksum := item.pictureItem])
  }

  /**
   * A new checksum is written below the root and then recorded; a second save of the same item
   * returns the recorded picture and changes neither the tree nor the repository.
   */
  lemma SaveTwice(root: Path, t: Tree, pictures: map<string, Picture>, item: PictureFileItem)
    requires Named(item.pictureItem)
    requires SaveSpec(root, t, pictures, item).result.Success?
    ensures var first := SaveSpec(root, t, pictures, item);
      SaveSpec(root, first.tree, first.pictures, item) == SaveRun(first.result, first.tree, first.pictures)
  {
  }

  /**
   * Below a root directory of a well-formed tree, a missing picture directory is created without
   * error, and the file write fails only when its path is a directory.
   */
  lemma NewPictureBelowRoot(root: Path, t: Tree, pictures: map<string, Picture>, item: PictureFileItem)
    requires Named(item.pictureItem) && item.pictureItem.checksum !in pictures
    requires WellFormed(t) && IsDirectory(t, root)
    requires PictureDirectory(root, item.pictureItem) !in t
    ensures SaveSpec(root, t, pictures, item).result == Success(item.pictureItem)
    ensures WellFormed(SaveSpec(root, t, pictures, item).tree)
  {
    var dir := PictureDirectory(root, item.pictureItem);
    CreateBelowDirectory(t, root, item.pictureItem.directory.value);
    var t1 := t[dir := Dir];
    CreateDirectoriesKeepsWellFormed(t, dir);
    var f := Resolve(dir, item.pictureItem.fileName.value);
    assert f[..|f| - 1] == dir;
    WriteKeepsWellFormed(t1, f, item.fileContent);
  }

  /** When the file path is a directory, saving fails with a recording error and records nothing. */
  lemma TargetIsDirectory(root: Path, t: Tree, pictures: map<string, Picture>, item: PictureFileItem)
    requires Named(item.pictureItem) && item.pictureItem.checksum !in pictures
    requires IsDirectory(t, PictureDirectory(root, item.pictureItem))
    requires PictureFile(root, item.pictureItem) in t && t[PictureFile(root, item.pictureItem)].Dir?
    ensures SaveSpec(root, t, pictures, item)
      == SaveRun(Failure(RecordingFailed(IsADirectory(PictureFile(root, item.pictureItem)))), t, pictures)
  {
    var f := PictureFile(root, item.pictureItem);
    assert f[..|f| - 1] == PictureDirectory(root, item.pictureItem);
  }

  /**
   * When the picture directory path is a regular file, no directory is created because the
   * path exists, and the write below it fails with a recording error; nothing changes.
   */
  lemma DirectoryIsRegularFile(root: Path, t: Tree, pictures: map<string, Picture>, item: PictureFileItem)
    requires Named(item.pictureItem) && item.pictureItem.checksum !in pictures
    requires PictureDirectory(root, item.pictureItem) in t && t[PictureDirectory(root, item.pictureItem)].File?
    ensures SaveSpec(root, t, pictures, item)
      == SaveRun(Failure(RecordingFailed(NotDirectory(PictureDirectory(root, item.pictureItem)))), t, pictures)
  {
    var f := PictureFile(root, item.pictureItem);
    assert f[..|f| - 1] == PictureDirectory(root, item.pictureItem);
  }

  /** `FileStorageService`: a root path, the file system and the metadata repository. */
  class FileStorageService {
    const rootPath: Path
    const disk: FileSystem
    const repository: Repository.PictureRepository

    constructor (rootPath: Path, disk: FileSystem, repository: Repository.PictureRepository)
      ensures this.rootPath == rootPath && this.disk == disk && this.repository == repository
    {
      this.rootPath := rootPath;
      this.disk := disk;
      this.repository := repository;
    }

    /** `savePictureFileItem`: look the checksum up; if new, make the directory, write, record. */
    method SavePictureFileItem(item: PictureFileItem) returns (r: Result<Picture, ProcessingError>)
      requires Named(item.pictureItem)
      modifies disk, repository
      ensures SaveRun(r, disk.tree, repository.pictures)
        == SaveSpec(rootPath, old(disk.tree), old(repository.pictures), item)
    {
      var found := repository.FindById(item.pictureItem.checksum);
      if found.Some? {
        return Success(found.value);
      }
      var dir := GetPictureDirectory(item.pictureItem);
      if dir.Failure? {
        return Failure(DirectoryCreationFailed(dir.error));
      }
      var written := disk.Write(Resolve(dir.value, item.pictureItem.fileName.value), item.fileContent);
      if written.Fail? {
        return Failure(RecordingFailed(written.error));
      }
      var saved := repository.Save(item.pictureItem);
      return Success(saved);
    }

    /** `getPictureDirectory`: `root/<directory>`, created when nothing exists at that path. */
    method GetPictureDirectory(p: Picture) returns (r: Result<Path, IoError>)
      requires Named(p)
      modifies disk
      ensures var made := EnsureDirectory(old(disk.tree), PictureDirectory(rootPath, p));
        && disk.tree == After(old(disk.tree), made)
        && r == (if made.Success? then Success(PictureDirectory(rootPath, p)) else Failure(made.error))
    {
      var dir := Resolve(rootPath, p.directory.value);
      var present := disk.Exists(dir);
      if !present {
        var created := disk.CreateDirectories(dir);
        if created.Fail? {
          return Failure(created.error);
        }
      }
      return Success(dir);
    }
  }
}
