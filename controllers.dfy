/**
 * The upload, download and delete endpoints, over the metadata repository and a picture
 * storage service. Each run also yields the calls it made on the repository and storage, in
 * order, so the specifications can say which calls happen and which never do.
 */
module Controllers {
  import opened Wrappers
  import opened PictureModel
  import opened PictureStorage
  import Repository

  /** A call on the repository or the storage service. */
  datatype Event =
    | RepositoryFind(id: string)
    | RepositorySave(picture: Picture)
    | RepositoryDelete(picture: Picture)
    | StorageSave(item: PictureFileItem)
    | StorageResolve(picture: Picture)
    | StorageDelete(picture: Picture)

  /** The HTTP statuses the endpoints answer with. */
  datatype Status = Ok | Created | NoContent | NotFound

  /** A response entity, or a processing error the framework answers with a server error. */
  datatype Reply<T> =
    | Respond(status: Status, contentType: Option<string>, body: Option<T>)
    | Raise(error: ProcessingError)

  /** The numeric HTTP status a reply goes out with. */
  function HttpStatus<T>(reply: Reply<T>): int
  {
    match reply
    case Raise(_) => 500
    case Respond(status, _, _) =>
      match status
      case Ok => 200
      case Created => 201
      case NoContent => 204
      case NotFound => 404
  }

  /** The reply of one request, the repository and storage after it, and the calls made. */
  datatype Run<T> = Run(reply: Reply<T>, pictures: map<string, Picture>, storage: StorageModel, events: seq<Event>)

  /** No call of the trace writes to storage. */
  predicate NoStorageWrite(events: seq<Event>)
  {
    forall i :: 0 <= i < |events| ==> !events[i].StorageSave? && !events[i].StorageDelete?
  }

  /** No call of the trace touches storage at all. */
  predicate NoStorageCall(events: seq<Event>)
  {
    forall i :: 0 <= i < |events| ==> !events[i].StorageSave? && !events[i].StorageDelete? && !events[i].StorageResolve?
  }

  /** No call of the trace writes to the repository. */
  predicate NoRepositoryWrite(events: seq<Event>)
  {
    forall i :: 0 <= i < |events| ==> !events[i].RepositorySave? && !events[i].RepositoryDelete?
  }

  /**
   * `FileController.savePictureFile`: a known checksum answers OK with the stored record and
   * writes nothing; a new one is stored, then recorded, and answered CREATED.
   */
  function SavePictureFileSpec(pictures: map<string, Picture>, m: StorageModel, item: PictureFileItem, fault: Option<string>)
    : (r: Run<Picture>)
    requires Accepts(m, item.pictureItem)
    ensures |r.events| > 0 && r.events[0] == RepositoryFind(item.pictureItem.checksum)
    ensures item.pictureItem.checksum in pictures ==>
      && r.reply == Respond(Ok, None, Some(pictures[item.pictureItem.checksum]))
      && r.pictures == pictures && r.storage == m
      && NoStorageWrite(r.events) && NoRepositoryWrite(r.events)
    ensures item.pictureItem.checksum !in pictures ==>
      |r.events| >= 2 && r.events[..2] == [RepositoryFind(item.pictureItem.checksum), StorageSave(item)]
    ensures r.reply.Raise? ==> r.pictures == pictures && NoRepositoryWrite(r.events)
    ensures r.reply.Respond? && r.reply.status == Created ==>
      && item.pictureItem.checksum !in pictures
      && r.reply.body == Some(item.pictureItem)
      && r.pictures == pictures[item.pictureItem.checksum := item.pictureItem]
      && r.events == [RepositoryFind(item.pictureItem.checksum), StorageSave(item), RepositorySave(item.pictureItem)]
  {
    var checksum := item.pictureItem.checksum;
    if checksum in pictures then
      Run(Respond(Ok, None, Some(pictures[checksum])), pictures, m, [RepositoryFind(checksum)])
    else
      var (saved, m') := SaveSpec(m, item, fault);
      if saved.Fail? then
        Run(Raise(saved.error), pictures, m', [RepositoryFind(checksum), StorageSave(item)])
      else
        Run(Respond(Created, None, Some(item.pictureItem)), pictures[checksum := item.pictureItem], m',
            [RepositoryFind(checksum), StorageSave(item), RepositorySave(item.pictureItem)])
  }

  /**
   * `FileController.findPictureFile`: a known checksum answers OK with the record's MIME type
   * as content type and the resolved resource as body; an unknown one NOT FOUND, without
   * touching storage.
   */
  function FindPictureFileSpec(pictures: map<string, Picture>, m: StorageModel, checksum: string, fault: Option<string>)
    : (r: Run<Resource>)
    requires checksum in pictures ==> Accepts(m, pictures[checksum])
    ensures r.pictures == pictures && r.storage == m && NoStorageWrite(r.events) && NoRepositoryWrite(r.events)
    ensures checksum !in pictures ==>
      r.reply == Respond(NotFound, None, None) && r.events == [RepositoryFind(checksum)]
    ensures checksum in pictures ==>
      r.events == [RepositoryFind(checksum), StorageResolve(pictures[checksum])]
    ensures r.reply.Respond? && r.reply.status == Ok ==>
      && checksum in pictures
      && r.reply.contentType == pictures[checksum].mimeType
      && ResolveSpec(m, pictures[checksum], fault).Success?
      && r.reply.body == Some(ResolveSpec(m, pictures[checksum], fault).value)
    ensures r.reply.Raise? ==>
      checksum in pictures && ResolveSpec(m, pictures[checksum], fault) == Failure(r.reply.error)
  {
    if checksum !in pictures then
      Run(Respond(NotFound, None, None), pictures, m, [RepositoryFind(checksum)])
    else
      var picture := pictures[checksum];
      var events := [RepositoryFind(checksum), StorageResolve(picture)];
      match ResolveSpec(m, picture, fault)
      case Failure(e) => Run(Raise(e), pictures, m, events)
      case Success(res) => Run(Respond(Ok, picture.mimeType, Some(res)), pictures, m, events)
  }

  /**
   * `PictureCustomController.deletePicture`: a known checksum loses its record first and its
   * file second, and is answered NO CONTENT; an unknown one NOT FOUND, without touching storage.
   */
  function DeletePictureSpec(pictures: map<string, Picture>, m: StorageModel, checksum: string, fault: Option<string>)
    : (r: Run<Picture>)
    requires checksum in pictures ==> Accepts(m, pictures[checksum])
    ensures checksum !in pictures ==>
      && r == Run(Respond(NotFound, None, None), pictures, m, [RepositoryFind(checksum)])
      && NoStorageCall(r.events)
    ensures checksum in pictures ==>
      && r.pictures == pictures - {pictures[checksum].checksum}
      && r.events == [RepositoryFind(checksum), RepositoryDelete(pictures[checksum]), StorageDelete(pictures[checksum])]
    ensures r.reply.Respond? && r.reply.status == NoContent ==>
      checksum in pictures && r.reply.body == None
  {
    if checksum !in pictures then
      Run(Respond(NotFound, None, None), pictures, m, [RepositoryFind(checksum)])
    else
      var picture := pictures[checksum];
      var pictures' := pictures - {picture.checksum};
      var events := [RepositoryFind(checksum), RepositoryDelete(picture), StorageDelete(picture)];
      var (deleted, m') := DeleteSpec(m, picture, fault);
      if deleted.Fail? then Run(Raise(deleted.error), pictures', m', events)
      else Run(Respond(NoContent, None, None), pictures', m', events)
  }

  /**
   * Uploading the same item twice: the second upload answers OK with the record the first one
   * saved, and makes no storage write and no repository write.
   */
  lemma UploadTwice(pictures: map<string, Picture>, m: StorageModel, item: PictureFileItem, fault: Option<string>, fault': Option<string>)
    requires Accepts(m, item.pictureItem)
    requires SavePictureFileSpec(pictures, m, item, fault).reply.Respond?
    ensures var first := SavePictureFileSpec(pictures, m, item, fault);
      && Accepts(first.storage, item.pictureItem)
      && var second := SavePictureFileSpec(first.pictures, first.storage, item, fault');
      && second.reply == Respond(Ok, None, Some(first.pictures[item.pictureItem.checksum]))
      && second.pictures == first.pictures && second.storage == first.storage
      && NoStorageWrite(second.events) && NoRepositoryWrite(second.events)
  {
  }

  /** A failed storage save answers with a server error and leaves the repository as it was. */
  lemma FailedStoreIsNotRecorded(pictures: map<string, Picture>, m: StorageModel, item: PictureFileItem, fault: Option<string>)
    requires Accepts(m, item.pictureItem) && item.pictureItem.checksum !in pictures
    requires SaveSpec(m, item, fault).0.Fail?
    ensures var r := SavePictureFileSpec(pictures, m, item, fault);
      && HttpStatus(r.reply) == 500
      && r.pictures == pictures
      && r.events == [RepositoryFind(item.pictureItem.checksum), StorageSave(item)]
  {
  }

  /**
   * End to end: after a new upload is answered CREATED, downloading its checksum answers OK with
   * the uploaded MIME type, and the returned resource reads back the uploaded bytes.
   */
  lemma UploadThenDownload(pictures: map<string, Picture>, m: StorageModel, item: PictureFileItem)
    requires Accepts(m, item.pictureItem)
    requires SavePictureFileSpec(pictures, m, item, None).reply == Respond(Created, None, Some(item.pictureItem))
    ensures var up := SavePictureFileSpec(pictures, m, item, None);
      && Accepts(up.storage, item.pictureItem)
      && var down := FindPictureFileSpec(up.pictures, up.storage, item.pictureItem.checksum, None);
      && down.reply.Respond? && down.reply.status == Ok
      && down.reply.contentType == item.pictureItem.mimeType
      && ReadResource(up.storage, down.reply.body.value) == Some(item.fileContent)
  {
    SaveThenRead(m, item);
  }

  /**
   * The record is deleted before the file: when the storage delete fails the reply is a server
   * error and the record is already gone.
   */
  lemma RecordGoneEvenIfFileStays(pictures: map<string, Picture>, m: StorageModel, checksum: string, fault: Option<string>)
    requires Repository.KeyedByChecksum(pictures)
    requires checksum in pictures && Accepts(m, pictures[checksum])
    requires DeleteSpec(m, pictures[checksum], fault).0.Fail?
    ensures var r := DeletePictureSpec(pictures, m, checksum, fault);
      && HttpStatus(r.reply) == 500
      && checksum !in r.pictures
      && r.storage == m
  {
  }

  /** After a successful delete, neither the record nor the picture's content remains. */
  lemma DeleteRemovesBoth(pictures: map<string, Picture>, m: StorageModel, checksum: string)
    requires Repository.KeyedByChecksum(pictures)
    requires checksum in pictures && Accepts(m, pictures[checksum])
    requires DeletePictureSpec(pictures, m, checksum, None).reply.Respond?
    ensures var r := DeletePictureSpec(pictures, m, checksum, None);
      && HttpStatus(r.reply) == 204
      && checksum !in r.pictures
      && !Stored(r.storage, pictures[checksum])
  {
    DeleteThenGone(m, pictures[checksum]);
  }

  /** `FileController`: the repository and the storage service it was built with. */
  class FileController {
    const repository: Repository.PictureRepository
    const storage: PictureStorageService

    constructor (storage: PictureStorageService, repository: Repository.PictureRepository)
      ensures this.storage == storage && this.repository == repository
    {
      this.storage := storage;
      this.repository := repository;
    }

    /** `savePictureFile`. */
    method SavePictureFile(item: PictureFileItem, fault: Option<string>)
      returns (reply: Reply<Picture>, ghost events: seq<Event>)
      requires Accepts(storage.Model(), item.pictureItem)
      modifies repository, storage.Repr()
      ensures Run(reply, repository.pictures, storage.Model(), events)
        == SavePictureFileSpec(old(repository.pictures), old(storage.Model()), item, fault)
    {
      var checksum := item.pictureItem.checksum;
      var found := repository.FindById(checksum);
      events := [RepositoryFind(checksum)];
      if found.Some? {
        return Respond(Ok, None, Some(found.value)), events;
      }
      var stored := storage.SavePictureFileItem(item, fault);
      events := events + [StorageSave(item)];
      if stored.Fail? {
        return Raise(stored.error), events;
      }
      var saved := repository.Save(item.pictureItem);
      events := events + [RepositorySave(item.pictureItem)];
      return Respond(Created, None, Some(saved)), events;
    }

    /** `findPictureFile`. */
    method FindPictureFile(checksum: string, fault: Option<string>)
      returns (reply: Reply<Resource>, ghost events: seq<Event>)
      requires checksum in repository.pictures ==> Accepts(storage.Model(), repository.pictures[checksum])
      ensures reply == FindPictureFileSpec(repository.pictures, storage.Model(), checksum, fault).reply
      ensures events == FindPictureFileSpec(repository.pictures, storage.Model(), checksum, fault).events
    {
      var found := repository.FindById(checksum);
      events := [RepositoryFind(checksum)];
      if found.None? {
        return Respond(NotFound, None, None), events;
      }
      var picture := found.value;
      var resolved := storage.ResolvePictureResource(picture, fault);
      events := events + [StorageResolve(picture)];
      if resolved.Failure? {
        return Raise(resolved.error), events;
      }
      return Respond(Ok, picture.mimeType, Some(resolved.value)), events;
    }
  }

  /** `PictureCustomController`: the repository and the storage service it was built with. */
  class PictureCustomController {
    const repository: Repository.PictureRepository
    const storage: PictureStorageService

    constructor (repository: Repository.PictureRepository, storage: PictureStorageService)
      ensures this.storage == storage && this.repository == repository
    {
      this.storage := storage;
      this.repository := repository;
    }

    /** `deletePicture`: the record first, then the file. */
    method DeletePicture(checksum: string, fault: Option<string>)
      returns (reply: Reply<Picture>, ghost events: seq<Event>)
      requires checksum in repository.pictures ==> Accepts(storage.Model(), repository.pictures[checksum])
      modifies repository, storage.Repr()
      ensures Run(reply, repository.pictures, storage.Model(), events)
        == DeletePictureSpec(old(repository.pictures), old(storage.Model()), checksum, fault)
    {
      var found := repository.FindById(checksum);
      events := [RepositoryFind(checksum)];
      if found.None? {
        return Respond(NotFound, None, None), events;
      }
      var picture := found.value;
      repository.Delete(picture);
      events := events + [RepositoryDelete(picture)];
      var deleted := storage.DeletePictureFile(picture, fault);
      events := events + [StorageDelete(picture)];
      if deleted.Fail? {
        return Raise(deleted.error), events;
      }
      return Respond(NoContent, None, None), events;
    }
  }
}
