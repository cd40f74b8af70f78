# orvisual-api picture storage and order intake, modelled in Dafny

orvisual-api is a Spring Boot REST service. Clients upload pictures and place orders that
refer to those pictures by checksum. This project models its core:

- the picture storage service, with its two backends:
  - a file-system backend that keeps each picture at `root/<first four checksum characters>/<checksum>.<extension>`, the extension coming from a closed table of four image MIME types;
  - an Amazon S3 backend that keeps each picture as the object keyed by its checksum in one configured bucket;
- the legacy `FileStorageService`, which names files from the record's `directory` and `fileName` and keeps the metadata repository in step;
- the factory beans that choose and configure a backend from the environment (`GALLERY_DIR`, or the four `AWS_*` settings);
- the multipart converter, which makes an upload content-addressed through its SHA-256 digest;
- the upload, download and delete endpoints over the repository and the storage service;
- the order validator, the custom order deserializer and the before-create event handler.

Parts of the source update state in place, and those parts are classes with fields and
`modifies` clauses:

- the file system (`FileTree.FileSystem`, a map from paths to nodes);
- the S3 account (`S3Client.AmazonS3`, a map of buckets);
- the picture repository (`Repository.PictureRepository`);
- the `Order` entity (`OrderModel.Order`);
- Spring's `Errors` accumulator (`OrderValidation.Errors`);
- the services and the controllers.

Each imperative method is proved equal to a pure specification function on the old state. The
properties the source promises are lemmas about those functions:

- save-then-resolve reads back the bytes;
- saving again is idempotent;
- a delete removes only the target;
- error kinds and their order;
- well-formedness of the file tree is preserved;
- the JSON round trip;
- the validator's rules, each as an if-and-only-if;
- the regular expressions, each proved equal to a positional test.

The Java interface `PictureStorageService` becomes the datatype `PictureStorage.PictureStorageService`, which dispatches to one of the two backends. The contract both backends honour is stated on the value model `PictureStorage.StorageModel`.

The model follows what the code does, including these behaviours:

- **A regular file at the shard or picture directory path.** Both file-based services call `Files.createDirectories` only when `Files.exists` is false (`service/FileSystemPictureStorageService.java` lines 80-81, `service/FileStorageService.java` lines 76-80). A regular file at that path therefore causes no directory-creation error. The write below it fails, and the service reports "Recording of picture file failed" (lines 95-102 and 58-64 respectively). This is stated by `FileSystemStorage.ShardIsRegularFile` and `LegacyFileStorage.DirectoryIsRegularFile`.
- **Resolving a picture whose file is missing.** The Javadoc of `PictureStorageService.resolvePictureResource` (`service/PictureStorageService.java` lines 31-32) says that it throws when the file is not found.
  - The S3 backend keeps that promise: a missing key is an `SdkClientException` (`service/AmazonS3PictureStorageService.java` lines 50-54). See `PictureStorage.S3ResolveFailsWhenMissing`.
  - The file-system backend does not keep it. It builds a `PathResource` without checking that the file exists (`service/FileSystemPictureStorageService.java` lines 113-117), so the failure comes only when the resource is read. See `PictureStorage.FsResolveIgnoresMissingFile`.
- **Calls to members that `FileStorageService` does not declare.**
  - `FileController` holds a `FileStorageService` (`controller/FileController.java` line 33) and calls `resolvePictureResource` on it (line 63).
  - `PictureCustomController` also holds a `FileStorageService` (`controller/PictureCustomController.java` line 23) and calls `deleteFile` on it (line 35).
  - `service/FileStorageService.java` declares neither method, and its only constructor takes two arguments (lines 31-34). Yet `service/FileStorageServiceFactoryBean.java` line 51 calls a one-argument constructor.
  - The controllers are therefore modelled against the `PictureStorageService` interface and the repository.
  - The legacy factory shares `BackendSelection.GalleryServiceFactory` with the file-system factory, because the checks of the two (lines 46-52 of each factory bean) are the same.
- **The converter's `Picture` constructor.** `service/MultiPartFileToPictureFileItemConverter.java` line 37 calls `new Picture(checksum, fileName, directoryName, Instant.now())`. `model/Picture.java` (lines 37-48) has fields `checksum`, `mimeType` and `loadedAt` only, and no such constructor.
  - The model's `Picture` carries all five fields.
  - The converter leaves `mimeType` unset and fills `fileName` and `directory`, the two fields `FileStorageService` reads (lines 56 and 75).
  - Such an item is then refused by the file-system backend (`Converter.FileSystemBackendRefusesConvertedItem`).

Each controller method also returns a ghost trace of the repository and storage calls it makes. The controller method records this trace itself, right after each call. The order of calls in the trace is therefore the controller's own record of them. The state lemmas `Controllers.RecordGoneEvenIfFileStays` and `Controllers.DeleteRemovesBoth` state the same order independently, through the repository and storage contents.

## Model

| member | source | states |
|---|---|---|
| FileTree.Resolve | src/main/java/io/orvisual/api/service/FileSystemPictureStorageService.java:79 | `Path.resolve` of one non-empty name without `/` appends that name and keeps the prefix |
| FileTree.CreateDirectoriesIn | src/main/java/io/orvisual/api/service/FileSystemPictureStorageService.java:80-81 | on success the path is a directory and every existing entry is unchanged |
| FileTree.WriteIn | src/main/java/io/orvisual/api/service/FileSystemPictureStorageService.java:97 | `Files.write` succeeds iff the parent is a directory and the target is not a directory, and then exactly the target holds the bytes |
| FileTree.DeleteIn | src/main/java/io/orvisual/api/service/FileSystemPictureStorageService.java:128-132 | `Files.delete` succeeds iff the path exists and is not a non-empty directory, and then removes exactly that entry |
| FileTree.ReadIn | src/main/java/io/orvisual/api/service/FileSystemPictureStorageService.java:114-117 | reading a path resource yields content iff the path is a regular file |
| FileTree.AncestorsAreDirectories | src/main/java/io/orvisual/api/service/FileSystemPictureStorageService.java:80-81 | in a well-formed tree every proper prefix of a directory is a directory |
| FileTree.CreateBelowDirectory | src/main/java/io/orvisual/api/service/FileSystemPictureStorageService.java:80-81 | creating a missing name below a directory adds exactly that one directory |
| FileTree.CreateDirectoriesKeepsWellFormed | src/main/java/io/orvisual/api/service/FileSystemPictureStorageService.java:81 | directory creation keeps every entry hanging below a directory |
| FileTree.WriteKeepsWellFormed | src/main/java/io/orvisual/api/service/FileSystemPictureStorageService.java:97 | a write keeps the tree well formed |
| FileTree.DeleteKeepsWellFormed | src/main/java/io/orvisual/api/service/FileSystemPictureStorageService.java:128-132 | a delete keeps the tree well formed |
| FileTree.FileSystem.Exists | src/main/java/io/orvisual/api/service/FileSystemPictureStorageService.java:80 | `Files.exists`: the root or an entry of the tree |
| FileTree.FileSystem.CreateDirectories | src/main/java/io/orvisual/api/service/FileSystemPictureStorageService.java:81 | the outcome and the new tree are those of `CreateDirectoriesIn`; a failure changes nothing |
| FileTree.FileSystem.Write | src/main/java/io/orvisual/api/service/FileSystemPictureStorageService.java:97 | the outcome and the new tree are those of `WriteIn` |
| FileTree.FileSystem.Delete | src/main/java/io/orvisual/api/service/FileSystemPictureStorageService.java:128-132 | the outcome and the new tree are those of `DeleteIn` |
| PictureModel.PictureWithChecksum | src/main/java/io/orvisual/api/model/OrderSummaryDeserializer.java:36-37 | a record with only the checksum set |
| PictureModel.Message | src/main/java/io/orvisual/api/service/FileSystemPictureStorageService.java:61 | the message of an unsupported type names the hint, `null` printed as "null" |
| FileSystemStorage.LookupFileExtension | src/main/java/io/orvisual/api/service/FileSystemPictureStorageService.java:34-62 | an extension exists iff the hint is one of the four image types, and it is the table's; otherwise the unsupported-type error carries the hint |
| FileSystemStorage.ShardDirectory | src/main/java/io/orvisual/api/service/FileSystemPictureStorageService.java:79 | the shard is the root plus the first four checksum characters |
| FileSystemStorage.PictureFilePath | src/main/java/io/orvisual/api/service/FileSystemPictureStorageService.java:89-93 | the file is `<checksum>.<ext>` directly inside the shard |
| FileSystemStorage.LocatePicture | src/main/java/io/orvisual/api/service/FileSystemPictureStorageService.java:115-116 | a picture's file path exists iff its MIME type has an extension |
| FileSystemStorage.SaveIn | src/main/java/io/orvisual/api/service/FileSystemPictureStorageService.java:74-104 | a directory error happens only for a missing shard and changes nothing; a type error carries the record's type; on success the file holds the bytes and the shard is a directory |
| FileSystemStorage.ResolveIn | src/main/java/io/orvisual/api/service/FileSystemPictureStorageService.java:113-117 | a path resource over the located file, or the unsupported-type error |
| FileSystemStorage.DeleteFrom | src/main/java/io/orvisual/api/service/FileSystemPictureStorageService.java:126-138 | succeeds iff the type is supported and the file is deletable, and then removes exactly that file; failures change nothing |
| FileSystemStorage.LookupIsClosed | src/main/java/io/orvisual/api/service/FileSystemPictureStorageService.java:34-39 | exactly jpeg, png, gif and bmp are supported, giving jpg, png, gif and bmp |
| FileSystemStorage.ExistingShardIsReused | src/main/java/io/orvisual/api/service/FileSystemPictureStorageService.java:80 | an existing shard directory never yields a directory error |
| FileSystemStorage.ShardCreatedBelowRoot | src/main/java/io/orvisual/api/service/FileSystemPictureStorageService.java:79-86 | below a root directory a missing shard is created as one new directory, with no directory error |
| FileSystemStorage.ShardIsRegularFile | src/main/java/io/orvisual/api/service/FileSystemPictureStorageService.java:79-102 | a regular file at the shard path skips creation and gives a recording error, changing nothing |
| FileSystemStorage.TargetIsDirectory | src/main/java/io/orvisual/api/service/FileSystemPictureStorageService.java:95-102 | a directory at the file path gives a recording error, changing nothing |
| FileSystemStorage.UnsupportedTypeWritesNoFile | src/main/java/io/orvisual/api/service/FileSystemPictureStorageService.java:79-93 | an unsupported type fails with its error (or a directory one), adds only directories and changes no entry |
| FileSystemStorage.SaveChangesOnlyTheFile | src/main/java/io/orvisual/api/service/FileSystemPictureStorageService.java:74-104 | a successful save changes no entry but the picture's file |
| FileSystemStorage.SaveThenResolve | src/main/java/io/orvisual/api/service/FileSystemPictureStorageService.java:95-117 | resolving after a save designates the written file, and reading it gives the bytes |
| FileSystemStorage.SaveIsIdempotent | src/main/java/io/orvisual/api/service/FileSystemPictureStorageService.java:74-104 | saving the same item again has the same outcome and tree |
| FileSystemStorage.SaveThenDelete | src/main/java/io/orvisual/api/service/FileSystemPictureStorageService.java:126-138 | deleting a saved picture succeeds, leaves it unreadable and keeps the shard |
| FileSystemStorage.DeleteMissingFails | src/main/java/io/orvisual/api/service/FileSystemPictureStorageService.java:134-137 | deleting a missing file is a deleting error with a no-such-file cause, changing nothing |
| FileSystemStorage.StorageKeepsWellFormed | src/main/java/io/orvisual/api/service/FileSystemPictureStorageService.java:74-138 | saving and deleting keep the tree well formed |
| FileSystemStorage.FileSystemPictureStorageService.constructor | src/main/java/io/orvisual/api/service/FileSystemPictureStorageService.java:64-66 | keeps the root path |
| FileSystemStorage.FileSystemPictureStorageService.SavePictureFileItem | src/main/java/io/orvisual/api/service/FileSystemPictureStorageService.java:74-104 | the outcome and new tree are `SaveIn` of the old tree |
| FileSystemStorage.FileSystemPictureStorageService.ResolvePictureResource | src/main/java/io/orvisual/api/service/FileSystemPictureStorageService.java:113-117 | the result is `ResolveIn` |
| FileSystemStorage.FileSystemPictureStorageService.DeletePictureFile | src/main/java/io/orvisual/api/service/FileSystemPictureStorageService.java:126-138 | the outcome and new tree are `DeleteFrom` of the old tree |
| S3Client.PutIn | src/main/java/io/orvisual/api/service/AmazonS3PictureStorageService.java:67 | a put succeeds iff there is no fault and the bucket exists, and then replaces just that key |
| S3Client.GetIn | src/main/java/io/orvisual/api/service/AmazonS3PictureStorageService.java:50 | a get succeeds iff there is no fault and the bucket and key exist, with the stored object |
| S3Client.DeleteIn | src/main/java/io/orvisual/api/service/AmazonS3PictureStorageService.java:38 | a delete succeeds iff there is no fault and the bucket exists, and removes just that key |
| S3Client.ObjectMetadata.SetContentLength | src/main/java/io/orvisual/api/service/AmazonS3PictureStorageService.java:62 | sets the length, keeps the type |
| S3Client.ObjectMetadata.SetContentType | src/main/java/io/orvisual/api/service/AmazonS3PictureStorageService.java:63 | sets the type, keeps the length |
| S3Client.AmazonS3.PutObject | src/main/java/io/orvisual/api/service/AmazonS3PictureStorageService.java:67 | the outcome and buckets are those of `PutIn` |
| S3Client.AmazonS3.GetObject | src/main/java/io/orvisual/api/service/AmazonS3PictureStorageService.java:50 | the result is `GetIn` |
| S3Client.AmazonS3.DeleteObject | src/main/java/io/orvisual/api/service/AmazonS3PictureStorageService.java:38 | the outcome and buckets are those of `DeleteIn` |
| AmazonS3Storage.StoredObject | src/main/java/io/orvisual/api/service/AmazonS3PictureStorageService.java:61-67 | the object carries the bytes, the record's MIME type and the byte count |
| AmazonS3Storage.SaveTo | src/main/java/io/orvisual/api/service/AmazonS3PictureStorageService.java:59-73 | succeeds iff no fault and the bucket exists; failures are client errors and change nothing |
| AmazonS3Storage.ResolveFrom | src/main/java/io/orvisual/api/service/AmazonS3PictureStorageService.java:47-56 | succeeds iff the object under the checksum exists, with its content as a stream resource |
| AmazonS3Storage.DeleteFrom | src/main/java/io/orvisual/api/service/AmazonS3PictureStorageService.java:36-43 | succeeds iff no fault and the bucket exists; failures are client errors and change nothing |
| AmazonS3Storage.SaveStoresUnderChecksum | src/main/java/io/orvisual/api/service/AmazonS3PictureStorageService.java:59-73 | a save stores the bytes and metadata under the checksum and changes no other object |
| AmazonS3Storage.SaveThenResolve | src/main/java/io/orvisual/api/service/AmazonS3PictureStorageService.java:47-73 | resolving after a save returns the saved bytes |
| AmazonS3Storage.DeleteRemovesOnlyChecksum | src/main/java/io/orvisual/api/service/AmazonS3PictureStorageService.java:36-43 | a delete removes exactly the checksum's object, after which resolve fails with a missing key |
| AmazonS3Storage.DeleteMissingKey | src/main/java/io/orvisual/api/service/AmazonS3PictureStorageService.java:38 | deleting an absent key succeeds and changes nothing |
| AmazonS3Storage.FailuresWrapTheCause | src/main/java/io/orvisual/api/service/AmazonS3PictureStorageService.java:36-73 | every client failure surfaces as a processing error wrapping it, changing nothing |
| AmazonS3Storage.AmazonS3PictureStorageService.constructor | src/main/java/io/orvisual/api/service/AmazonS3PictureStorageService.java:30-33 | keeps the client and bucket name |
| AmazonS3Storage.AmazonS3PictureStorageService.DeletePictureFile | src/main/java/io/orvisual/api/service/AmazonS3PictureStorageService.java:36-43 | the outcome and buckets are `DeleteFrom` of the old buckets |
| AmazonS3Storage.AmazonS3PictureStorageService.ResolvePictureResource | src/main/java/io/orvisual/api/service/AmazonS3PictureStorageService.java:47-56 | the result is `ResolveFrom` |
| AmazonS3Storage.AmazonS3PictureStorageService.SavePictureFileItem | src/main/java/io/orvisual/api/service/AmazonS3PictureStorageService.java:59-73 | the outcome and buckets are `SaveTo` of the old buckets |
| PictureStorage.SaveSpec | src/main/java/io/orvisual/api/service/PictureStorageService.java:36-44 | a save keeps the backend kind, root or bucket |
| PictureStorage.ResolveSpec | src/main/java/io/orvisual/api/service/PictureStorageService.java:26-34 | a file-system backend returns a path resource, S3 a stream resource |
| PictureStorage.DeleteSpec | src/main/java/io/orvisual/api/service/PictureStorageService.java:17-24 | a delete keeps the backend kind, and a failed one changes nothing |
| PictureStorage.ResolveReadsStored | src/main/java/io/orvisual/api/service/PictureStorageService.java:26-34 | resolve-then-read yields content iff the storage holds the picture, on both backends |
| PictureStorage.SaveThenRead | src/main/java/io/orvisual/api/service/PictureStorageService.java:26-44 | after a save, resolving reads back exactly the saved bytes, on both backends |
| PictureStorage.DeleteThenGone | src/main/java/io/orvisual/api/service/PictureStorageService.java:17-24 | after a delete the picture is no longer stored, on both backends |
| PictureStorage.FsResolveIgnoresMissingFile | src/main/java/io/orvisual/api/service/FileSystemPictureStorageService.java:113-117 | for a supported type the file-system backend resolves successfully even when nothing is stored, and reading the resource yields nothing: the file-not-found failure documented in `PictureStorageService.java` is not raised by resolve |
| PictureStorage.S3ResolveFailsWhenMissing | src/main/java/io/orvisual/api/service/AmazonS3PictureStorageService.java:47-56 | without a fault, S3 resolve succeeds iff the object is stored, as the interface documents |
| PictureStorage.PictureStorageService.DeletePictureFile | src/main/java/io/orvisual/api/service/PictureStorageService.java:24 | the outcome and new state are `DeleteSpec` of the old state |
| PictureStorage.PictureStorageService.ResolvePictureResource | src/main/java/io/orvisual/api/service/PictureStorageService.java:34 | the result is `ResolveSpec` of the state |
| PictureStorage.PictureStorageService.SavePictureFileItem | src/main/java/io/orvisual/api/service/PictureStorageService.java:44 | the outcome and new state are `SaveSpec` of the old state |
| Repository.Find | src/main/java/io/orvisual/api/repository/PictureRepository.java:18 | found iff the id is a key, with its record |
| Repository.FoundUnderOwnChecksum | src/main/java/io/orvisual/api/model/Picture.java:39-41 | in a repository keyed by checksum, a found record has the looked-up id as checksum |
| Repository.UpdatesKeepKeyedByChecksum | src/main/java/io/orvisual/api/repository/PictureRepository.java:18 | save and delete keep records under their own checksums |
| Repository.PictureRepository.FindById | src/main/java/io/orvisual/api/repository/PictureRepository.java:18 | the result is `Find` |
| Repository.PictureRepository.Save | src/main/java/io/orvisual/api/repository/PictureRepository.java:18 | stores the record under its checksum and returns it |
| Repository.PictureRepository.Delete | src/main/java/io/orvisual/api/repository/PictureRepository.java:18 | removes the record with the entity's checksum |
| LegacyFileStorage.PictureDirectory | src/main/java/io/orvisual/api/service/FileStorageService.java:75 | the root resolved against the record's directory |
| LegacyFileStorage.PictureFile | src/main/java/io/orvisual/api/service/FileStorageService.java:56 | the record's file name directly inside its directory |
| LegacyFileStorage.SaveSpec | src/main/java/io/orvisual/api/service/FileStorageService.java:42-81 | a known checksum returns the stored record and changes nothing; failures record nothing and are directory or recording errors; a new success writes the bytes and records the item |
| LegacyFileStorage.SaveTwice | src/main/java/io/orvisual/api/service/FileStorageService.java:43-69 | a second save returns the same result and changes neither tree nor repository |
| LegacyFileStorage.NewPictureBelowRoot | src/main/java/io/orvisual/api/service/FileStorageService.java:45-81 | below a root directory a new picture is saved, and the tree stays well formed |
| LegacyFileStorage.TargetIsDirectory | src/main/java/io/orvisual/api/service/FileStorageService.java:58-64 | a directory at the file path gives a recording error, changing nothing |
| LegacyFileStorage.DirectoryIsRegularFile | src/main/java/io/orvisual/api/service/FileStorageService.java:56-80 | a regular file at the directory path gives a recording error, changing nothing |
| LegacyFileStorage.FileStorageService.constructor | src/main/java/io/orvisual/api/service/FileStorageService.java:31-34 | keeps the root, file system and repository |
| LegacyFileStorage.FileStorageService.SavePictureFileItem | src/main/java/io/orvisual/api/service/FileStorageService.java:42-72 | result, tree and repository are `SaveSpec` of the old state |
| LegacyFileStorage.FileStorageService.GetPictureDirectory | src/main/java/io/orvisual/api/service/FileStorageService.java:74-81 | creates the directory only when nothing exists there, and returns it or the creation error |
| BackendSelection.PathOf | src/main/java/io/orvisual/api/service/PictureStorageServiceFactoryBean.java:80 | `Paths.get` yields non-empty names with no separator |
| BackendSelection.PathText | src/main/java/io/orvisual/api/service/PictureStorageServiceFactoryBean.java:81 | `Path.toString()` of an absolute path: the root prints as `/`, any other path starts with `/` and has no trailing `/` |
| BackendSelection.PathTextRoundTrip | src/main/java/io/orvisual/api/service/PictureStorageServiceFactoryBean.java:80-81 | reading back a printed path, the root `/` included, gives the path |
| BackendSelection.CheckGallery | src/main/java/io/orvisual/api/service/PictureStorageServiceFactoryBean.java:80-84 | accepted iff a writable directory; otherwise the first failing check of exists, is-directory, writable |
| BackendSelection.RequiredProperty | src/main/java/io/orvisual/api/service/AmazonS3PictureStorageServiceFactoryBean.java:62 | present iff the key is set, with its value; otherwise a missing-property error naming it |
| BackendSelection.GalleryServiceFactory | src/main/java/io/orvisual/api/service/FileSystemPictureStorageServiceFactoryBean.java:46-53 | a missing `GALLERY_DIR` is reported; otherwise the gallery checks decide |
| BackendSelection.AmazonS3ServiceFactory | src/main/java/io/orvisual/api/service/AmazonS3PictureStorageServiceFactoryBean.java:59-77 | succeeds iff all four settings are present and the region is known, with exactly those settings |
| BackendSelection.PictureStorageServiceFactory | src/main/java/io/orvisual/api/service/PictureStorageServiceFactoryBean.java:76-102 | `GALLERY_DIR` set gives a file-system backend, unset an S3 one |
| BackendSelection.AwsCheckOrder | src/main/java/io/orvisual/api/service/PictureStorageServiceFactoryBean.java:87-101 | the first missing or invalid setting, in reading order, is the one reported |
| BackendSelection.GalleryWins | src/main/java/io/orvisual/api/service/PictureStorageServiceFactoryBean.java:77-85 | with `GALLERY_DIR` set no AWS setting matters, and the result is the gallery factory's |
| BackendSelection.NoGalleryMeansS3 | src/main/java/io/orvisual/api/service/PictureStorageServiceFactoryBean.java:87-101 | without `GALLERY_DIR` the result is the S3 factory's |
| BackendSelection.GalleryRootIsConfiguredPath | src/main/java/io/orvisual/api/service/FileSystemPictureStorageServiceFactoryBean.java:47-52 | an accepted gallery is rooted at exactly the configured path |
| BackendSelection.SlashIsRoot | src/main/java/io/orvisual/api/service/FileSystemPictureStorageServiceFactoryBean.java:47-52 | `GALLERY_DIR=/` roots the file-system backend at the root path, which Java prints as `/` |
| BackendSelection.AcceptedRootShardsCleanly | src/main/java/io/orvisual/api/service/FileSystemPictureStorageServiceFactoryBean.java:48-50 | below an accepted root a first save never fails to create its shard |
| Converter.Convert | src/main/java/io/orvisual/api/service/MultiPartFileToPictureFileItemConverter.java:28-47 | `null` iff empty or unreadable; otherwise the bytes, with a digest checksum (64 lower hex), shard directory, `.jpg` name, no type, loaded now |
| Converter.SameContentSameName | src/main/java/io/orvisual/api/service/MultiPartFileToPictureFileItemConverter.java:33-35 | equal bytes give equal checksum, directory and file name |
| Converter.ConvertedItemFitsShard | src/main/java/io/orvisual/api/service/MultiPartFileToPictureFileItemConverter.java:34 | the directory is the file-system backend's shard name |
| Converter.FileSystemBackendRefusesConvertedItem | src/main/java/io/orvisual/api/service/MultiPartFileToPictureFileItemConverter.java:37 | the file-system backend never stores a converted item: no MIME type, so the save fails |
| Controllers.SavePictureFileSpec | src/main/java/io/orvisual/api/controller/FileController.java:47-56 | find first; known gives OK with the record and no writes; new saves to storage first and, on success, records and gives CREATED; failures record nothing |
| Controllers.FindPictureFileSpec | src/main/java/io/orvisual/api/controller/FileController.java:59-66 | unknown gives NOT FOUND with no storage call; known gives OK with the record's type and the resolved resource; nothing is written |
| Controllers.DeletePictureSpec | src/main/java/io/orvisual/api/controller/PictureCustomController.java:31-38 | unknown gives NOT FOUND with no storage call; known deletes the record, then the file, and gives NO CONTENT |
| Controllers.UploadTwice | src/main/java/io/orvisual/api/controller/FileController.java:48-50 | a second upload gives OK with the saved record and writes nothing |
| Controllers.FailedStoreIsNotRecorded | src/main/java/io/orvisual/api/controller/FileController.java:52-54 | a failed storage write gives a server error and records nothing |
| Controllers.UploadThenDownload | src/main/java/io/orvisual/api/controller/FileController.java:47-66 | after CREATED, a download gives OK with the type, and reads back the bytes |
| Controllers.RecordGoneEvenIfFileStays | src/main/java/io/orvisual/api/controller/PictureCustomController.java:34-35 | a failed file delete gives a server error after the record is gone |
| Controllers.DeleteRemovesBoth | src/main/java/io/orvisual/api/controller/PictureCustomController.java:31-38 | a successful delete gives 204 and removes record and content |
| Controllers.FileController.constructor | src/main/java/io/orvisual/api/controller/FileController.java:37-43 | keeps the storage service and repository |
| Controllers.FileController.SavePictureFile | src/main/java/io/orvisual/api/controller/FileController.java:47-56 | reply, repository, storage and calls are `SavePictureFileSpec` of the old state |
| Controllers.FileController.FindPictureFile | src/main/java/io/orvisual/api/controller/FileController.java:59-66 | reply and calls are `FindPictureFileSpec` |
| Controllers.PictureCustomController.constructor | src/main/java/io/orvisual/api/controller/PictureCustomController.java:25-28 | keeps the repository and storage service |
| Controllers.PictureCustomController.DeletePicture | src/main/java/io/orvisual/api/controller/PictureCustomController.java:31-38 | reply, repository, storage and calls are `DeletePictureSpec` of the old state |
| OrderModel.Order.constructor | src/main/java/io/orvisual/api/model/Order.java:22 | every field unset |
| OrderModel.Order.WithDetails | src/main/java/io/orvisual/api/model/Order.java:25-36 | the five details set, identifier and timestamps unset |
| OrderValidation.PhoneMatchesIsPattern | src/main/java/io/orvisual/api/repository/OrderValidator.java:21 | the positional test is exactly `\+?\d+` |
| OrderValidation.EmailMatchesIsPattern | src/main/java/io/orvisual/api/repository/OrderValidator.java:22 | the positional test is exactly `.{2,}[@].{2,}` |
| OrderValidation.Utf16Length | src/main/java/io/orvisual/api/repository/OrderValidator.java:55 | between one and two units per character, one each inside the BMP |
| OrderValidation.Rule | src/main/java/io/orvisual/api/repository/OrderValidator.java:47-49 | a rule adds its error iff broken, and only that one |
| OrderValidation.ErrorsIffRulesBroken | src/main/java/io/orvisual/api/repository/OrderValidator.java:36-59 | each of the five errors occurs iff its rule is broken; at most five |
| OrderValidation.PhoneInvalidIffNotPattern | src/main/java/io/orvisual/api/repository/OrderValidator.java:47-49 | invalid phone iff non-empty and not of the pattern |
| OrderValidation.EmailInvalidIffNotPattern | src/main/java/io/orvisual/api/repository/OrderValidator.java:51-53 | invalid email iff non-empty and not of the pattern |
| OrderValidation.EmptyPhoneOnlyRequired | src/test/java/io/orvisual/api/repository/OrderValidationTest.java:74-90 | a missing or empty phone is only required, never invalid |
| OrderValidation.BlankPhoneBothErrors | src/main/java/io/orvisual/api/repository/OrderValidator.java:41-49 | a blank phone is both required and invalid |
| OrderValidation.AllMissing | src/test/java/io/orvisual/api/repository/OrderValidationTest.java:157-172 | an empty order gets exactly name-required then phone-required |
| OrderValidation.OptionalFieldsMayBeAbsent | src/test/java/io/orvisual/api/repository/OrderValidationTest.java:174-187 | absent email and description add no error |
| OrderValidation.DescriptionLimit | src/main/java/io/orvisual/api/repository/OrderValidator.java:55-57 | up to 2000 characters always fit, over 4000 never do |
| OrderValidation.Errors.constructor | src/main/java/io/orvisual/api/repository/OrderValidator.java:36 | starts with no field errors |
| OrderValidation.Errors.RejectValue | src/main/java/io/orvisual/api/repository/OrderValidator.java:48 | appends exactly one field error |
| OrderValidation.Validate | src/main/java/io/orvisual/api/repository/OrderValidator.java:36-59 | appends exactly `ValidationErrors` of the order, in rule order |
| OrderDeserializer.LookupFinds | src/main/java/io/orvisual/api/model/OrderSummaryDeserializer.java:27 | a member is found iff one has the name, and it is one so named |
| OrderDeserializer.Elements | src/main/java/io/orvisual/api/model/OrderSummaryDeserializer.java:35 | iterating an array gives its elements, an object its values, a value nothing |
| OrderDeserializer.PictureOf | src/main/java/io/orvisual/api/model/OrderSummaryDeserializer.java:36-37 | each node becomes a checksum-only picture of its text |
| OrderDeserializer.RequiredText | src/main/java/io/orvisual/api/model/OrderSummaryDeserializer.java:27-29 | text iff the member is present, else a null-field error naming it |
| OrderDeserializer.Pictures | src/main/java/io/orvisual/api/model/OrderSummaryDeserializer.java:34-39 | one picture per node, in order |
| OrderDeserializer.FailsOnFirstMissingField | src/main/java/io/orvisual/api/model/OrderSummaryDeserializer.java:27-29 | fails iff name, phone or email is absent, naming the first missing one |
| OrderDeserializer.FieldsAreCopied | src/main/java/io/orvisual/api/model/OrderSummaryDeserializer.java:27-30 | details are the members' text, the description iff present; identifier and timestamps unset |
| OrderDeserializer.PicturesFollowElements | src/main/java/io/orvisual/api/model/OrderSummaryDeserializer.java:32-41 | pictures unset iff absent; otherwise one checksum-only picture per element |
| OrderDeserializer.ReadsBackOrderJson | src/test/java/io/orvisual/api/model/OrderDeserializerTest.java:83-97 | reading an order's JSON form gives back the order |
| OrderDeserializer.CollectPictures | src/main/java/io/orvisual/api/model/OrderSummaryDeserializer.java:33-41 | the loop builds exactly `Pictures` of the nodes |
| OrderDeserializer.Deserialize | src/main/java/io/orvisual/api/model/OrderSummaryDeserializer.java:23-44 | fails iff the spec does, with its error; otherwise a new order holding the spec's record |
| OrderEvents.ClearTimestamps | src/main/java/io/orvisual/api/repository/OrderEvenHandler.java:26-29 | both timestamps unset, every other field kept |
| OrderEvents.ClearIsIdempotent | src/main/java/io/orvisual/api/repository/OrderEvenHandler.java:26-29 | clearing twice is clearing once |
| OrderEvents.ClearKeepsUnsetOrder | src/test/java/io/orvisual/api/repository/OrderEventHandlerTest.java:55-82 | an order is unchanged iff its timestamps are already unset |
| OrderEvents.ClearKeepsValidation | src/main/java/io/orvisual/api/repository/OrderEvenHandler.java:26-29 | clearing never changes the validation errors |
| OrderEvents.HandleBeforeCreate | src/main/java/io/orvisual/api/repository/OrderEvenHandler.java:26-29 | the order afterwards is `ClearTimestamps` of the order before |

## Left out

- SHA-256 is not computed. `Converter.Convert` takes the digest function as a parameter, constrained only to return 64 lower-case hexadecimal characters.
- The AWS SDK's client building, credentials and region table are left out. The known regions are a parameter set. Network and transport faults enter as a `fault` parameter of each call; the file-system backend ignores it.
- File permissions and full disks are left out. Writability is modelled only as the factories' `Files.isWritable` check, through a set of writable paths. A write or delete can fail only through the tree's shape.
- FileTree.Resolve: models `Path.resolve` of a single name only. Java splits an argument containing `/` into several names, returns the path unchanged for `""`, and returns an absolute argument as it is. None of this is modelled. The core resolves only hexadecimal checksums, their four-character prefix and `<checksum>.<ext>`, which are single non-empty names. A legacy record whose `directory` or `fileName` contains `/` is resolved differently by Java than by the model.
- `Paths.get` is modelled for absolute `/`-separated names only: `BackendSelection.PathOf`. Relative paths and the working directory are left out.
- Spring wiring, HATEOAS links (`createResource`, `entityLinks`), JPA mapping, Lombok accessors and logging are left out. HTTP requests are modelled from the converted item or checksum onwards; the web layer itself is not part of this model.
- Concurrency and the lazy reading of returned resources are left out. A resource is read against the storage state at the time of resolving.
- `PictureModel.Message` states only the fixed-text messages. A wrapped S3 exception's message is the cause's own description, which is left out.
- `FileSystemStorage.SaveIn` and the other file-system members require a checksum of at least four characters. For a shorter one the Java `substring(0, 4)` throws `StringIndexOutOfBoundsException`, which is not modelled; converted items always have 64.
- `LegacyFileStorage.SaveSpec` and the members of the legacy service require a record with non-empty directory and file names, as the converter builds it. A `null` name, which makes `Path.resolve` throw, is not modelled.
- OrderDeserializer.Get: for an object with duplicate member names the model returns the first member's value, whereas Jackson's tree reader keeps the last one. `OrderDeserializer.Elements` likewise yields every member of such an object, where Jackson's object node holds one value per distinct name. Objects without duplicate names are read exactly.
- JSON numbers keep their source text rather than a canonical form. Parse errors of the JSON text are left out.
- The Java deserializer fails with a `NullPointerException` when a required member is absent; the model names the field instead (`DeserializeError.NullField`).
- OrderValidation.Supports is a predicate without its own contract (`Order.class.equals`); its meaning is its one-line body.
- OrderValidation.ValidationErrors has no `ensures`. Its properties are stated by `ErrorsIffRulesBroken` and the lemmas after it.
- `Order`'s `@GeneratedValue` identifier and its persistence are left out. The identifier is an optional field that nothing in the core sets.
- `PictureResourceProcessor` and the order and summary repositories are left out. They are configuration without logic of their own.
