/**
 * The factory beans that build a storage service from the process environment: the gallery
 * directory checks, the four AWS settings, and the choice between the two backends.
 */
module BackendSelection {
  import opened Wrappers
  import opened PictureModel
  import opened FileTree
  import FileSystemStorage

  /** The process environment as Spring's `Environment` exposes it. */
  type Environment = map<string, string>

  /** The file system the factories inspect, and the paths the process may write. */
  datatype Host = Host(tree: Tree, writable: set<Path>)

  /** `Files.isWritable`: the path exists and the process may write it. */
  predicate IsWritable(h: Host, p: Path)
  {
    Present(h.tree, p) && p in h.writable
  }

  /** Why a factory refuses to build its service. */
  datatype ConfigurationError =
    | MissingProperty(key: string)       // `getRequiredProperty` of an absent key
    | GalleryMissing(gallery: Path)      // "Directory '…' not exists"
    | GalleryNotDirectory(gallery: Path) // "File item '…' not directory"
    | GalleryNotWritable(gallery: Path)  // "Directory '…' not writable"
    | InvalidRegion(region: string)      // `Region.fromValue` rejects the value

  /** The settings an S3 client and service are built from. */
  datatype S3Settings = S3Settings(accessKeyId: string, secretAccessKey: string, region: string, bucketName: string)

  /** What the combined factory builds: a file-system service at a root, or an S3 service. */
  datatype BackendConfig = FileSystemConfig(root: Path) | AmazonS3Config(settings: S3Settings)

  /** A path name is a sequence of non-empty names with no separator in them. */
  predicate ValidPath(p: Path)
  {
    forall i :: 0 <= i < |p| ==> |p[i]| > 0 && '/' !in p[i]
  }

  /** `Paths.get(name)` for an absolute name: its `/`-separated names, empty ones dropped. */
  function PathOf(name: string): (p: Path)
    ensures ValidPath(p)
  {
    PathFrom(name, "")
  }

  /** Splits `s`, with `current` the name read so far. */
  function PathFrom(s: string, current: string): (p: Path)
    requires '/' !in current
    ensures ValidPath(p)
    decreases |s|
  {
    if s == [] then
      if current == "" then [] else [current]
    else if s[0] == '/' then
      (if current == "" then [] else [current]) + PathFrom(s[1..], "")
    else
      PathFrom(s[1..], current + [s[0]])
  }

  /** `Path.toString()` of an absolute path: `/` for the root, otherwise `/` before each name. */
  function PathText(p: Path): (s: string)
    ensures p == [] ==> s == "/"
    ensures |s| > 0 && s[0] == '/'
    ensures ValidPath(p) && p != [] ==> s[|s| - 1] != '/'
  {
    if p == [] then "/" else NamesText(p)
  }

  /** The names of a path, each preceded by a separator. */
  function NamesText(p: Path): (s: string)
    ensures p == [] <==> s == ""
    ensures p != [] ==> s[0] == '/'
    ensures ValidPath(p) && p != [] ==> s[|s| - 1] != '/'
  {
    if p == [] then "" else
      assert ValidPath(p) ==> ValidPath(p[1..]) by {
        if ValidPath(p) {
          forall i | 0 <= i < |p[1..]| ensures |p[1..][i]| > 0 && '/' !in p[1..][i] {
            assert p[1..][i] == p[i + 1];
          }
        }
      }
      "/" + p[0] + NamesText(p[1..])
  }

  /** Reading a name splits off the characters up to the next separator. */
  lemma {:induction false} PathFromName(name: string, rest: string, current: string)
    requires '/' !in current && '/' !in name
    requires rest == [] || rest[0] == '/'
    ensures PathFrom(name + rest, current) == PathFrom(rest, current + name)
    decreases |name|
  {
    if name != [] {
      assert (name + rest)[0] == name[0];
      assert (name + rest)[1..] == name[1..] + rest;
      assert current + name == (current + [name[0]]) + name[1..];
      PathFromName(name[1..], rest, current + [name[0]]);
    } else {
      assert name + rest == rest;
      assert current + name == current;
    }
  }

  /** Printing a path and reading it back gives the same path; the root prints as `/`. */
  lemma PathTextRoundTrip(p: Path)
    requires ValidPath(p)
    ensures PathOf(PathText(p)) == p
  {
    if p == [] {
      assert PathFrom("/", "") == [] + PathFrom("", "");
    } else {
      NamesRoundTrip(p);
    }
  }

  /** Reading back the names of a path gives the path. */
  lemma {:induction false} NamesRoundTrip(p: Path)
    requires ValidPath(p)
    ensures PathOf(NamesText(p)) == p
  {
    if p != [] {
      var tail := p[1..];
      assert ValidPath(tail) by {
        forall i | 0 <= i < |tail| ensures |tail[i]| > 0 && '/' !in tail[i] {
          assert tail[i] == p[i + 1];
        }
      }
      var rest := NamesText(tail);
      NamesRoundTrip(tail);
      var s := NamesText(p);
      assert s == "/" + (p[0] + rest);
      assert s[0] == '/' && s[1..] == p[0] + rest;
      assert PathFrom(s, "") == PathFrom(p[0] + rest, "");
      PathFromName(p[0], rest, "");
      assert "" + p[0] == p[0];
      SplitAfterName(p[0], rest);
      assert p == [p[0]] + tail;
    }
  }

  /** A name followed by the text of further names reads as that name, then those names. */
  lemma SplitAfterName(name: string, rest: string)
    requires |name| > 0 && '/' !in name
    requires rest == [] || rest[0] == '/'
    ensures PathFrom(rest, name) == [name] + PathFrom(rest, "")
  {
    if rest != [] {
      assert PathFrom(rest, name) == [name] + PathFrom(rest[1..], "");
      assert PathFrom(rest, "") == PathFrom(rest[1..], "");
    }
  }

  /** The three gallery checks, in order: exists, is a directory, is writable. */
  function CheckGallery(h: Host, name: string): (r: Result<Path, ConfigurationError>)
    ensures r.Success? <==> IsDirectory(h.tree, PathOf(name)) && IsWritable(h, PathOf(name))
    ensures r.Success? ==> r.value == PathOf(name)
    ensures !Present(h.tree, PathOf(name)) ==> r == Failure(GalleryMissing(PathOf(name)))
    ensures Present(h.tree, PathOf(name)) && !IsDirectory(h.tree, PathOf(name)) ==>
      r == Failure(GalleryNotDirectory(PathOf(name)))
    ensures IsDirectory(h.tree, PathOf(name)) && !IsWritable(h, PathOf(name)) ==>
      r == Failure(GalleryNotWritable(PathOf(name)))
  {
    var gallery := PathOf(name);
    if !Present(h.tree, gallery) then Failure(GalleryMissing(gallery))
    else if !IsDirectory(h.tree, gallery) then Failure(GalleryNotDirectory(gallery))
    else if !IsWritable(h, gallery) then Failure(GalleryNotWritable(gallery))
    else Success(gallery)
  }

  /** `Environment.getRequiredProperty`. */
  function RequiredProperty(env: Environment, key: string): (r: Result<string, ConfigurationError>)
    ensures r.Success? <==> key in env
    ensures r.Success? ==> r.value == env[key]
    ensures r.Failure? ==> r.error == MissingProperty(key)
  {
    if key in env then Success(env[key]) else Failure(MissingProperty(key))
  }

  /**
   * `createInstance` of both gallery factory beans, `FileSystemPictureStorageServiceFactoryBean`
   * and the legacy `FileStorageServiceFactoryBean`, which run the same checks: the root path of
   * the service they build.
   */
  function GalleryServiceFactory(env: Environment, h: Host): (r: Result<Path, ConfigurationError>)
    ensures "GALLERY_DIR" !in env ==> r == Failure(MissingProperty("GALLERY_DIR"))
    ensures "GALLERY_DIR" in env ==> r == CheckGallery(h, env["GALLERY_DIR"])
  {
    var name :- RequiredProperty(env, "GALLERY_DIR");
    CheckGallery(h, name)
  }

  /**
   * `AmazonS3PictureStorageServiceFactoryBean.createInstance`: the access key, the secret key,
   * the region (present, then recognised) and the bucket name, read in that order.
   */
  function AmazonS3ServiceFactory(env: Environment, knownRegions: set<string>): (r: Result<S3Settings, ConfigurationError>)
    ensures r.Success? <==>
      && "AWS_ACCESS_KEY_ID" in env && "AWS_SECRET_ACCESS_KEY" in env
      && "AWS_REGION" in env && env["AWS_REGION"] in knownRegions
      && "AWS_BUCKET_NAME" in env
    ensures r.Success? ==> r.value == S3Settings(env["AWS_ACCESS_KEY_ID"], env["AWS_SECRET_ACCESS_KEY"], env["AWS_REGION"], env["AWS_BUCKET_NAME"])
  {
    var accessKeyId :- RequiredProperty(env, "AWS_ACCESS_KEY_ID");
    var secretAccessKey :- RequiredProperty(env, "AWS_SECRET_ACCESS_KEY");
    var region :- RequiredProperty(env, "AWS_REGION");
    if region !in knownRegions then Failure(InvalidRegion(region))
    else
      var bucketName :- RequiredProperty(env, "AWS_BUCKET_NAME");
      Success(S3Settings(accessKeyId, secretAccessKey, region, bucketName))
  }

  /**
   * `PictureStorageServiceFactoryBean.createInstance`: a file-system backend when the gallery
   * variable is set, an S3 backend otherwise.
   */
  function PictureStorageServiceFactory(env: Environment, h: Host, knownRegions: set<string>)
    : (r: Result<BackendConfig, ConfigurationError>)
    ensures "GALLERY_DIR" in env && r.Success? ==> r.value.FileSystemConfig?
    ensures "GALLERY_DIR" !in env && r.Success? ==> r.value.AmazonS3Config?
  {
    if "GALLERY_DIR" in env then
      var root :- CheckGallery(h, env["GALLERY_DIR"]);
      Success(FileSystemConfig(root))
    else
      var settings :- AmazonS3ServiceFactory(env, knownRegions);
      Success(AmazonS3Config(settings))
  }

  /** The AWS settings are checked in a fixed order; the first missing or bad one is reported. */
  lemma AwsCheckOrder(env: Environment, knownRegions: set<string>)
    ensures "AWS_ACCESS_KEY_ID" !in env ==>
      AmazonS3ServiceFactory(env, knownRegions) == Failure(MissingProperty("AWS_ACCESS_KEY_ID"))
    ensures "AWS_ACCESS_KEY_ID" in env && "AWS_SECRET_ACCESS_KEY" !in env ==>
      AmazonS3ServiceFactory(env, knownRegions) == Failure(MissingProperty("AWS_SECRET_ACCESS_KEY"))
    ensures "AWS_ACCESS_KEY_ID" in env && "AWS_SECRET_ACCESS_KEY" in env && "AWS_REGION" !in env ==>
      AmazonS3ServiceFactory(env, knownRegions) == Failure(MissingProperty("AWS_REGION"))
    ensures ("AWS_ACCESS_KEY_ID" in env && "AWS_SECRET_ACCESS_KEY" in env && "AWS_REGION" in env
             && env["AWS_REGION"] !in knownRegions) ==>
      AmazonS3ServiceFactory(env, knownRegions) == Failure(InvalidRegion(env["AWS_REGION"]))
    ensures AmazonS3ServiceFactory(env, knownRegions) == Failure(MissingProperty("AWS_BUCKET_NAME")) <==>
      && "AWS_ACCESS_KEY_ID" in env && "AWS_SECRET_ACCESS_KEY" in env
      && "AWS_REGION" in env && env["AWS_REGION"] in knownRegions
      && "AWS_BUCKET_NAME" !in env
  {
  }

  /**
   * With the gallery variable set, the combined factory does what the file-system factory does
   * and reads no AWS setting: environments agreeing on the gallery variable give the same result.
   */
  lemma GalleryWins(env: Environment, env': Environment, h: Host, knownRegions: set<string>)
    requires "GALLERY_DIR" in env && "GALLERY_DIR" in env' && env["GALLERY_DIR"] == env'["GALLERY_DIR"]
    ensures PictureStorageServiceFactory(env, h, knownRegions) == PictureStorageServiceFactory(env', h, knownRegions)
    ensures GalleryServiceFactory(env, h).Success? <==> PictureStorageServiceFactory(env, h, knownRegions).Success?
    ensures PictureStorageServiceFactory(env, h, knownRegions).Success? ==>
      PictureStorageServiceFactory(env, h, knownRegions).value == FileSystemConfig(GalleryServiceFactory(env, h).value)
  {
  }

  /** Without the gallery variable, the combined factory does what the S3 factory does. */
  lemma NoGalleryMeansS3(env: Environment, h: Host, knownRegions: set<string>)
    requires "GALLERY_DIR" !in env
    ensures AmazonS3ServiceFactory(env, knownRegions).Success? <==> PictureStorageServiceFactory(env, h, knownRegions).Success?
    ensures AmazonS3ServiceFactory(env, knownRegions).Failure? ==>
      PictureStorageServiceFactory(env, h, knownRegions) == Failure(AmazonS3ServiceFactory(env, knownRegions).error)
    ensures PictureStorageServiceFactory(env, h, knownRegions).Success? ==>
      PictureStorageServiceFactory(env, h, knownRegions).value == AmazonS3Config(AmazonS3ServiceFactory(env, knownRegions).value)
  {
  }

  /** On success the file-system backend is rooted at exactly the configured gallery path. */
  lemma GalleryRootIsConfiguredPath(env: Environment, h: Host, root: Path)
    requires ValidPath(root) && env == map["GALLERY_DIR" := PathText(root)]
    requires IsDirectory(h.tree, root) && IsWritable(h, root)
    ensures GalleryServiceFactory(env, h) == Success(root)
  {
    PathTextRoundTrip(root);
  }

  /** A gallery variable of `/` roots the file-system backend at the root path. */
  lemma SlashIsRoot(h: Host)
    requires IsWritable(h, [])
    ensures GalleryServiceFactory(map["GALLERY_DIR" := "/"], h) == Success([])
  {
    GalleryRootIsConfiguredPath(map["GALLERY_DIR" := "/"], h, []);
  }

  /**
   * A root accepted by the factory is a directory, so in a well-formed tree every first save
   * of a picture creates its shard without a directory error.
   */
  lemma AcceptedRootShardsCleanly(env: Environment, h: Host, item: PictureFileItem)
    requires GalleryServiceFactory(env, h).Success? && WellFormed(h.tree)
    requires |item.pictureItem.checksum| >= 4
    ensures var root := GalleryServiceFactory(env, h).value;
      !(FileSystemStorage.SaveIn(root, h.tree, item).0.Fail?
        && FileSystemStorage.SaveIn(root, h.tree, item).0.error.DirectoryCreationFailed?)
  {
    var root := GalleryServiceFactory(env, h).value;
    if !Present(h.tree, FileSystemStorage.ShardDirectory(root, item.pictureItem.checksum)) {
      FileSystemStorage.ShardCreatedBelowRoot(root, h.tree, item);
    }
  }
}
