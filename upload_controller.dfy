/**
 * The upload controller's own logic: which files the upload middleware lets
 * through, the storage name of an uploaded file, and the ownership test before
 * a stored image is deleted. The storage calls themselves are not modelled.
 */
module UploadController {
  import opened Wrappers
  import opened Strings
  import opened Http
  import Lists

  /** What the middleware knows of an uploaded file. */
  datatype UploadedFile = UploadedFile(originalName: string, mimetype: string, size: nat)

  const ImageMimePrefix: string := "image/"

  /** The `fileSize` limit: 5 MiB. */
  const MaxFileSize: nat := 5 * 1024 * 1024

  /** `fileFilter`: a file is accepted exactly when its MIME type starts with `image/`. */
  function FileFilter(file: UploadedFile): (r: Outcome<()>)
    ensures r.Done? <==> StartsWith(file.mimetype, ImageMimePrefix)
    ensures r.Failed? ==> r == Failed(BadRequest, "Only image files are allowed")
  {
    if StartsWith(file.mimetype, ImageMimePrefix) then Done(())
    else Failed(BadRequest, "Only image files are allowed")
  }

  /** The size limit: a file up to 5 MiB passes. */
  predicate WithinSizeLimit(file: UploadedFile) {
    file.size <= MaxFileSize
  }

  /**
   * `originalname.split('.').pop()`: the text after the last `.`, or the whole
   * name when it has none.
   */
  function Extension(originalName: string): (ext: string)
    ensures |ext| <= |originalName| && ext == originalName[|originalName| - |ext|..]
    ensures '.' !in ext
    ensures '.' !in originalName ==> ext == originalName
    ensures '.' in originalName ==> originalName[|originalName| - |ext| - 1] == '.'
  {
    SplitLastPiece(originalName, '.');
    assert "." == ['.'];
    Last(Split(originalName, "."))
  }

  /** `${userId}/${uuid}.${fileExtension}`: `uuid` is the fresh id the host generates. */
  function StoredName(userId: string, uuid: string, originalName: string): (name: string)
    ensures name == userId + "/" + uuid + "." + Extension(originalName)
    ensures StartsWith(name, userId + "/")
    ensures |name| == |userId| + 1 + |uuid| + 1 + |Extension(originalName)|
  {
    var owner := userId + "/";
    var file := uuid + "." + Extension(originalName);
    StartsWithConcat(owner, file);
    owner + file
  }

  /** The stored name keeps the original file's extension: reading it back gives the same text. */
  lemma StoredNameKeepsExtension(userId: string, uuid: string, originalName: string)
    ensures Extension(StoredName(userId, uuid, originalName)) == Extension(originalName)
  {
    var name := StoredName(userId, uuid, originalName);
    var ext := Extension(originalName);
    var r := Extension(name);
    var n := |name|;
    assert name[n - |ext| - 1] == '.';
    assert name[n - |ext|..] == ext;
  }

  /** `uploadImage`: a request without a file is refused; otherwise the file is stored under its generated name. */
  function UploadImage(userId: string, file: Option<UploadedFile>, uuid: string): (r: Outcome<string>)
    ensures file.None? <==> r == Failed(BadRequest, "No file uploaded")
    ensures file.Some? ==> r == Done(StoredName(userId, uuid, file.value.originalName))
  {
    match file
    case None => Failed(BadRequest, "No file uploaded")
    case Some(f) => Done(StoredName(userId, uuid, f.originalName))
  }

  /** `uploadMultipleImages`: an empty request is refused; otherwise file `i` is stored under a name with the `i`-th fresh id. */
  function UploadMultipleImages(userId: string, files: seq<UploadedFile>, uuids: nat -> string): (r: Outcome<seq<string>>)
    ensures |files| == 0 <==> r == Failed(BadRequest, "No files uploaded")
    ensures |files| > 0 ==>
      && r.Done? && |r.value| == |files|
      && forall i | 0 <= i < |files| :: r.value[i] == StoredName(userId, uuids(i), files[i].originalName)
  {
    if |files| == 0 then Failed(BadRequest, "No files uploaded")
    else Done(seq(|files|, i requires 0 <= i < |files| => StoredName(userId, uuids(i), files[i].originalName)))
  }

  /** `path.startsWith(userId)`: the ownership test of `deleteImage`. */
  predicate DeleteAllowed(userId: string, path: string) {
    StartsWith(path, userId)
  }

  /** `deleteImage` before the storage call: 403 unless the path starts with the user's id. */
  function DeleteImage(userId: string, path: string): (r: Outcome<string>)
    ensures r.Done? <==> DeleteAllowed(userId, path)
    ensures r.Failed? ==> r == Failed(Forbidden, "Access denied")
    ensures r.Done? ==> r.value == path
  {
    if DeleteAllowed(userId, path) then Done(path) else Failed(Forbidden, "Access denied")
  }

  /** Every name stored for a user passes that user's own ownership test. */
  lemma OwnUploadsDeletable(userId: string, uuid: string, originalName: string)
    ensures DeleteImage(userId, StoredName(userId, uuid, originalName)).Done?
  {
    var name := StoredName(userId, uuid, originalName);
    assert name[..|userId|] == (userId + "/")[..|userId|];
  }

  /**
   * The test is a bare prefix test: a user whose id is a proper prefix of
   * another user's id passes it on that user's files ("ab" on "abc/x").
   */
  lemma PrefixIdPassesOnOthersFiles(u: string, v: string, uuid: string, originalName: string)
    requires |u| < |v| && v[..|u|] == u
    ensures DeleteAllowed(u, StoredName(v, uuid, originalName))
  {
    var name := StoredName(v, uuid, originalName);
    assert name[..|v|] == v;
    assert name[..|u|] == v[..|u|];
  }

  lemma ShortPrefixExample()
    ensures DeleteAllowed("ab", "abc/x")
  {
  }

  /** Between ids of one length, such as UUIDs, the test admits exactly the owner. */
  lemma SameLengthIdsExact(u: string, v: string, uuid: string, originalName: string)
    requires |u| == |v|
    ensures DeleteAllowed(u, StoredName(v, uuid, originalName)) <==> u == v
  {
    var name := StoredName(v, uuid, originalName);
    assert name[..|v|] == v;
    if u == v {
      OwnUploadsDeletable(v, uuid, originalName);
    }
  }
}
