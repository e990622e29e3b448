/** The object store and the local file system, reduced to the state the stages read and
    change. Each collaborator carries a set of operations that fail, so that every failure
    path of a stage can be reached. */
module Storage {
  import opened Wrappers
  import opened Strings

  datatype BlobKey = BlobKey(bucket: string, name: string)

  /** A stored object: its content type and the path (or upload) its bytes came from. */
  datatype Blob = Blob(contentType: string, source: string)

  datatype StoreError = UploadFailed | DeleteFailed | NotFound | WriteFailed

  /** The names under `prefix` in `bucket`, in enumeration order. */
  function ListNames(order: seq<BlobKey>, bucket: string, prefix: string): (names: seq<string>)
    ensures forall n :: n in names <==> BlobKey(bucket, n) in order && StartsWith(n, prefix)
    decreases |order|
  {
    if order == [] then []
    else
      var rest := ListNames(order[1..], bucket, prefix);
      assert forall k :: k in order <==> k == order[0] || k in order[1..];
      if order[0].bucket == bucket && StartsWith(order[0].name, prefix) then [order[0].name] + rest else rest
  }

  predicate Distinct<T(==)>(s: seq<T>) {
    forall i, j :: 0 <= i < j < |s| ==> s[i] != s[j]
  }

  /** `s` with `key` taken out. */
  function Without(s: seq<BlobKey>, key: BlobKey): (r: seq<BlobKey>)
    ensures forall k :: k in r <==> k in s && k != key
    ensures Distinct(s) ==> Distinct(r)
    decreases |s|
  {
    if s == [] then []
    else
      var rest := Without(s[1..], key);
      assert forall k :: k in s <==> k == s[0] || k in s[1..];
      if s[0] == key then rest
      else
        assert Distinct(s) ==> s[0] !in s[1..];
        [s[0]] + rest
  }

  class BlobStore {
    var blobs: map<BlobKey, Blob>
    /** The order in which a listing enumerates the keys. */
    var order: seq<BlobKey>
    var failingUploads: set<BlobKey>
    var failingDeletes: set<BlobKey>
    /** The location (URL) the store reports for a stored key. */
    const locate: BlobKey -> string

    ghost predicate Valid()
      reads this
    {
      && (forall k :: k in blobs <==> k in order)
      && Distinct(order)
    }

    constructor (failingUploads: set<BlobKey>, failingDeletes: set<BlobKey>, locate: BlobKey -> string)
      ensures Valid() && blobs == map[] && order == []
      ensures this.failingUploads == failingUploads && this.failingDeletes == failingDeletes
      ensures this.locate == locate
    {
      blobs := map[];
      order := [];
      this.failingUploads := failingUploads;
      this.failingDeletes := failingDeletes;
      this.locate := locate;
    }

    /** `getBlobs({bucketName, prefix})`, reduced to the names. */
    method GetBlobs(bucket: string, prefix: string) returns (names: seq<string>)
      ensures names == ListNames(order, bucket, prefix)
    {
      names := ListNames(order, bucket, prefix);
    }

    /** `uploadBlob`: stores the blob and returns its location, or fails leaving the store
        as it was. */
    method UploadBlob(key: BlobKey, blob: Blob) returns (r: Result<string, StoreError>)
      requires Valid()
      modifies this
      ensures Valid()
      ensures failingUploads == old(failingUploads) && failingDeletes == old(failingDeletes)
      ensures key in old(failingUploads) ==> r == Failure(UploadFailed) && blobs == old(blobs) && order == old(order)
      ensures key !in old(failingUploads) ==> r == Success(locate(key)) && blobs == old(blobs)[key := blob]
    {
      if key in failingUploads {
        return Failure(UploadFailed);
      }
      if key !in blobs {
        order := order + [key];
      }
      blobs := blobs[key := blob];
      return Success(locate(key));
    }

    /** `deleteBlob`: fails when the key is absent or the store refuses. */
    method DeleteBlob(key: BlobKey) returns (r: Result<(), StoreError>)
      requires Valid()
      modifies this
      ensures Valid()
      ensures failingUploads == old(failingUploads) && failingDeletes == old(failingDeletes)
      ensures key !in old(blobs) ==> r == Failure(NotFound) && blobs == old(blobs) && order == old(order)
      ensures key in old(blobs) && key in old(failingDeletes) ==> r == Failure(DeleteFailed) && blobs == old(blobs) && order == old(order)
      ensures key in old(blobs) && key !in old(failingDeletes) ==> r == Success(()) && blobs == old(blobs) - {key}
    {
      if key !in blobs {
        return Failure(NotFound);
      }
      if key in failingDeletes {
        return Failure(DeleteFailed);
      }
      order := Without(order, key);
      blobs := blobs - {key};
      return Success(());
    }
  }

  /** The path of `name` inside `dir`, as `path.join` builds it for a plain name. */
  function JoinPath(dir: string, name: string): string { dir + "/" + name }

  /** The local disk: directory listings, file contents, and the paths whose writes or
      removals fail. */
  class FileSystem {
    var dirs: map<string, seq<string>>
    var files: map<string, string>
    var failingWrites: set<string>
    var failingRemovals: set<string>

    constructor (dirs: map<string, seq<string>>, files: map<string, string>, failingWrites: set<string>, failingRemovals: set<string>)
      ensures this.dirs == dirs && this.files == files
      ensures this.failingWrites == failingWrites && this.failingRemovals == failingRemovals
    {
      this.dirs := dirs;
      this.files := files;
      this.failingWrites := failingWrites;
      this.failingRemovals := failingRemovals;
    }

    /** `readdir(dir)`: fails when the directory does not exist. */
    method ReadDir(dir: string) returns (r: Result<seq<string>, StoreError>)
      ensures dir in dirs ==> r == Success(dirs[dir])
      ensures dir !in dirs ==> r == Failure(NotFound)
    {
      if dir in dirs {
        return Success(dirs[dir]);
      }
      return Failure(NotFound);
    }

    /** `writeFile(path, content)`. */
    method WriteFile(path: string, content: string) returns (r: Result<(), StoreError>)
      modifies this
      ensures dirs == old(dirs) && failingWrites == old(failingWrites) && failingRemovals == old(failingRemovals)
      ensures path in old(failingWrites) ==> r == Failure(WriteFailed) && files == old(files)
      ensures path !in old(failingWrites) ==> r == Success(()) && files == old(files)[path := content]
    {
      if path in failingWrites {
        return Failure(WriteFailed);
      }
      files := files[path := content];
      return Success(());
    }

    /** `unlink(path)`: fails when there is no such file or the disk refuses. */
    method Unlink(path: string) returns (r: Result<(), StoreError>)
      modifies this
      ensures dirs == old(dirs) && failingWrites == old(failingWrites) && failingRemovals == old(failingRemovals)
      ensures path !in old(files) ==> r == Failure(NotFound) && files == old(files)
      ensures path in old(files) && path in old(failingRemovals) ==> r == Failure(DeleteFailed) && files == old(files)
      ensures path in old(files) && path !in old(failingRemovals) ==> r == Success(()) && files == old(files) - {path}
    {
      if path !in files {
        return Failure(NotFound);
      }
      if path in failingRemovals {
        return Failure(DeleteFailed);
      }
      files := files - {path};
      return Success(());
    }

    /** `rm(dir, {recursive: true, force: true})`: removes the directory and every file
        under it; a missing directory is not an error. */
    method RemoveRecursive(dir: string) returns (r: Result<(), StoreError>)
      modifies this
      ensures failingWrites == old(failingWrites) && failingRemovals == old(failingRemovals)
      ensures dir in old(failingRemovals) ==> r == Failure(DeleteFailed) && files == old(files) && dirs == old(dirs)
      ensures dir !in old(failingRemovals) ==> (r == Success(())
        && dirs == old(dirs) - {dir}
        && files == map p | p in old(files) && !StartsWith(p, dir + "/") :: old(files)[p])
    {
      if dir in failingRemovals {
        return Failure(DeleteFailed);
      }
      dirs := dirs - {dir};
      files := map p | p in files && !StartsWith(p, dir + "/") :: files[p];
      return Success(());
    }
  }
}
