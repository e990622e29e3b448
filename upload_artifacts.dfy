/** The uploader stage for an artifacts directory: every file whose extension is an
    encoding container is uploaded under `<videoId>/<encodingId>/<file>` with that
    container's content type, other files are skipped; when all uploads succeed the
    directory is removed (a failed removal is only logged) and the upload is announced. */
module UploadArtifacts {
  import opened Wrappers
  import opened Strings
  import opened EncodingIds
  import EC = EncodingContainers
  import opened Messages
  import opened Amqp
  import opened Storage

  /** Where one run of the stage reads from and writes to. */
  datatype Target = Target(bucket: string, dir: string, videoId: string, encodingId: EncodingId)

  datatype Upload = Upload(key: BlobKey, blob: Blob)

  datatype UploadOutcome = Completed | Rejected

  /** `fileName.split('.').pop()`. */
  function Extension(fileName: string): string { LastSegment(fileName, '.') }

  /** `isEncodingContainer(extension)`: the test that decides whether a file is uploaded. */
  predicate IsArtifact(fileName: string) { EC.IsEncodingContainer(Some(Extension(fileName))) }

  /** The directory part of every key of a run: `<videoId>/<encodingId>/`. */
  function KeyPrefix(t: Target): string {
    t.videoId + "/" + Value(t.encodingId) + "/"
  }

  function ArtifactKey(t: Target, fileName: string): BlobKey {
    BlobKey(t.bucket, KeyPrefix(t) + fileName)
  }

  /** The file name a key of the run was made from. */
  function FileOf(t: Target, key: BlobKey): (f: string)
    ensures forall g :: key == ArtifactKey(t, g) ==> f == g
  {
    var p := KeyPrefix(t);
    assert forall g :: (p + g)[|p|..] == g;
    if |p| <= |key.name| then key.name[|p|..] else ""
  }

  /** The container a file's extension names, if any. */
  function ContainerOf(fileName: string): Option<EC.EncodingContainer> {
    EC.Parse(Extension(fileName))
  }

  /** A file has a container exactly when `isEncodingContainer` accepts its extension,
      and the container's value is that extension. */
  lemma ContainerOfExactly(fileName: string)
    ensures ContainerOf(fileName).Some? <==> IsArtifact(fileName)
    ensures ContainerOf(fileName).Some? ==> EC.Value(ContainerOf(fileName).value) == Extension(fileName)
  {
    EC.IsEncodingContainerExactly(Some(Extension(fileName)));
  }

  /** The upload of one accepted file: its key, its container's content type, and the
      path its bytes are streamed from. */
  function ArtifactUpload(t: Target, fileName: string, container: EC.EncodingContainer): Upload {
    Upload(ArtifactKey(t, fileName), Blob(EC.MapEncodingContainerToContentType(container), JoinPath(t.dir, fileName)))
  }

  /** The uploads for a directory listing, in listing order: one per file whose extension
      is an encoding container, none for the others. */
  function ArtifactUploads(t: Target, files: seq<string>): (ups: seq<Upload>)
    ensures |ups| <= |files|
    decreases |files|
  {
    if files == [] then [] else FileUploads(t, files[0]) + ArtifactUploads(t, files[1..])
  }

  /** What the callback for one listed file uploads: nothing, or that file. */
  function FileUploads(t: Target, fileName: string): (ups: seq<Upload>)
    ensures |ups| <= 1
  {
    match ContainerOf(fileName)
    case Some(c) => [ArtifactUpload(t, fileName, c)]
    case None => []
  }

  /** An upload is made for a file exactly when its extension is an encoding container,
      and each upload is that of some listed file. */
  lemma {:induction false} ArtifactUploadsExactly(t: Target, files: seq<string>)
    ensures forall f :: f in files && ContainerOf(f).Some? ==> ArtifactUpload(t, f, ContainerOf(f).value) in ArtifactUploads(t, files)
    ensures forall u :: u in ArtifactUploads(t, files) ==>
      (var f := FileOf(t, u.key); f in files && ContainerOf(f).Some? && u == ArtifactUpload(t, f, ContainerOf(f).value))
    decreases |files|
  {
    if files != [] {
      ArtifactUploadsExactly(t, files[1..]);
      assert forall f :: f in files <==> f == files[0] || f in files[1..];
    }
  }

  lemma {:induction false} ArtifactUploadsAppend(t: Target, files: seq<string>, f: string)
    ensures ArtifactUploads(t, files + [f]) == ArtifactUploads(t, files) + FileUploads(t, f)
    decreases |files|
  {
    if files == [] {
      assert ArtifactUploads(t, [f]) == FileUploads(t, f) + ArtifactUploads(t, []);
    } else {
      assert (files + [f])[1..] == files[1..] + [f];
      ArtifactUploadsAppend(t, files[1..], f);
    }
  }

  /** The store's contents after the uploads, those to failing keys left out. */
  function ApplyUploads(blobs: map<BlobKey, Blob>, ups: seq<Upload>, failing: set<BlobKey>): map<BlobKey, Blob>
    decreases |ups|
  {
    if ups == [] then blobs
    else
      var next := if ups[0].key in failing then blobs else blobs[ups[0].key := ups[0].blob];
      ApplyUploads(next, ups[1..], failing)
  }

  lemma {:induction false} ApplyUploadsConcat(blobs: map<BlobKey, Blob>, ups: seq<Upload>, more: seq<Upload>, failing: set<BlobKey>)
    ensures ApplyUploads(blobs, ups + more, failing) == ApplyUploads(ApplyUploads(blobs, ups, failing), more, failing)
    decreases |ups|
  {
    if ups == [] {
      assert [] + more == more;
    } else {
      var next := if ups[0].key in failing then blobs else blobs[ups[0].key := ups[0].blob];
      assert (ups + more)[1..] == ups[1..] + more;
      ApplyUploadsConcat(next, ups[1..], more, failing);
    }
  }

  /** Some upload of `ups` goes to a failing key. */
  predicate AnyFails(ups: seq<Upload>, failing: set<BlobKey>) {
    exists i :: 0 <= i < |ups| && ups[i].key in failing
  }

  lemma AnyFailsConcat(ups: seq<Upload>, more: seq<Upload>, failing: set<BlobKey>)
    ensures AnyFails(ups + more, failing) <==> AnyFails(ups, failing) || AnyFails(more, failing)
  {
    var all := ups + more;
    assert forall j :: 0 <= j < |ups| ==> all[j] == ups[j];
    assert forall j :: 0 <= j < |more| ==> all[|ups| + j] == more[j];
  }

  /** No two uploads share a key. */
  predicate DistinctKeys(ups: seq<Upload>) {
    forall i, j :: 0 <= i < j < |ups| ==> ups[i].key != ups[j].key
  }

  /** Distinct keys: no upload overwrites another, so after the uploads each one that did
      not fail is in the store, and keys no upload touches keep their blobs. */
  lemma {:induction false} UploadsLand(blobs: map<BlobKey, Blob>, ups: seq<Upload>, failing: set<BlobKey>)
    requires DistinctKeys(ups)
    ensures forall u :: u in ups && u.key !in failing ==>
      u.key in ApplyUploads(blobs, ups, failing) && ApplyUploads(blobs, ups, failing)[u.key] == u.blob
    ensures forall k :: (forall u :: u in ups ==> u.key != k) ==>
      (k in ApplyUploads(blobs, ups, failing) <==> k in blobs)
    ensures forall k :: k in blobs && (forall u :: u in ups ==> u.key != k) ==>
      ApplyUploads(blobs, ups, failing)[k] == blobs[k]
    decreases |ups|
  {
    if ups != [] {
      var next := if ups[0].key in failing then blobs else blobs[ups[0].key := ups[0].blob];
      UploadsLand(next, ups[1..], failing);
      assert forall u :: u in ups <==> u == ups[0] || u in ups[1..];
      assert forall u :: u in ups[1..] ==> u.key != ups[0].key;
    }
  }

  /** Distinct file names give distinct keys. */
  lemma {:induction false} ArtifactKeysDistinct(t: Target, files: seq<string>)
    requires Distinct(files)
    ensures DistinctKeys(ArtifactUploads(t, files))
    decreases |files|
  {
    if files != [] {
      var rest := ArtifactUploads(t, files[1..]);
      assert Distinct(files[1..]);
      ArtifactKeysDistinct(t, files[1..]);
      var c := ContainerOf(files[0]);
      if c.Some? {
        var u0 := ArtifactUpload(t, files[0], c.value);
        assert files[0] !in files[1..];
        ArtifactUploadsExactly(t, files[1..]);
        DistinctKeysCons(t, u0, rest, files);
      }
    }
  }

  /** Prepending the upload of a file not otherwise listed keeps the keys distinct. */
  lemma DistinctKeysCons(t: Target, u0: Upload, rest: seq<Upload>, files: seq<string>)
    requires files != [] && files[0] !in files[1..]
    requires FileOf(t, u0.key) == files[0]
    requires forall u :: u in rest ==> FileOf(t, u.key) in files[1..]
    requires DistinctKeys(rest)
    ensures DistinctKeys([u0] + rest)
  {
    var ups := [u0] + rest;
    forall i, j | 0 <= i < j < |ups| ensures ups[i].key != ups[j].key {
      assert ups[j] == rest[j - 1] && rest[j - 1] in rest;
      if i > 0 {
        assert ups[i] == rest[i - 1];
      }
    }
  }

  /** After a run in which no upload failed, every listed artifact is in the store under
      its key, with its container's content type and its path as source, and every key
      that no listed file maps to keeps its blob. */
  lemma CompletedRunStoresArtifacts(t: Target, files: seq<string>, blobs: map<BlobKey, Blob>, failing: set<BlobKey>)
    requires Distinct(files)
    requires !AnyFails(ArtifactUploads(t, files), failing)
    ensures var after := ApplyUploads(blobs, ArtifactUploads(t, files), failing);
      forall f :: f in files && ContainerOf(f).Some? ==>
        && ArtifactKey(t, f) in after
        && after[ArtifactKey(t, f)] == Blob(EC.MapEncodingContainerToContentType(ContainerOf(f).value), JoinPath(t.dir, f))
    ensures var after := ApplyUploads(blobs, ArtifactUploads(t, files), failing);
      forall k :: k in blobs && (forall f :: f in files ==> k != ArtifactKey(t, f)) ==> k in after && after[k] == blobs[k]
  {
    var ups := ArtifactUploads(t, files);
    var after := ApplyUploads(blobs, ups, failing);
    ArtifactKeysDistinct(t, files);
    forall f | f in files && ContainerOf(f).Some?
      ensures ArtifactKey(t, f) in after
      ensures after[ArtifactKey(t, f)] == Blob(EC.MapEncodingContainerToContentType(ContainerOf(f).value), JoinPath(t.dir, f))
    {
      ArtifactUploadsExactly(t, files);
      var u := ArtifactUpload(t, f, ContainerOf(f).value);
      var i :| 0 <= i < |ups| && ups[i] == u;
      UploadsLand(blobs, ups, failing);
    }
    forall k | k in blobs && (forall f :: f in files ==> k != ArtifactKey(t, f))
      ensures k in after && after[k] == blobs[k]
    {
      ArtifactUploadsExactly(t, files);
      forall u | u in ups ensures u.key != k {
        assert u.key == ArtifactKey(t, FileOf(t, u.key));
      }
      UploadsLand(blobs, ups, failing);
    }
  }

  /** One more file of the listing: its uploads follow those of the files before it. */
  lemma UploadsOfNextFile(t: Target, files: seq<string>, i: nat, blobs: map<BlobKey, Blob>, failing: set<BlobKey>)
    requires i < |files|
    ensures ApplyUploads(blobs, ArtifactUploads(t, files[..i + 1]), failing)
      == ApplyUploads(ApplyUploads(blobs, ArtifactUploads(t, files[..i]), failing), FileUploads(t, files[i]), failing)
    ensures AnyFails(ArtifactUploads(t, files[..i + 1]), failing)
      <==> AnyFails(ArtifactUploads(t, files[..i]), failing) || AnyFails(FileUploads(t, files[i]), failing)
  {
    assert files[..i + 1] == files[..i] + [files[i]];
    ArtifactUploadsAppend(t, files[..i], files[i]);
    ApplyUploadsConcat(blobs, ArtifactUploads(t, files[..i]), FileUploads(t, files[i]), failing);
    AnyFailsConcat(ArtifactUploads(t, files[..i]), FileUploads(t, files[i]), failing);
  }

  class UploadVideoArtifactsAction {
    const channel: Channel
    const store: BlobStore
    const fs: FileSystem
    const encodingArtifactsBucket: string

    constructor (channel: Channel, store: BlobStore, fs: FileSystem, encodingArtifactsBucket: string)
      ensures this.channel == channel && this.store == store && this.fs == fs
      ensures this.encodingArtifactsBucket == encodingArtifactsBucket
    {
      this.channel := channel;
      this.store := store;
      this.fs := fs;
      this.encodingArtifactsBucket := encodingArtifactsBucket;
    }

    /** The callback for one listed file: a file whose extension is not an encoding
        container is skipped; otherwise it is uploaded under its key with the container's
        content type. `failed` says whether its upload was rejected. */
    method UploadFile(t: Target, fileName: string) returns (failed: bool)
      requires store.Valid()
      modifies store
      ensures store.Valid() && store.failingUploads == old(store.failingUploads)
      ensures store.blobs == ApplyUploads(old(store.blobs), FileUploads(t, fileName), old(store.failingUploads))
      ensures failed == AnyFails(FileUploads(t, fileName), old(store.failingUploads))
    {
      var container := ContainerOf(fileName);
      if container.None? {
        return false;
      }
      var up := ArtifactUpload(t, fileName, container.value);
      assert FileUploads(t, fileName) == [up];
      var r := store.UploadBlob(up.key, up.blob);
      failed := r.Failure?;
    }

    /** The `Promise.all` over the listing: every file's callback runs, so a failing
        upload does not stop the others; `failed` says whether any failed. */
    method UploadAll(t: Target, files: seq<string>) returns (failed: bool)
      requires store.Valid()
      modifies store
      ensures store.Valid() && store.failingUploads == old(store.failingUploads)
      ensures store.blobs == ApplyUploads(old(store.blobs), ArtifactUploads(t, files), old(store.failingUploads))
      ensures failed == AnyFails(ArtifactUploads(t, files), old(store.failingUploads))
    {
      failed := false;
      var i := 0;
      while i < |files|
        invariant 0 <= i <= |files|
        invariant store.Valid() && store.failingUploads == old(store.failingUploads)
        invariant store.blobs == ApplyUploads(old(store.blobs), ArtifactUploads(t, files[..i]), old(store.failingUploads))
        invariant failed == AnyFails(ArtifactUploads(t, files[..i]), old(store.failingUploads))
      {
        UploadsOfNextFile(t, files, i, old(store.blobs), old(store.failingUploads));
        var failedOne := UploadFile(t, files[i]);
        failed := failed || failedOne;
        i := i + 1;
      }
      assert files[..i] == files;
    }

    method Execute(videoId: string, artifactsDirectory: string, encodingId: EncodingId) returns (outcome: UploadOutcome)
      requires store.Valid()
      modifies channel, store, fs
      ensures store.Valid()
      ensures artifactsDirectory !in old(fs.dirs) ==> outcome == Rejected && store.blobs == old(store.blobs)
      ensures artifactsDirectory in old(fs.dirs) ==>
        var ups := ArtifactUploads(Target(encodingArtifactsBucket, artifactsDirectory, videoId, encodingId), old(fs.dirs)[artifactsDirectory]);
        && store.blobs == ApplyUploads(old(store.blobs), ups, old(store.failingUploads))
        && (outcome == Rejected <==> AnyFails(ups, old(store.failingUploads)))
      ensures outcome == Rejected ==> fs.dirs == old(fs.dirs) && fs.files == old(fs.files)
      ensures outcome == Completed && artifactsDirectory !in old(fs.failingRemovals) ==>
        && fs.dirs == old(fs.dirs) - {artifactsDirectory}
        && fs.files == map p | p in old(fs.files) && !StartsWith(p, artifactsDirectory + "/") :: old(fs.files)[p]
      ensures outcome == Completed && artifactsDirectory in old(fs.failingRemovals) ==>
        fs.dirs == old(fs.dirs) && fs.files == old(fs.files)
      ensures fs.failingWrites == old(fs.failingWrites) && fs.failingRemovals == old(fs.failingRemovals)
      ensures channel.published == old(channel.published)
        + (if outcome == Completed then [Publication(ExchangeName, VideoArtifactUploaded, ArtifactsUploaded(videoId, encodingId))] else [])
      ensures channel.settlements == old(channel.settlements) && channel.consumers == old(channel.consumers)
      ensures channel.prefetch == old(channel.prefetch) && channel.topology == old(channel.topology)
    {
      var listing := fs.ReadDir(artifactsDirectory);
      if listing.Failure? {
        return Rejected;
      }
      var failed := UploadAll(Target(encodingArtifactsBucket, artifactsDirectory, videoId, encodingId), listing.value);
      if failed {
        return Rejected;
      }
      var removed := fs.RemoveRecursive(artifactsDirectory);
      channel.Publish(ExchangeName, VideoArtifactUploaded, ArtifactsUploaded(videoId, encodingId));
      return Completed;
    }
  }
}
