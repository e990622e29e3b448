/** The API's ingest step: the uploaded file's extension decides whether it is a video and
    which MIME type it is stored with; the video gets a fresh id, is stored as
    `<videoId>/source` and announced to the pipeline. */
module UploadVideo {
  import opened Wrappers
  import opened Strings
  import opened Tables
  import EC = EncodingContainers
  import opened Messages
  import opened Amqp
  import opened Storage

  /** The extension-to-MIME-type table, entries in written order. */
  const VideoExtensionToContentType: Table := [
    ("mp4", "video/mp4"),
    ("mov", "video/quicktime"),
    ("avi", "video/x-msvideo"),
    ("mkv", "video/x-matroska"),
    ("wmv", "video/x-ms-wmv"),
    ("flv", "video/x-flv"),
    ("webm", "video/webm"),
    ("mpeg", "video/mpeg"),
    ("mpg", "video/mpeg"),
    ("3gp", "video/3gpp"),
    ("ogg", "video/ogg"),
    ("ts", "video/mp2t"),
    ("m4v", "video/x-m4v"),
    ("m2ts", "video/MP2T"),
    ("vob", "video/dvd"),
    ("rm", "application/vnd.rn-realmedia"),
    ("rmvb", "application/vnd.rn-realmedia-vbr"),
    ("divx", "video/divx"),
    ("asf", "video/x-ms-asf"),
    ("swf", "application/x-shockwave-flash"),
    ("f4v", "video/x-f4v")
  ]

  /** Entry `i` of the table is video container `i`'s value and MIME type. */
  predicate EntryFromContainer(i: nat)
    requires i < |VideoExtensionToContentType| && i < |EC.AllContainers|
  {
    && EC.IsVideo(EC.AllContainers[i])
    && VideoExtensionToContentType[i] == (EC.Value(EC.AllContainers[i]), EC.MapVideoContainerToContentType(EC.AllContainers[i]))
  }

  /** The table is the video containers' values paired with the shared container table's
      MIME types, in declaration order. */
  lemma TableIsVideoContainerTable()
    ensures |VideoExtensionToContentType| == 21 && |EC.AllContainers| == 26
    ensures forall i :: 0 <= i < 21 ==> EntryFromContainer(i)
  {
    FirstEntriesFromContainers();
    MiddleEntriesFromContainers();
    LastEntriesFromContainers();
  }

  lemma FirstEntriesFromContainers()
    ensures |VideoExtensionToContentType| == 21 && |EC.AllContainers| == 26
    ensures forall i :: 0 <= i < 7 ==> EntryFromContainer(i)
  {
  }

  lemma MiddleEntriesFromContainers()
    ensures |VideoExtensionToContentType| == 21 && |EC.AllContainers| == 26
    ensures forall i :: 7 <= i < 14 ==> EntryFromContainer(i)
  {
  }

  lemma LastEntriesFromContainers()
    ensures |VideoExtensionToContentType| == 21 && |EC.AllContainers| == 26
    ensures forall i :: 14 <= i < 21 ==> EntryFromContainer(i)
  {
  }

  lemma TableKeysDistinct()
    ensures DistinctKeys(VideoExtensionToContentType)
  {
    TableIsVideoContainerTable();
    EC.AllContainersDistinct();
    forall i, j | 0 <= i < j < 21
      ensures VideoExtensionToContentType[i].0 != VideoExtensionToContentType[j].0
    {
      assert EntryFromContainer(i) && EntryFromContainer(j);
      if VideoExtensionToContentType[i].0 == VideoExtensionToContentType[j].0 {
        EC.ValueInjective(EC.AllContainers[i], EC.AllContainers[j]);
      }
    }
  }

  /** Every extension the table knows is a video container's value, mapped to that
      container's MIME type. */
  lemma TableOnlyVideoContainers(extension: string)
    requires Lookup(VideoExtensionToContentType, extension).Some?
    ensures EC.Parse(extension).Some? && EC.IsVideo(EC.Parse(extension).value)
    ensures Lookup(VideoExtensionToContentType, extension).value == EC.MapVideoContainerToContentType(EC.Parse(extension).value)
  {
    var i := LookupFound(VideoExtensionToContentType, extension);
    TableIsVideoContainerTable();
    assert EntryFromContainer(i);
    EC.ValueRoundTrip(EC.AllContainers[i]);
  }

  /** Every video container's value is in the table with the shared table's MIME type. */
  lemma TableHasVideoContainers(c: EC.VideoContainer)
    ensures Lookup(VideoExtensionToContentType, EC.Value(c)) == Some(EC.MapVideoContainerToContentType(c))
  {
    EC.AllContainersComplete(c);
    EC.VideoMembersFirst();
    var i :| 0 <= i < 26 && EC.AllContainers[i] == c;
    TableIsVideoContainerTable();
    assert EntryFromContainer(i);
    TableKeysDistinct();
    LookupEntry(VideoExtensionToContentType, i);
  }

  /** `fileName.split('.').pop()`. */
  function Extension(fileName: string): string {
    LastSegment(fileName, '.')
  }

  datatype IngestError = NoExtension | NotAVideo | UploadRejected

  /** The key the source video is stored under. */
  function SourceBlobName(videoId: string): string {
    videoId + "/source"
  }

  /** The MIME type a file name is stored with, or why it is refused. */
  function ContentTypeOf(fileName: string): Result<string, IngestError> {
    var extension := Extension(fileName);
    if extension == [] then Failure(NoExtension)
    else match Lookup(VideoExtensionToContentType, extension)
      case None => Failure(NotAVideo)
      case Some(contentType) => Success(contentType)
  }

  /** A file is accepted exactly when its extension is a video container's value, and it is
      then stored with that container's MIME type. */
  lemma ContentTypeOfExactly(fileName: string)
    ensures ContentTypeOf(fileName).Success? ==>
      EC.Parse(Extension(fileName)).Some? && EC.IsVideo(EC.Parse(Extension(fileName)).value)
      && ContentTypeOf(fileName).value == EC.MapVideoContainerToContentType(EC.Parse(Extension(fileName)).value)
    ensures forall c :: EC.IsVideo(c) && EC.Value(c) == Extension(fileName) ==>
      ContentTypeOf(fileName) == Success(EC.MapVideoContainerToContentType(c))
    ensures Extension(fileName) == [] ==> ContentTypeOf(fileName) == Failure(NoExtension)
  {
    if ContentTypeOf(fileName).Success? {
      TableOnlyVideoContainers(Extension(fileName));
    }
    forall c | EC.IsVideo(c) && EC.Value(c) == Extension(fileName)
      ensures ContentTypeOf(fileName) == Success(EC.MapVideoContainerToContentType(c)) {
      TableHasVideoContainers(c);
    }
  }

  /** A name with a dot-free stem and a container value after its last dot is accepted. */
  lemma NamedVideoAccepted(stem: string, c: EC.VideoContainer)
    ensures ContentTypeOf(stem + "." + EC.Value(c)) == Success(EC.MapVideoContainerToContentType(c))
  {
    EC.ValueHasNoSeparators(c);
    LastSegmentAfterSeparator(stem, '.', EC.Value(c));
    assert stem + "." + EC.Value(c) == stem + ['.'] + EC.Value(c);
    ContentTypeOfExactly(stem + "." + EC.Value(c));
  }

  class UploadVideoAction {
    const channel: Channel
    const store: BlobStore
    /** The `ingestedVideos` bucket name. */
    const ingestedVideosBucket: string

    constructor (channel: Channel, store: BlobStore, ingestedVideosBucket: string)
      ensures this.channel == channel && this.store == store
      ensures this.ingestedVideosBucket == ingestedVideosBucket
    {
      this.channel := channel;
      this.store := store;
      this.ingestedVideosBucket := ingestedVideosBucket;
    }

    /** Validates the file name, stores the file under a fresh id and announces it.
        `freshId` is the uuid the generator would return; it is used only once the name
        has been accepted. */
    method Execute(fileName: string, userEmail: string, freshId: string) returns (r: Result<string, IngestError>)
      requires store.Valid()
      modifies channel, store
      ensures store.Valid()
      ensures ContentTypeOf(fileName).Failure? ==>
        r == Failure(ContentTypeOf(fileName).error)
        && store.blobs == old(store.blobs) && channel.published == old(channel.published)
      ensures ContentTypeOf(fileName).Success? ==>
        var key := BlobKey(ingestedVideosBucket, SourceBlobName(freshId));
        && (key in old(store.failingUploads) ==>
              r == Failure(UploadRejected) && store.blobs == old(store.blobs) && channel.published == old(channel.published))
        && (key !in old(store.failingUploads) ==>
              && r == Success(freshId)
              && store.blobs == old(store.blobs)[key := Blob(ContentTypeOf(fileName).value, fileName)]
              && channel.published == old(channel.published)
                   + [Publication(ExchangeName, VideoIngested, Ingested(freshId, userEmail))])
      ensures channel.settlements == old(channel.settlements) && channel.consumers == old(channel.consumers)
      ensures channel.prefetch == old(channel.prefetch) && channel.topology == old(channel.topology)
    {
      var fileExtension := Extension(fileName);
      if fileExtension == [] {
        return Failure(NoExtension);
      }
      var videoContentType := Lookup(VideoExtensionToContentType, fileExtension);
      if videoContentType.None? {
        return Failure(NotAVideo);
      }
      var videoId := freshId;
      var uploaded := store.UploadBlob(BlobKey(ingestedVideosBucket, SourceBlobName(videoId)), Blob(videoContentType.value, fileName));
      if uploaded.Failure? {
        return Failure(UploadRejected);
      }
      channel.Publish(ExchangeName, VideoIngested, Ingested(videoId, userEmail));
      return Success(videoId);
    }
  }
}
