/** The downloader's step: the response's Content-Type decides the extension the video is
    saved under in the shared directory; the saved file is then announced to the pipeline. */
module DownloadVideo {
  import opened Wrappers
  import opened Strings
  import opened Tables
  import EC = EncodingContainers
  import UploadVideo
  import opened Messages
  import opened Amqp
  import opened Storage

  /** The content-type-to-extension table, entries in written order. */
  const ContentTypeToVideoExtension: Table := [
    ("video/mp4", "mp4"),
    ("video/quicktime", "mov"),
    ("video/x-msvideo", "avi"),
    ("video/x-matroska", "mkv"),
    ("video/x-ms-wmv", "wmv"),
    ("video/x-flv", "flv"),
    ("video/webm", "webm"),
    ("video/mpeg", "mpeg"),
    ("video/3gpp", "3gp"),
    ("video/ogg", "ogg"),
    ("video/mp2t", "ts"),
    ("video/x-m4v", "m4v"),
    ("video/MP2T", "m2ts"),
    ("video/dvd", "vob"),
    ("application/vnd.rn-realmedia", "rm"),
    ("application/vnd.rn-realmedia-vbr", "rmvb"),
    ("video/divx", "divx"),
    ("video/x-ms-asf", "asf"),
    ("application/x-shockwave-flash", "swf"),
    ("video/x-f4v", "f4v")
  ]

  /** Entry `i` of the table comes from the video container at this position of the
      declaration order: the table is that order with `mpg` skipped. */
  function SourcePosition(i: nat): nat {
    if i < 8 then i else i + 1
  }

  /** Entry `i` of the table is the MIME type and value of the video container at
      `SourcePosition(i)`, which is not `mpg`. */
  predicate EntryFromContainer(i: nat)
    requires i < |ContentTypeToVideoExtension| && SourcePosition(i) < |EC.AllContainers|
  {
    var c := EC.AllContainers[SourcePosition(i)];
    && EC.IsVideo(c) && c != EC.Mpg
    && ContentTypeToVideoExtension[i] == (EC.MapVideoContainerToContentType(c), EC.Value(c))
  }

  /** The table is the video containers other than `mpg`, each as (MIME type, value), in
      declaration order. */
  lemma TableIsVideoContainerTable()
    ensures |ContentTypeToVideoExtension| == 20 && |EC.AllContainers| == 26
    ensures forall i :: 0 <= i < 20 ==> EntryFromContainer(i)
  {
    FirstEntriesFromContainers();
    SecondEntriesFromContainers();
    ThirdEntriesFromContainers();
    LastEntriesFromContainers();
  }

  lemma FirstEntriesFromContainers()
    ensures |ContentTypeToVideoExtension| == 20 && |EC.AllContainers| == 26
    ensures forall i :: 0 <= i < 5 ==> EntryFromContainer(i)
  {
  }

  lemma SecondEntriesFromContainers()
    ensures |ContentTypeToVideoExtension| == 20 && |EC.AllContainers| == 26
    ensures forall i :: 5 <= i < 10 ==> EntryFromContainer(i)
  {
  }

  lemma ThirdEntriesFromContainers()
    ensures |ContentTypeToVideoExtension| == 20 && |EC.AllContainers| == 26
    ensures forall i :: 10 <= i < 15 ==> EntryFromContainer(i)
  {
  }

  lemma LastEntriesFromContainers()
    ensures |ContentTypeToVideoExtension| == 20 && |EC.AllContainers| == 26
    ensures forall i :: 15 <= i < 20 ==> EntryFromContainer(i)
  {
  }

  lemma TableKeysDistinct()
    ensures DistinctKeys(ContentTypeToVideoExtension)
  {
    TableIsVideoContainerTable();
    EC.AllContainersDistinct();
    forall i, j | 0 <= i < j < 20
      ensures ContentTypeToVideoExtension[i].0 != ContentTypeToVideoExtension[j].0
    {
      var a, b := EC.AllContainers[SourcePosition(i)], EC.AllContainers[SourcePosition(j)];
      assert EntryFromContainer(i) && EntryFromContainer(j);
      assert a != b && a != EC.Mpg && b != EC.Mpg;
      EC.VideoContentTypeInjectiveExceptMpeg(a, b);
    }
  }

  /** The table is a left inverse of the video container MIME table: every extension it
      yields is a video container's value, never `mpg`, and that container maps back to
      the content type that was looked up. */
  lemma TableIsLeftInverse(contentType: string)
    requires Lookup(ContentTypeToVideoExtension, contentType).Some?
    ensures var extension := Lookup(ContentTypeToVideoExtension, contentType).value;
      && EC.Parse(extension).Some? && EC.IsVideo(EC.Parse(extension).value)
      && EC.Parse(extension).value != EC.Mpg
      && EC.MapVideoContainerToContentType(EC.Parse(extension).value) == contentType
  {
    var i := LookupFound(ContentTypeToVideoExtension, contentType);
    TableIsVideoContainerTable();
    assert EntryFromContainer(i);
    EC.ValueRoundTrip(EC.AllContainers[SourcePosition(i)]);
  }

  /** Every video container's MIME type other than `mpg`'s is mapped back to that
      container's own value. */
  lemma TableCoversVideoContainer(c: EC.VideoContainer)
    requires c != EC.Mpg
    ensures Lookup(ContentTypeToVideoExtension, EC.MapVideoContainerToContentType(c)) == Some(EC.Value(c))
  {
    EC.ListedAtPosition(c);
    EC.VideoMembersFirst();
    var k := EC.Position(c);
    assert EC.AllContainers[8] == EC.Mpg;
    var i := if k < 8 then k else k - 1;
    assert SourcePosition(i) == k;
    TableIsVideoContainerTable();
    assert EntryFromContainer(i);
    TableKeysDistinct();
    LookupEntry(ContentTypeToVideoExtension, i);
  }

  /** `mpg` shares `video/mpeg` with `mpeg`, and that type is saved as `mpeg`. */
  lemma TableMapsMpgTypeToMpeg()
    ensures Lookup(ContentTypeToVideoExtension, EC.MapVideoContainerToContentType(EC.Mpg)) == Some(EC.Value(EC.Mpeg))
  {
    EC.ContentTypeCollisions();
    TableCoversVideoContainer(EC.Mpeg);
  }

  datatype DownloadError = MissingContentType | UnsupportedContentType | WriteRejected

  /** `${sharedDirectory}/${videoId}.${videoExtension}`. */
  function OutputPath(sharedDirectory: string, videoId: string, extension: string): string {
    sharedDirectory + "/" + videoId + "." + extension
  }

  /** The extension a `Content-Type` header value selects, or why the download is refused:
      a missing or empty header, or a type the table does not know. */
  function ExtensionOf(contentType: Option<string>): Result<string, DownloadError> {
    if contentType.None? || contentType.value == [] then Failure(MissingContentType)
    else match Lookup(ContentTypeToVideoExtension, contentType.value)
      case None => Failure(UnsupportedContentType)
      case Some(extension) => Success(extension)
  }

  /** Only the MIME type of a video container is accepted, and the extension chosen for
      it is a container value that maps back to that type. */
  lemma ExtensionOfAccepted(contentType: Option<string>)
    requires ExtensionOf(contentType).Success?
    ensures var extension := ExtensionOf(contentType).value;
      && contentType.Some? && EC.Parse(extension).Some? && EC.IsVideo(EC.Parse(extension).value)
      && EC.MapVideoContainerToContentType(EC.Parse(extension).value) == contentType.value
  {
    TableIsLeftInverse(contentType.value);
  }

  /** Every video container's MIME type is accepted, and saved under that container's
      value, except that `mpg`'s type (shared with `mpeg`) is saved as `mpeg`. */
  lemma ExtensionOfVideoType(c: EC.VideoContainer)
    ensures ExtensionOf(Some(EC.MapVideoContainerToContentType(c)))
      == Success(EC.Value(if c == EC.Mpg then EC.Mpeg else c))
  {
    assert |EC.MapVideoContainerToContentType(c)| > 0;
    if c == EC.Mpg {
      TableMapsMpgTypeToMpeg();
    } else {
      TableCoversVideoContainer(c);
    }
  }

  /** The file the downloader writes is accepted by the API's ingest check, which assigns it
      the very content type the download was served with. */
  lemma DownloadedFileIngestsWithSameType(sharedDirectory: string, videoId: string, contentType: string)
    requires ExtensionOf(Some(contentType)).Success?
    ensures UploadVideo.ContentTypeOf(OutputPath(sharedDirectory, videoId, ExtensionOf(Some(contentType)).value))
      == Success(contentType)
  {
    var extension := ExtensionOf(Some(contentType)).value;
    TableIsLeftInverse(contentType);
    var c: EC.VideoContainer := EC.Parse(extension).value;
    assert OutputPath(sharedDirectory, videoId, extension) == (sharedDirectory + "/" + videoId) + "." + EC.Value(c);
    UploadVideo.NamedVideoAccepted(sharedDirectory + "/" + videoId, c);
  }

  class DownloadVideoAction {
    const channel: Channel
    const fs: FileSystem
    /** The configured `sharedDirectory`. */
    const sharedDirectory: string

    constructor (channel: Channel, fs: FileSystem, sharedDirectory: string)
      ensures this.channel == channel && this.fs == fs && this.sharedDirectory == sharedDirectory
    {
      this.channel := channel;
      this.fs := fs;
      this.sharedDirectory := sharedDirectory;
    }

    /** Saves a fetched video and announces it. `contentType` is the response's
        `Content-Type` header and `data` the streamed body; the HTTP request itself is not
        modelled. */
    method Execute(videoId: string, contentType: Option<string>, data: string) returns (r: Result<(), DownloadError>)
      modifies channel, fs
      ensures ExtensionOf(contentType).Failure? ==>
        r == Failure(ExtensionOf(contentType).error)
        && fs.files == old(fs.files) && channel.published == old(channel.published)
      ensures ExtensionOf(contentType).Success? ==>
        var outputPath := OutputPath(sharedDirectory, videoId, ExtensionOf(contentType).value);
        && (outputPath in old(fs.failingWrites) ==>
              r == Failure(WriteRejected) && fs.files == old(fs.files) && channel.published == old(channel.published))
        && (outputPath !in old(fs.failingWrites) ==>
              && r == Success(())
              && fs.files == old(fs.files)[outputPath := data]
              && channel.published == old(channel.published)
                   + [Publication(ExchangeName, VideoDownloaded, Downloaded(videoId, outputPath))])
      ensures fs.dirs == old(fs.dirs) && fs.failingWrites == old(fs.failingWrites) && fs.failingRemovals == old(fs.failingRemovals)
      ensures channel.settlements == old(channel.settlements) && channel.consumers == old(channel.consumers)
      ensures channel.prefetch == old(channel.prefetch) && channel.topology == old(channel.topology)
    {
      if contentType.None? || contentType.value == [] {
        return Failure(MissingContentType);
      }
      var videoExtension := Lookup(ContentTypeToVideoExtension, contentType.value);
      if videoExtension.None? {
        return Failure(UnsupportedContentType);
      }
      var outputPath := OutputPath(sharedDirectory, videoId, videoExtension.value);
      var written := fs.WriteFile(outputPath, data);
      if written.Failure? {
        return Failure(WriteRejected);
      }
      channel.Publish(ExchangeName, VideoDownloaded, Downloaded(videoId, outputPath));
      return Success(());
    }
  }
}
