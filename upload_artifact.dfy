/** The uploader stage for one encoded artifact: the file at the message's location is
    uploaded as `<videoId>/<encodingId>.<container>` with the container's content type,
    and the location the store reports is announced. */
module UploadArtifact {
  import opened Wrappers
  import opened Strings
  import opened EncodingIds
  import EC = EncodingContainers
  import opened Messages
  import opened Amqp
  import opened Storage

  /** The `encoding` part of the payload. */
  datatype Encoding = Encoding(id: EncodingId, container: EC.EncodingContainer)

  /** `<encodingId>.<container>`: the artifact's file name, also its source name. */
  function ArtifactFileName(e: Encoding): string {
    Value(e.id) + "." + EC.Value(e.container)
  }

  /** `<videoId>/<fileName>`. */
  function ArtifactBlobName(videoId: string, e: Encoding): string {
    videoId + "/" + ArtifactFileName(e)
  }

  /** The blob's file name, read back from its name, has the container as its extension
      and names the encoding id before it; so the name alone determines the encoding. */
  lemma ArtifactFileNameParts(videoId: string, e: Encoding)
    ensures LastSegment(ArtifactBlobName(videoId, e), '/') == ArtifactFileName(e)
    ensures LastSegment(ArtifactFileName(e), '.') == EC.Value(e.container)
    ensures FirstSegment(ArtifactFileName(e), '.') == Value(e.id)
    ensures EC.Parse(LastSegment(ArtifactFileName(e), '.')) == Some(e.container)
  {
    ValueHasNoSeparators(e.id);
    EC.ValueHasNoSeparators(e.container);
    var f := ArtifactFileName(e);
    assert '/' !in f by {
      assert forall k :: 0 <= k < |f| ==> f[k] in Value(e.id) || f[k] == '.' || f[k] in EC.Value(e.container);
    }
    LastSegmentAfterSeparator(videoId, '/', f);
    assert ArtifactBlobName(videoId, e) == videoId + ['/'] + f;
    LastSegmentAfterSeparator(Value(e.id), '.', EC.Value(e.container));
    assert f == Value(e.id) + ['.'] + EC.Value(e.container);
    FirstSegmentBeforeSeparator(Value(e.id), '.', EC.Value(e.container));
    EC.ValueRoundTrip(e.container);
  }

  /** Distinct encodings of one video get distinct blob names: no artifact overwrites
      another. */
  lemma ArtifactBlobNameInjective(videoId: string, e1: Encoding, e2: Encoding)
    requires ArtifactBlobName(videoId, e1) == ArtifactBlobName(videoId, e2)
    ensures e1 == e2
  {
    var p := videoId + "/";
    assert (p + ArtifactFileName(e1))[|p|..] == ArtifactFileName(e1);
    assert (p + ArtifactFileName(e2))[|p|..] == ArtifactFileName(e2);
    ValueHasNoSeparators(e1.id);
    ValueHasNoSeparators(e2.id);
    EC.ValueHasNoSeparators(e1.container);
    EC.ValueHasNoSeparators(e2.container);
    JoinedPartsUnique(Value(e1.id), EC.Value(e1.container), Value(e2.id), EC.Value(e2.container), '.');
    ValueInjective(e1.id, e2.id);
    EC.ValueInjective(e1.container, e2.container);
  }

  class UploadVideoArtifactAction {
    const channel: Channel
    const store: BlobStore
    const encodingArtifactsBucket: string

    constructor (channel: Channel, store: BlobStore, encodingArtifactsBucket: string)
      ensures this.channel == channel && this.store == store
      ensures this.encodingArtifactsBucket == encodingArtifactsBucket
    {
      this.channel := channel;
      this.store := store;
      this.encodingArtifactsBucket := encodingArtifactsBucket;
    }

    /** Uploads the file at `location` and announces the location the store reports. A
        failed upload rejects with nothing published; `location` of the result is the
        artifact's URL. */
    method Execute(videoId: string, location: string, encoding: Encoding) returns (r: Result<string, StoreError>)
      requires store.Valid()
      modifies channel, store
      ensures store.Valid()
      ensures var key := BlobKey(encodingArtifactsBucket, ArtifactBlobName(videoId, encoding));
        && (key in old(store.failingUploads) ==>
              r.Failure? && store.blobs == old(store.blobs) && channel.published == old(channel.published))
        && (key !in old(store.failingUploads) ==>
              && r == Success(store.locate(key))
              && store.blobs == old(store.blobs)[key := Blob(EC.MapEncodingContainerToContentType(encoding.container), location)]
              && channel.published == old(channel.published)
                   + [Publication(ExchangeName, VideoArtifactUploaded, ArtifactUploaded(videoId, encoding.id, store.locate(key)))])
      ensures channel.settlements == old(channel.settlements) && channel.consumers == old(channel.consumers)
      ensures channel.prefetch == old(channel.prefetch) && channel.topology == old(channel.topology)
    {
      var contentType := EC.MapEncodingContainerToContentType(encoding.container);
      var blobName := ArtifactBlobName(videoId, encoding);
      var uploaded := store.UploadBlob(BlobKey(encodingArtifactsBucket, blobName), Blob(contentType, location));
      if uploaded.Failure? {
        return uploaded;
      }
      var videoArtifactUrl := uploaded.value;
      channel.Publish(ExchangeName, VideoArtifactUploaded, ArtifactUploaded(videoId, encoding.id, videoArtifactUrl));
      return Success(videoArtifactUrl);
    }
  }
}
