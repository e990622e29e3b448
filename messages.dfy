/** What the stages put on the broker: the exchange, the routing keys and the JSON bodies
    they publish, each body written with exactly the fields the publishing action sets. */
module Messages {
  import opened EncodingIds

  /** The single topic exchange every stage publishes to. */
  const ExchangeName: string := "transcoder"

  /** The routing keys, with the values of the shared contracts package. */
  datatype RoutingKey =
    | VideoIngested | VideoDownloaded | VideoEncodingRequested | VideoEncoded | VideoArtifactUploaded

  function RoutingKeyValue(k: RoutingKey): string {
    match k
    case VideoIngested => "video.ingested"
    case VideoDownloaded => "video.downloaded"
    case VideoEncodingRequested => "video.encoding.requested"
    case VideoEncoded => "video.encoded"
    case VideoArtifactUploaded => "video.artifact.uploaded"
  }

  /** Distinct keys have distinct values: a binding on one key's exact value never
      receives another stage's messages. */
  lemma RoutingKeyValueInjective(a: RoutingKey, b: RoutingKey)
    requires RoutingKeyValue(a) == RoutingKeyValue(b)
    ensures a == b
  {
    // the five values have five different lengths
    assert |RoutingKeyValue(a)| == |RoutingKeyValue(b)|;
  }

  /** One entry of the encoding director's configured profile list. */
  datatype EncodingProfile = EncodingProfile(id: EncodingId, width: int, height: int, bitrate: int, fps: int)

  /** The bodies, one constructor per publishing action. */
  datatype Message =
    | EncodingRequested(videoId: string, location: string, encodingProfile: EncodingProfile)
    | Encoded(videoId: string, location: string, encodingId: EncodingId)
    | ArtifactsUploaded(videoId: string, encodingId: EncodingId)
    | ArtifactUploaded(videoId: string, encodingId: EncodingId, videoArtifactUrl: string)
    | Ingested(videoId: string, userEmail: string)
    | Downloaded(videoId: string, location: string)

  /** One `channel.publish(exchange, routingKey, body)` call. */
  datatype Publication = Publication(exchange: string, routingKey: RoutingKey, body: Message)
}
