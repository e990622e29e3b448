# Transcoder pipeline core, modelled in Dafny

The transcoder is a set of small services connected by a RabbitMQ topic exchange named
`transcoder`:

- The API ingests an uploaded video. It checks the file's extension against a table of
  video MIME types, stores the file under `<videoId>/source` and announces `video.ingested`.
- The downloader fetches a video from a URL. It maps the response's `Content-Type` back to
  an extension, writes `<sharedDirectory>/<videoId>.<ext>` and announces `video.downloaded`.
- The encoding director fans a downloaded video out into one `video.encoding.requested`
  message per configured encoding profile.
- The encoder runs ffmpeg once for a full-video rendition or a preview clip, and twice for
  the thumbnail sheet (extract frames, then tile them). It then announces `video.encoded`.
- The uploader stores single artifacts, or whole artifact directories, in the artifacts
  bucket with the content type of their container. It then announces the upload.
- The playlist stitcher lists a video's artifacts and sorts the rendition playlists by
  height. It writes the HLS master playlist that points at them and uploads it.

Every consumer runs behind the same wrapper. The wrapper acks a handled message. It
acks and drops a message whose `x-death` header shows too many rejections. It rejects any
other failure without requeueing it. Every stage declares its queue with a `.retry` twin.

Beside the pipeline, the model covers parts of the two HTTP servers (the API and the book
backend):

- the error handler that turns a thrown error into a status code and a body;
- the schema-error formatter;
- the trimming of every string in a request body;
- the backend router's path normalisation and schema translation;
- the backend's command that replaces a user book's cover image.

Layout: one module per source component (`encoding_id.dfy`, `encoding_container.dfy`,
`upload_video.dfy`, …). The collaborators are small classes with explicit state:
`Storage.BlobStore` for S3, `Storage.FileSystem` for the local disk, `Amqp.Channel` for the
broker channel, and `EncodeVideo.Engine` for ffmpeg. Each collaborator has a set of
operations that fail, so every error path of a stage can be reached. Each stage is a class
whose `Execute` method changes those collaborators. Its contract states the new state on
every path, and lemmas about the pure functions it is specified by carry the properties.

## Model

| member | source | states |
|---|---|---|
| EncodingIds.Parse | libs/contracts/src/amqp/messages/encodingId.ts:3-14 | decoding a wire string yields an id whose value is that string |
| EncodingIds.EnumIsClosed | libs/contracts/src/amqp/messages/encodingId.ts:3-14 | the enum has exactly ten distinct members and decoding inverts the value of each |
| EncodingIds.ValueInjective | libs/contracts/src/amqp/messages/encodingId.ts:3-14 | two ids with the same string value are the same id |
| EncodingIds.ValueHasNoSeparators | libs/contracts/src/amqp/messages/encodingId.ts:4-13 | no id value contains '.' or '/', so it can stand as a file stem or a path segment |
| EncodingIds.Classify | libs/contracts/src/amqp/messages/encodingId.ts:16-32 | the three membership predicates are pairwise exclusive and cover the enum: each id is in exactly one kind |
| EncodingIds.TranscodingValues | libs/contracts/src/amqp/messages/encodingId.ts:16-18 | an id is a transcoding id iff its value is one of 360p, 480p, 720p, 1080p |
| EncodingIds.PreviewValues | libs/contracts/src/amqp/messages/encodingId.ts:20-28 | an id is a preview id iff its value is preview or one of its four sized variants |
| Messages.RoutingKeyValueInjective | libs/contracts/src/amqp/routingKeys.ts:1-7 | the five routing keys have five different values |
| EncodingContainers.Parse | common/contracts/src/amqp/messages/encodingContainer.ts:27-54 | decoding yields a container whose value is the input, and fails only for strings that are no container's value |
| EncodingContainers.AllContainersComplete | common/contracts/src/amqp/messages/encodingContainer.ts:27-54 | the list of all containers holds every container |
| EncodingContainers.AllContainersDistinct | common/contracts/src/amqp/messages/encodingContainer.ts:27-54 | no container is listed twice |
| EncodingContainers.ValueListsMatch | common/contracts/src/amqp/messages/encodingContainer.ts:3-54 | the 21 video container values are the first 21 encoding container values, in order, and exactly those containers are video containers |
| EncodingContainers.ValuesDistinct | common/contracts/src/amqp/messages/encodingContainer.ts:27-54 | no two containers share a value |
| EncodingContainers.ValueInjective | common/contracts/src/amqp/messages/encodingContainer.ts:27-54 | two containers with the same value are the same container |
| EncodingContainers.ValueRoundTrip | common/contracts/src/amqp/messages/encodingContainer.ts:27-62 | decoding a container's value gives that container back, and `isEncodingContainer` accepts the value |
| EncodingContainers.IsEncodingContainerExactly | common/contracts/src/amqp/messages/encodingContainer.ts:60-62 | `isEncodingContainer` accepts exactly the defined strings that decode to a container (undefined is refused) |
| EncodingContainers.IsVideoContainerExactly | common/contracts/src/amqp/messages/encodingContainer.ts:56-58 | `isVideoContainer` accepts exactly the strings that decode to a video container |
| EncodingContainers.VideoValueAccepted | common/contracts/src/amqp/messages/encodingContainer.ts:56-58 | `isVideoContainer` accepts a container's value iff the container is a video container |
| EncodingContainers.ValueListsSizes | common/contracts/src/amqp/messages/encodingContainer.ts:3-54 | 21 video values and 26 pairwise distinct encoding values |
| EncodingContainers.ValueHasNoSeparators | common/contracts/src/amqp/messages/encodingContainer.ts:28-53 | no container value contains '.' or '/' |
| EncodingContainers.VideoContainersAreEncodingContainers | common/contracts/src/amqp/messages/encodingContainer.ts:56-62 | every string `isVideoContainer` accepts is accepted by `isEncodingContainer` |
| EncodingContainers.ContentTypeTablesAgree | common/contracts/src/amqp/messages/encodingContainer.ts:64-123 | both MIME tables give a video container the same type |
| EncodingContainers.ContentTypeCollisions | common/contracts/src/amqp/messages/encodingContainer.ts:64-123 | mpeg and mpg share video/mpeg, jpeg and jpg share image/jpeg; ts and m2ts differ only in case; the image and playlist types are as listed |
| EncodingContainers.VideoContentTypeInjectiveExceptMpeg | common/contracts/src/amqp/messages/encodingContainer.ts:65-87 | two video containers share a MIME type exactly when they are the same container or are mpeg and mpg |
| ValidationPatterns.MatchesExactly | libs/contracts/src/amqp/messages/validationPatterns.ts:1 | a fixed-count term matches exactly n leading characters of its class followed by a match of the rest |
| ValidationPatterns.MatchesStarLast | libs/contracts/src/amqp/messages/validationPatterns.ts:3-5 | a trailing starred class matches exactly the strings made of that class |
| ValidationPatterns.ExpandSingles | libs/contracts/src/amqp/messages/validationPatterns.ts:1-3 | a pattern of single-character terms expands to its classes, one per position |
| ValidationPatterns.MatchesFixedPrefix | libs/contracts/src/amqp/messages/validationPatterns.ts:1-3 | a fixed-width prefix matches the first characters position by position, and the rest matches the remainder |
| ValidationPatterns.HexClass | libs/contracts/src/amqp/messages/validationPatterns.ts:1 | the class `[0-9a-f]` holds exactly the lower-case hex digits |
| ValidationPatterns.UuidExpansion | libs/contracts/src/amqp/messages/validationPatterns.ts:1 | the UUID pattern is 36 fixed positions: hyphens at 8, 13, 18 and 23, and lower-case hex digits elsewhere |
| ValidationPatterns.UuidRegexAgrees | libs/contracts/src/amqp/messages/validationPatterns.ts:1 | the UUID pattern accepts exactly the 8-4-4-4-12 lower-case hex strings |
| ValidationPatterns.UuidRejectsUpperCase | libs/contracts/src/amqp/messages/validationPatterns.ts:1 | no string the UUID pattern accepts contains an upper-case hex letter |
| ValidationPatterns.PathRegexAgrees | libs/contracts/src/amqp/messages/validationPatterns.ts:5 | the path pattern accepts exactly the strings made of a '/' followed by characters that are not line terminators |
| ValidationPatterns.UrlRegexAgrees | libs/contracts/src/amqp/messages/validationPatterns.ts:3 | the URL pattern accepts exactly `https://`, one character that is not whitespace or one of `/$.?#`, one non-terminator, then any non-whitespace |
| ValidationPatterns.UrlRequiresHttps | libs/contracts/src/amqp/messages/validationPatterns.ts:3 | every accepted URL is at least 10 characters, starts with `https://` and never with `http://` |
| ConsumerExecutor.FindDropEntry | libs/amqp/src/messageConsumerExecutor.ts:41-43 | `find` returns an entry iff some entry has reason `rejected` and a count above the threshold, and then it returns the first such entry |
| ConsumerExecutor.Decide | libs/amqp/src/messageConsumerExecutor.ts:18-73 | a null delivery is ignored and unparsable content throws before the handler; a handled message is acked; a failed one is dropped iff some `x-death` entry exceeds the threshold, and rejected otherwise (each an iff) |
| ConsumerExecutor.ExactlyOneSettlement | libs/amqp/src/messageConsumerExecutor.ts:35-71 | a parsed delivery is settled exactly once, by an ack or by a reject without requeue, and a handled one is acked; other deliveries are not settled |
| ConsumerExecutor.ThresholdIsStrict | libs/amqp/src/messageConsumerExecutor.ts:41-43 | entries whose count only reaches the threshold, or whose reason is not `rejected`, never cause a drop |
| ConsumerExecutor.MissingHeadersReject | libs/amqp/src/messageConsumerExecutor.ts:41-72 | a failing message without headers or without `x-death` is rejected |
| ConsumerExecutor.MessageConsumer.Consume | libs/amqp/src/messageConsumerExecutor.ts:30-33 | the handler call is recorded with the body and routing key |
| ConsumerExecutor.MessageConsumerExecutor.StartConsuming | libs/amqp/src/messageConsumerExecutor.ts:76 | registers exactly one consumer on the configured queue and changes nothing else |
| ConsumerExecutor.MessageConsumerExecutor.OnMessage | libs/amqp/src/messageConsumerExecutor.ts:18-74 | the outcome is `Decide`'s; the channel gains exactly that outcome's settlements; the handler is called once iff the content parses |
| CommonConsumerExecutor.CommonMessageConsumerExecutor.StartConsuming | common/amqp/src/messageConsumerExecutor.ts:64 | registers exactly one consumer on the configured queue |
| CommonConsumerExecutor.CommonMessageConsumerExecutor.OnMessage | common/amqp/src/messageConsumerExecutor.ts:15-62 | the same decision and settlements as the newer wrapper |
| AmqpProvisioner.CreateQueueDeclares | common/amqp/src/amqpProvisioner.ts:69-91 | one call adds exactly two topic exchanges, two queues dead-lettering to `<exchange>.retry` with the TTL, and the two bindings on the pattern |
| AmqpProvisioner.CreateQueueIdempotent | common/amqp/src/amqpProvisioner.ts:69-91 | declaring the same queue twice gives the topology of declaring it once |
| AmqpProvisioner.NothingRoutesBackToMain | common/amqp/src/amqpProvisioner.ts:72-90 | after any number of declarations on one exchange, no queue dead-letters to that exchange, and the retry exchange feeds only `.retry` queues |
| AmqpProvisioner.Provisioner.CreateChannel | common/amqp/src/amqpProvisioner.ts:47-67 | a fresh channel with prefetch 1, per consumer |
| AmqpProvisioner.Provisioner.CreateQueue | common/amqp/src/amqpProvisioner.ts:69-91 | the channel's topology becomes the six declarations applied in source order; nothing else changes |
| RequestEncodings.EncodingRequests | apps/encoding-director/src/actions/requestVideoEncodingsAction/requestVideoEncodingsAction.ts:29-37 | one publication per profile, in configuration order, each to the exchange under `video.encoding.requested` |
| RequestEncodings.EncodingRequestsAppend | apps/encoding-director/src/actions/requestVideoEncodingsAction/requestVideoEncodingsAction.ts:29-37 | the fan-out of concatenated profile lists is the concatenation of the fan-outs |
| RequestEncodings.RequestedProfiles | apps/encoding-director/src/actions/requestVideoEncodingsAction/requestVideoEncodingsAction.ts:30-34 | reading the profiles back from the requests gives the configuration |
| RequestEncodings.RequestVideoEncodingsAction.Execute | apps/encoding-director/src/actions/requestVideoEncodingsAction/requestVideoEncodingsAction.ts:18-44 | the loop appends exactly the fan-out to the channel's publications |
| EncodeVideo.EncoderRuns | apps/encoder/src/actions/encodeVideoAction/encodeVideoAction.ts:47-117 | one engine run, or two for the thumbnail; the first reads the input location and the last writes the output path |
| EncodeVideo.Attempted | apps/encoder/src/actions/encodeVideoAction/encodeVideoAction.ts:50-116 | the runs attempted are a prefix of the plan that stops at the first failure |
| EncodeVideo.DispatchMatchesClassification | apps/encoder/src/actions/encodeVideoAction/encodeVideoAction.ts:49-117 | each id takes its kind's branch: full videos get a sized, rate-limited run; previews a 4-second silent scaled clip; the thumbnail a frame run (capped at 800) and a 20x40 tile run |
| EncodeVideo.SettleCharacterised | apps/encoder/src/actions/encodeVideoAction/encodeVideoAction.ts:50-117 | completion iff no planned run fails; rejection iff the first run fails |
| EncodeVideo.OutputPathExtension | apps/encoder/src/actions/encodeVideoAction/encodeVideoAction.ts:47 | the output path's last '.'-segment is the encoding's container, which `isEncodingContainer` accepts |
| EncodeVideo.Engine.Run | apps/encoder/src/actions/encodeVideoAction/encodeVideoAction.ts:51-59 | a run is recorded and succeeds unless it is a failing run |
| EncodeVideo.EncodeVideoAction.Execute | apps/encoder/src/actions/encodeVideoAction/encodeVideoAction.ts:36-133 | the engine receives exactly the attempted runs; `video.encoded` with the output path is published iff every run completed |
| UploadArtifact.ArtifactFileNameParts | apps/uploader/src/actions/uploadVideoArtifactAction/uploadVideoArtifactAction.ts:44-46 | the blob name's last segment is the file name, whose stem is the encoding id and whose extension decodes to the container |
| UploadArtifact.ArtifactBlobNameInjective | apps/uploader/src/actions/uploadVideoArtifactAction/uploadVideoArtifactAction.ts:44-46 | different encodings of one video get different blob names |
| UploadArtifact.UploadVideoArtifactAction.Execute | apps/uploader/src/actions/uploadVideoArtifactAction/uploadVideoArtifactAction.ts:32-70 | a failed upload changes nothing; otherwise the blob is stored with the container's MIME type and `video.artifact.uploaded` carries the stored location |
| UploadArtifacts.FileOf | apps/uploader/src/actions/uploadVideoArtifactsAction/uploadVideoArtifactsAction.ts:63 | a run's key determines the file name it was made from |
| UploadArtifacts.ContainerOfExactly | apps/uploader/src/actions/uploadVideoArtifactsAction/uploadVideoArtifactsAction.ts:45-47 | a file has a container iff `isEncodingContainer` accepts its extension, and the container's value is that extension |
| UploadArtifacts.ArtifactUploadsExactly | apps/uploader/src/actions/uploadVideoArtifactsAction/uploadVideoArtifactsAction.ts:43-68 | an upload is made for a listed file iff its extension is an encoding container, and every upload is for such a file, with its key and MIME type |
| UploadArtifacts.ArtifactUploadsAppend | apps/uploader/src/actions/uploadVideoArtifactsAction/uploadVideoArtifactsAction.ts:44 | the uploads of a longer listing extend those of the shorter one by the new file's |
| UploadArtifacts.ApplyUploadsConcat | apps/uploader/src/actions/uploadVideoArtifactsAction/uploadVideoArtifactsAction.ts:43-68 | applying two batches of uploads is applying them one after the other |
| UploadArtifacts.AnyFailsConcat | apps/uploader/src/actions/uploadVideoArtifactsAction/uploadVideoArtifactsAction.ts:43-68 | a concatenation fails iff one of its parts fails |
| UploadArtifacts.UploadsLand | apps/uploader/src/actions/uploadVideoArtifactsAction/uploadVideoArtifactsAction.ts:61-66 | with distinct keys, every accepted upload is in the store, and every other key keeps its blob |
| UploadArtifacts.ArtifactKeysDistinct | apps/uploader/src/actions/uploadVideoArtifactsAction/uploadVideoArtifactsAction.ts:63 | distinct file names give distinct keys |
| UploadArtifacts.DistinctKeysCons | apps/uploader/src/actions/uploadVideoArtifactsAction/uploadVideoArtifactsAction.ts:63 | putting the upload of a file not listed again in front keeps the keys distinct |
| UploadArtifacts.CompletedRunStoresArtifacts | apps/uploader/src/actions/uploadVideoArtifactsAction/uploadVideoArtifactsAction.ts:41-68 | after a run without failures, every accepted file is stored under `<videoId>/<encodingId>/<file>` with its container's MIME type, and other keys are untouched |
| UploadArtifacts.UploadVideoArtifactsAction.UploadFile | apps/uploader/src/actions/uploadVideoArtifactsAction/uploadVideoArtifactsAction.ts:44-67 | the callback for one file applies that file's uploads and reports whether one failed |
| UploadArtifacts.UploadVideoArtifactsAction.UploadAll | apps/uploader/src/actions/uploadVideoArtifactsAction/uploadVideoArtifactsAction.ts:43-68 | the loop over the listing applies every file's uploads and reports whether any failed |
| UploadArtifacts.UploadVideoArtifactsAction.Execute | apps/uploader/src/actions/uploadVideoArtifactsAction/uploadVideoArtifactsAction.ts:31-98 | the store holds exactly the applied uploads; the run is rejected iff an upload failed; on completion the directory and every file under it are removed and nothing else on disk changes, a failed removal is swallowed and leaves the disk unchanged, and the upload is announced |
| UploadVideo.TableIsVideoContainerTable | apps/api/src/actions/uploadVideoAction/uploadVideoAction.ts:24-46 | the extension table lists each video container's value with that container's MIME type, in enum order |
| UploadVideo.TableKeysDistinct | apps/api/src/actions/uploadVideoAction/uploadVideoAction.ts:24-46 | no extension is listed twice |
| UploadVideo.TableOnlyVideoContainers | apps/api/src/actions/uploadVideoAction/uploadVideoAction.ts:24-46 | every extension in the table is a video container's value, mapped to that container's MIME type |
| UploadVideo.TableHasVideoContainers | apps/api/src/actions/uploadVideoAction/uploadVideoAction.ts:24-46 | every video container's value is in the table |
| UploadVideo.ContentTypeOfExactly | apps/api/src/actions/uploadVideoAction/uploadVideoAction.ts:65-81 | a file is accepted iff its extension is a video container's value, and is then stored with that container's MIME type; an empty extension is `NoExtension` |
| UploadVideo.NamedVideoAccepted | apps/api/src/actions/uploadVideoAction/uploadVideoAction.ts:65-81 | `<stem>.<container value>` is accepted with the container's MIME type |
| UploadVideo.UploadVideoAction.Execute | apps/api/src/actions/uploadVideoAction/uploadVideoAction.ts:55-108 | a refused name or a failed upload changes nothing; otherwise the source is stored under `<id>/source` and `video.ingested` is published |
| DownloadVideo.TableIsVideoContainerTable | apps/downloader/src/actions/downloadVideoAction/downloadVideoAction.ts:17-38 | the content-type table lists, in enum order, every video container but mpg, as its MIME type with its value |
| DownloadVideo.TableKeysDistinct | apps/downloader/src/actions/downloadVideoAction/downloadVideoAction.ts:17-38 | no content type is listed twice |
| DownloadVideo.TableIsLeftInverse | apps/downloader/src/actions/downloadVideoAction/downloadVideoAction.ts:17-38 | every listed content type maps to a video container (never mpg) whose MIME type it is |
| DownloadVideo.TableCoversVideoContainer | apps/downloader/src/actions/downloadVideoAction/downloadVideoAction.ts:17-38 | every video container other than mpg is found from its MIME type |
| DownloadVideo.TableMapsMpgTypeToMpeg | apps/downloader/src/actions/downloadVideoAction/downloadVideoAction.ts:25 | mpg's MIME type is saved with the extension mpeg |
| DownloadVideo.ExtensionOfAccepted | apps/downloader/src/actions/downloadVideoAction/downloadVideoAction.ts:60-76 | an accepted header gives an extension that decodes to a video container whose MIME type is the header |
| DownloadVideo.ExtensionOfVideoType | apps/downloader/src/actions/downloadVideoAction/downloadVideoAction.ts:60-76 | every video container's MIME type is accepted, with the container's value (mpeg for mpg) |
| DownloadVideo.DownloadedFileIngestsWithSameType | apps/downloader/src/actions/downloadVideoAction/downloadVideoAction.ts:78 | the saved file's name passes the API's extension check with the very content type it was downloaded with |
| DownloadVideo.DownloadVideoAction.Execute | apps/downloader/src/actions/downloadVideoAction/downloadVideoAction.ts:46-102 | a missing or unsupported header, or a failed write, changes nothing; otherwise the file is written at `<dir>/<id>.<ext>` and `video.downloaded` is published with that path |
| EncodingProgress.ProgressKeyInjective | apps/api/src/actions/getVideoEncodingProgressAction/getVideoEncodingProgressAction.ts:27 | different videos read different hashes |
| EncodingProgress.Flatten | apps/api/src/actions/getVideoEncodingProgressAction/getVideoEncodingProgressAction.ts:44-47 | one entry per hash field, in order, carrying its field and value |
| EncodingProgress.FlattenRoundTrip | apps/api/src/actions/getVideoEncodingProgressAction/getVideoEncodingProgressAction.ts:44-47 | the entries give back the hash |
| EncodingProgress.GetVideoEncodingProgress | apps/api/src/actions/getVideoEncodingProgressAction/getVideoEncodingProgressAction.ts:19-50 | fails iff the progress key is absent, with `ResourceNotFound("EncodingProgress", videoId)`; on success the entries are the stored hash |
| EncodingProgress.OtherVideosDoNotInterfere | apps/api/src/actions/getVideoEncodingProgressAction/getVideoEncodingProgressAction.ts:27-29 | writing another video's progress does not change this video's reply |
| RequestTrim.Trimmed | apps/api/src/httpServer.ts:185-193 | a string is replaced by its trim, an array keeps its length, an object keeps its property names, other values are unchanged |
| RequestTrim.TrimmedAt | apps/api/src/httpServer.ts:185-193 | the trimmed value has the same paths, and each reaches the trimmed counterpart of what it reached before |
| RequestTrim.TrimmedEverywhere | apps/backend/src/core/httpServer.ts:248-256 | every reachable string is trimmed and every other reachable value keeps its shape |
| RequestTrim.TrimmedIdempotent | apps/api/src/httpServer.ts:185-193 | trimming twice is trimming once |
| RequestTrim.TrimStringProperties | apps/backend/src/core/httpServer.ts:248-256 | the loop over the keys, recursing into containers, yields the trimmed value |
| RequestTrim.TrimValue | apps/backend/src/core/httpServer.ts:250-254 | one property's new value is its trimmed counterpart: a string is trimmed, a container is walked, anything else is kept |
| RequestTrim.TrimObjectProperties | apps/backend/src/core/httpServer.ts:248-256 | walking an object's properties in order yields the object with every property trimmed |
| RequestTrim.TrimArrayItems | apps/backend/src/core/httpServer.ts:248-256 | walking an array's indices in order yields the array with every item trimmed |
| HttpErrors.ApiErrorReply | apps/api/src/httpServer.ts:110-151 | 400 iff input- or operation-not-valid, 404 iff resource-not-found, 500 otherwise; non-500 bodies are the error's fields without stack and cause; 500 has the fixed body |
| HttpErrors.BackendErrorReply | apps/backend/src/core/httpServer.ts:152-205 | also 409, 401 and 403 iff already-exists, unauthorized and forbidden; 500 iff not an error of a known class |
| HttpErrors.BackendExtendsApi | apps/backend/src/core/httpServer.ts:177-204 | the backend agrees with the API except on the three backend-only classes, which the API answers with 500 |
| HttpErrors.RepliesHideStackAndCause | apps/api/src/httpServer.ts:129-133 | no reply of either server carries a stack trace or a cause |
| HttpErrors.SchemaErrorReason | apps/api/src/httpServer.ts:101-108 | the reason starts with `dataVar`, the first error's path and a space, and ends with the first error's message (`undefined` when missing) |
| HttpErrors.SchemaErrorReasonUsesFirstOnly | apps/backend/src/core/httpServer.ts:143-150 | only the first validation error is reported |
| HttpRouter.DeleteSlashes | apps/backend/src/core/httpRouter.ts:147 | the result contains no '/' |
| HttpRouter.DeleteSlashesAppend | apps/backend/src/core/httpRouter.ts:147 | deleting separators distributes over concatenation |
| HttpRouter.CollapseSlashes | apps/backend/src/core/httpRouter.ts:147 | the collapse keeps the first and last characters and maps empty to empty |
| HttpRouter.CollapseSlashesNoDouble | apps/backend/src/core/httpRouter.ts:147 | no run of '/' survives the collapse |
| HttpRouter.CollapseSlashesKeepsContent | apps/backend/src/core/httpRouter.ts:147 | the collapse removes only '/' characters |
| HttpRouter.CollapseSlashesFixesNormal | apps/backend/src/core/httpRouter.ts:147 | a string without a run of '/' is left alone |
| HttpRouter.CollapseSlashesAppend | apps/backend/src/core/httpRouter.ts:147 | collapsing works piecewise after a piece that does not end with '/' |
| HttpRouter.NormalizePath | apps/backend/src/core/httpRouter.ts:144-152 | the path has no run of '/', no trailing '/', and the same non-separator content |
| HttpRouter.NormalizePathIdempotent | apps/backend/src/core/httpRouter.ts:144-152 | normalising a normalised path changes nothing |
| HttpRouter.CollapseRootPrefix | apps/backend/src/core/httpRouter.ts:27 | `//api` collapses to the root path |
| HttpRouter.RouteUrlStartsWithRoot | apps/backend/src/core/httpRouter.ts:53 | every route URL starts with `/api` |
| HttpRouter.DeleteSlashesOfJoined | apps/backend/src/core/httpRouter.ts:53 | joining with '/' adds nothing but separators |
| HttpRouter.DeleteSlashesOfRoot | apps/backend/src/core/httpRouter.ts:27 | the root path's content is `api` |
| HttpRouter.RouteUrlContent | apps/backend/src/core/httpRouter.ts:53 | apart from the separators, a route URL is `api`, then the base path, then the route's path |
| HttpRouter.SetProperty | apps/backend/src/core/httpRouter.ts:134-137 | the property names stay, or gain the new key at the end; the key is present |
| HttpRouter.SetPropertyReads | apps/backend/src/core/httpRouter.ts:134-137 | the set property reads back and every other property is unchanged |
| HttpRouter.ResponseMap | apps/backend/src/core/httpRouter.ts:129-139 | the response map's keys are exactly the listed status codes |
| HttpRouter.ResponseMapEntries | apps/backend/src/core/httpRouter.ts:129-139 | each status code maps to its last entry's schema with that entry's description |
| HttpRouter.MapToFastifySchemaSpec | apps/backend/src/core/httpRouter.ts:112-142 | params, querystring and body are the route's own, present exactly when given; each response schema keeps the route's properties and gains the description |
| BookImage.UserBook.SetImageUrl | apps/backend/src/modules/bookModule/application/commandHandlers/uploadUserBookImageCommandHandler/uploadUserBookImageCommandHandlerImpl.ts:66 | the entity's image URL becomes the new one |
| BookImage.UserBookRepository.FindUserBook | apps/backend/src/modules/bookModule/application/commandHandlers/uploadUserBookImageCommandHandler/uploadUserBookImageCommandHandlerImpl.ts:27 | a fresh entity with the row's image URL, or nothing when no row exists |
| BookImage.UserBookRepository.SaveUserBook | apps/backend/src/modules/bookModule/application/commandHandlers/uploadUserBookImageCommandHandler/uploadUserBookImageCommandHandlerImpl.ts:68 | the row takes the entity's image URL unless the save fails |
| BookImage.PreviousImageId | apps/backend/src/modules/bookModule/application/commandHandlers/uploadUserBookImageCommandHandler/uploadUserBookImageCommandHandlerImpl.ts:90-98 | an id is named only for a non-empty URL; it is the non-empty text after the URL's last '/' |
| BookImage.PreviousImageIdOfImageUrl | apps/backend/src/modules/bookModule/application/commandHandlers/uploadUserBookImageCommandHandler/uploadUserBookImageCommandHandlerImpl.ts:54 | the URL the command stores leads the next command back to the same blob |
| BookImage.AfterDelete | apps/backend/src/modules/bookModule/application/commandHandlers/uploadUserBookImageCommandHandler/uploadUserBookImageCommandHandlerImpl.ts:90-124 | the delete removes at most the previous image's blob and changes no other blob |
| BookImage.UploadUserBookImageCommandHandler.DeletePreviousImage | apps/backend/src/modules/bookModule/application/commandHandlers/uploadUserBookImageCommandHandler/uploadUserBookImageCommandHandlerImpl.ts:83-132 | the blobs become `AfterDelete`'s; a failed delete is swallowed |
| BookImage.UploadUserBookImageCommandHandler.Execute | apps/backend/src/modules/bookModule/application/commandHandlers/uploadUserBookImageCommandHandler/uploadUserBookImageCommandHandlerImpl.ts:22-81 | an unknown book changes nothing; a failed upload changes nothing; a failed save leaves the new blob; otherwise the row points at the new URL and the previous image is deleted |
| BookImage.NewImageSurvives | apps/backend/src/modules/bookModule/application/commandHandlers/uploadUserBookImageCommandHandler/uploadUserBookImageCommandHandlerImpl.ts:45-73 | the new image survives unless the previous URL named the very same blob |
| BookImage.SecondReplacementDeletesFirstImage | apps/backend/src/modules/bookModule/application/commandHandlers/uploadUserBookImageCommandHandler/uploadUserBookImageCommandHandlerImpl.ts:54-73 | replacing an image twice deletes the first new image (when the store allows) |
| MasterPlaylists.RenditionPlaylists | apps/playlist-sticher/src/actions/createMasterPlaylistAction/createMasterPlaylistAction.ts:52-54 | exactly the listed names that end in `.m3u8` and do not contain `master` |
| MasterPlaylists.ResolutionsOf | apps/playlist-sticher/src/actions/createMasterPlaylistAction/createMasterPlaylistAction.ts:57 | one resolution label per playlist, in order |
| MasterPlaylists.HeightOfDigitsP | apps/playlist-sticher/src/actions/createMasterPlaylistAction/createMasterPlaylistAction.ts:59-63 | a label `<digits>p` sorts by the digits' value |
| MasterPlaylists.ReplaceFirstSkipsDigits | apps/playlist-sticher/src/actions/createMasterPlaylistAction/createMasterPlaylistAction.ts:59 | replacing the first 'p' of `<digits>p` leaves the digits |
| MasterPlaylists.Insert | apps/playlist-sticher/src/actions/createMasterPlaylistAction/createMasterPlaylistAction.ts:58-64 | insertion adds exactly one element |
| MasterPlaylists.InsertSorted | apps/playlist-sticher/src/actions/createMasterPlaylistAction/createMasterPlaylistAction.ts:58-64 | inserting into a sorted list keeps it sorted |
| MasterPlaylists.SortByHeight | apps/playlist-sticher/src/actions/createMasterPlaylistAction/createMasterPlaylistAction.ts:58-64 | the sort is a permutation |
| MasterPlaylists.SortByHeightSorted | apps/playlist-sticher/src/actions/createMasterPlaylistAction/createMasterPlaylistAction.ts:58-64 | the result is sorted by height |
| MasterPlaylists.SortByHeightStable | apps/playlist-sticher/src/actions/createMasterPlaylistAction/createMasterPlaylistAction.ts:58-64 | renditions of equal height keep their order |
| MasterPlaylists.StableSortUnique | apps/playlist-sticher/src/actions/createMasterPlaylistAction/createMasterPlaylistAction.ts:58-64 | two sorted arrangements with the same order within every height are equal |
| MasterPlaylists.SortByHeightIsTheStableSort | apps/playlist-sticher/src/actions/createMasterPlaylistAction/createMasterPlaylistAction.ts:58-64 | every stable sorted arrangement of the input is the model's sort, which therefore is what `Array.prototype.sort` returns |
| MasterPlaylists.NamesOfSortByHeight | apps/playlist-sticher/src/actions/createMasterPlaylistAction/createMasterPlaylistAction.ts:56-64 | the sorted labels are a permutation of the input labels |
| MasterPlaylists.SortedResolutionsSpec | apps/playlist-sticher/src/actions/createMasterPlaylistAction/createMasterPlaylistAction.ts:52-64 | the sorted resolutions are a permutation of the rendition playlists' resolutions, ordered by height |
| MasterPlaylists.FindSegment | apps/playlist-sticher/src/actions/createMasterPlaylistAction/createMasterPlaylistAction.ts:78-80 | the first `.ts` artifact containing the resolution, or none when there is none |
| MasterPlaylists.Entries | apps/playlist-sticher/src/actions/createMasterPlaylistAction/createMasterPlaylistAction.ts:77-120 | one entry per resolution, in order |
| MasterPlaylists.AssembleSucceeds | apps/playlist-sticher/src/actions/createMasterPlaylistAction/createMasterPlaylistAction.ts:75-120 | the content exists iff every resolution has an entry |
| MasterPlaylists.AssembleFirstError | apps/playlist-sticher/src/actions/createMasterPlaylistAction/createMasterPlaylistAction.ts:82-111 | a failure is that of the first failing resolution |
| MasterPlaylists.AssembleConcatenates | apps/playlist-sticher/src/actions/createMasterPlaylistAction/createMasterPlaylistAction.ts:75-120 | the content is the header followed by every entry in order |
| MasterPlaylists.AssembleStartsWithHeader | apps/playlist-sticher/src/actions/createMasterPlaylistAction/createMasterPlaylistAction.ts:75 | every content starts with `#EXTM3U` |
| MasterPlaylists.BandwidthRoundTrip | apps/playlist-sticher/src/actions/createMasterPlaylistAction/createMasterPlaylistAction.ts:113-115 | the written bandwidth reads back as a thousand times the bitrate field |
| MasterPlaylists.BandwidthNaN | apps/playlist-sticher/src/actions/createMasterPlaylistAction/createMasterPlaylistAction.ts:113 | a bitrate field without leading digits is written as `NaN` |
| MasterPlaylists.SplitDimensions | apps/playlist-sticher/src/actions/createMasterPlaylistAction/createMasterPlaylistAction.ts:100 | splitting `WxHxB` at 'x' gives the three fields |
| MasterPlaylists.VideoNameOfSegment | apps/playlist-sticher/src/actions/createMasterPlaylistAction/createMasterPlaylistAction.ts:90 | the video name of `<dir>/<base>.ts` is the base |
| MasterPlaylists.FieldsOfSegment | apps/playlist-sticher/src/actions/createMasterPlaylistAction/createMasterPlaylistAction.ts:90-100 | a segment stored as `<dir>/WxHxB.ts` yields the three fields |
| MasterPlaylists.SegmentEntryOfName | apps/playlist-sticher/src/actions/createMasterPlaylistAction/createMasterPlaylistAction.ts:90-119 | such a segment yields the stream line with bandwidth B·1000 and resolution WxH, followed by the rendition's URI |
| MasterPlaylists.VariantUriNamesRendition | apps/playlist-sticher/src/actions/createMasterPlaylistAction/createMasterPlaylistAction.ts:117 | the URI line, taken under the video's directory, names a playlist with the same resolution |
| MasterPlaylists.RenditionPlaylistsAppend | apps/playlist-sticher/src/actions/createMasterPlaylistAction/createMasterPlaylistAction.ts:52-54 | the filter of an extended listing extends the filter |
| MasterPlaylists.FindSegmentAppend | apps/playlist-sticher/src/actions/createMasterPlaylistAction/createMasterPlaylistAction.ts:78-80 | a name that is no segment of the resolution does not change the lookup |
| MasterPlaylists.MasterKeyNameIgnored | apps/playlist-sticher/src/actions/createMasterPlaylistAction/createMasterPlaylistAction.ts:133 | the master playlist's own key is neither a rendition playlist nor a segment |
| MasterPlaylists.EntriesAppend | apps/playlist-sticher/src/actions/createMasterPlaylistAction/createMasterPlaylistAction.ts:78-80 | a name that is no resolution's segment changes no entry |
| MasterPlaylists.RerunStitchesSame | apps/playlist-sticher/src/actions/createMasterPlaylistAction/createMasterPlaylistAction.ts:38-136 | running again after the upload stitches the same playlist under the same key |
| MasterPlaylists.AssembleStep | apps/playlist-sticher/src/actions/createMasterPlaylistAction/createMasterPlaylistAction.ts:77-120 | one more entry grows the content, or makes the whole content fail with it |
| MasterPlaylists.EntriesPrefix | apps/playlist-sticher/src/actions/createMasterPlaylistAction/createMasterPlaylistAction.ts:77 | the entries of a prefix of the resolutions are a prefix of the entries |
| MasterPlaylists.BuildMasterPlaylist | apps/playlist-sticher/src/actions/createMasterPlaylistAction/createMasterPlaylistAction.ts:75-120 | the loop builds exactly the assembled content, or its first error |
| MasterPlaylists.ResolutionLines | apps/playlist-sticher/src/actions/createMasterPlaylistAction/createMasterPlaylistAction.ts:78-118 | one resolution's two lines, or the error the loop throws for it, are that resolution's entry |
| MasterPlaylists.CreateMasterPlaylistAction.Execute | apps/playlist-sticher/src/actions/createMasterPlaylistAction/createMasterPlaylistAction.ts:23-145 | skipped for non-full-video ids and for an empty listing; an invalid listing writes nothing; otherwise the playlist is written, uploaded as `<id>/master_<labels>.m3u8`, and the temporary file is removed, with each failure leaving the state that the source leaves |
| Strings.LastSegmentAfterSeparator | apps/api/src/actions/uploadVideoAction/uploadVideoAction.ts:65 | `split(sep).pop()` of `prefix + sep + last` is `last` when `last` holds no separator |
| Strings.TrimIdempotent | apps/api/src/httpServer.ts:188 | trimming twice is trimming once |
| Strings.ParseIntOfDigits | apps/playlist-sticher/src/actions/createMasterPlaylistAction/createMasterPlaylistAction.ts:63 | `parseInt` of a non-empty digit run is its decimal value |
| Strings.ParseIntOfFormatted | apps/playlist-sticher/src/actions/createMasterPlaylistAction/createMasterPlaylistAction.ts:112 | `parseInt` reads back an integer's decimal text, whatever non-digit text follows it |
| Strings.TrimIsTrimmedSlice | apps/api/src/httpServer.ts:188 | `trim` returns a contiguous piece of its input, only whitespace is cut off on either side, and neither end of the result is whitespace |
| Tables.LookupFound | apps/api/src/actions/uploadVideoAction/uploadVideoAction.ts:74 | a value the lookup finds is the value of an entry with that key |
| Tables.LookupNone | apps/downloader/src/actions/downloadVideoAction/downloadVideoAction.ts:69 | the lookup finds nothing exactly when no entry carries the key |
| Tables.LookupEntry | apps/api/src/actions/uploadVideoAction/uploadVideoAction.ts:74 | with distinct keys, every entry's key finds that entry's value |

## Left out

- Logging, process start-up, configuration loading and the HTTP server lifecycle are not
  modelled. Configuration values (bucket names, the shared directory, the encoding
  profiles, the CloudFront URL) are constructor parameters.
- Network and disk I/O are collaborators with explicit state. The bytes of a stream are
  a string standing for the data, and the encoder's output is not modelled. The downloader's
  HTTP request is left out: the `Content-Type` header and the body are parameters. An
  array-valued header, which `toString` would join, is not modelled.
- uuid generation is a parameter (`freshId`, `freshImageId`). The location S3 reports for
  a key is an uninterpreted function `locate` of the store.
- `Promise.all` over a directory listing is modelled as uploads in listing order. Every
  callback still runs, so the set of stored blobs is the same. Interleavings and the
  rejection of the `Promise.all` before all callbacks finish are not modelled.
- Deliveries are settled synchronously. Concurrency between consumers is not modelled.
- The listing done by `getBlobs` is not truncated at 1000 keys. A prefix also matches the
  keys of other videos whose id begins with the same text, as in the source.
- Floating point is not modelled. Sizes, bitrates and counts are integers, and `parseInt`
  is modelled on integers, with `NaN` as a missing result. Exponent formatting and `-0`
  are out of scope.
- MasterPlaylists.CreateMasterPlaylistAction.Execute: requires that every rendition
  playlist's label has a height (`Sortable`), because a comparator that returns `NaN`
  leaves the order to the engine. Listings with such labels are not modelled.
- `isFullVideoFormat` is not part of this model. It is treated as
  `isTranscodingEncodingId`, the four resolution ladder ids.
- The uploader for artifact directories publishes under the `video.artifact.uploaded`
  routing key with the `VideoArtifactsUploaded` body. The model keeps both as written.
- A stored blob records its content type and the path (or the stand-in data) its bytes
  came from.
- The thumbnail branch of the encoder awaits the tiling run inside a completion callback.
  A failed tiling run therefore never settles the action, and the model reports it as
  `Unsettled`. The encoder's progress reports to Redis are not part of this model.
- EncodingProgress.GetVideoEncodingProgress: a missing key is modelled as a null reply, so
  the not-found branch follows the code as written. A Redis client's `hgetall` on a missing
  key returns an empty object, which the source's test `!encodingProgress` does not catch.
  Hash fields that look like integers are enumerated first by `Object.entries`; the model
  keeps the stored field order.
- The request trim is modelled on parsed JSON containers, as a value. The in-place update,
  aliasing between nested objects, and a body that is itself a string or null are not
  modelled.
- HttpErrors: the error classes the handlers test are modelled as distinct siblings, so an
  error is an instance of exactly one of them. Status numbers are the standard HTTP codes.
  The `value: undefined` field of the schema error's context is not modelled.
- UploadVideo.ContentTypeOf, UploadVideo.UploadVideoAction.Execute, DownloadVideo.ExtensionOf,
  DownloadVideo.DownloadVideoAction.Execute: the two extension tables are modelled as finite
  tables. The source indexes plain objects, so a key that reaches `Object.prototype`
  (`constructor`, `toString`, `__proto__`, …) finds an inherited member there and is
  accepted. The model refuses such keys.
- UploadVideo.ContentTypeOfExactly: the iff holds for the model's finite table; a file
  whose extension is an inherited object member is accepted by the source and refused here.
- DownloadVideo.ExtensionOfAccepted: likewise, a `Content-Type` that names an inherited
  object member is accepted by the source and refused here.
- Routing keys: every stage uses the five values of `libs/contracts/src/amqp/routingKeys.ts`.
  The encoder and the uploaders import `routingKeys` from `common/contracts/src/amqp.ts`
  instead, which lists `artifactUploaded: 'artifact.uploaded'`, has no
  `videoArtifactUploaded` and no `videoEncodingRequested`. The model assumes the package
  those services are built against carries the libs values.
- Storage.JoinPath: `path.join` normalises its result, while the model concatenates `dir + "/" +
  name`. A configured directory that ends in '/' gives `dir//name` in the model and
  `dir/name` in the source.
- HttpRouter: route registration with the web framework, request handling, security and
  the `description`/`tags` schema fields are not modelled. A property lookup that would
  reach `Object.prototype` is not modelled.
- Book image: the book entity is reduced to its image URL, and the repository to a map
  from book id to image URL.
