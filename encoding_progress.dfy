/** The API's progress query: one read of the video's progress hash from the key-value store,
    flattened into `{id, progress}` entries. */
module EncodingProgress {
  import opened Wrappers

  /** A hash as the store returns it: its fields and values, in field order. */
  type Hash = seq<(string, string)>

  /** The store's contents; a key that is absent reads as a null reply. */
  type ProgressStore = map<string, Hash>

  datatype ProgressEntry = ProgressEntry(id: string, progress: string)

  datatype ProgressError = ResourceNotFound(resource: string, id: string)

  /** `${videoId}-encoding-progress`. */
  function ProgressKey(videoId: string): string {
    videoId + "-encoding-progress"
  }

  /** Different videos read different hashes. */
  lemma ProgressKeyInjective(a: string, b: string)
    requires ProgressKey(a) == ProgressKey(b)
    ensures a == b
  {
    assert a == ProgressKey(a)[..|a|];
  }

  /** `Object.entries(hash).map(([id, progress]) => ({id, progress}))`. */
  function Flatten(hash: Hash): (entries: seq<ProgressEntry>)
    ensures |entries| == |hash|
    ensures forall i :: 0 <= i < |hash| ==> entries[i].id == hash[i].0 && entries[i].progress == hash[i].1
  {
    if hash == [] then [] else [ProgressEntry(hash[0].0, hash[0].1)] + Flatten(hash[1..])
  }

  /** The hash a list of entries describes. */
  function HashOf(entries: seq<ProgressEntry>): (hash: Hash) {
    seq(|entries|, i requires 0 <= i < |entries| => (entries[i].id, entries[i].progress))
  }

  /** Flattening loses nothing: the entries give back the hash, field by field and in order. */
  lemma FlattenRoundTrip(hash: Hash)
    ensures HashOf(Flatten(hash)) == hash
  {
  }

  /** The action: read the hash under the video's progress key; a null reply is
      `ResourceNotFound` for the `EncodingProgress` resource. */
  function GetVideoEncodingProgress(store: ProgressStore, videoId: string): (r: Result<seq<ProgressEntry>, ProgressError>)
    ensures r.Failure? <==> ProgressKey(videoId) !in store
    ensures r.Failure? ==> r.error == ResourceNotFound("EncodingProgress", videoId)
    ensures r.Success? ==> HashOf(r.value) == store[ProgressKey(videoId)]
  {
    var redisKey := ProgressKey(videoId);
    if redisKey !in store then Failure(ResourceNotFound("EncodingProgress", videoId))
    else
      FlattenRoundTrip(store[redisKey]);
      Success(Flatten(store[redisKey]))
  }

  /** Writing another video's progress hash does not change what this video reads. */
  lemma OtherVideosDoNotInterfere(store: ProgressStore, videoId: string, other: string, hash: Hash)
    requires other != videoId
    ensures GetVideoEncodingProgress(store[ProgressKey(other) := hash], videoId) == GetVideoEncodingProgress(store, videoId)
  {
    if ProgressKey(other) == ProgressKey(videoId) {
      ProgressKeyInjective(other, videoId);
      assert false;
    }
  }
}
