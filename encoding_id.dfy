/** The closed set of encoding ids a job can carry, and the three membership predicates
    that sort them into full-video renditions, preview clips and the thumbnail sheet. */
module EncodingIds {
  import opened Wrappers

  datatype EncodingId =
    | P360 | P480 | P720 | P1080
    | Preview | Preview360 | Preview480 | Preview720 | Preview1080
    | Thumbnail

  /** The enum's string value; for every id it is spelled exactly as the member's name. */
  function Value(id: EncodingId): string {
    match id
    case P360 => "360p"
    case P480 => "480p"
    case P720 => "720p"
    case P1080 => "1080p"
    case Preview => "preview"
    case Preview360 => "preview_360p"
    case Preview480 => "preview_480p"
    case Preview720 => "preview_720p"
    case Preview1080 => "preview_1080p"
    case Thumbnail => "thumbnail"
  }

  /** Decoding a wire string into the enum: what a message schema's `Type.Enum(EncodingId)` accepts. */
  function Parse(s: string): (r: Option<EncodingId>)
    ensures r.Some? ==> Value(r.value) == s
  {
    match s
    case "360p" => Some(P360)
    case "480p" => Some(P480)
    case "720p" => Some(P720)
    case "1080p" => Some(P1080)
    case "preview" => Some(Preview)
    case "preview_360p" => Some(Preview360)
    case "preview_480p" => Some(Preview480)
    case "preview_720p" => Some(Preview720)
    case "preview_1080p" => Some(Preview1080)
    case "thumbnail" => Some(Thumbnail)
    case _ => None
  }

  /** Every id, in declaration order. */
  const AllIds: seq<EncodingId> :=
    [P360, P480, P720, P1080, Preview, Preview360, Preview480, Preview720, Preview1080, Thumbnail]

  /** The enum has exactly ten members, listed once each, and decoding inverts `Value`. */
  lemma EnumIsClosed(id: EncodingId)
    ensures id in AllIds && |AllIds| == 10
    ensures forall i, j :: 0 <= i < j < |AllIds| ==> AllIds[i] != AllIds[j]
    ensures Parse(Value(id)) == Some(id)
  {
  }

  /** Two ids with the same string value are the same id. */
  lemma ValueInjective(a: EncodingId, b: EncodingId)
    requires Value(a) == Value(b)
    ensures a == b
  {
    EnumIsClosed(a);
    EnumIsClosed(b);
  }

  /** No value contains a dot or a slash, so a value can stand as a file-name stem or a
      path segment. */
  lemma ValueHasNoSeparators(id: EncodingId)
    ensures '.' !in Value(id) && '/' !in Value(id)
  {
  }

  predicate IsTranscodingEncodingId(id: EncodingId) {
    id in [P360, P480, P720, P1080]
  }

  predicate IsPreviewEncodingId(id: EncodingId) {
    id in [Preview, Preview360, Preview480, Preview720, Preview1080]
  }

  predicate IsThumbnailEncodingId(id: EncodingId) {
    id == Thumbnail
  }

  datatype JobKind = FullVideo | PreviewClip | Thumbnails

  /** The job kind of an id. The three predicates are pairwise exclusive and cover the
      enum, so each id is in exactly one kind and the kind names the predicate it meets. */
  function Classify(id: EncodingId): (k: JobKind)
    ensures k == FullVideo <==> IsTranscodingEncodingId(id)
    ensures k == PreviewClip <==> IsPreviewEncodingId(id)
    ensures k == Thumbnails <==> IsThumbnailEncodingId(id)
  {
    if IsTranscodingEncodingId(id) then FullVideo
    else if IsPreviewEncodingId(id) then PreviewClip
    else Thumbnails
  }

  /** The transcoding ids are the four resolution ladder values. */
  lemma TranscodingValues(id: EncodingId)
    ensures IsTranscodingEncodingId(id) <==> Value(id) in ["360p", "480p", "720p", "1080p"]
  {
  }

  /** The preview ids are `preview` and its four sized variants. */
  lemma PreviewValues(id: EncodingId)
    ensures IsPreviewEncodingId(id) <==>
      Value(id) in ["preview", "preview_360p", "preview_480p", "preview_720p", "preview_1080p"]
  {
  }
}
