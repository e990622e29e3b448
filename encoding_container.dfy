/** Container formats: the 21 `VideoContainer` values a source video may have, the 26
    `EncodingContainer` values an artifact may have (the video ones plus four image formats
    and the HLS playlist), their membership tests over raw strings, and the two
    container-to-MIME-type tables. */
module EncodingContainers {
  import opened Wrappers

  datatype EncodingContainer =
    | Mp4 | Mov | Avi | Mkv | Wmv | Flv | Webm | Mpeg | Mpg | ThreeGp | Ogg
    | Ts | M4v | M2ts | Vob | Rm | Rmvb | Divx | Asf | Swf | F4v
    | Jpeg | Jpg | Png | Gif | M3u8

  /** The members that also belong to the `VideoContainer` enum. */
  predicate IsVideo(c: EncodingContainer) {
    !(c.Jpeg? || c.Jpg? || c.Png? || c.Gif? || c.M3u8?)
  }

  type VideoContainer = c: EncodingContainer | IsVideo(c) witness Mp4

  /** The enum's string value, which is also the file extension. */
  function Value(c: EncodingContainer): string {
    match c
    case Mp4 => "mp4"
    case Mov => "mov"
    case Avi => "avi"
    case Mkv => "mkv"
    case Wmv => "wmv"
    case Flv => "flv"
    case Webm => "webm"
    case Mpeg => "mpeg"
    case Mpg => "mpg"
    case ThreeGp => "3gp"
    case Ogg => "ogg"
    case Ts => "ts"
    case M4v => "m4v"
    case M2ts => "m2ts"
    case Vob => "vob"
    case Rm => "rm"
    case Rmvb => "rmvb"
    case Divx => "divx"
    case Asf => "asf"
    case Swf => "swf"
    case F4v => "f4v"
    case Jpeg => "jpeg"
    case Jpg => "jpg"
    case Png => "png"
    case Gif => "gif"
    case M3u8 => "m3u8"
  }

  /** Every member, in declaration order. */
  const AllContainers: seq<EncodingContainer> :=
    [Mp4, Mov, Avi, Mkv, Wmv, Flv, Webm, Mpeg, Mpg, ThreeGp, Ogg,
     Ts, M4v, M2ts, Vob, Rm, Rmvb, Divx, Asf, Swf, F4v,
     Jpeg, Jpg, Png, Gif, M3u8]

  /** Decoding a string into the enum (the narrowing the type guards perform): the member
      whose value is `s`, if there is one. */
  function Parse(s: string): (r: Option<EncodingContainer>)
    ensures r.Some? ==> Value(r.value) == s
    ensures r.None? ==> forall c :: Value(c) != s
  {
    if exists c :: c in AllContainers && Value(c) == s then
      ValuesDistinct();
      var c :| c in AllContainers && Value(c) == s;
      Some(c)
    else
      assert forall c :: c in AllContainers by { forall c { AllContainersComplete(c); } }
      None
  }

  /** `Object.values(VideoContainer)`. */
  const VideoContainerValues: seq<string> :=
    ["mp4", "mov", "avi", "mkv", "wmv", "flv", "webm", "mpeg", "mpg", "3gp", "ogg",
     "ts", "m4v", "m2ts", "vob", "rm", "rmvb", "divx", "asf", "swf", "f4v"]

  /** `Object.values(EncodingContainer)`. */
  const EncodingContainerValues: seq<string> :=
    ["mp4", "mov", "avi", "mkv", "wmv", "flv", "webm", "mpeg", "mpg", "3gp", "ogg",
     "ts", "m4v", "m2ts", "vob", "rm", "rmvb", "divx", "asf", "swf", "f4v",
     "jpeg", "jpg", "png", "gif", "m3u8"]

  predicate IsVideoContainer(container: string) {
    container in VideoContainerValues
  }

  /** Accepts `undefined` (as `None`) and rejects it. */
  predicate IsEncodingContainer(container: Option<string>) {
    container.Some? && container.value in EncodingContainerValues
  }

  /** A member's place in the declaration order. */
  function Position(c: EncodingContainer): (i: nat)
    ensures i < 26
  {
    match c
    case Mp4 => 0 case Mov => 1 case Avi => 2 case Mkv => 3 case Wmv => 4 case Flv => 5
    case Webm => 6 case Mpeg => 7 case Mpg => 8 case ThreeGp => 9 case Ogg => 10
    case Ts => 11 case M4v => 12 case M2ts => 13 case Vob => 14 case Rm => 15
    case Rmvb => 16 case Divx => 17 case Asf => 18 case Swf => 19 case F4v => 20
    case Jpeg => 21 case Jpg => 22 case Png => 23 case Gif => 24 case M3u8 => 25
  }

  lemma ListedAtPosition(c: EncodingContainer)
    ensures |AllContainers| == 26 && AllContainers[Position(c)] == c
  {
  }

  lemma PositionOfListed()
    ensures |AllContainers| == 26
    ensures forall i :: 0 <= i < 26 ==> Position(AllContainers[i]) == i
  {
  }

  lemma AllContainersComplete(c: EncodingContainer)
    ensures c in AllContainers
  {
    ListedAtPosition(c);
  }

  /** No member is listed twice. */
  lemma AllContainersDistinct()
    ensures forall i, j :: 0 <= i < j < |AllContainers| ==> AllContainers[i] != AllContainers[j]
  {
    PositionOfListed();
  }

  /** The value lists are the members' values, in declaration order. */
  lemma ValueListsMatch()
    ensures |VideoContainerValues| == 21 && |EncodingContainerValues| == |AllContainers| == 26
    ensures forall i :: 0 <= i < 26 ==> EncodingContainerValues[i] == Value(AllContainers[i])
    ensures forall i :: 0 <= i < 21 ==> VideoContainerValues[i] == EncodingContainerValues[i]
    ensures forall i :: 0 <= i < 26 ==> (i < 21 <==> IsVideo(AllContainers[i]))
  {
    FirstValuesMatch();
    LastValuesMatch();
    VideoValuesArePrefix();
    VideoMembersFirst();
  }

  lemma FirstValuesMatch()
    ensures |EncodingContainerValues| == |AllContainers| == 26
    ensures forall i :: 0 <= i < 13 ==> EncodingContainerValues[i] == Value(AllContainers[i])
  {
  }

  lemma LastValuesMatch()
    ensures |EncodingContainerValues| == |AllContainers| == 26
    ensures forall i :: 13 <= i < 26 ==> EncodingContainerValues[i] == Value(AllContainers[i])
  {
  }

  lemma VideoValuesArePrefix()
    ensures |VideoContainerValues| == 21 && |EncodingContainerValues| == 26
    ensures forall i :: 0 <= i < 21 ==> VideoContainerValues[i] == EncodingContainerValues[i]
  {
  }

  lemma VideoMembersFirst()
    ensures |AllContainers| == 26
    ensures forall i :: 0 <= i < 26 ==> (i < 21 <==> IsVideo(AllContainers[i]))
  {
  }

  lemma ValuesDistinct()
    ensures forall a, b :: Value(a) == Value(b) ==> a == b
  {
    forall a, b | Value(a) == Value(b) ensures a == b {
      ValueInjective(a, b);
    }
  }

  /** Distinct members have distinct values. */
  lemma ValueInjective(a: EncodingContainer, b: EncodingContainer)
    requires Value(a) == Value(b)
    ensures a == b
  {
    var s, t := Value(a), Value(b);
    if |s| == 2 {
      assert s[0] == t[0] && s[1] == t[1];
    } else if |s| == 3 {
      assert s[0] == t[0] && s[1] == t[1] && s[2] == t[2];
    } else {
      assert s[0] == t[0] && s[1] == t[1] && s[2] == t[2] && s[3] == t[3];
    }
  }

  /** Every member's value is accepted by `isEncodingContainer` and decodes back to it. */
  lemma ValueRoundTrip(c: EncodingContainer)
    ensures Parse(Value(c)) == Some(c)
    ensures IsEncodingContainer(Some(Value(c)))
  {
    AllContainersComplete(c);
    ValueInjective(Parse(Value(c)).value, c);
    ValueListsMatch();
    var i :| 0 <= i < |AllContainers| && AllContainers[i] == c;
    assert EncodingContainerValues[i] == Value(c);
  }

  /** `isEncodingContainer` accepts exactly the strings of the 26 encoding containers. */
  lemma IsEncodingContainerExactly(s: Option<string>)
    ensures IsEncodingContainer(s) <==> (s.Some? && Parse(s.value).Some?)
  {
    if s.Some? && Parse(s.value).Some? {
      ValueRoundTrip(Parse(s.value).value);
    }
    if IsEncodingContainer(s) {
      ValueListsMatch();
      var i :| 0 <= i < |EncodingContainerValues| && EncodingContainerValues[i] == s.value;
      assert Value(AllContainers[i]) == s.value;
    }
  }

  /** `isVideoContainer` accepts exactly the strings of the 21 video containers. */
  lemma IsVideoContainerExactly(s: string)
    ensures IsVideoContainer(s) <==> (Parse(s).Some? && IsVideo(Parse(s).value))
  {
    ValueListsMatch();
    if IsVideoContainer(s) {
      var i :| 0 <= i < |VideoContainerValues| && VideoContainerValues[i] == s;
      assert Value(AllContainers[i]) == s;
      ValueInjective(Parse(s).value, AllContainers[i]);
    }
    if Parse(s).Some? && IsVideo(Parse(s).value) {
      var c := Parse(s).value;
      var i :| 0 <= i < |AllContainers| && AllContainers[i] == c;
      assert VideoContainerValues[i] == s;
    }
  }

  /** `isVideoContainer` accepts a member's value exactly when it is a video container. */
  lemma VideoValueAccepted(c: EncodingContainer)
    ensures IsVideoContainer(Value(c)) <==> IsVideo(c)
  {
    ValueRoundTrip(c);
    IsVideoContainerExactly(Value(c));
  }

  /** The value lists have 21 and 26 entries, none repeated. */
  lemma ValueListsSizes()
    ensures |VideoContainerValues| == 21 && |EncodingContainerValues| == 26
    ensures forall i, j :: 0 <= i < j < |EncodingContainerValues| ==> EncodingContainerValues[i] != EncodingContainerValues[j]
  {
    ValueListsMatch();
    ValuesDistinct();
    AllContainersDistinct();
  }

  /** No value contains a dot or a slash, so a value can stand as a file extension. */
  lemma ValueHasNoSeparators(c: EncodingContainer)
    ensures '.' !in Value(c) && '/' !in Value(c)
  {
  }

  /** Every video container string is also an encoding container string. */
  lemma VideoContainersAreEncodingContainers(s: string)
    requires IsVideoContainer(s)
    ensures IsEncodingContainer(Some(s))
  {
  }

  function MapVideoContainerToContentType(container: VideoContainer): string {
    match container
    case Mp4 => "video/mp4"
    case Mov => "video/quicktime"
    case Avi => "video/x-msvideo"
    case Mkv => "video/x-matroska"
    case Wmv => "video/x-ms-wmv"
    case Flv => "video/x-flv"
    case Webm => "video/webm"
    case Mpeg => "video/mpeg"
    case Mpg => "video/mpeg"
    case ThreeGp => "video/3gpp"
    case Ogg => "video/ogg"
    case Ts => "video/mp2t"
    case M4v => "video/x-m4v"
    case M2ts => "video/MP2T"
    case Vob => "video/dvd"
    case Rm => "application/vnd.rn-realmedia"
    case Rmvb => "application/vnd.rn-realmedia-vbr"
    case Divx => "video/divx"
    case Asf => "video/x-ms-asf"
    case Swf => "application/x-shockwave-flash"
    case F4v => "video/x-f4v"
  }

  function MapEncodingContainerToContentType(container: EncodingContainer): string {
    match container
    case Mp4 => "video/mp4"
    case Mov => "video/quicktime"
    case Avi => "video/x-msvideo"
    case Mkv => "video/x-matroska"
    case Wmv => "video/x-ms-wmv"
    case Flv => "video/x-flv"
    case Webm => "video/webm"
    case Mpeg => "video/mpeg"
    case Mpg => "video/mpeg"
    case ThreeGp => "video/3gpp"
    case Ogg => "video/ogg"
    case Ts => "video/mp2t"
    case M4v => "video/x-m4v"
    case M2ts => "video/MP2T"
    case Vob => "video/dvd"
    case Rm => "application/vnd.rn-realmedia"
    case Rmvb => "application/vnd.rn-realmedia-vbr"
    case Divx => "video/divx"
    case Asf => "video/x-ms-asf"
    case Swf => "application/x-shockwave-flash"
    case F4v => "video/x-f4v"
    case Jpeg => "image/jpeg"
    case Jpg => "image/jpeg"
    case Png => "image/png"
    case Gif => "image/gif"
    case M3u8 => "application/vnd.apple.mpegurl"
  }

  /** The two tables agree on every video container. */
  lemma ContentTypeTablesAgree(c: VideoContainer)
    ensures MapVideoContainerToContentType(c) == MapEncodingContainerToContentType(c)
  {
  }

  /** Neither table is injective, and `ts`/`m2ts` differ only in letter case. */
  lemma ContentTypeCollisions()
    ensures MapVideoContainerToContentType(Mpeg) == MapVideoContainerToContentType(Mpg) == "video/mpeg"
    ensures MapEncodingContainerToContentType(Jpeg) == MapEncodingContainerToContentType(Jpg) == "image/jpeg"
    ensures MapEncodingContainerToContentType(Ts) == "video/mp2t"
    ensures MapEncodingContainerToContentType(M2ts) == "video/MP2T"
    ensures MapEncodingContainerToContentType(M3u8) == "application/vnd.apple.mpegurl"
    ensures MapEncodingContainerToContentType(Png) == "image/png"
    ensures MapEncodingContainerToContentType(Gif) == "image/gif"
  {
  }

  /** The only two video containers sharing a MIME type are `mpeg` and `mpg`. */
  lemma VideoContentTypeInjectiveExceptMpeg(a: VideoContainer, b: VideoContainer)
    ensures MapVideoContainerToContentType(a) == MapVideoContainerToContentType(b) <==>
      a == b || (a == Mpeg && b == Mpg) || (a == Mpg && b == Mpeg)
  {
    if Position(a) < 7 {
      FirstContentTypesUnshared(a, b);
    } else if Position(a) < 14 {
      MiddleContentTypesUnshared(a, b);
    } else {
      LastContentTypesUnshared(a, b);
    }
  }

  /** `a` shares its MIME type with `b` only when they are equal or are `mpeg` and `mpg`. */
  predicate SharesTypeOnlyAsMpeg(a: VideoContainer, b: VideoContainer) {
    MapVideoContainerToContentType(a) == MapVideoContainerToContentType(b) ==>
      a == b || (a == Mpeg && b == Mpg) || (a == Mpg && b == Mpeg)
  }

  lemma FirstContentTypesUnshared(a: VideoContainer, b: VideoContainer)
    requires Position(a) < 7
    ensures SharesTypeOnlyAsMpeg(a, b)
  {
  }

  lemma MiddleContentTypesUnshared(a: VideoContainer, b: VideoContainer)
    requires 7 <= Position(a) < 14
    ensures SharesTypeOnlyAsMpeg(a, b)
  {
  }

  lemma LastContentTypesUnshared(a: VideoContainer, b: VideoContainer)
    requires 14 <= Position(a)
    ensures SharesTypeOnlyAsMpeg(a, b)
  {
  }
}
