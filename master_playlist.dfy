/** The playlist stitcher: from the listing of a video's artifacts it builds the HLS
    master playlist (section 4.3.4.2 of RFC 8216), one variant stream per rendition
    playlist, ordered by height, and uploads it next to them. */
module MasterPlaylists {
  import opened Wrappers
  import opened Strings
  import opened EncodingIds
  import opened Storage

  const PlaylistContentType: string := "application/vnd.apple.mpegurl"

  /** The first line of every playlist (section 4.3.1.1 of RFC 8216). */
  const Header: string := "#EXTM3U\n"

  // ---------------------------------------------------------------------------------
  // Rendition playlists and their labels

  /** A per-rendition HLS playlist, as opposed to a master playlist. */
  predicate IsRenditionPlaylist(name: string) {
    EndsWith(name, ".m3u8") && !Contains(name, "master")
  }

  /** The rendition playlists of a listing, in listing order. */
  function RenditionPlaylists(names: seq<string>): (r: seq<string>)
    ensures forall n :: n in r <==> n in names && IsRenditionPlaylist(n)
    decreases |names|
  {
    if names == [] then []
    else
      var rest := RenditionPlaylists(names[1..]);
      assert forall n :: n in names <==> n == names[0] || n in names[1..];
      if IsRenditionPlaylist(names[0]) then [names[0]] + rest else rest
  }

  /** A playlist's resolution label: its last path segment, cut at the first '.', with the
      first `playlist_` removed (`videoId/360p/playlist_360p.m3u8` gives `360p`). */
  function ResolutionOf(name: string): string {
    ReplaceFirst(FirstSegment(LastSegment(name, '/'), '.'), "playlist_", "")
  }

  function ResolutionsOf(names: seq<string>): (r: seq<string>)
    ensures |r| == |names| && forall i :: 0 <= i < |names| ==> r[i] == ResolutionOf(names[i])
  {
    seq(|names|, i requires 0 <= i < |names| => ResolutionOf(names[i]))
  }

  /** The height the sort compares: `parseInt` of the resolution with its first 'p' removed;
      `None` is `NaN`. */
  function Height(tag: string): Option<int> {
    ParseInt(ReplaceFirst(tag, "p", ""))
  }

  predicate HasHeight(tag: string) { Height(tag).Some? }

  predicate HasHeights(resolutions: seq<string>) {
    forall i :: 0 <= i < |resolutions| ==> HasHeight(resolutions[i])
  }

  /** A resolution with the height it sorts by. */
  datatype Rendition = Rendition(name: string, height: int)

  /** The resolutions paired with their heights. */
  function Renditions(resolutions: seq<string>): (r: seq<Rendition>)
    requires HasHeights(resolutions)
    ensures |r| == |resolutions|
    ensures forall i :: 0 <= i < |resolutions| ==> r[i].name == resolutions[i] && Height(resolutions[i]) == Some(r[i].height)
  {
    seq(|resolutions|, i requires 0 <= i < |resolutions| => Rendition(resolutions[i], Height(resolutions[i]).value))
  }

  function NamesOf(rs: seq<Rendition>): (r: seq<string>)
    ensures |r| == |rs| && forall i :: 0 <= i < |rs| ==> r[i] == rs[i].name
    decreases |rs|
  {
    if rs == [] then [] else [rs[0].name] + NamesOf(rs[1..])
  }

  /** A digit run with a trailing `p` (the shape of the ladder labels) has the run's value
      as its height. */
  lemma {:induction false} HeightOfDigitsP(digits: string)
    requires digits != [] && AllDigits(digits)
    ensures Height(digits + "p") == Some(DecimalValue(digits))
  {
    ReplaceFirstSkipsDigits(digits);
    ParseIntOfDigits(digits);
  }

  lemma {:induction false} ReplaceFirstSkipsDigits(digits: string)
    requires AllDigits(digits)
    ensures ReplaceFirst(digits + "p", "p", "") == digits
    decreases |digits|
  {
    if digits != [] {
      ReplaceFirstSkipsDigits(digits[1..]);
      assert (digits + "p")[1..] == digits[1..] + "p";
      assert (digits + "p")[0] == digits[0] && IsDigit(digits[0]);
      assert !StartsWith(digits + "p", "p");
    }
  }

  // ---------------------------------------------------------------------------------
  // The stable sort by height

  predicate SortedByHeight(rs: seq<Rendition>) {
    forall i, j :: 0 <= i < j < |rs| ==> rs[i].height <= rs[j].height
  }

  /** The renditions of height `h`, in their order. */
  function WithHeight(h: int, rs: seq<Rendition>): (r: seq<Rendition>)
    ensures forall x :: x in r <==> x in rs && x.height == h
    decreases |rs|
  {
    if rs == [] then []
    else
      var rest := WithHeight(h, rs[1..]);
      assert forall x :: x in rs <==> x == rs[0] || x in rs[1..];
      if rs[0].height == h then [rs[0]] + rest else rest
  }

  /** `x` placed before the first rendition at least as high. */
  function Insert(x: Rendition, rs: seq<Rendition>): (r: seq<Rendition>)
    ensures |r| == |rs| + 1
    ensures multiset(r) == multiset(rs) + multiset{x}
    decreases |rs|
  {
    if rs == [] then [x]
    else if x.height <= rs[0].height then [x] + rs
    else
      assert rs == [rs[0]] + rs[1..];
      [rs[0]] + Insert(x, rs[1..])
  }

  lemma {:induction false} InsertSorted(x: Rendition, rs: seq<Rendition>)
    requires SortedByHeight(rs)
    ensures SortedByHeight(Insert(x, rs))
    decreases |rs|
  {
    if rs != [] && x.height > rs[0].height {
      InsertSorted(x, rs[1..]);
      var r := Insert(x, rs);
      assert r == [rs[0]] + Insert(x, rs[1..]);
      forall y | y in Insert(x, rs[1..]) ensures rs[0].height <= y.height {
        assert y in multiset(Insert(x, rs[1..]));
        assert y == x || y in multiset(rs[1..]);
      }
    }
  }

  /** The order `Array.prototype.sort` gives with the comparator `height1 - height2`:
      `sort` is stable, so renditions of equal height keep their listing order. */
  function SortByHeight(rs: seq<Rendition>): (r: seq<Rendition>)
    ensures |r| == |rs|
    ensures multiset(r) == multiset(rs)
    decreases |rs|
  {
    if rs == [] then []
    else
      assert rs == [rs[0]] + rs[1..];
      Insert(rs[0], SortByHeight(rs[1..]))
  }

  lemma {:induction false} SortByHeightSorted(rs: seq<Rendition>)
    ensures SortedByHeight(SortByHeight(rs))
    decreases |rs|
  {
    if rs != [] {
      SortByHeightSorted(rs[1..]);
      InsertSorted(rs[0], SortByHeight(rs[1..]));
    }
  }

  lemma {:induction false} InsertWithHeight(h: int, x: Rendition, rs: seq<Rendition>)
    ensures WithHeight(h, Insert(x, rs)) == (if x.height == h then [x] else []) + WithHeight(h, rs)
    decreases |rs|
  {
    if rs != [] && x.height > rs[0].height {
      InsertWithHeight(h, x, rs[1..]);
      var r := Insert(x, rs);
      assert r[0] == rs[0] && r[1..] == Insert(x, rs[1..]);
    }
  }

  /** Sorting keeps the order of the renditions of each height: the sort is stable. */
  lemma {:induction false} SortByHeightStable(h: int, rs: seq<Rendition>)
    ensures WithHeight(h, SortByHeight(rs)) == WithHeight(h, rs)
    decreases |rs|
  {
    if rs != [] {
      SortByHeightStable(h, rs[1..]);
      InsertWithHeight(h, rs[0], SortByHeight(rs[1..]));
    }
  }

  /** A non-empty arrangement has its first rendition among those of its height. */
  lemma NonEmptyHasHeight(a: seq<Rendition>, b: seq<Rendition>)
    requires forall h :: WithHeight(h, a) == WithHeight(h, b)
    ensures a != [] ==> b != []
  {
    if a != [] {
      assert a[0] in WithHeight(a[0].height, a);
    }
  }

  /** Two arrangements sorted by height with the same renditions of each height start
      with the same rendition. */
  lemma HeadsAgree(a: seq<Rendition>, b: seq<Rendition>)
    requires SortedByHeight(a) && SortedByHeight(b)
    requires forall h :: WithHeight(h, a) == WithHeight(h, b)
    requires a != [] && b != []
    ensures a[0] == b[0]
  {
    var m, n := a[0].height, b[0].height;
    // the lowest height of each is present in the other, so the two agree
    assert a[0] in WithHeight(m, a);
    var y :| y in WithHeight(m, b);
    var yi :| 0 <= yi < |b| && b[yi] == y;
    assert n <= m by { if yi > 0 { assert b[0].height <= b[yi].height; } }
    assert b[0] in WithHeight(n, b);
    var z :| z in WithHeight(n, a);
    var zi :| 0 <= zi < |a| && a[zi] == z;
    assert m <= n by { if zi > 0 { assert a[0].height <= a[zi].height; } }
    assert WithHeight(m, a) == [a[0]] + WithHeight(m, a[1..]);
    assert WithHeight(m, b) == [b[0]] + WithHeight(m, b[1..]);
    assert a[0] == WithHeight(m, a)[0] == WithHeight(m, b)[0] == b[0];
  }

  /** Removing the same first rendition keeps the per-height orders equal. */
  lemma TailsAgree(a: seq<Rendition>, b: seq<Rendition>)
    requires forall h :: WithHeight(h, a) == WithHeight(h, b)
    requires a != [] && b != [] && a[0] == b[0]
    ensures forall h :: WithHeight(h, a[1..]) == WithHeight(h, b[1..])
  {
    forall h ensures WithHeight(h, a[1..]) == WithHeight(h, b[1..]) {
      if h == a[0].height {
        assert WithHeight(h, a[1..]) == WithHeight(h, a)[1..];
        assert WithHeight(h, b[1..]) == WithHeight(h, b)[1..];
      } else {
        assert WithHeight(h, a) == WithHeight(h, a[1..]);
        assert WithHeight(h, b) == WithHeight(h, b[1..]);
      }
    }
  }

  /** Two arrangements sorted by height that keep the same order within every height are
      equal: whatever stable sort the engine runs, its result is `SortByHeight`. */
  lemma {:induction false} StableSortUnique(a: seq<Rendition>, b: seq<Rendition>)
    requires SortedByHeight(a) && SortedByHeight(b)
    requires forall h :: WithHeight(h, a) == WithHeight(h, b)
    ensures a == b
    decreases |a|
  {
    NonEmptyHasHeight(a, b);
    NonEmptyHasHeight(b, a);
    if a != [] {
      HeadsAgree(a, b);
      TailsAgree(a, b);
      StableSortUnique(a[1..], b[1..]);
      assert a == [a[0]] + a[1..] && b == [b[0]] + b[1..];
    }
  }

  /** `SortByHeight` is the one stable sort: every arrangement sorted by height that keeps
      the listing order within each height is `SortByHeight`'s result. */
  lemma SortByHeightIsTheStableSort(rs: seq<Rendition>, sorted: seq<Rendition>)
    requires SortedByHeight(sorted)
    requires forall h :: WithHeight(h, sorted) == WithHeight(h, rs)
    ensures sorted == SortByHeight(rs)
  {
    SortByHeightSorted(rs);
    forall h ensures WithHeight(h, sorted) == WithHeight(h, SortByHeight(rs)) {
      SortByHeightStable(h, rs);
    }
    StableSortUnique(sorted, SortByHeight(rs));
  }

  /** The resolutions of a listing's rendition playlists, sorted by height. */
  function SortedResolutions(names: seq<string>): seq<string>
    requires HasHeights(ResolutionsOf(RenditionPlaylists(names)))
  {
    NamesOf(SortByHeight(Renditions(ResolutionsOf(RenditionPlaylists(names)))))
  }

  /** Each rendition carries its resolution's height. */
  predicate HeightsMatch(rs: seq<Rendition>) {
    forall i :: 0 <= i < |rs| ==> Height(rs[i].name) == Some(rs[i].height)
  }

  lemma {:induction false} NamesOfInsert(x: Rendition, rs: seq<Rendition>)
    ensures multiset(NamesOf(Insert(x, rs))) == multiset(NamesOf(rs)) + multiset{x.name}
    decreases |rs|
  {
    var r := Insert(x, rs);
    if rs == [] {
    } else if x.height <= rs[0].height {
      assert r[1..] == rs;
      assert NamesOf(r) == [x.name] + NamesOf(rs);
    } else {
      NamesOfInsert(x, rs[1..]);
      assert r[1..] == Insert(x, rs[1..]);
      assert NamesOf(r) == [rs[0].name] + NamesOf(r[1..]);
      assert NamesOf(rs) == [rs[0].name] + NamesOf(rs[1..]);
      assert multiset(NamesOf(r)) == multiset{rs[0].name} + multiset(NamesOf(r[1..]));
    }
  }

  /** Sorting moves renditions, so the resolutions are a permutation of the input's. */
  lemma {:induction false} NamesOfSortByHeight(rs: seq<Rendition>)
    ensures multiset(NamesOf(SortByHeight(rs))) == multiset(NamesOf(rs))
    decreases |rs|
  {
    if rs != [] {
      NamesOfSortByHeight(rs[1..]);
      NamesOfInsert(rs[0], SortByHeight(rs[1..]));
      assert NamesOf(rs) == [rs[0].name] + NamesOf(rs[1..]);
    }
  }

  lemma HeightsMatchPermutation(a: seq<Rendition>, b: seq<Rendition>)
    requires HeightsMatch(a) && multiset(a) == multiset(b)
    ensures HeightsMatch(b)
  {
    forall j | 0 <= j < |b| ensures Height(b[j].name) == Some(b[j].height) {
      assert b[j] in multiset(b);
      var i :| 0 <= i < |a| && a[i] == b[j];
    }
  }

  /** The sorted resolutions are a permutation of the rendition playlists' resolutions,
      ascending by height. */
  lemma SortedResolutionsSpec(names: seq<string>)
    requires HasHeights(ResolutionsOf(RenditionPlaylists(names)))
    ensures multiset(SortedResolutions(names)) == multiset(ResolutionsOf(RenditionPlaylists(names)))
    ensures HasHeights(SortedResolutions(names))
    ensures var sorted := SortedResolutions(names);
      forall i, j :: 0 <= i < j < |sorted| ==> Height(sorted[i]).value <= Height(sorted[j]).value
  {
    var resolutions := ResolutionsOf(RenditionPlaylists(names));
    var rs := Renditions(resolutions);
    assert NamesOf(rs) == resolutions;
    NamesOfSortByHeight(rs);
    assert HeightsMatch(rs);
    HeightsMatchPermutation(rs, SortByHeight(rs));
    SortByHeightSorted(rs);
    SortedNamesAscend(SortByHeight(rs));
  }

  /** The names of renditions sorted by height, each with its own height, ascend by
      height. */
  lemma SortedNamesAscend(rs: seq<Rendition>)
    requires HeightsMatch(rs) && SortedByHeight(rs)
    ensures HasHeights(NamesOf(rs))
    ensures forall i, j :: 0 <= i < j < |rs| ==> Height(NamesOf(rs)[i]).value <= Height(NamesOf(rs)[j]).value
  {
  }

  // ---------------------------------------------------------------------------------
  // One variant stream per resolution

  /** The `.ts` artifact a resolution reads its dimensions and bitrate from. */
  predicate IsSegmentFor(name: string, resolution: string) {
    EndsWith(name, ".ts") && Contains(name, resolution)
  }

  /** `encodingArtifacts.find(...)`: the index of the first segment for `resolution`. */
  function FindSegment(names: seq<string>, resolution: string): (r: Option<nat>)
    ensures r.Some? ==> r.value < |names| && IsSegmentFor(names[r.value], resolution)
    ensures r.Some? ==> forall i :: 0 <= i < r.value ==> !IsSegmentFor(names[i], resolution)
    ensures r.None? ==> forall i :: 0 <= i < |names| ==> !IsSegmentFor(names[i], resolution)
    decreases |names|
  {
    if names == [] then None
    else if IsSegmentFor(names[0], resolution) then Some(0)
    else match FindSegment(names[1..], resolution)
      case None => None
      case Some(i) => Some(i + 1)
  }

  /** The segment's base name: its last path segment cut at the first '.'. */
  function VideoName(segment: string): string {
    FirstSegment(LastSegment(segment, '/'), '.')
  }

  datatype PlaylistError =
    | SegmentNotFound(resolution: string)
    | InvalidVideoName(videoName: string)

  /** `${parseInt(bitrate, 10) * 1000}`: the kilobits as bits per second, `NaN` when the
      field has no leading digits. */
  function Bandwidth(bitrate: string): string {
    match ParseInt(bitrate)
    case None => "NaN"
    case Some(kbps) => IntToString(kbps * 1000)
  }

  /** The URI of a variant stream, relative to the master playlist. */
  function VariantUri(resolution: string): string {
    resolution + "/playlist_" + resolution + ".m3u8"
  }

  function UriLine(resolution: string): string {
    VariantUri(resolution) + "\n"
  }

  function StreamInf(bandwidth: string, width: string, height: string): string {
    "#EXT-X-STREAM-INF:BANDWIDTH=" + bandwidth + ",RESOLUTION=" + width + "x" + height + "\n"
  }

  /** The two lines a resolution adds, read off its segment's name, or why they cannot be. */
  function SegmentEntry(segment: string, resolution: string): Result<string, PlaylistError> {
    var videoName := VideoName(segment);
    var fields := Split(videoName, 'x');
    if videoName == [] then Failure(InvalidVideoName(videoName))
    else if |fields| < 3 || fields[0] == [] || fields[1] == [] || fields[2] == [] then Failure(InvalidVideoName(videoName))
    else Success(StreamInf(Bandwidth(fields[2]), fields[0], fields[1]) + UriLine(resolution))
  }

  /** The two lines one resolution adds to the master playlist, or why it cannot. */
  function StreamEntry(names: seq<string>, resolution: string): Result<string, PlaylistError> {
    match FindSegment(names, resolution)
    case None => Failure(SegmentNotFound(resolution))
    case Some(i) => SegmentEntry(names[i], resolution)
  }

  /** The header followed by the entries' lines, or the first failure among them. */
  function Assemble(entries: seq<Result<string, PlaylistError>>): Result<string, PlaylistError>
    decreases |entries|
  {
    if entries == [] then Success(Header)
    else
      match Assemble(entries[..|entries| - 1])
      case Failure(e) => Failure(e)
      case Success(content) =>
        match entries[|entries| - 1]
        case Failure(e) => Failure(e)
        case Success(entry) => Success(content + entry)
  }

  function Entries(names: seq<string>, resolutions: seq<string>): (r: seq<Result<string, PlaylistError>>)
    ensures |r| == |resolutions| && forall i :: 0 <= i < |resolutions| ==> r[i] == StreamEntry(names, resolutions[i])
  {
    seq(|resolutions|, i requires 0 <= i < |resolutions| => StreamEntry(names, resolutions[i]))
  }

  /** The master playlist for `resolutions` in this order. */
  function PlaylistContent(names: seq<string>, resolutions: seq<string>): Result<string, PlaylistError> {
    Assemble(Entries(names, resolutions))
  }

  /** The content exists exactly when every resolution has an entry. */
  lemma {:induction false} AssembleSucceeds(entries: seq<Result<string, PlaylistError>>)
    ensures Assemble(entries).Success? <==> forall i :: 0 <= i < |entries| ==> entries[i].Success?
    decreases |entries|
  {
    if entries != [] {
      var init := entries[..|entries| - 1];
      AssembleSucceeds(init);
      assert forall i :: 0 <= i < |init| ==> init[i] == entries[i];
    }
  }

  /** A failing content reports the error of the first entry that fails. */
  lemma {:induction false} AssembleFirstError(entries: seq<Result<string, PlaylistError>>, k: nat)
    requires k < |entries| && entries[k].Failure?
    requires forall i :: 0 <= i < k ==> entries[i].Success?
    ensures Assemble(entries) == Failure(entries[k].error)
    decreases |entries|
  {
    var init := entries[..|entries| - 1];
    assert forall i :: 0 <= i < |init| ==> init[i] == entries[i];
    if k < |init| {
      AssembleFirstError(init, k);
    } else {
      AssembleSucceeds(init);
    }
  }

  /** A successful content is the `#EXTM3U` header followed by every entry in order. */
  lemma {:induction false} AssembleConcatenates(entries: seq<Result<string, PlaylistError>>, k: nat)
    requires forall i :: 0 <= i < |entries| ==> entries[i].Success?
    requires k < |entries|
    ensures Assemble(entries).Success? && Assemble(entries[..k]).Success? && Assemble(entries[..k + 1]).Success?
    ensures Assemble(entries[..k + 1]).value == Assemble(entries[..k]).value + entries[k].value
    ensures StartsWith(Assemble(entries).value, Assemble(entries[..k + 1]).value)
    decreases |entries|
  {
    AssembleSucceeds(entries);
    AssembleSucceeds(entries[..k]);
    assert entries[..k + 1][..k] == entries[..k];
    if k + 1 < |entries| {
      var init := entries[..|entries| - 1];
      AssembleConcatenates(init, k);
      assert init[..k] == entries[..k] && init[..k + 1] == entries[..k + 1];
      var c := Assemble(init).value;
      var e := entries[|entries| - 1].value;
      assert (c + e)[..|Assemble(entries[..k + 1]).value|] == c[..|Assemble(entries[..k + 1]).value|];
    } else {
      assert entries[..k + 1] == entries;
    }
  }

  /** Every successful content starts with the `#EXTM3U` header. */
  lemma {:induction false} AssembleStartsWithHeader(entries: seq<Result<string, PlaylistError>>)
    requires Assemble(entries).Success?
    ensures StartsWith(Assemble(entries).value, Header)
    decreases |entries|
  {
    if entries != [] {
      var init := entries[..|entries| - 1];
      AssembleStartsWithHeader(init);
      var c := Assemble(init).value;
      var e := entries[|entries| - 1].value;
      assert (c + e)[..|Header|] == c[..|Header|];
    }
  }

  /** The bandwidth written reads back as a thousand times the bitrate field's value. */
  lemma BandwidthRoundTrip(bitrate: string, kbps: int)
    requires ParseInt(bitrate) == Some(kbps)
    ensures ParseInt(Bandwidth(bitrate)) == Some(kbps * 1000)
  {
    ParseIntOfFormatted(kbps * 1000, "");
    assert IntToString(kbps * 1000) + "" == IntToString(kbps * 1000);
  }

  /** A field without leading digits gives the text `NaN`, which is not a number. */
  lemma BandwidthNaN(bitrate: string)
    requires ParseInt(bitrate).None?
    ensures ParseInt(Bandwidth(bitrate)).None?
  {
    assert TrimStart("NaN") == "NaN";
    assert LeadingDigits("NaN") == [];
  }

  /** The 'x'-separated fields of `width x height x bitrate` are the three parts. */
  lemma SplitDimensions(width: string, height: string, bitrate: string)
    requires 'x' !in width && 'x' !in height && 'x' !in bitrate
    ensures Split(width + "x" + height + "x" + bitrate, 'x') == [width, height, bitrate]
  {
    SplitSingle(bitrate, 'x');
    SplitAfterPart(height, 'x', bitrate);
    assert width + "x" + height + "x" + bitrate == width + ['x'] + (height + ['x'] + bitrate);
    SplitAfterPart(width, 'x', height + ['x'] + bitrate);
  }

  lemma VideoNameOfSegment(dir: string, base: string)
    requires '/' !in base && '.' !in base
    ensures VideoName(dir + "/" + base + ".ts") == base
  {
    LastSegmentAfterSeparator(dir, '/', base + ".ts");
    assert dir + "/" + base + ".ts" == dir + ['/'] + (base + ".ts");
    FirstSegmentBeforeSeparator(base, '.', "ts");
    assert base + ".ts" == base + ['.'] + "ts";
  }

  /** The 'x'-fields of a segment stored as `dir/WIDTHxHEIGHTxBITRATE.ts`. */
  lemma FieldsOfSegment(dir: string, width: string, height: string, bitrate: string)
    requires 'x' !in width && 'x' !in height && 'x' !in bitrate
    requires '/' !in width && '/' !in height && '/' !in bitrate
    requires '.' !in width && '.' !in height && '.' !in bitrate
    ensures Split(VideoName(dir + "/" + width + "x" + height + "x" + bitrate + ".ts"), 'x') == [width, height, bitrate]
  {
    var base := width + "x" + height + "x" + bitrate;
    assert '/' !in base && '.' !in base;
    assert dir + "/" + width + "x" + height + "x" + bitrate + ".ts" == dir + "/" + base + ".ts";
    VideoNameOfSegment(dir, base);
    SplitDimensions(width, height, bitrate);
  }

  /** A segment stored as `dir/WIDTHxHEIGHTxBITRATE.ts` yields the entry with those
      dimensions and a thousand times the bitrate as its bandwidth. */
  lemma SegmentEntryOfName(dir: string, width: string, height: string, bitrate: string, resolution: string)
    requires width != [] && height != [] && bitrate != [] && AllDigits(bitrate)
    requires 'x' !in width && 'x' !in height && 'x' !in bitrate
    requires '/' !in width && '/' !in height && '/' !in bitrate
    requires '.' !in width && '.' !in height && '.' !in bitrate
    ensures SegmentEntry(dir + "/" + width + "x" + height + "x" + bitrate + ".ts", resolution)
      == Success(StreamInf(IntToString(DecimalValue(bitrate) * 1000), width, height) + UriLine(resolution))
  {
    var segment := dir + "/" + width + "x" + height + "x" + bitrate + ".ts";
    FieldsOfSegment(dir, width, height, bitrate);
    var fields := Split(VideoName(segment), 'x');
    assert |fields| == 3 && fields[0] == width && fields[1] == height && fields[2] == bitrate;
    assert VideoName(segment) != [];
    ParseIntOfDigits(bitrate);
  }

  /** The URI line of a resolution, taken relative to `videoId/`, names the rendition
      playlist stored as `videoId/<resolution>/playlist_<resolution>.m3u8`, and that
      playlist's name gives back the resolution. */
  lemma VariantUriNamesRendition(videoId: string, resolution: string)
    requires '/' !in resolution && '.' !in resolution
    ensures ResolutionOf(videoId + "/" + VariantUri(resolution)) == resolution
  {
    var file := "playlist_" + resolution + ".m3u8";
    assert '/' !in file;
    assert videoId + "/" + VariantUri(resolution) == videoId + "/" + resolution + ['/'] + file;
    LastSegmentAfterSeparator(videoId + "/" + resolution, '/', file);
    assert file == ("playlist_" + resolution) + ['.'] + "m3u8";
    FirstSegmentBeforeSeparator("playlist_" + resolution, '.', "m3u8");
    assert StartsWith("playlist_" + resolution, "playlist_");
    assert ("playlist_" + resolution)[|"playlist_"|..] == resolution;
  }

  // ---------------------------------------------------------------------------------
  // The stitched playlist and where it goes

  /** Every rendition playlist's resolution has a height, so the sort comparator is
      consistent. */
  predicate Sortable(names: seq<string>) {
    HasHeights(ResolutionsOf(RenditionPlaylists(names)))
  }

  /** The object name the master playlist is uploaded under. */
  function MasterKeyName(videoId: string, resolutions: seq<string>): string {
    videoId + "/master_" + Join(resolutions, "_") + ".m3u8"
  }

  /** The temporary file the playlist is written to before the upload. */
  function TmpPath(resolutions: seq<string>): string {
    "/tmp/" + Join(resolutions, "_") + ".m3u8"
  }

  datatype MasterPlaylist = MasterPlaylist(keyName: string, tmpPath: string, content: string)

  /** The listing-to-playlist step: the sorted resolutions decide the key, the temporary
      path and the order of the entries. */
  function Stitch(videoId: string, names: seq<string>): Result<MasterPlaylist, PlaylistError>
    requires Sortable(names)
  {
    var resolutions := SortedResolutions(names);
    match PlaylistContent(names, resolutions)
    case Failure(e) => Failure(e)
    case Success(content) => Success(MasterPlaylist(MasterKeyName(videoId, resolutions), TmpPath(resolutions), content))
  }

  lemma {:induction false} RenditionPlaylistsAppend(names: seq<string>, x: string)
    ensures RenditionPlaylists(names + [x]) == RenditionPlaylists(names) + (if IsRenditionPlaylist(x) then [x] else [])
    decreases |names|
  {
    if names != [] {
      RenditionPlaylistsAppend(names[1..], x);
      assert (names + [x])[1..] == names[1..] + [x];
    }
  }

  lemma {:induction false} FindSegmentAppend(names: seq<string>, x: string, resolution: string)
    requires !IsSegmentFor(x, resolution)
    ensures FindSegment(names + [x], resolution) == FindSegment(names, resolution)
    decreases |names|
  {
    if names != [] {
      FindSegmentAppend(names[1..], x, resolution);
      assert (names + [x])[1..] == names[1..] + [x];
    }
  }

  /** The master playlist's name is neither a rendition playlist nor a segment. */
  lemma MasterKeyNameIgnored(videoId: string, resolutions: seq<string>, resolution: string)
    ensures !IsRenditionPlaylist(MasterKeyName(videoId, resolutions))
    ensures !IsSegmentFor(MasterKeyName(videoId, resolutions), resolution)
  {
    var tail := "master_" + Join(resolutions, "_") + ".m3u8";
    assert MasterKeyName(videoId, resolutions) == (videoId + "/") + tail;
    assert StartsWith(tail, "master");
    ContainsAfterPrefix(videoId + "/", tail, "master");
    var key := MasterKeyName(videoId, resolutions);
    assert key[|key| - 1] == '8';
  }

  /** A name that is no resolution's segment changes no entry. */
  lemma EntriesAppend(names: seq<string>, x: string, resolutions: seq<string>)
    requires forall i :: 0 <= i < |resolutions| ==> !IsSegmentFor(x, resolutions[i])
    ensures Entries(names + [x], resolutions) == Entries(names, resolutions)
  {
    forall i | 0 <= i < |resolutions| ensures StreamEntry(names + [x], resolutions[i]) == StreamEntry(names, resolutions[i]) {
      FindSegmentAppend(names, x, resolutions[i]);
    }
  }

  /** Listing the store again after the upload, which appends the master playlist, stitches
      the same playlist under the same key: a repeated run uploads identical bytes. */
  lemma RerunStitchesSame(videoId: string, names: seq<string>)
    requires Sortable(names)
    ensures var again := names + [MasterKeyName(videoId, SortedResolutions(names))];
      Sortable(again) && Stitch(videoId, again) == Stitch(videoId, names)
  {
    var resolutions := SortedResolutions(names);
    var key := MasterKeyName(videoId, resolutions);
    var again := names + [key];
    MasterKeyNameIgnored(videoId, resolutions, "");
    RenditionPlaylistsAppend(names, key);
    assert RenditionPlaylists(again) == RenditionPlaylists(names);
    assert SortedResolutions(again) == resolutions;
    forall i | 0 <= i < |resolutions| ensures !IsSegmentFor(key, resolutions[i]) {
      MasterKeyNameIgnored(videoId, resolutions, resolutions[i]);
    }
    EntriesAppend(names, key, resolutions);
    assert PlaylistContent(again, resolutions) == PlaylistContent(names, resolutions);
  }

  /** One more entry: the content grows by it, or the whole content fails with it. */
  lemma AssembleStep(entries: seq<Result<string, PlaylistError>>, i: nat, content: string)
    requires i < |entries| && Assemble(entries[..i]) == Success(content)
    ensures entries[i].Success? ==> Assemble(entries[..i + 1]) == Success(content + entries[i].value)
    ensures entries[i].Failure? ==> Assemble(entries) == Failure(entries[i].error)
  {
    assert entries[..i + 1][..i] == entries[..i];
    if entries[i].Failure? {
      AssembleSucceeds(entries[..i]);
      AssembleFirstError(entries, i);
    }
  }

  lemma EntriesPrefix(names: seq<string>, resolutions: seq<string>, i: nat)
    requires i <= |resolutions|
    ensures Entries(names, resolutions)[..i] == Entries(names, resolutions[..i])
  {
  }

  /** The loop body for one resolution: find its segment, read the dimensions and bitrate
      off the segment's name and produce the two lines, or fail. */
  method ResolutionLines(names: seq<string>, resolution: string) returns (r: Result<string, PlaylistError>)
    ensures r == StreamEntry(names, resolution)
  {
    var found := FindSegment(names, resolution);
    if found.None? {
      return Failure(SegmentNotFound(resolution));
    }
    var videoName := VideoName(names[found.value]);
    if videoName == [] {
      return Failure(InvalidVideoName(videoName));
    }
    var fields := Split(videoName, 'x');
    if |fields| < 3 || fields[0] == [] || fields[1] == [] || fields[2] == [] {
      return Failure(InvalidVideoName(videoName));
    }
    var streamInf := StreamInf(Bandwidth(fields[2]), fields[0], fields[1]);
    var uriLine := UriLine(resolution);
    return Success(streamInf + uriLine);
  }

  /** The loop that appends each resolution's two lines to `#EXTM3U\n`, stopping at the
      first resolution without a usable segment. */
  method BuildMasterPlaylist(names: seq<string>, resolutions: seq<string>) returns (r: Result<string, PlaylistError>)
    ensures r == PlaylistContent(names, resolutions)
  {
    var content := Header;
    ghost var entries := Entries(names, resolutions);
    for i := 0 to |resolutions|
      invariant Assemble(entries[..i]) == Success(content)
    {
      EntriesPrefix(names, resolutions, i);
      AssembleStep(entries, i, content);
      var lines := ResolutionLines(names, resolutions[i]);
      if lines.Failure? {
        return Failure(lines.error);
      }
      content := content + lines.value;
    }
    assert entries[..|resolutions|] == entries;
    return Success(content);
  }

  // ---------------------------------------------------------------------------------
  // The action

  /** How a run ends: a return, a thrown error at one of the steps, or the upload done. */
  datatype Outcome =
    | Skipped
    | NoArtifacts
    | Invalid(error: PlaylistError)
    | WriteRejected
    | UploadRejected
    | UnlinkRejected
    | Created(location: string)

  class CreateMasterPlaylistAction {
    const store: BlobStore
    const fs: FileSystem
    const encodingArtifactsBucket: string

    constructor (store: BlobStore, fs: FileSystem, encodingArtifactsBucket: string)
      ensures this.store == store && this.fs == fs
      ensures this.encodingArtifactsBucket == encodingArtifactsBucket
    {
      this.store := store;
      this.fs := fs;
      this.encodingArtifactsBucket := encodingArtifactsBucket;
    }

    /** Stitches the master playlist of `videoId` from the artifacts listed under it,
        writes it to a temporary file, uploads that file and removes it. Nothing is
        written or uploaded unless every resolution has its entry; a failed upload leaves
        the temporary file behind. */
    method Execute(videoId: string, encodingId: EncodingId) returns (outcome: Outcome)
      requires store.Valid()
      requires IsTranscodingEncodingId(encodingId) ==> Sortable(ListNames(store.order, encodingArtifactsBucket, videoId))
      modifies store, fs
      ensures store.Valid()
      ensures !IsTranscodingEncodingId(encodingId) ==>
        outcome == Skipped && store.blobs == old(store.blobs) && fs.files == old(fs.files)
      ensures IsTranscodingEncodingId(encodingId) && old(ListNames(store.order, encodingArtifactsBucket, videoId)) == [] ==>
        outcome == NoArtifacts && store.blobs == old(store.blobs) && fs.files == old(fs.files)
      ensures IsTranscodingEncodingId(encodingId) && old(ListNames(store.order, encodingArtifactsBucket, videoId)) != [] ==>
        var stitched := Stitch(videoId, old(ListNames(store.order, encodingArtifactsBucket, videoId)));
        && (stitched.Failure? ==>
              outcome == Invalid(stitched.error) && store.blobs == old(store.blobs) && fs.files == old(fs.files))
        && (stitched.Success? ==>
              var playlist := stitched.value;
              var key := BlobKey(encodingArtifactsBucket, playlist.keyName);
              var written := old(fs.files)[playlist.tmpPath := playlist.content];
              && (playlist.tmpPath in old(fs.failingWrites) ==>
                    outcome == WriteRejected && store.blobs == old(store.blobs) && fs.files == old(fs.files))
              && (playlist.tmpPath !in old(fs.failingWrites) && key in old(store.failingUploads) ==>
                    outcome == UploadRejected && store.blobs == old(store.blobs) && fs.files == written)
              && (playlist.tmpPath !in old(fs.failingWrites) && key !in old(store.failingUploads) ==>
                    && store.blobs == old(store.blobs)[key := Blob(PlaylistContentType, playlist.tmpPath)]
                    && (playlist.tmpPath in old(fs.failingRemovals) ==> outcome == UnlinkRejected && fs.files == written)
                    && (playlist.tmpPath !in old(fs.failingRemovals) ==>
                          outcome == Created(store.locate(key)) && fs.files == written - {playlist.tmpPath})))
    {
      if !IsTranscodingEncodingId(encodingId) {
        return Skipped;
      }
      var names := store.GetBlobs(encodingArtifactsBucket, videoId);
      if names == [] {
        return NoArtifacts;
      }
      var resolutions := SortedResolutions(names);
      var tmpPath := TmpPath(resolutions);
      var content := BuildMasterPlaylist(names, resolutions);
      if content.Failure? {
        return Invalid(content.error);
      }
      var written := fs.WriteFile(tmpPath, content.value);
      if written.Failure? {
        return WriteRejected;
      }
      var key := BlobKey(encodingArtifactsBucket, MasterKeyName(videoId, resolutions));
      var uploaded := store.UploadBlob(key, Blob(PlaylistContentType, tmpPath));
      if uploaded.Failure? {
        return UploadRejected;
      }
      var removed := fs.Unlink(tmpPath);
      if removed.Failure? {
        return UnlinkRejected;
      }
      return Created(uploaded.value);
    }
  }
}
