/**
 * The video-clip marquee of `src/components/VideoClipSection.tsx`: which
 * platform a clip URL belongs to, how the YouTube and Bilibili video ids
 * are pulled out of it, which local or remote thumbnail the card shows, and
 * the clip list each locale gets.
 *
 * `new URL(...)` is not modelled: a URL carries its text and, when the URL
 * parser accepts it, the host name, path and decoded query pairs the parser
 * would have produced.
 */
module VideoClips {
  import opened Options
  import opened Strings

  datatype UrlParts = UrlParts(hostname: string, pathname: string, query: seq<(string, string)>)

  /** A clip URL: its text, and its parse (`None` when `new URL` throws). */
  datatype Url = Url(text: string, parsed: Option<UrlParts>)

  datatype VideoPlatform = YouTubePlatform | BilibiliPlatform

  /** What a card is drawn from: `{ platform, id, url, thumbnail }`. */
  datatype VideoConfig = VideoConfig(platform: VideoPlatform, id: Option<string>, url: string, thumbnail: string)

  /** `searchParams.get(key)`: the value of the first pair named `key`. */
  function QueryGet(query: seq<(string, string)>, key: string): (v: Option<string>)
    ensures v.Some? ==> exists k :: 0 <= k < |query| && query[k] == (key, v.value)
                                   && (forall j :: 0 <= j < k ==> query[j].0 != key)
    ensures v.None? <==> forall k :: 0 <= k < |query| ==> query[k].0 != key
  {
    if |query| == 0 then None
    else if query[0].0 == key then Some(query[0].1)
    else QueryGet(query[1..], key)
  }

  /** `s.slice(1)`: everything after the first character, and `""` for `""`. */
  function DropFirst(s: string): (r: string)
    ensures |s| == 0 ==> r == ""
    ensures |s| > 0 ==> [s[0]] + r == s
  {
    if |s| == 0 then "" else s[1..]
  }

  /** `s.split(sep)[1]`: the text between the first and second `sep`; `None` when `sep` does not occur. */
  function SplitSecond(s: string, sep: string): Option<string> {
    match IndexOf(s, sep)
    case None => None
    case Some(i) =>
      var after := s[i + |sep|..];
      match IndexOf(after, sep)
      case None => Some(after)
      case Some(j) => Some(after[..j])
  }

  /**
   * `split` with a non-empty separator: the second piece exists exactly
   * when `sep` occurs, starts right after its first occurrence, holds no
   * `sep`, and runs up to the next `sep` or to the end.
   */
  lemma {:induction false} SplitSecondSpec(s: string, sep: string)
    requires |sep| > 0
    ensures SplitSecond(s, sep).None? <==> !Contains(s, sep)
    ensures SplitSecond(s, sep).Some? ==>
      var i := IndexOf(s, sep).value;
      var after := s[i + |sep|..];
      var piece := SplitSecond(s, sep).value;
      && FirstOccurrenceAt(s, sep, i)
      && piece <= after
      && !Contains(piece, sep)
      && (piece == after || OccursAt(after, sep, |piece|))
  {
    IndexOfFirst(s, sep);
    if IndexOf(s, sep).Some? {
      var after := s[IndexOf(s, sep).value + |sep|..];
      IndexOfFirst(after, sep);
      if IndexOf(after, sep).Some? {
        BeforeFirstLacks(after, sep, IndexOf(after, sep).value);
      }
    }
  }

  /** A character other than the `/[?/]/` delimiters. */
  predicate NotPathDelimiter(c: char) {
    c != '?' && c != '/'
  }

  const EmbedPrefix := "/embed/"

  /**
   * `pathname.split('/embed/')[1]?.split(/[?/]/)[0] || null`: a non-empty
   * id holding neither `?` nor `/`, and none without `/embed/`.
   */
  function EmbedId(pathname: string): (r: Option<string>)
    ensures r.Some? ==> r.value != "" && forall k :: 0 <= k < |r.value| ==> NotPathDelimiter(r.value[k])
    ensures !Contains(pathname, EmbedPrefix) ==> r.None?
  {
    match SplitSecond(pathname, EmbedPrefix)
    case None => None
    case Some(piece) =>
      var segment := TakeWhile(piece, NotPathDelimiter);
      if segment == "" then None else Some(segment)
  }

  /**
   * `getYouTubeId`: an id comes only from a parsed URL on a `youtu.be` or
   * `youtube.com` host, and is empty only for a bare `youtu.be` path.
   */
  function YouTubeId(u: Url): (r: Option<string>)
    ensures r.Some? ==> u.parsed.Some?
    ensures r.Some? ==> u.parsed.value.hostname == "youtu.be" || Contains(u.parsed.value.hostname, "youtube.com")
    ensures r.Some? && u.parsed.value.hostname != "youtu.be" ==> r.value != ""
  {
    match u.parsed
    case None => None
    case Some(p) =>
      if p.hostname == "youtu.be" then Some(DropFirst(p.pathname))
      else if Contains(p.hostname, "youtube.com") then
        if StartsWith(p.pathname, EmbedPrefix) then EmbedId(p.pathname)
        else
          var v := QueryGet(p.query, "v");
          if Truthy(v) then v else None
      else None
  }

  /** `\w`: an ASCII letter, digit or underscore. */
  predicate IsWordChar(c: char) {
    ('a' <= c <= 'z') || ('A' <= c <= 'Z') || ('0' <= c <= '9') || c == '_'
  }

  const VideoMarker := "/video/BV"

  /** `/\/video\/(BV[\w]+)/` can match in `path` starting at index `i`. */
  predicate VideoMatchAt(path: string, i: nat) {
    OccursAt(path, VideoMarker, i) && i + |VideoMarker| < |path| && IsWordChar(path[i + |VideoMarker|])
  }

  /** The leftmost index at or after `from` where the pattern matches. */
  function FirstVideoMatch(path: string, from: nat): (r: Option<nat>)
    requires from <= |path|
    decreases |path| - from
    ensures r.Some? ==> from <= r.value && VideoMatchAt(path, r.value)
    ensures forall j :: from <= j && (r.None? || j < r.value) ==> !VideoMatchAt(path, j)
  {
    if from + |VideoMarker| >= |path| then None
    else if VideoMatchAt(path, from) then Some(from)
    else FirstVideoMatch(path, from + 1)
  }

  /** The shape of a Bilibili video id: `BV` followed by one or more word characters. */
  predicate IsBvId(bv: string) {
    |bv| >= 3 && bv[..2] == "BV" && forall k :: 2 <= k < |bv| ==> IsWordChar(bv[k])
  }

  /** The capture group: `BV` and the maximal run of word characters after it. */
  function CapturedId(path: string, i: nat): (bv: string)
    requires VideoMatchAt(path, i)
    ensures IsBvId(bv)
    ensures OccursAt(path, "/video/" + bv, i)
    ensures i + 7 + |bv| == |path| || !IsWordChar(path[i + 7 + |bv|])
  {
    var run := TakeWhile(path[i + |VideoMarker|..], IsWordChar);
    CaptureShape(path, i, run);
    "BV" + run
  }

  /** The facts `CapturedId` promises, for the run of word characters after the marker. */
  lemma CaptureShape(path: string, i: nat, run: string)
    requires VideoMatchAt(path, i)
    requires run == TakeWhile(path[i + |VideoMarker|..], IsWordChar)
    ensures IsBvId("BV" + run)
    ensures OccursAt(path, "/video/" + ("BV" + run), i)
    ensures i + 9 + |run| == |path| || !IsWordChar(path[i + 9 + |run|])
  {
    var rest := path[i + 9..];
    assert IsWordChar(rest[0]);
    CaptureIsBvId(run);
    CaptureOccurs(path, i, run);
    if i + 9 + |run| < |path| {
      assert path[i + 9 + |run|] == rest[|run|];
    }
  }

  /** `BV` and a non-empty run of word characters form a BV id. */
  lemma CaptureIsBvId(run: string)
    requires |run| >= 1 && forall k :: 0 <= k < |run| ==> IsWordChar(run[k])
    ensures IsBvId("BV" + run)
  {
    var bv := "BV" + run;
    assert bv[..2] == "BV";
    assert forall k :: 2 <= k < |bv| ==> bv[k] == run[k - 2];
  }

  /** The marker at `i` followed by a prefix of what comes after it is `/video/` and the id. */
  lemma CaptureOccurs(path: string, i: nat, run: string)
    requires OccursAt(path, VideoMarker, i)
    requires run <= path[i + |VideoMarker|..]
    ensures OccursAt(path, "/video/" + ("BV" + run), i)
  {
    assert "/video/" + ("BV" + run) == VideoMarker + run;
    assert path[i..i + 9] == VideoMarker;
    assert path[i + 9..i + 9 + |run|] == run;
    assert path[i..i + 9 + |run|] == path[i..i + 9] + path[i + 9..i + 9 + |run|];
  }

  /** `getBilibiliId`: an id comes only from a parsed URL on a `bilibili.com` host, and is a BV id. */
  function BilibiliId(u: Url): (r: Option<string>)
    ensures r.Some? ==> u.parsed.Some? && Contains(u.parsed.value.hostname, "bilibili.com") && IsBvId(r.value)
  {
    match u.parsed
    case None => None
    case Some(p) =>
      if Contains(p.hostname, "bilibili.com") then
        match FirstVideoMatch(p.pathname, 0)
        case None => None
        case Some(i) => Some(CapturedId(p.pathname, i))
      else None
  }

  /** The folder of the local video thumbnails. */
  const ThumbFolder := "/images/videos/"

  /** The stem the mapped thumbnail names share before the clip's number. */
  const NumberedStem := "zh_cn_video_"

  /** A mapped thumbnail name: `zh_cn_video_<digit>.png`. */
  predicate NumberedName(n: string) {
    && |n| == |NumberedStem| + 5
    && n[..|NumberedStem|] == NumberedStem
    && IsDigit(n[|NumberedStem|])
    && n[|NumberedStem| + 1..] == ".png"
  }

  /** The file names of the mapped thumbnails inside the thumbnail folder. */
  const ThumbNames: map<string, string> := map[
    "BV1q5411g7HT" := "zh_cn_video_3.png",
    "BV1z54y1j7dg" := "zh_cn_video_4.png",
    "BV19V411J7tA" := "zh_cn_video_5.png",
    "BV13y4y1s7UR" := "zh_cn_video_6.png"
  ]

  /** `BILIBILI_THUMB_MAP`: local thumbnails for the shipped Bilibili clips, e.g. `/images/videos/zh_cn_video_3.png`. */
  const BilibiliThumbMap: map<string, string> := map bv | bv in ThumbNames :: ThumbFolder + ThumbNames[bv]

  /** The fallback folder for Bilibili thumbnails without a map entry. */
  const BiliFolder := ThumbFolder + "bili/"

  /**
   * The local thumbnail for a Bilibili clip: the mapped file, else
   * `/images/videos/bili/<BV>.jpg`. Either way it is a local file, and an
   * unmapped id can be read back from its fallback name.
   */
  function BilibiliThumbnail(bv: string): (t: string)
    ensures StartsWith(t, ThumbFolder)
    ensures bv !in BilibiliThumbMap ==>
      (StartsWith(t, BiliFolder) && |t| >= |BiliFolder| + 4 && t[|BiliFolder|..|t| - 4] == bv)
  {
    if bv in BilibiliThumbMap then
      MappedThumbnailLocal(bv);
      BilibiliThumbMap[bv]
    else
      var t := BiliFolder + bv + ".jpg";
      assert t[..|ThumbFolder|] == ThumbFolder;
      assert t[..|BiliFolder|] == BiliFolder;
      assert t[|BiliFolder|..|t| - 4] == bv;
      t
  }

  /**
   * A mapped thumbnail lies in the thumbnail folder, named
   * `zh_cn_video_<digit>.png`, and so never in the `bili/` fallback folder.
   */
  lemma MappedThumbnailLocal(bv: string)
    requires bv in BilibiliThumbMap
    ensures StartsWith(BilibiliThumbMap[bv], ThumbFolder)
    ensures NumberedName(BilibiliThumbMap[bv][|ThumbFolder|..])
    ensures !StartsWith(BilibiliThumbMap[bv], BiliFolder)
  {
    var t := BilibiliThumbMap[bv];
    var n := ThumbNames[bv];
    assert t[..|ThumbFolder|] == ThumbFolder;
    assert t[|ThumbFolder|..] == n;
    assert NumberedName(n);
    assert t[|ThumbFolder|] == n[0] == NumberedStem[0] == 'z';
    assert BiliFolder[|ThumbFolder|] == 'b';
  }

  const StillBase := "https://img.youtube.com/vi/"
  const StillFile := "/maxresdefault.jpg"

  /** The `maxresdefault` still of a YouTube video: the id sits between the base URL and the file name. */
  function YouTubeThumbnail(id: string): (t: string)
    ensures StartsWith(t, StillBase) && EndsWith(t, StillFile)
    ensures |t| == |StillBase| + |id| + |StillFile| && t[|StillBase|..|t| - |StillFile|] == id
  {
    var t := StillBase + id + StillFile;
    assert t[..|StillBase|] == StillBase;
    assert t[|t| - |StillFile|..] == StillFile;
    assert t[|StillBase|..|t| - |StillFile|] == id;
    t
  }

  /** `getVideoConfig`. */
  function GetVideoConfig(u: Url): (c: VideoConfig)
    ensures c.url == u.text
    ensures c.platform == BilibiliPlatform <==> Contains(u.text, "bilibili.com")
  {
    if Contains(u.text, "bilibili.com") then
      var bv := BilibiliId(u);
      VideoConfig(BilibiliPlatform, bv, u.text, if Truthy(bv) then BilibiliThumbnail(bv.value) else "")
    else
      var yt := YouTubeId(u);
      VideoConfig(YouTubePlatform, yt, u.text, if Truthy(yt) then YouTubeThumbnail(yt.value) else "")
  }

  /* ---------------- The shipped clip lists ---------------- */

  const BilibiliHost := "www.bilibili.com"

  function BilibiliClip(bv: string): Url {
    Url("https://" + BilibiliHost + "/video/" + bv, Some(UrlParts(BilibiliHost, "/video/" + bv, [])))
  }

  const YouTubeHost := "www.youtube.com"

  const WatchPage := "https://www.youtube.com/watch"

  const PlaylistId := "PLc4a5rxGRcc9tBu3vNbC1yTfV3ZIWs3-6"

  /** The query string of a playlist watch URL: `?v=<v>&list=<list>&index=<index>`. */
  function PlaylistQuery(v: string, list: string, index: string): string {
    "?v=" + v + "&list=" + list + "&index=" + index
  }

  function YouTubeClip(v: string, index: string): Url {
    Url(WatchPage + PlaylistQuery(v, PlaylistId, index),
        Some(UrlParts(YouTubeHost, "/watch", [("v", v), ("list", PlaylistId), ("index", index)])))
  }

  /** The BV ids of the `zh-cn` clips, in display order. */
  const BilibiliClipIds: seq<string> := ["BV1q5411g7HT", "BV1z54y1j7dg", "BV19V411J7tA", "BV13y4y1s7UR"]

  /** The `v` and `index` parameters of the playlist clips, in display order. */
  const PlaylistEntries: seq<(string, string)> :=
    [("4qwf-kDn4t8", "3"), ("vBYp-yZe57A", "6"), ("bR_HLhUsh4U", "4"), ("aNxRQIW2Jjs", "5")]

  /** `getVideoUrls`: Bilibili clips for `zh-cn`, the YouTube playlist for every other locale. */
  function VideoUrls(locale: string): (urls: seq<Url>)
    ensures |urls| == 4
    ensures locale == "zh-cn" ==> forall k :: 0 <= k < 4 ==> urls[k] == BilibiliClip(BilibiliClipIds[k])
    ensures locale != "zh-cn" ==>
      forall k :: 0 <= k < 4 ==> urls[k] == YouTubeClip(PlaylistEntries[k].0, PlaylistEntries[k].1)
  {
    if locale == "zh-cn" then
      seq(|BilibiliClipIds|, k requires 0 <= k < |BilibiliClipIds| => BilibiliClip(BilibiliClipIds[k]))
    else
      seq(|PlaylistEntries|, k requires 0 <= k < |PlaylistEntries| =>
        YouTubeClip(PlaylistEntries[k].0, PlaylistEntries[k].1))
  }

  /* ---------------- Lemmas ---------------- */

  /** The first path segment after `/embed/`, cut at the first `?` or `/`. */
  function EmbedSegment(pathname: string): string
    requires StartsWith(pathname, EmbedPrefix)
  {
    TakeWhile(pathname[|EmbedPrefix|..], NotPathDelimiter)
  }

  /**
   * For a path starting with `/embed/`, splitting on `/embed/` and then on
   * `?` or `/` gives the segment right after the prefix: a later `/embed/`
   * cannot shorten it, because it begins with a `/` that ends the segment
   * anyway. An empty segment gives no id.
   */
  lemma EmbedIdIsFirstSegment(pathname: string)
    requires StartsWith(pathname, EmbedPrefix)
    ensures EmbedId(pathname) == if EmbedSegment(pathname) == "" then None else Some(EmbedSegment(pathname))
  {
    assert IndexOf(pathname, EmbedPrefix) == Some(0);
    var after := pathname[|EmbedPrefix|..];
    IndexOfFirst(after, EmbedPrefix);
    match IndexOf(after, EmbedPrefix)
    case None =>
    case Some(j) =>
      assert after[j] == EmbedPrefix[0];
      TakeWhileOfPrefix(after, after[..j], NotPathDelimiter, j);
  }

  /**
   * `getYouTubeId`: a `youtu.be` host gives the path without its leading
   * `/`; a `youtube.com` host with an `/embed/` path gives the segment after
   * it, or nothing when that segment is empty, without falling back to the
   * `v` parameter; any other `youtube.com` path gives a non-empty `v`
   * parameter; everything else, an unparsable URL included, gives nothing.
   */
  lemma YouTubeIdCases(u: Url)
    ensures u.parsed.None? ==> YouTubeId(u).None?
    ensures u.parsed.Some? && u.parsed.value.hostname == "youtu.be" ==>
      YouTubeId(u) == Some(DropFirst(u.parsed.value.pathname))
    ensures (u.parsed.Some? && u.parsed.value.hostname != "youtu.be"
      && Contains(u.parsed.value.hostname, "youtube.com") && StartsWith(u.parsed.value.pathname, EmbedPrefix)) ==>
      YouTubeId(u) == (if EmbedSegment(u.parsed.value.pathname) == "" then None
                       else Some(EmbedSegment(u.parsed.value.pathname)))
    ensures (u.parsed.Some? && u.parsed.value.hostname != "youtu.be"
      && Contains(u.parsed.value.hostname, "youtube.com") && !StartsWith(u.parsed.value.pathname, EmbedPrefix)) ==>
      YouTubeId(u) == (if Truthy(QueryGet(u.parsed.value.query, "v")) then QueryGet(u.parsed.value.query, "v") else None)
    ensures (u.parsed.Some? && u.parsed.value.hostname != "youtu.be"
      && !Contains(u.parsed.value.hostname, "youtube.com")) ==> YouTubeId(u).None?
  {
    if u.parsed.Some? && StartsWith(u.parsed.value.pathname, EmbedPrefix) {
      EmbedIdIsFirstSegment(u.parsed.value.pathname);
    }
  }

  /**
   * `getBilibiliId` finds an id exactly when the URL parses, its host
   * contains `bilibili.com` and its path holds `/video/BV` followed by a
   * word character; the id is then `BV` plus the maximal run of word
   * characters at the leftmost such place.
   */
  lemma BilibiliIdSpec(u: Url)
    ensures BilibiliId(u).Some? <==>
      u.parsed.Some? && Contains(u.parsed.value.hostname, "bilibili.com")
      && exists i :: VideoMatchAt(u.parsed.value.pathname, i)
    ensures BilibiliId(u).Some? ==>
      IsBvId(BilibiliId(u).value) && exists i: nat :: LeftmostCaptureAt(u.parsed.value.pathname, BilibiliId(u).value, i)
  {
    if u.parsed.Some? && Contains(u.parsed.value.hostname, "bilibili.com") {
      var path := u.parsed.value.pathname;
      FirstVideoMatchFinds(path);
      match FirstVideoMatch(path, 0)
      case None =>
      case Some(i) =>
        assert LeftmostCaptureAt(path, CapturedId(path, i), i);
    }
  }

  /**
   * `/video/<bv>` occurs at `i`, `bv` is not followed by a word character,
   * and the pattern matches nowhere before `i`.
   */
  predicate LeftmostCaptureAt(path: string, bv: string, i: nat) {
    && OccursAt(path, "/video/" + bv, i)
    && (i + 7 + |bv| == |path| || (i + 7 + |bv| < |path| && !IsWordChar(path[i + 7 + |bv|])))
    && forall j :: 0 <= j < i ==> !VideoMatchAt(path, j)
  }

  /** The leftmost-match search from the start finds a match exactly when the path has one. */
  lemma FirstVideoMatchFinds(path: string)
    ensures FirstVideoMatch(path, 0).Some? <==> exists i :: VideoMatchAt(path, i)
  {
    if exists i :: VideoMatchAt(path, i) {
      var i :| VideoMatchAt(path, i);
      assert FirstVideoMatch(path, 0).Some? || !VideoMatchAt(path, i);
    }
  }

  /**
   * A card shows no thumbnail exactly when no usable id was found; a
   * Bilibili card with an id shows the mapped local file when the id is a
   * key of the map and `/images/videos/bili/<BV>.jpg` otherwise, and a
   * YouTube card with an id shows the `maxresdefault` still of that id.
   */
  lemma VideoConfigThumbnail(u: Url)
    ensures var c := GetVideoConfig(u);
      && (c.platform == BilibiliPlatform ==>
            && c.id == BilibiliId(u)
            && (c.thumbnail == "" <==> c.id.None?)
            && (c.id.Some? && c.id.value in BilibiliThumbMap ==> c.thumbnail == BilibiliThumbMap[c.id.value])
            && (c.id.Some? && c.id.value !in BilibiliThumbMap ==>
                  c.thumbnail == BiliFolder + c.id.value + ".jpg"))
      && (c.platform == YouTubePlatform ==>
            && c.id == YouTubeId(u)
            && (c.thumbnail == "" <==> !Truthy(c.id))
            && (Truthy(c.id) ==> c.thumbnail == StillBase + c.id.value + StillFile))
  {
    BilibiliIdSpec(u);
  }

  /** Distinct Bilibili ids never share a thumbnail, mapped or fallback. */
  lemma BilibiliThumbnailInjective(a: string, b: string)
    requires BilibiliThumbnail(a) == BilibiliThumbnail(b)
    ensures a == b
  {
    if a in BilibiliThumbMap && b in BilibiliThumbMap {
      MappedThumbnailsDistinct(a, b);
    } else if a in BilibiliThumbMap || b in BilibiliThumbMap {
      var (m, f) := if a in BilibiliThumbMap then (a, b) else (b, a);
      MappedThumbnailLocal(m);
      assert false;
    }
  }

  /** The four mapped thumbnails are four different files. */
  lemma MappedThumbnailsDistinct(a: string, b: string)
    requires a in BilibiliThumbMap && b in BilibiliThumbMap
    requires BilibiliThumbMap[a] == BilibiliThumbMap[b]
    ensures a == b
  {
    assert BilibiliThumbMap[a][|ThumbFolder|..] == ThumbNames[a];
    assert BilibiliThumbMap[b][|ThumbFolder|..] == ThumbNames[b];
    // The four names differ in their number, the character after the stem.
    assert ThumbNames[a][|NumberedStem|] == ThumbNames[b][|NumberedStem|];
  }

  /* ---------------- The shipped clip lists ---------------- */

  /** A Bilibili clip URL contains `bilibili.com`, in its text and in its host. */
  lemma {:induction false} BilibiliClipIsBilibili(bv: string)
    ensures Contains(BilibiliClip(bv).text, "bilibili.com")
    ensures Contains(BilibiliClip(bv).parsed.value.hostname, "bilibili.com")
  {
    var text := BilibiliClip(bv).text;
    assert text[12..24] == "bilibili.com";
    assert OccursAt(text, "bilibili.com", 12);
    ContainsOccurrence(text, "bilibili.com");
    assert BilibiliHost[4..16] == "bilibili.com";
    assert OccursAt(BilibiliHost, "bilibili.com", 4);
    ContainsOccurrence(BilibiliHost, "bilibili.com");
  }

  /** In the path `/video/<bv>` of a well-formed BV id the pattern matches at 0 and captures all of `bv`. */
  lemma BilibiliPathCapture(bv: string)
    requires IsBvId(bv)
    ensures FirstVideoMatch("/video/" + bv, 0) == Some(0)
    ensures CapturedId("/video/" + bv, 0) == bv
  {
    var path := "/video/" + bv;
    assert path[..9] == VideoMarker;
    assert VideoMatchAt(path, 0);
    var run := path[9..];
    assert forall k :: 0 <= k < |run| ==> IsWordChar(run[k]) by {
      forall k | 0 <= k < |run| ensures IsWordChar(run[k]) {
        assert run[k] == bv[k + 2];
      }
    }
    TakeWhileUnique(run, IsWordChar, run);
    assert "BV" + run == bv;
  }

  /** A Bilibili clip URL is classified as Bilibili and yields its own BV id and thumbnail. */
  lemma {:induction false} BilibiliClipConfig(bv: string)
    requires IsBvId(bv)
    ensures GetVideoConfig(BilibiliClip(bv)) ==
      VideoConfig(BilibiliPlatform, Some(bv), BilibiliClip(bv).text, BilibiliThumbnail(bv))
  {
    BilibiliClipIsBilibili(bv);
    BilibiliPathCapture(bv);
  }

  /** A URL without `?`, `=` and `&` separators as a run of pieces joined by them. */
  function PlaylistUrlPieces(page: string, v: string, list: string, index: string): string {
    page + ['?'] + ("v" + ['='] + (v + ['&'] + ("list" + ['='] + (list + ['&'] + ("index" + ['='] + index)))))
  }

  lemma PlaylistUrlIsPieces(page: string, v: string, list: string, index: string)
    ensures page + PlaylistQuery(v, list, index) == PlaylistUrlPieces(page, v, list, index)
  {
  }

  /** A pattern without the separators, longer than the parameter names, crosses no separator. */
  lemma PlaylistUrlPiecesOccurrence(page: string, v: string, list: string, index: string, pat: string)
    requires '?' !in pat && '=' !in pat && '&' !in pat && |pat| > |"index"|
    requires !Contains(page, pat) && !Contains(v, pat) && !Contains(list, pat) && !Contains(index, pat)
    ensures !Contains(PlaylistUrlPieces(page, v, list, index), pat)
  {
    var tail := "index" + ['='] + index;
    NotContainsAcross("index", '=', index, pat);
    NotContainsAcross(list, '&', tail, pat);
    NotContainsAcross("list", '=', list + ['&'] + tail, pat);
    var afterV := v + ['&'] + ("list" + ['='] + (list + ['&'] + tail));
    NotContainsAcross(v, '&', "list" + ['='] + (list + ['&'] + tail), pat);
    NotContainsAcross("v", '=', afterV, pat);
    NotContainsAcross(page, '?', "v" + ['='] + afterV, pat);
  }

  /**
   * A pattern without `?`, `=` and `&`, longer than the parameter names,
   * occurs in a playlist watch URL only if it occurs in the page or in one
   * of the parameter values. The page and the list are cleared by a
   * character of the pattern they lack.
   */
  lemma PlaylistUrlOccurrence(page: string, v: string, list: string, index: string, pat: string, c: char)
    requires '?' !in pat && '=' !in pat && '&' !in pat && |pat| > |"index"|
    requires c in pat && c !in page && c !in list
    requires !Contains(v, pat) && !Contains(index, pat)
    ensures !Contains(page + PlaylistQuery(v, list, index), pat)
  {
    NotContainsMissingChar(page, pat, c);
    NotContainsMissingChar(list, pat, c);
    PlaylistUrlPiecesOccurrence(page, v, list, index, pat);
    PlaylistUrlIsPieces(page, v, list, index);
  }

  /**
   * A playlist watch URL with a short `v` and `index` does not contain
   * `bilibili.com`: neither the watch page nor the playlist id has an `i`.
   */
  lemma YouTubeClipHasNoBilibili(v: string, index: string)
    requires |v| < 12 && |index| < 12
    ensures !Contains(YouTubeClip(v, index).text, "bilibili.com")
  {
    WatchPageAndPlaylistLackI();
    assert !Contains(v, "bilibili.com") && !Contains(index, "bilibili.com");
    PlaylistUrlOccurrence(WatchPage, v, PlaylistId, index, "bilibili.com", 'i');
  }

  lemma WatchPageAndPlaylistLackI()
    ensures 'i' !in WatchPage && 'i' !in PlaylistId && 'i' in "bilibili.com"
  {
  }

  /** The YouTube host contains `youtube.com`. */
  lemma YouTubeHostIsYouTube()
    ensures Contains(YouTubeHost, "youtube.com")
  {
    assert YouTubeHost[4..15] == "youtube.com";
    assert OccursAt(YouTubeHost, "youtube.com", 4);
    ContainsOccurrence(YouTubeHost, "youtube.com");
  }

  /**
   * A playlist watch URL with a short `v` and `index` is classified as
   * YouTube and yields its `v` parameter as id and that video's still as
   * thumbnail.
   */
  lemma YouTubeClipConfig(v: string, index: string)
    requires 0 < |v| < 12 && |index| < 12
    ensures GetVideoConfig(YouTubeClip(v, index)) ==
      VideoConfig(YouTubePlatform, Some(v), YouTubeClip(v, index).text, YouTubeThumbnail(v))
  {
    YouTubeClipHasNoBilibili(v, index);
    YouTubeHostIsYouTube();
  }

  /** The shipped BV ids are well formed and each has a local thumbnail. */
  lemma BilibiliClipIdsMapped()
    ensures forall k :: 0 <= k < |BilibiliClipIds| ==>
      IsBvId(BilibiliClipIds[k]) && BilibiliClipIds[k] in BilibiliThumbMap
  {
  }

  /**
   * `getVideoUrls` gives four clips in every locale: for `zh-cn` all are
   * Bilibili clips whose BV id is a key of the thumbnail map, so the
   * fallback path is never used; for every other locale all are YouTube
   * clips with an id and its still as thumbnail.
   */
  lemma {:induction false} VideoUrlsConfigs(locale: string)
    ensures |VideoUrls(locale)| == 4
    ensures forall k :: 0 <= k < 4 ==>
      var c := GetVideoConfig(VideoUrls(locale)[k]);
      && c.url == VideoUrls(locale)[k].text
      && c.thumbnail != ""
      && (locale == "zh-cn" ==>
            c.platform == BilibiliPlatform && c.id.Some? && c.id.value in BilibiliThumbMap
            && c.thumbnail == BilibiliThumbMap[c.id.value])
      && (locale != "zh-cn" ==>
            c.platform == YouTubePlatform && Truthy(c.id)
            && c.thumbnail == YouTubeThumbnail(c.id.value))
  {
    forall k | 0 <= k < 4
      ensures var c := GetVideoConfig(VideoUrls(locale)[k]);
        && c.url == VideoUrls(locale)[k].text
        && c.thumbnail != ""
        && (locale == "zh-cn" ==>
              c.platform == BilibiliPlatform && c.id.Some? && c.id.value in BilibiliThumbMap
              && c.thumbnail == BilibiliThumbMap[c.id.value])
        && (locale != "zh-cn" ==>
              c.platform == YouTubePlatform && Truthy(c.id)
              && c.thumbnail == YouTubeThumbnail(c.id.value))
    {
      if locale == "zh-cn" {
        BilibiliClipIdsMapped();
        BilibiliClipConfig(BilibiliClipIds[k]);
      } else {
        var (v, index) := PlaylistEntries[k];
        assert 0 < |v| < 12 && |index| < 12;
        YouTubeClipConfig(v, index);
      }
    }
  }
}
