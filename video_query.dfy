/** What both change detectors (pages/content/lib/YouTubeChangeDetector.ts
    and pages/content/lib/YoutubeChangeDetector2.ts) compute the same way:
    which listing a URL shows, the video id in a link, the title of a
    listing, and the videos a query over the renderers returns. */
module VideoQuery {
  import opened Seqs
  import opened Strings
  import opened Dom
  import StorageTypes

  type VideoKind = StorageTypes.VideoKind

  /** A detected listing: its id, title, the renderer it came from and
      where on the site it was found. */
  datatype VideoData = VideoData(videoId: string, title: string, referenceDom: nat, kind: VideoKind)

  /** `queryVideosBasedOnUrl`'s dispatch: a URL mentioning "watch" shows
      the sidebar, one mentioning "results" (and not "watch") shows
      search results, any other shows the home page. */
  function Route(url: string): (k: VideoKind)
    ensures k == StorageTypes.Sidebar <==> exists i :: OccursAt(url, "watch", i)
    ensures k == StorageTypes.Search <==> (!exists i :: OccursAt(url, "watch", i)) && (exists i :: OccursAt(url, "results", i))
  {
    IncludesIff(url, "watch");
    IncludesIff(url, "results");
    if Includes(url, "watch") then StorageTypes.Sidebar
    else if Includes(url, "results") then StorageTypes.Search
    else StorageTypes.Homepage
  }

  /** The container tag each listing kind is queried by. */
  function ContainerTag(k: VideoKind): Tag
  {
    match k
    case Sidebar => CompactVideoRenderer
    case Homepage => RichItemRenderer
    case Search => VideoRenderer
  }

  /** The literal part of the id pattern `/\/watch\?v=([a-zA-Z0-9_-]{11})/`. */
  const WatchPrefix: string := "/watch?v="

  const IdLength: nat := 11

  /** The character class `[a-zA-Z0-9_-]`. */
  predicate IsIdChar(c: char)
  {
    ('a' <= c <= 'z') || ('A' <= c <= 'Z') || ('0' <= c <= '9') || c == '_' || c == '-'
  }

  /** The id pattern matches `s` at position `i`. */
  predicate MatchesAt(s: string, i: int)
  {
    0 <= i && i + |WatchPrefix| + IdLength <= |s|
    && s[i..i + |WatchPrefix|] == WatchPrefix
    && forall k :: i + |WatchPrefix| <= k < i + |WatchPrefix| + IdLength ==> IsIdChar(s[k])
  }

  /** The test a search runs at each position: `MatchesAt`, with the
      literal part compared character by character. */
  predicate ScanMatches(s: string, i: nat)
  {
    i + 20 <= |s|
    && s[i] == '/' && s[i + 1] == 'w' && s[i + 2] == 'a' && s[i + 3] == 't' && s[i + 4] == 'c'
    && s[i + 5] == 'h' && s[i + 6] == '?' && s[i + 7] == 'v' && s[i + 8] == '='
    && forall k :: i + 9 <= k < i + 20 ==> IsIdChar(s[k])
  }

  lemma ScanMatchesIff(s: string, i: nat)
    ensures ScanMatches(s, i) <==> MatchesAt(s, i)
  {
    if i + 20 <= |s| {
      if ScanMatches(s, i) {
        assert s[i..i + |WatchPrefix|] == WatchPrefix;
      }
      if MatchesAt(s, i) {
        assert forall k :: 0 <= k < 9 ==> s[i + k] == WatchPrefix[k];
      }
    }
  }

  /** The leftmost match position at or after `from`, as a regular
      expression search reports it (`FirstMatchFromSpec`). */
  function FirstMatchFrom(s: string, from: nat): (r: Option<nat>)
    ensures r.Some? ==> from <= r.value && r.value + |WatchPrefix| + IdLength <= |s|
    decreases |s| - from
  {
    if from + |WatchPrefix| + IdLength > |s| then None
    else if ScanMatches(s, from) then Some(from)
    else FirstMatchFrom(s, from + 1)
  }

  /** `FirstMatchFrom` finds the leftmost match at or after `from`, and
      finds none only when there is none. */
  lemma {:induction false} FirstMatchFromSpec(s: string, from: nat)
    ensures var r := FirstMatchFrom(s, from);
      && (r.Some? ==> from <= r.value && MatchesAt(s, r.value))
      && (r.Some? ==> forall j :: from <= j < r.value ==> !MatchesAt(s, j))
      && (r.None? ==> forall j :: from <= j ==> !MatchesAt(s, j))
    decreases |s| - from
  {
    ScanMatchesIff(s, from);
    if from + |WatchPrefix| + IdLength <= |s| && !MatchesAt(s, from) {
      FirstMatchFromSpec(s, from + 1);
    }
  }

  /** `href.match(videoIdRegex)?.[1]`: the eleven id characters after the
      leftmost match of the pattern. `ExtractVideoIdSpec` states what it
      returns. */
  function ExtractVideoId(href: string): Option<string>
  {
    match FirstMatchFrom(href, 0)
    case None => None
    case Some(i) => Some(href[i + |WatchPrefix|..i + |WatchPrefix| + IdLength])
  }

  /** There is an id exactly when the pattern matches somewhere; it is
      eleven id characters, taken from the leftmost match. */
  lemma ExtractVideoIdSpec(href: string)
    ensures ExtractVideoId(href).Some? <==> exists i :: MatchesAt(href, i)
    ensures ExtractVideoId(href).Some? ==>
      var id := ExtractVideoId(href).value;
      |id| == IdLength && forall k :: 0 <= k < |id| ==> IsIdChar(id[k])
    ensures ExtractVideoId(href).Some? ==>
      exists i :: MatchesAt(href, i) && (forall j :: 0 <= j < i ==> !MatchesAt(href, j))
                  && href[i + |WatchPrefix|..i + |WatchPrefix| + IdLength] == ExtractVideoId(href).value
  {
    FirstMatchFromSpec(href, 0);
    var first := FirstMatchFrom(href, 0);
    if first.Some? {
      var i := first.value;
      var id := href[i + |WatchPrefix|..i + |WatchPrefix| + IdLength];
      assert forall k :: 0 <= k < |id| ==> id[k] == href[i + |WatchPrefix| + k];
    }
  }

  /** A link to a video: the id is the eleven characters after the
      marker, even when more id characters follow. */
  lemma ExtractFromWatchLink(prefix: string, id: string, suffix: string)
    requires |id| == IdLength && forall k :: 0 <= k < |id| ==> IsIdChar(id[k])
    requires forall j :: 0 <= j < |prefix| ==> !MatchesAt(prefix + WatchPrefix + id + suffix, j)
    ensures ExtractVideoId(prefix + WatchPrefix + id + suffix) == Some(id)
  {
    var s := prefix + WatchPrefix + id + suffix;
    var i := |prefix|;
    assert s[i..i + |WatchPrefix|] == WatchPrefix;
    assert forall k :: i + |WatchPrefix| <= k < i + |WatchPrefix| + IdLength ==> s[k] == id[k - i - |WatchPrefix|];
    assert MatchesAt(s, i);
    FirstMatchFromSpec(s, 0);
    var first := FirstMatchFrom(s, 0);
    assert first.Some?;
    assert first.value == i;
    assert s[i + |WatchPrefix|..i + |WatchPrefix| + IdLength] == id;
    assert ExtractVideoId(s) == Some(id);
  }

  /** An anchor with no href (the empty string) yields no id. */
  lemma NoIdInEmptyHref()
    ensures ExtractVideoId("") == None
  {
  }

  /** `extractTitle` (`ExtractTitleSpec`). */
  function ExtractTitle(anchor: Option<Anchor>): string
  {
    match anchor
    case None => ""
    case Some(a) =>
      var fromAttribute := if a.titleAttribute.Some? then Trim(a.titleAttribute.value) else "";
      if fromAttribute != "" then fromAttribute
      else if a.spanText.Some? then Trim(a.spanText.value)
      else ""
  }

  /** No anchor gives "", otherwise the trimmed title attribute when that
      is not empty, otherwise the trimmed text of the title span, or ""
      when there is none; either way no whitespace is left at the ends. */
  lemma ExtractTitleSpec(anchor: Option<Anchor>)
    ensures IsTrimmed(ExtractTitle(anchor))
    ensures anchor.None? ==> ExtractTitle(anchor) == ""
    ensures anchor.Some? && anchor.value.titleAttribute.Some? && Trim(anchor.value.titleAttribute.value) != "" ==>
      ExtractTitle(anchor) == Trim(anchor.value.titleAttribute.value)
    ensures anchor.Some? && (anchor.value.titleAttribute.None? || Trim(anchor.value.titleAttribute.value) == "") ==>
      ExtractTitle(anchor) == (if anchor.value.spanText.Some? then Trim(anchor.value.spanText.value) else "")
  {
    if anchor.Some? {
      if anchor.value.titleAttribute.Some? {
        TrimSpec(anchor.value.titleAttribute.value);
      }
      if anchor.value.spanText.Some? {
        TrimSpec(anchor.value.spanText.value);
      }
    }
  }

  /** The listing a renderer at position `j` with this tag and anchor
      yields when queried for `kind`: one of the kind's container tag
      whose anchor's href (`anchor?.href ?? ''`) carries a video id. */
  function Listing(tag: Tag, anchor: Option<Anchor>, j: nat, kind: VideoKind): (r: Option<VideoData>)
    ensures r.Some? ==> r.value.referenceDom == j && r.value.kind == kind
  {
    if tag != ContainerTag(kind) then None
    else
      var href := if anchor.Some? then anchor.value.href else "";
      match ExtractVideoId(href)
      case None => None
      case Some(id) => Some(VideoData(id, ExtractTitle(anchor), j, kind))
  }

  /** The listing of the renderer at position `j`, if it yields one. */
  function MatchedVideo(renderers: seq<Renderer>, j: nat, kind: VideoKind): Option<VideoData>
    requires j < |renderers|
  {
    Listing(renderers[j].tag, renderers[j].anchor, j, kind)
  }

  /** What each renderer yields, position by position. */
  function Candidates(renderers: seq<Renderer>, kind: VideoKind): (c: seq<Option<VideoData>>)
    ensures |c| == |renderers|
    ensures forall j :: 0 <= j < |c| ==> c[j] == MatchedVideo(renderers, j, kind)
  {
    seq(|renderers|, j requires 0 <= j < |renderers| => MatchedVideo(renderers, j, kind))
  }

  /** A candidate list in which a listing sits at the position of the
      element it refers to. */
  predicate WellPlaced(c: seq<Option<VideoData>>)
  {
    forall j :: 0 <= j < |c| && c[j].Some? ==> c[j].value.referenceDom == j
  }

  /** The elements a list of videos refers to. */
  function RefsOf(videos: seq<VideoData>): set<nat>
  {
    set v | v in videos :: v.referenceDom
  }

  /** The listings present in `c` from position `from` on, in order:
      the `map(...).filter(item => item !== null)` of `queryVideos`.
      `CollectSpec` states what it returns. */
  function Collect(c: seq<Option<VideoData>>, from: nat): seq<VideoData>
    requires from <= |c|
    decreases |c| - from
  {
    if from == |c| then []
    else if c[from].None? then Collect(c, from + 1)
    else [c[from].value] + Collect(c, from + 1)
  }

  /** Each video in `r` is the listing `c` holds at the position it
      refers to, at or after `from`. */
  predicate DrawnFrom(c: seq<Option<VideoData>>, r: seq<VideoData>, from: nat)
  {
    forall k :: 0 <= k < |r| ==> from <= r[k].referenceDom < |c| && c[r[k].referenceDom] == Some(r[k])
  }

  /** The videos refer to strictly increasing positions: document order,
      each element at most once. */
  predicate InDocumentOrder(r: seq<VideoData>)
  {
    forall a, b :: 0 <= a < b < |r| ==> r[a].referenceDom < r[b].referenceDom
  }

  /** Every listing `Collect` returns is the one present at the
      position it refers to, at or after `from`. */
  lemma {:induction false} CollectSound(c: seq<Option<VideoData>>, from: nat)
    requires from <= |c| && WellPlaced(c)
    ensures DrawnFrom(c, Collect(c, from), from)
    decreases |c| - from
  {
    if from < |c| {
      CollectSound(c, from + 1);
      var rest := Collect(c, from + 1);
      if c[from].Some? {
        var r := [c[from].value] + rest;
        assert forall k :: 1 <= k < |r| ==> r[k] == rest[k - 1];
      }
    }
  }

  /** `Collect` returns listings in document order. */
  lemma {:induction false} CollectInOrder(c: seq<Option<VideoData>>, from: nat)
    requires from <= |c| && WellPlaced(c)
    ensures InDocumentOrder(Collect(c, from))
    decreases |c| - from
  {
    if from < |c| {
      CollectInOrder(c, from + 1);
      CollectSound(c, from + 1);
      var rest := Collect(c, from + 1);
      if c[from].Some? {
        var r := [c[from].value] + rest;
        assert forall k :: 1 <= k < |r| ==> r[k] == rest[k - 1];
      }
    }
  }

  /** Every listing present at or after `from` is returned. */
  lemma {:induction false} CollectComplete(c: seq<Option<VideoData>>, from: nat)
    requires from <= |c| && WellPlaced(c)
    ensures forall j :: from <= j < |c| && c[j].Some? ==> j in RefsOf(Collect(c, from))
    decreases |c| - from
  {
    if from < |c| {
      CollectComplete(c, from + 1);
      var rest := Collect(c, from + 1);
      if c[from].Some? {
        assert RefsOf([c[from].value] + rest) == {from} + RefsOf(rest);
      }
    }
  }

  /** `queryVideos(container, anchor, kind)`: the renderers of the kind's
      container tag whose link carries an id, in document order. */
  function QueryVideos(renderers: seq<Renderer>, kind: VideoKind): seq<VideoData>
  {
    Collect(Candidates(renderers, kind), 0)
  }

  /** The query returns, in document order and once each, exactly the
      renderers that yield a listing, each with that listing's id, title
      and kind. */
  lemma QueryVideosSpec(renderers: seq<Renderer>, kind: VideoKind)
    ensures DrawnFrom(Candidates(renderers, kind), QueryVideos(renderers, kind), 0)
    ensures InDocumentOrder(QueryVideos(renderers, kind))
    ensures forall j :: 0 <= j < |renderers| && MatchedVideo(renderers, j, kind).Some? ==>
      j in RefsOf(QueryVideos(renderers, kind))
  {
    var c := Candidates(renderers, kind);
    assert WellPlaced(c);
    CollectSound(c, 0);
    CollectInOrder(c, 0);
    CollectComplete(c, 0);
  }

  /** `queryVideosBasedOnUrl` on the live location. */
  function VideosForUrl(renderers: seq<Renderer>, href: string): seq<VideoData>
  {
    QueryVideos(renderers, Route(href))
  }

  /** A query reads only tags and anchors, so changing class lists does
      not change its result. */
  lemma QueryIgnoresClasses(a: seq<Renderer>, b: seq<Renderer>, kind: VideoKind)
    requires SameStructure(a, b)
    ensures QueryVideos(a, kind) == QueryVideos(b, kind)
  {
    assert Candidates(a, kind) == Candidates(b, kind);
  }
}
