/** The second change detector (pages/content/lib/YoutubeChangeDetector2.ts):
    on every DOM mutation it clears every `detected-video` mark, queries
    the listings for the live location, marking each element that yields
    one while querying, and hands the whole list to its callback. The
    callback is an output: each call becomes a `Notification`. */
module YouTubeChangeDetector2 {
  import opened Seqs
  import opened Strings
  import opened Dom
  import opened VideoQuery

  /** One `callback(videos, url)` call. */
  datatype Notification = Notification(videos: seq<VideoData>, url: string)

  /** The elements after one `onMutation`: marks cleared, then the
      element of every listing the live location shows marked. */
  function AfterMutation(rs: seq<Renderer>, href: string): seq<Renderer>
  {
    AddClassAt(RemoveClassEverywhere(rs, DetectedClass), RefsOf(VideosForUrl(rs, href)), DetectedClass)
  }

  /** After `onMutation` exactly the elements that yield a listing for
      the live location carry the mark, and no other class changed. */
  lemma MarkedExactlyMatched(rs: seq<Renderer>, href: string)
    ensures |AfterMutation(rs, href)| == |rs|
    ensures forall j :: 0 <= j < |rs| ==>
      (DetectedClass in AfterMutation(rs, href)[j].classes <==> MatchedVideo(rs, j, Route(href)).Some?)
    ensures forall j :: 0 <= j < |rs| ==>
      AfterMutation(rs, href)[j].classes - {DetectedClass} == rs[j].classes - {DetectedClass}
    ensures SameStructure(rs, AfterMutation(rs, href))
  {
    var kind := Route(href);
    var videos := VideosForUrl(rs, href);
    var after := AfterMutation(rs, href);
    QueryVideosSpec(rs, kind);
    forall j | 0 <= j < |rs|
      ensures DetectedClass in after[j].classes <==> MatchedVideo(rs, j, kind).Some?
    {
      if j in RefsOf(videos) {
        var k :| 0 <= k < |videos| && videos[k].referenceDom == j;
        assert Candidates(rs, kind)[j] == Some(videos[k]);
      }
    }
  }

  /** A second mutation with nothing else changed finds the same
      listings and leaves the elements as the first one left them. */
  lemma MutationIdempotent(rs: seq<Renderer>, href: string)
    ensures VideosForUrl(AfterMutation(rs, href), href) == VideosForUrl(rs, href)
    ensures AfterMutation(AfterMutation(rs, href), href) == AfterMutation(rs, href)
  {
    var once := AfterMutation(rs, href);
    MarkedExactlyMatched(rs, href);
    QueryIgnoresClasses(rs, once, Route(href));
    var twice := AfterMutation(once, href);
    MarkedExactlyMatched(once, href);
    forall j | 0 <= j < |rs| ensures twice[j] == once[j] {
      assert MatchedVideo(once, j, Route(href)) == MatchedVideo(rs, j, Route(href));
      assert twice[j].classes == once[j].classes;
    }
  }

  class Detector2 {
    /** The window and document the detector reads. */
    const page: Page
    /** Whether the constructor found itself on the site and started. */
    const active: bool
    /** The location at construction, handed to every callback. */
    const currentUrl: string

    /** Starts only on a host whose name includes "youtube.com"; the URL
        it reports is the location at this moment. On any other host the
        fields stay unset (here: `currentUrl` is ""). */
    constructor (page: Page)
      ensures this.page == page
      ensures active <==> Includes(page.hostname, "youtube.com")
      ensures currentUrl == if active then page.href else ""
    {
      this.page := page;
      var onSite := Includes(page.hostname, "youtube.com");
      this.active := onSite;
      this.currentUrl := if onSite then page.href else "";
    }

    /** `resetDetectedVideos`: removes the mark from every element that
        has it. */
    method ResetDetectedVideos()
      modifies page
      ensures page.renderers == RemoveClassEverywhere(old(page.renderers), DetectedClass)
      ensures page.href == old(page.href) && page.hostname == old(page.hostname)
    {
      var i := 0;
      while i < |page.renderers|
        invariant i <= |page.renderers| == |old(page.renderers)|
        invariant forall j :: 0 <= j < i ==> page.renderers[j] == RemoveClass(old(page.renderers)[j], DetectedClass)
        invariant forall j :: i <= j < |page.renderers| ==> page.renderers[j] == old(page.renderers)[j]
        invariant page.href == old(page.href) && page.hostname == old(page.hostname)
      {
        if DetectedClass in page.renderers[i].classes {
          page.renderers := page.renderers[i := RemoveClass(page.renderers[i], DetectedClass)];
        } else {
          assert RemoveClass(page.renderers[i], DetectedClass) == page.renderers[i];
        }
        i := i + 1;
      }
    }

    /** The `map`/`filter` of `queryVideos`, for the listing function
        `pick` the selectors give: keeps, in document order, what `pick`
        yields for each element, marking each element that yields one. */
    method MapAndFilter(pick: (Tag, Option<Anchor>, nat) -> Option<VideoData>) returns (videos: seq<VideoData>)
      requires forall t, a, j :: pick(t, a, j).Some? ==> pick(t, a, j).value.referenceDom == j
      modifies page
      ensures videos == Collect(Picked(old(page.renderers), pick), 0)
      ensures page.renderers == AddClassAt(old(page.renderers), RefsOf(videos), DetectedClass)
      ensures page.href == old(page.href) && page.hostname == old(page.hostname)
    {
      ghost var rs0 := page.renderers;
      ghost var c := Picked(rs0, pick);
      videos := [];
      var i := 0;
      while i < |page.renderers|
        invariant i <= |page.renderers| == |rs0|
        invariant videos == Kept(c, i)
        invariant page.renderers == Marked(rs0, c, i)
        invariant page.href == old(page.href) && page.hostname == old(page.hostname)
      {
        MarkedSpec(rs0, c, i);
        var renderer := page.renderers[i];
        var found := pick(renderer.tag, renderer.anchor, i);
        assert found == c[i];
        if found.Some? {
          page.renderers := page.renderers[i := AddClass(renderer, DetectedClass)];
          videos := videos + [found.value];
        }
        i := i + 1;
      }
      KeptSpec(c, i);
      MarkedSpec(rs0, c, i);
    }

    /** `queryVideos(container, anchor, kind)` of this detector: the same
        listings as the first detector's query, in document order, and
        the element of each one marked as it is found. */
    method QueryVideos(kind: VideoKind) returns (videos: seq<VideoData>)
      modifies page
      ensures videos == VideoQuery.QueryVideos(old(page.renderers), kind)
      ensures page.renderers == AddClassAt(old(page.renderers), RefsOf(videos), DetectedClass)
      ensures page.href == old(page.href) && page.hostname == old(page.hostname)
    {
      var pick := (t: Tag, a: Option<Anchor>, j: nat) => Listing(t, a, j, kind);
      assert Picked(page.renderers, pick) == Candidates(page.renderers, kind);
      videos := MapAndFilter(pick);
    }

    /** `queryVideosBasedOnUrl`: the query for the live location. */
    method QueryVideosBasedOnUrl() returns (videos: seq<VideoData>)
      modifies page
      ensures videos == VideosForUrl(old(page.renderers), old(page.href))
      ensures page.renderers == AddClassAt(old(page.renderers), RefsOf(videos), DetectedClass)
      ensures page.href == old(page.href) && page.hostname == old(page.hostname)
    {
      videos := QueryVideos(Route(page.href));
    }

    /** `onMutation`: clears every mark, queries the live location and
        notifies the callback of all its listings with the URL the
        detector was built at. Only an active detector observes
        mutations. */
    method OnMutation() returns (n: Notification)
      requires active
      modifies page
      ensures n == Notification(VideosForUrl(old(page.renderers), old(page.href)), currentUrl)
      ensures page.renderers == AfterMutation(old(page.renderers), old(page.href))
      ensures page.href == old(page.href) && page.hostname == old(page.hostname)
    {
      ResetDetectedVideos();
      QueryIgnoresClasses(old(page.renderers), page.renderers, Route(page.href));
      var videos := QueryVideosBasedOnUrl();
      n := Notification(videos, currentUrl);
    }
  }

  /** What `pick` yields for each element, in document order. */
  function Picked(rs: seq<Renderer>, pick: (Tag, Option<Anchor>, nat) -> Option<VideoData>): (c: seq<Option<VideoData>>)
    requires forall t, a, j :: pick(t, a, j).Some? ==> pick(t, a, j).value.referenceDom == j
    ensures |c| == |rs| && WellPlaced(c)
    ensures forall j :: 0 <= j < |rs| ==> c[j] == pick(rs[j].tag, rs[j].anchor, j)
  {
    var c := seq(|rs|, j requires 0 <= j < |rs| => pick(rs[j].tag, rs[j].anchor, j));
    assert WellPlaced(c) by {
      forall j | 0 <= j < |c| && c[j].Some? ensures c[j].value.referenceDom == j {
        assert c[j] == pick(rs[j].tag, rs[j].anchor, j);
      }
    }
    c
  }

  /** The listings the query's `map` has kept after the first `n`
      elements, given what each element yields (`c`). */
  function Kept(c: seq<Option<VideoData>>, n: nat): seq<VideoData>
    requires n <= |c|
  {
    if n == 0 then []
    else if c[n - 1].None? then Kept(c, n - 1)
    else Kept(c, n - 1) + [c[n - 1].value]
  }

  /** The elements after the query's `map` has run over the first `n`:
      each one that yields a listing has been marked. */
  function Marked(rs: seq<Renderer>, c: seq<Option<VideoData>>, n: nat): (rs': seq<Renderer>)
    requires n <= |rs| == |c|
    ensures |rs'| == |rs|
  {
    if n == 0 then rs
    else
      var before := Marked(rs, c, n - 1);
      if c[n - 1].None? then before
      else before[n - 1 := AddClass(before[n - 1], DetectedClass)]
  }

  /** The positions below `n` that yield a listing. */
  function Yielding(c: seq<Option<VideoData>>, n: nat): set<nat>
  {
    set j: nat | j < n && j < |c| && c[j].Some?
  }

  /** What the scan has kept, followed by what `Collect` finds from `n`
      on, is what `Collect` finds overall; and it refers exactly to the
      yielding positions below `n`. */
  lemma {:induction false} KeptSpec(c: seq<Option<VideoData>>, n: nat)
    requires n <= |c| && WellPlaced(c)
    ensures Kept(c, n) + Collect(c, n) == Collect(c, 0)
    ensures RefsOf(Kept(c, n)) == Yielding(c, n)
  {
    if n > 0 {
      KeptSpec(c, n - 1);
      if c[n - 1].Some? {
        var v := c[n - 1].value;
        assert RefsOf(Kept(c, n - 1) + [v]) == RefsOf(Kept(c, n - 1)) + {n - 1};
        assert (Kept(c, n - 1) + [v]) + Collect(c, n) == Kept(c, n - 1) + Collect(c, n - 1);
      }
      assert Yielding(c, n) == Yielding(c, n - 1) + (if c[n - 1].Some? then {n - 1} else {});
    }
  }

  /** The scan has marked exactly the yielding positions below `n` and
      left the elements from `n` on untouched. */
  lemma {:induction false} MarkedSpec(rs: seq<Renderer>, c: seq<Option<VideoData>>, n: nat)
    requires n <= |rs| == |c|
    ensures Marked(rs, c, n) == AddClassAt(rs, Yielding(c, n), DetectedClass)
  {
    if n == 0 {
      assert AddClassAt(rs, Yielding(c, 0), DetectedClass) == rs;
    } else {
      MarkedSpec(rs, c, n - 1);
      AddClassAtStep(rs, Yielding(c, n - 1), DetectedClass, n - 1);
      assert Yielding(c, n) == Yielding(c, n - 1) + (if c[n - 1].Some? then {n - 1} else {});
    }
  }
}
