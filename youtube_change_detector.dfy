/** The first change detector (pages/content/lib/YouTubeChangeDetector.ts):
    on every DOM mutation it queries the listings for the live location
    and reports each one it has not reported before, marking its element
    with `detected-video`. The callback is an output: each call becomes
    a `Report`. */
module YouTubeChangeDetector {
  import opened Seqs
  import opened Strings
  import opened Dom
  import opened VideoQuery

  /** One `callback(video, url)` call. */
  datatype Report = Report(video: VideoData, url: string)

  /** Whether the element a video refers to still lacks the mark. */
  predicate Unmarked(rs: seq<Renderer>, v: VideoData)
  {
    v.referenceDom < |rs| && DetectedClass !in rs[v.referenceDom].classes
  }

  /** The videos refer to elements below `n`. */
  predicate RefsBelow(videos: seq<VideoData>, n: nat)
  {
    forall k :: 0 <= k < |videos| ==> videos[k].referenceDom < n
  }

  /** The callback calls `onMutation` makes for `videos` over the
      elements `rs`: one per video whose element is not yet marked, in
      order, each with `url`. */
  function Unreported(rs: seq<Renderer>, videos: seq<VideoData>, url: string): (r: seq<Report>)
    ensures |r| <= |videos|
    ensures forall k :: 0 <= k < |r| ==> r[k].url == url && r[k].video in videos && Unmarked(rs, r[k].video)
    decreases |videos|
  {
    if videos == [] then []
    else
      var last := videos[|videos| - 1];
      var before := Unreported(rs, videos[..|videos| - 1], url);
      before + if Unmarked(rs, last) then [Report(last, url)] else []
  }

  /** No video with an unmarked element, no report. */
  lemma {:induction false} AllMarkedNoReports(rs: seq<Renderer>, videos: seq<VideoData>, url: string)
    requires forall v :: v in videos ==> !Unmarked(rs, v)
    ensures Unreported(rs, videos, url) == []
    decreases |videos|
  {
    if videos != [] {
      AllMarkedNoReports(rs, videos[..|videos| - 1], url);
    }
  }

  /** Once `onMutation` has marked the listings it found, a second run
      over the same elements and location finds the same listings and
      reports none of them: each element is reported at most once. */
  lemma ReportedAtMostOnce(rs: seq<Renderer>, href: string, url: string)
    ensures var videos := VideosForUrl(rs, href);
            var marked := AddClassAt(rs, RefsOf(videos), DetectedClass);
            VideosForUrl(marked, href) == videos && Unreported(marked, videos, url) == []
  {
    var videos := VideosForUrl(rs, href);
    var marked := AddClassAt(rs, RefsOf(videos), DetectedClass);
    QueryIgnoresClasses(rs, marked, Route(href));
    QueryVideosSpec(rs, Route(href));
    assert forall v :: v in videos ==> !Unmarked(marked, v) by {
      forall v | v in videos ensures !Unmarked(marked, v) {
        assert v.referenceDom in RefsOf(videos);
      }
    }
    AllMarkedNoReports(marked, videos, url);
  }

  /** One step of `onMutation`'s loop: the element of the next video is
      still as it was before the loop, and the video is reported and
      marked exactly when that element lacks the mark. */
  lemma MarkStep(rs0: seq<Renderer>, videos: seq<VideoData>, i: nat, url: string)
    requires i < |videos| && RefsBelow(videos, |rs0|) && InDocumentOrder(videos)
    ensures videos[i].referenceDom < |rs0|
    ensures AddClassAt(rs0, RefsOf(videos[..i]), DetectedClass)[videos[i].referenceDom] == rs0[videos[i].referenceDom]
    ensures Unmarked(rs0, videos[i]) ==>
      && Unreported(rs0, videos[..i + 1], url) == Unreported(rs0, videos[..i], url) + [Report(videos[i], url)]
      && AddClassAt(rs0, RefsOf(videos[..i + 1]), DetectedClass)
         == AddClassAt(rs0, RefsOf(videos[..i]), DetectedClass)[videos[i].referenceDom := AddClass(rs0[videos[i].referenceDom], DetectedClass)]
    ensures !Unmarked(rs0, videos[i]) ==>
      && Unreported(rs0, videos[..i + 1], url) == Unreported(rs0, videos[..i], url)
      && AddClassAt(rs0, RefsOf(videos[..i + 1]), DetectedClass) == AddClassAt(rs0, RefsOf(videos[..i]), DetectedClass)
  {
    var v := videos[i];
    assert v.referenceDom !in RefsOf(videos[..i]) by {
      forall k | 0 <= k < i ensures videos[k].referenceDom != v.referenceDom {
        assert videos[k].referenceDom < videos[i].referenceDom;
      }
    }
    assert videos[..i + 1] == videos[..i] + [v];
    assert RefsOf(videos[..i + 1]) == RefsOf(videos[..i]) + {v.referenceDom};
    AddClassAtStep(rs0, RefsOf(videos[..i]), DetectedClass, v.referenceDom);
  }

  /** The elements and the callback calls after `onMutation`'s loop
      has run over some videos. */
  datatype Pass = Pass(renderers: seq<Renderer>, reports: seq<Report>)

  /** `onMutation`'s loop over `videos`, one video at a time: a video
      whose element (as the loop finds it) lacks the mark is reported
      with `url` and its element marked. */
  function Walk(rs: seq<Renderer>, videos: seq<VideoData>, url: string): (p: Pass)
    requires RefsBelow(videos, |rs|)
    ensures |p.renderers| == |rs|
    decreases |videos|
  {
    if videos == [] then Pass(rs, [])
    else
      var p := Walk(rs, videos[..|videos| - 1], url);
      var v := videos[|videos| - 1];
      var element := p.renderers[v.referenceDom];
      if DetectedClass !in element.classes then
        Pass(p.renderers[v.referenceDom := AddClass(element, DetectedClass)], p.reports + [Report(v, url)])
      else p
  }

  /** Over videos in document order the loop sees every element as it
      was before the loop: it reports the videos whose element was
      unmarked, and marks the element of every video. */
  lemma {:induction false} WalkSpec(rs: seq<Renderer>, videos: seq<VideoData>, url: string)
    requires RefsBelow(videos, |rs|) && InDocumentOrder(videos)
    ensures Walk(rs, videos, url) == Pass(AddClassAt(rs, RefsOf(videos), DetectedClass), Unreported(rs, videos, url))
    decreases |videos|
  {
    if videos != [] {
      var i := |videos| - 1;
      assert videos[..i + 1] == videos;
      WalkSpec(rs, videos[..i], url);
      MarkStep(rs, videos, i, url);
    }
  }

  class Detector {
    /** The window and document the detector reads. */
    const page: Page
    /** Whether the constructor found itself on the site and started. */
    const active: bool
    /** The location at construction, handed to every callback. */
    const currentUrl: string

    /** Starts only on a host whose name includes "youtube.com"; the URL
        it reports is the location at this moment. On any other host the
        fields stay unset (here: `currentUrl` is ""). */
    constructor (page: Page)
      ensures this.page == page
      ensures active <==> Includes(page.hostname, "youtube.com")
      ensures currentUrl == if active then page.href else ""
    {
      this.page := page;
      var onSite := Includes(page.hostname, "youtube.com");
      this.active := onSite;
      this.currentUrl := if onSite then page.href else "";
    }

    /** `queryVideosBasedOnUrl`: the listings the live location shows. */
    method QueryVideosBasedOnUrl() returns (videos: seq<VideoData>)
      ensures videos == VideosForUrl(page.renderers, page.href)
      ensures RefsBelow(videos, |page.renderers|) && InDocumentOrder(videos)
    {
      videos := QueryVideos(page.renderers, Route(page.href));
      QueryVideosSpec(page.renderers, Route(page.href));
    }

    /** The `videos.forEach` of `onMutation`: reports, in order, the
        videos whose element is not marked, marking each one it reports. */
    method ReportUnmarked(videos: seq<VideoData>) returns (reports: seq<Report>)
      requires RefsBelow(videos, |page.renderers|) && InDocumentOrder(videos)
      modifies page
      ensures page.href == old(page.href) && page.hostname == old(page.hostname)
      ensures reports == Unreported(old(page.renderers), videos, currentUrl)
      ensures page.renderers == AddClassAt(old(page.renderers), RefsOf(videos), DetectedClass)
    {
      ghost var rs0 := page.renderers;
      reports := [];
      var i := 0;
      while i < |videos|
        invariant 0 <= i <= |videos|
        invariant Pass(page.renderers, reports) == Walk(rs0, videos[..i], currentUrl)
        invariant page.href == old(page.href) && page.hostname == old(page.hostname)
      {
        var v := videos[i];
        assert videos[..i + 1][..i] == videos[..i];
        var element := page.renderers[v.referenceDom];
        if DetectedClass !in element.classes {
          reports := reports + [Report(v, currentUrl)];
          page.renderers := page.renderers[v.referenceDom := AddClass(element, DetectedClass)];
        }
        i := i + 1;
      }
      assert videos[..i] == videos;
      WalkSpec(rs0, videos, currentUrl);
    }

    /** `onMutation`: queries the listings for the live location and
        reports, in order, those whose element is not marked, marking
        each one it reports. Only an active detector observes mutations. */
    method OnMutation() returns (reports: seq<Report>)
      requires active
      modifies page
      ensures page.href == old(page.href) && page.hostname == old(page.hostname)
      ensures reports == Unreported(old(page.renderers), VideosForUrl(old(page.renderers), old(page.href)), currentUrl)
      ensures page.renderers == AddClassAt(old(page.renderers), RefsOf(VideosForUrl(old(page.renderers), old(page.href))), DetectedClass)
    {
      var videos := QueryVideosBasedOnUrl();
      reports := ReportUnmarked(videos);
    }
  }

  /** A navigation between construction and a mutation: the listings
      follow the new location, while every report still carries the
      location the detector was built at. */
  method NavigateThenMutate(page: Page, newHref: string) returns (reports: seq<Report>)
    requires Includes(page.hostname, "youtube.com")
    modifies page
    ensures forall k :: 0 <= k < |reports| ==> reports[k].url == old(page.href)
    ensures forall k :: 0 <= k < |reports| ==> reports[k].video.kind == Route(newHref)
  {
    var detector := new Detector(page);
    page.Navigate(newHref);
    reports := detector.OnMutation();
    QueryVideosSpec(old(page.renderers), Route(newHref));
  }
}
