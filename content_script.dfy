/** The content script that hides blacklisted videos
    (pages/content/lib/old-index.ts): it keeps the blacklisted ids it last
    read from the blacklisted-videos store, splits every batch of
    detected videos into those whose id is listed and the rest, and puts
    the `blocked` class on the elements of the first group and takes it
    off the elements of the second. */
module ContentScript {
  import opened Seqs
  import opened Dom
  import opened VideoQuery
  import BlacklistedVideosStorage
  import YouTubeChangeDetector

  /** What `categorizeVideos` returns. */
  datatype Categories = Categories(blacklisted: seq<VideoData>, notBlacklisted: seq<VideoData>)

  /** Whether a video's id is on the list (`blacklist.includes(id)`). */
  predicate Listed(blacklist: seq<string>, v: VideoData)
  {
    v.videoId in blacklist
  }

  /** `categorizeVideos`: two filters over the detected videos, one
      keeping the listed ones and one keeping the others. */
  function CategorizeVideos(videos: seq<VideoData>, blacklist: seq<string>): (r: Categories)
  {
    Categories(Filter(videos, v => Listed(blacklist, v)), Filter(videos, v => !Listed(blacklist, v)))
  }

  /** The two groups partition the input: a video is in the first group
      exactly when it is in the input and listed, in the second exactly
      when it is in the input and not listed, each keeps its multiplicity
      and the input order, and together they are as many as the input. */
  lemma CategorizeSpec(videos: seq<VideoData>, blacklist: seq<string>)
    ensures forall v :: v in CategorizeVideos(videos, blacklist).blacklisted <==> v in videos && v.videoId in blacklist
    ensures forall v :: v in CategorizeVideos(videos, blacklist).notBlacklisted <==> v in videos && v.videoId !in blacklist
    ensures |CategorizeVideos(videos, blacklist).blacklisted| + |CategorizeVideos(videos, blacklist).notBlacklisted| == |videos|
    ensures multiset(CategorizeVideos(videos, blacklist).blacklisted) + multiset(CategorizeVideos(videos, blacklist).notBlacklisted)
            == multiset(videos)
  {
    var p := (v: VideoData) => Listed(blacklist, v);
    var q := (v: VideoData) => !Listed(blacklist, v);
    var r := CategorizeVideos(videos, blacklist);
    forall v ensures v in r.blacklisted <==> v in videos && v.videoId in blacklist {
      FilterMembership(videos, p, v);
    }
    forall v ensures v in r.notBlacklisted <==> v in videos && v.videoId !in blacklist {
      FilterMembership(videos, q, v);
    }
    FilterPartitionLength(videos, p, q);
    forall v ensures (multiset(r.blacklisted) + multiset(r.notBlacklisted))[v] == multiset(videos)[v] {
      FilterMultiplicity(videos, p, v);
      FilterMultiplicity(videos, q, v);
    }
    assert multiset(r.blacklisted) + multiset(r.notBlacklisted) == multiset(videos);
  }

  /** Categorising keeps relative order: it distributes over splitting
      the input in two. */
  lemma CategorizeAppend(a: seq<VideoData>, b: seq<VideoData>, blacklist: seq<string>)
    ensures CategorizeVideos(a + b, blacklist).blacklisted
         == CategorizeVideos(a, blacklist).blacklisted + CategorizeVideos(b, blacklist).blacklisted
    ensures CategorizeVideos(a + b, blacklist).notBlacklisted
         == CategorizeVideos(a, blacklist).notBlacklisted + CategorizeVideos(b, blacklist).notBlacklisted
  {
    FilterAppend(a, b, v => Listed(blacklist, v));
    FilterAppend(a, b, v => !Listed(blacklist, v));
  }

  /** The elements after `updateDomClasses(blacklisted, nonBlacklisted)`:
      `blocked` added to the elements of the first group, then removed
      from the elements of the second. */
  function Toggled(rs: seq<Renderer>, blacklisted: seq<VideoData>, nonBlacklisted: seq<VideoData>): seq<Renderer>
  {
    RemoveClassAt(AddClassAt(rs, RefsOf(blacklisted), BlockedClass), RefsOf(nonBlacklisted), BlockedClass)
  }

  /** After `updateDomClasses` an element of a non-blacklisted video
      lacks `blocked`, any other element of a blacklisted video has it,
      every other element is unchanged, and no other class moves. */
  lemma ToggledSpec(rs: seq<Renderer>, blacklisted: seq<VideoData>, nonBlacklisted: seq<VideoData>)
    ensures |Toggled(rs, blacklisted, nonBlacklisted)| == |rs|
    ensures forall j :: 0 <= j < |rs| && j in RefsOf(nonBlacklisted) ==>
      BlockedClass !in Toggled(rs, blacklisted, nonBlacklisted)[j].classes
    ensures forall j :: 0 <= j < |rs| && j !in RefsOf(nonBlacklisted) && j in RefsOf(blacklisted) ==>
      BlockedClass in Toggled(rs, blacklisted, nonBlacklisted)[j].classes
    ensures forall j :: 0 <= j < |rs| && j !in RefsOf(nonBlacklisted) && j !in RefsOf(blacklisted) ==>
      Toggled(rs, blacklisted, nonBlacklisted)[j] == rs[j]
    ensures forall j :: 0 <= j < |rs| ==>
      Toggled(rs, blacklisted, nonBlacklisted)[j].classes - {BlockedClass} == rs[j].classes - {BlockedClass}
    ensures SameStructure(rs, Toggled(rs, blacklisted, nonBlacklisted))
  {
  }

  /** `updateDomClasses` only adds a missing class and only removes a
      present one, so a second run with the same groups changes nothing. */
  lemma ToggledIdempotent(rs: seq<Renderer>, blacklisted: seq<VideoData>, nonBlacklisted: seq<VideoData>)
    ensures Toggled(Toggled(rs, blacklisted, nonBlacklisted), blacklisted, nonBlacklisted)
         == Toggled(rs, blacklisted, nonBlacklisted)
  {
    var once := Toggled(rs, blacklisted, nonBlacklisted);
    var twice := Toggled(once, blacklisted, nonBlacklisted);
    ToggledSpec(rs, blacklisted, nonBlacklisted);
    ToggledSpec(once, blacklisted, nonBlacklisted);
    forall j | 0 <= j < |rs| ensures twice[j] == once[j] {
      assert twice[j].classes == once[j].classes;
    }
  }

  /** When the videos refer to distinct elements (as the detectors'
      queries give them), handling a batch leaves exactly the elements of
      listed videos blocked among the elements of the batch. */
  lemma BlocksExactlyListed(rs: seq<Renderer>, videos: seq<VideoData>, blacklist: seq<string>)
    requires InDocumentOrder(videos)
    ensures forall k :: 0 <= k < |videos| && videos[k].referenceDom < |rs| ==>
      (BlockedClass in Toggled(rs, CategorizeVideos(videos, blacklist).blacklisted,
                               CategorizeVideos(videos, blacklist).notBlacklisted)[videos[k].referenceDom].classes
       <==> videos[k].videoId in blacklist)
  {
    var cats := CategorizeVideos(videos, blacklist);
    CategorizeSpec(videos, blacklist);
    ToggledSpec(rs, cats.blacklisted, cats.notBlacklisted);
    forall k | 0 <= k < |videos| && videos[k].referenceDom < |rs|
      ensures BlockedClass in Toggled(rs, cats.blacklisted, cats.notBlacklisted)[videos[k].referenceDom].classes
              <==> videos[k].videoId in blacklist
    {
      var v := videos[k];
      if v.videoId in blacklist {
        assert v in cats.blacklisted;
        assert v.referenceDom in RefsOf(cats.blacklisted);
        forall w | w in cats.notBlacklisted ensures w.referenceDom != v.referenceDom {
          var l :| 0 <= l < |videos| && videos[l] == w;
          assert l != k by { assert w.videoId !in blacklist; }
        }
        assert v.referenceDom !in RefsOf(cats.notBlacklisted);
      } else {
        assert v in cats.notBlacklisted;
        assert v.referenceDom in RefsOf(cats.notBlacklisted);
      }
    }
  }

  /** `data.videoIdsToBeBlacklisted || []`: a missing list reads as empty. */
  function StoredIds(data: BlacklistedVideosStorage.Data): (ids: seq<string>)
  {
    match data.videoIdsToBeBlacklisted
    case Some(ids) => ids
    case None => []
  }

  /** Before anything is stored the script reads no ids; once an id has
      been added to the store the ids the script reads list it, and once
      it has been removed they do not. */
  lemma StoredIdsFollowStore(data: BlacklistedVideosStorage.Data, videoId: string)
    ensures StoredIds(BlacklistedVideosStorage.Initial) == []
    ensures videoId in StoredIds(BlacklistedVideosStorage.AddVideoToBlacklist(data, videoId))
    ensures data.videoIdsToBeBlacklisted.Some? ==>
      videoId !in StoredIds(BlacklistedVideosStorage.RemoveVideoFromBlacklist(data, videoId).value)
  {
    var ids := BlacklistedVideosStorage.AddVideoToBlacklist(data, videoId).videoIdsToBeBlacklisted.value;
    assert ids[|ids| - 1] == videoId;
  }

  /** The video at which the first detector's `forEach` calls its
      callback first: the first one, in order, whose element lacks the
      mark. */
  function FirstUnmarked(rs: seq<Renderer>, videos: seq<VideoData>): (r: Option<VideoData>)
    ensures r.Some? <==> exists k :: 0 <= k < |videos| && YouTubeChangeDetector.Unmarked(rs, videos[k])
    ensures r.Some? ==> r.value in videos && YouTubeChangeDetector.Unmarked(rs, r.value)
    decreases |videos|
  {
    if videos == [] then None
    else if YouTubeChangeDetector.Unmarked(rs, videos[0]) then Some(videos[0])
    else
      var r := FirstUnmarked(rs, videos[1..]);
      assert forall k :: 1 <= k < |videos| ==> videos[k] == videos[1..][k - 1];
      r
  }

  /** `onContentChange([v], url)`: a batch of one video. */
  function SingleToggle(rs: seq<Renderer>, v: VideoData, blacklist: seq<string>): seq<Renderer>
  {
    Toggled(rs, CategorizeVideos([v], blacklist).blacklisted, CategorizeVideos([v], blacklist).notBlacklisted)
  }

  /** A batch of one video changes only that video's element: it has
      `blocked` exactly when the id is listed, and keeps every other
      class. */
  lemma SingleToggleSpec(rs: seq<Renderer>, v: VideoData, blacklist: seq<string>)
    requires v.referenceDom < |rs|
    ensures |SingleToggle(rs, v, blacklist)| == |rs|
    ensures forall j :: 0 <= j < |rs| && j != v.referenceDom ==> SingleToggle(rs, v, blacklist)[j] == rs[j]
    ensures BlockedClass in SingleToggle(rs, v, blacklist)[v.referenceDom].classes <==> v.videoId in blacklist
    ensures SingleToggle(rs, v, blacklist)[v.referenceDom].classes - {BlockedClass}
         == rs[v.referenceDom].classes - {BlockedClass}
  {
    var cats := CategorizeVideos([v], blacklist);
    CategorizeSpec([v], blacklist);
    ToggledSpec(rs, cats.blacklisted, cats.notBlacklisted);
    assert RefsOf(cats.blacklisted) <= {v.referenceDom};
    assert RefsOf(cats.notBlacklisted) <= {v.referenceDom};
    BlocksExactlyListed(rs, [v], blacklist);
  }

  /** One step of the loop below: a video whose element lacks the mark
      is handled as a batch of one, then its element is marked. */
  function WrappedStep(p: seq<Renderer>, v: VideoData, blacklist: seq<string>): (r: seq<Renderer>)
    requires v.referenceDom < |p|
    ensures |r| == |p|
  {
    if DetectedClass !in p[v.referenceDom].classes then
      SingleToggleSpec(p, v, blacklist);
      var t := SingleToggle(p, v, blacklist);
      t[v.referenceDom := AddClass(t[v.referenceDom], DetectedClass)]
    else p
  }

  /** A step touches only the video's element; an unmarked element ends
      marked and blocked exactly when the id is listed; a marked one is
      left as it is. */
  lemma WrappedStepSpec(p: seq<Renderer>, v: VideoData, blacklist: seq<string>)
    requires v.referenceDom < |p|
    ensures forall j :: 0 <= j < |p| && j != v.referenceDom ==> WrappedStep(p, v, blacklist)[j] == p[j]
    ensures DetectedClass in WrappedStep(p, v, blacklist)[v.referenceDom].classes
    ensures DetectedClass !in p[v.referenceDom].classes ==>
      (BlockedClass in WrappedStep(p, v, blacklist)[v.referenceDom].classes <==> v.videoId in blacklist)
    ensures DetectedClass in p[v.referenceDom].classes ==> WrappedStep(p, v, blacklist) == p
  {
    if DetectedClass !in p[v.referenceDom].classes {
      SingleToggleSpec(p, v, blacklist);
      assert DetectedClass != BlockedClass by { assert |DetectedClass| != |BlockedClass|; }
    }
  }

  /** The first detector's `onMutation` loop with the callback
      `(video, url) => onContentChange([video], url)`: each video whose
      element lacks the mark is handled as a batch of one, then marked. */
  function WrappedWalk(rs: seq<Renderer>, videos: seq<VideoData>, blacklist: seq<string>): (r: seq<Renderer>)
    requires YouTubeChangeDetector.RefsBelow(videos, |rs|)
    ensures |r| == |rs|
    decreases |videos|
  {
    if videos == [] then rs
    else
      WrappedStep(WrappedWalk(rs, videos[..|videos| - 1], blacklist), videos[|videos| - 1], blacklist)
  }

  /** Over videos in document order, the wrapped callback leaves every
      video's element marked; the element of a video not yet marked has
      `blocked` exactly when its id is listed; an element already marked
      and every element of no video are untouched. */
  lemma {:induction false} WrappedWalkSpec(rs: seq<Renderer>, videos: seq<VideoData>, blacklist: seq<string>)
    requires YouTubeChangeDetector.RefsBelow(videos, |rs|) && InDocumentOrder(videos)
    ensures forall j :: 0 <= j < |rs| && j !in RefsOf(videos) ==> WrappedWalk(rs, videos, blacklist)[j] == rs[j]
    ensures forall k :: 0 <= k < |videos| ==>
      DetectedClass in WrappedWalk(rs, videos, blacklist)[videos[k].referenceDom].classes
    ensures forall k :: 0 <= k < |videos| && YouTubeChangeDetector.Unmarked(rs, videos[k]) ==>
      (BlockedClass in WrappedWalk(rs, videos, blacklist)[videos[k].referenceDom].classes <==> videos[k].videoId in blacklist)
    ensures forall k :: 0 <= k < |videos| && !YouTubeChangeDetector.Unmarked(rs, videos[k]) ==>
      WrappedWalk(rs, videos, blacklist)[videos[k].referenceDom] == rs[videos[k].referenceDom]
    decreases |videos|
  {
    if videos != [] {
      var n := |videos| - 1;
      var pre, v := videos[..n], videos[n];
      WrappedWalkSpec(rs, pre, blacklist);
      var p := WrappedWalk(rs, pre, blacklist);
      var r := WrappedWalk(rs, videos, blacklist);
      assert r == WrappedStep(p, v, blacklist);
      WrappedStepSpec(p, v, blacklist);
      forall k | 0 <= k < n ensures pre[k] == videos[k] && pre[k].referenceDom != v.referenceDom {
        assert videos[k].referenceDom < videos[n].referenceDom;
      }
      assert v.referenceDom !in RefsOf(pre);
      assert p[v.referenceDom] == rs[v.referenceDom];
      RefsOfStep(videos, n);
      assert videos[..n + 1] == videos;
      forall j | 0 <= j < |rs| && j !in RefsOf(videos) ensures r[j] == rs[j] {
        assert j !in RefsOf(pre) && j != v.referenceDom;
      }
      forall k | 0 <= k < |videos| ensures DetectedClass in r[videos[k].referenceDom].classes {
        if k < n {
          assert r[pre[k].referenceDom] == p[pre[k].referenceDom];
        }
      }
      forall k | 0 <= k < |videos| && YouTubeChangeDetector.Unmarked(rs, videos[k])
        ensures BlockedClass in r[videos[k].referenceDom].classes <==> videos[k].videoId in blacklist
      {
        if k < n {
          assert r[pre[k].referenceDom] == p[pre[k].referenceDom];
        }
      }
      forall k | 0 <= k < |videos| && !YouTubeChangeDetector.Unmarked(rs, videos[k])
        ensures r[videos[k].referenceDom] == rs[videos[k].referenceDom]
      {
        if k < n {
          assert r[pre[k].referenceDom] == p[pre[k].referenceDom];
        }
      }
    }
  }

  /** A page on which some listing for the location is not yet marked
      and is listed: as `initializeDetector` wires the script, the
      callback throws at an unmarked listing and the page stays as it
      was, so that listing is never blocked; with the callback wrapping
      the video in a batch of one, its element ends up blocked. */
  lemma WiringDecidesBlocking(rs: seq<Renderer>, href: string, blacklist: seq<string>, k: nat)
    requires k < |VideosForUrl(rs, href)|
    requires YouTubeChangeDetector.Unmarked(rs, VideosForUrl(rs, href)[k])
    requires VideosForUrl(rs, href)[k].videoId in blacklist
    requires BlockedClass !in rs[VideosForUrl(rs, href)[k].referenceDom].classes
    ensures FirstUnmarked(rs, VideosForUrl(rs, href)).Some?
    ensures YouTubeChangeDetector.RefsBelow(VideosForUrl(rs, href), |rs|)
    ensures BlockedClass in WrappedWalk(rs, VideosForUrl(rs, href), blacklist)[VideosForUrl(rs, href)[k].referenceDom].classes
  {
    var videos := VideosForUrl(rs, href);
    QueryVideosSpec(rs, Route(href));
    WrappedWalkSpec(rs, videos, blacklist);
  }

  /** The module-level state of the script and the page it acts on. */
  class Script {
    const page: Page
    /** The ids last read from the store; `[]` until the first read. */
    var blacklistedVideoIds: seq<string>

    constructor (page: Page)
      ensures this.page == page && blacklistedVideoIds == []
    {
      this.page := page;
      blacklistedVideoIds := [];
    }

    /** The initial read and every change notification of the store:
        the script's ids become the stored list, or `[]`. */
    method OnBlacklistData(data: BlacklistedVideosStorage.Data)
      modifies this
      ensures blacklistedVideoIds == StoredIds(data)
    {
      blacklistedVideoIds := StoredIds(data);
    }

    /** `updateDomClasses`: adds `blocked` to each element of the first
        group that lacks it, then removes it from each element of the
        second group that has it. */
    method UpdateDomClasses(blacklisted: seq<VideoData>, nonBlacklisted: seq<VideoData>)
      requires forall v :: v in blacklisted ==> v.referenceDom < |page.renderers|
      requires forall v :: v in nonBlacklisted ==> v.referenceDom < |page.renderers|
      modifies page
      ensures page.renderers == Toggled(old(page.renderers), blacklisted, nonBlacklisted)
      ensures page.href == old(page.href) && page.hostname == old(page.hostname)
    {
      ghost var rs0 := page.renderers;
      var i := 0;
      while i < |blacklisted|
        invariant i <= |blacklisted|
        invariant page.renderers == AddClassAt(rs0, RefsOf(blacklisted[..i]), BlockedClass)
        invariant page.href == old(page.href) && page.hostname == old(page.hostname)
      {
        var v := blacklisted[i];
        RefsOfStep(blacklisted, i);
        AddClassAtGrow(rs0, RefsOf(blacklisted[..i]), BlockedClass, v.referenceDom);
        var element := page.renderers[v.referenceDom];
        if BlockedClass !in element.classes {
          page.renderers := page.renderers[v.referenceDom := AddClass(element, BlockedClass)];
        } else {
          assert AddClass(element, BlockedClass) == element;
        }
        i := i + 1;
      }
      assert blacklisted[..i] == blacklisted;
      ghost var rs1 := page.renderers;
      i := 0;
      while i < |nonBlacklisted|
        invariant i <= |nonBlacklisted|
        invariant page.renderers == RemoveClassAt(rs1, RefsOf(nonBlacklisted[..i]), BlockedClass)
        invariant page.href == old(page.href) && page.hostname == old(page.hostname)
      {
        var v := nonBlacklisted[i];
        RefsOfStep(nonBlacklisted, i);
        RemoveClassAtGrow(rs1, RefsOf(nonBlacklisted[..i]), BlockedClass, v.referenceDom);
        var element := page.renderers[v.referenceDom];
        if BlockedClass in element.classes {
          page.renderers := page.renderers[v.referenceDom := RemoveClass(element, BlockedClass)];
        } else {
          assert RemoveClass(element, BlockedClass) == element;
        }
        i := i + 1;
      }
      assert nonBlacklisted[..i] == nonBlacklisted;
    }

    /** `onContentChange`: categorises the batch against the ids last
        read and toggles `blocked` accordingly. The URL is only logged. */
    method OnContentChange(videos: seq<VideoData>, url: string)
      requires forall v :: v in videos ==> v.referenceDom < |page.renderers|
      modifies page
      ensures page.renderers == Toggled(old(page.renderers),
                                        CategorizeVideos(videos, blacklistedVideoIds).blacklisted,
                                        CategorizeVideos(videos, blacklistedVideoIds).notBlacklisted)
      ensures page.href == old(page.href) && page.hostname == old(page.hostname)
    {
      var cats := CategorizeVideos(videos, blacklistedVideoIds);
      CategorizeSpec(videos, blacklistedVideoIds);
      UpdateDomClasses(cats.blacklisted, cats.notBlacklisted);
    }

    /** `onMutation` of the first detector with `onContentChange` as its
        callback, as `initializeDetector` wires them: the detector hands
        the callback a single video where `onContentChange` expects an
        array, so `videos.filter` throws a TypeError at the first video
        whose element lacks the mark. The exception leaves the `forEach`
        before `classList.add`, so no class changes; the video returned
        is the one the exception is thrown at. */
    method OnMutationAsWired(d: YouTubeChangeDetector.Detector) returns (thrownAt: Option<VideoData>)
      requires d.page == page
      ensures thrownAt == FirstUnmarked(page.renderers, VideosForUrl(page.renderers, page.href))
    {
      var videos := d.QueryVideosBasedOnUrl();
      thrownAt := None;
      var i := 0;
      while i < |videos| && thrownAt.None?
        invariant 0 <= i <= |videos|
        invariant thrownAt.None? ==> FirstUnmarked(page.renderers, videos[i..]) == FirstUnmarked(page.renderers, videos)
        invariant thrownAt.Some? ==> thrownAt == FirstUnmarked(page.renderers, videos)
      {
        var v := videos[i];
        assert videos[i..][1..] == videos[i + 1..];
        if DetectedClass !in page.renderers[v.referenceDom].classes {
          thrownAt := Some(v);
        }
        i := i + 1;
      }
    }

    /** `onMutation` of the first detector with the callback
        `(video, url) => onContentChange([video], url)`: each video whose
        element lacks the mark is categorised and toggled as a batch of
        one, then marked. */
    method OnMutationWrapped(d: YouTubeChangeDetector.Detector)
      requires d.page == page
      modifies page
      ensures YouTubeChangeDetector.RefsBelow(VideosForUrl(old(page.renderers), old(page.href)), |old(page.renderers)|)
      ensures page.renderers == WrappedWalk(old(page.renderers), VideosForUrl(old(page.renderers), old(page.href)), blacklistedVideoIds)
      ensures page.href == old(page.href) && page.hostname == old(page.hostname)
    {
      var videos := d.QueryVideosBasedOnUrl();
      ghost var rs0 := page.renderers;
      var i := 0;
      while i < |videos|
        invariant 0 <= i <= |videos|
        invariant page.renderers == WrappedWalk(rs0, videos[..i], blacklistedVideoIds)
        invariant page.href == old(page.href) && page.hostname == old(page.hostname)
      {
        var v := videos[i];
        assert videos[..i + 1][..i] == videos[..i];
        if DetectedClass !in page.renderers[v.referenceDom].classes {
          OnContentChange([v], d.currentUrl);
          page.renderers := page.renderers[v.referenceDom := AddClass(page.renderers[v.referenceDom], DetectedClass)];
        }
        i := i + 1;
      }
      assert videos[..i] == videos;
    }
  }

  /** The positions a prefix of one more video refers to. */
  lemma RefsOfStep(videos: seq<VideoData>, i: nat)
    requires i < |videos|
    ensures RefsOf(videos[..i + 1]) == RefsOf(videos[..i]) + {videos[i].referenceDom}
  {
    assert videos[..i + 1] == videos[..i] + [videos[i]];
  }
}
