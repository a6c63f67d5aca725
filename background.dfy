/** The background script's per-tab request coordinator
    (chrome-extension/lib/background/index.ts). A `filterVideosForTab`
    message arms a debounce timer for its tab, cancelling the tab's
    previous timer and aborting its previous request; when the timer
    fires, the detected videos and the stored filter settings go to the
    filtering service, and its verdicts are written to the per-tab store
    and sent to the tab.

    Timers, abort controllers and requests are abstract handles; the
    browser's timer table, the requests still running and the
    controllers that were aborted are explicit state. Messages, replies
    and the request body are output values. */
module Background {
  import opened Seqs
  import opened StorageTypes
  import Strings
  import Tabs = BlockedVideosByTabStorage
  import ExtensionStorage

  type TabId = int

  const ThumbnailPrefix: string := "https://img.youtube.com/vi/"
  const ThumbnailSuffix: string := "/hqdefault.jpg"
  const ChannelPrefix: string := "https://youtube.com"
  const NoValidVideos: string := "No valid videos detected"
  const HttpErrorPrefix: string := "HTTP error! status: "

  /** One video of the request body (`IPayloadVideo`). */
  datatype PayloadVideo = PayloadVideo(
    uuid: string,
    timestamp: int,
    title: string,
    thumbnailUrl: string,
    channelName: string,
    channelId: string,
    channelUrl: string)

  /** The request body carries exactly one of `block_list` and
      `allow_list` (`IAPIPayloadEither`). */
  datatype FilterLists = BlockList(terms: seq<string>) | AllowList(terms: seq<string>)

  datatype Payload = Payload(videos: seq<PayloadVideo>, lists: FilterLists)

  /** The three fields the timer callback destructures from the stored
      settings. `filterList` may be missing (`?? []`). */
  datatype FilterConfig = FilterConfig(instructions: Option<string>, filterList: Option<seq<string>>, isBlockList: bool)

  /** One item of the service's answer (`IAPIVideoResponse`). */
  datatype Verdict = Verdict(uuid: string, videoTitle: string, blocked: bool)

  /** `detectedVideo => ({ uuid, timestamp, title, thumbnail_url, ... })`,
      with `Date.now()` as the parameter `now`. */
  function ToPayloadVideo(v: VideoData, now: int): PayloadVideo
  {
    PayloadVideo(v.videoId, now, v.title, ThumbnailPrefix + v.videoId + ThumbnailSuffix,
                 v.channel, v.channelId, ChannelPrefix + v.channelId)
  }

  /** A JavaScript string is truthy when it is present and not empty. */
  predicate Truthy(s: Option<string>)
  {
    s.Some? && s.value != ""
  }

  /** `filterList ?? []`, then `instructions` pushed when truthy. */
  function FilterTerms(config: FilterConfig): seq<string>
  {
    var base := if config.filterList.Some? then config.filterList.value else [];
    if Truthy(config.instructions) then base + [config.instructions.value] else base
  }

  /** The request body the timer callback builds. */
  function BuildPayload(detected: seq<VideoData>, config: FilterConfig, now: int): Payload
  {
    var terms := FilterTerms(config);
    Payload(Map(detected, v => ToPayloadVideo(v, now)),
            if config.isBlockList then BlockList(terms) else AllowList(terms))
  }

  /** One payload video per detected video, in the same order, with the
      id as uuid, the thumbnail and channel URLs built around the ids,
      and the other fields copied; the filter terms are the stored list
      (or none) followed by the instructions exactly when they are a
      non-empty string; they go in `block_list` exactly when
      `isBlockList` holds and in `allow_list` otherwise. */
  lemma BuildPayloadSpec(detected: seq<VideoData>, config: FilterConfig, now: int)
    ensures |BuildPayload(detected, config, now).videos| == |detected|
    ensures forall k :: 0 <= k < |detected| ==>
      var pv := BuildPayload(detected, config, now).videos[k];
      && pv.uuid == detected[k].videoId
      && pv.timestamp == now
      && pv.title == detected[k].title
      && pv.thumbnailUrl == ThumbnailPrefix + detected[k].videoId + ThumbnailSuffix
      && pv.channelName == detected[k].channel
      && pv.channelId == detected[k].channelId
      && pv.channelUrl == ChannelPrefix + detected[k].channelId
    ensures BuildPayload(detected, config, now).lists.BlockList? <==> config.isBlockList
    ensures var terms := BuildPayload(detected, config, now).lists.terms;
      var base := if config.filterList.Some? then config.filterList.value else [];
      && |terms| == |base| + (if Truthy(config.instructions) then 1 else 0)
      && terms[..|base|] == base
      && (Truthy(config.instructions) ==> terms[|base|] == config.instructions.value)
  {
  }

  /** The video id can be read back out of the thumbnail URL. */
  lemma ThumbnailHoldsId(v: VideoData, now: int)
    ensures var url := ToPayloadVideo(v, now).thumbnailUrl;
      && |url| == |ThumbnailPrefix| + |v.videoId| + |ThumbnailSuffix|
      && url[|ThumbnailPrefix|..|ThumbnailPrefix| + |v.videoId|] == v.videoId
  {
    var url := ToPayloadVideo(v, now).thumbnailUrl;
    assert url == ThumbnailPrefix + v.videoId + ThumbnailSuffix;
    assert url[|ThumbnailPrefix|..|ThumbnailPrefix| + |v.videoId|] == v.videoId;
  }

  /** What the timer callback destructures from `extensionStorage.get()`:
      the stored value has `instructions` and `filterList` but no
      `isBlockList` field (it stores `listMode`), so the flag reads as
      undefined, that is false. */
  function ReadFilterConfig(d: ExtensionStorage.Data): FilterConfig
  {
    FilterConfig(d.instructions, Some(d.filterList), false)
  }

  /** With the settings as the extension stores them, the request
      always carries an `allow_list`, whatever list mode is stored,
      the block-list mode included. */
  lemma StoredSettingsAlwaysAllowList(d: ExtensionStorage.Data, detected: seq<VideoData>, now: int)
    ensures BuildPayload(detected, ReadFilterConfig(d), now).lists.AllowList?
    ensures BuildPayload(detected, ReadFilterConfig(d), now).lists.terms[..|d.filterList|] == d.filterList
    ensures BuildPayload(detected, ReadFilterConfig(ExtensionStorage.SetBlockList(d, ExtensionStorage.BlockList)), now).lists.AllowList?
  {
    BuildPayloadSpec(detected, ReadFilterConfig(d), now);
  }

  /** The settings read as evidently intended: the stored list mode
      decides the flag. */
  function IntendedFilterConfig(d: ExtensionStorage.Data): FilterConfig
  {
    FilterConfig(d.instructions, Some(d.filterList), d.listMode == ExtensionStorage.BlockList)
  }

  /** Read as intended, the terms go in `block_list` exactly in
      block-list mode, and the terms themselves are the same as those
      sent as written. */
  lemma IntendedConfigHonoursListMode(d: ExtensionStorage.Data, detected: seq<VideoData>, now: int)
    ensures BuildPayload(detected, IntendedFilterConfig(d), now).lists.BlockList? <==> d.listMode == ExtensionStorage.BlockList
    ensures BuildPayload(detected, IntendedFilterConfig(d), now).lists.terms
         == BuildPayload(detected, ReadFilterConfig(d), now).lists.terms
    ensures BuildPayload(detected, IntendedFilterConfig(d), now).videos
         == BuildPayload(detected, ReadFilterConfig(d), now).videos
  {
  }

  /** Block-list mode with the term "ads" and the instructions
      "no clickbait": as written the request carries
      `allow_list: ["ads", "no clickbait"]`, where the block list was
      meant. */
  lemma BlockListModeSentAsAllowList(detected: seq<VideoData>, now: int)
    ensures var d := ExtensionStorage.Data(Some([]), Some("no clickbait"), ["ads"], ExtensionStorage.BlockList);
      && BuildPayload(detected, ReadFilterConfig(d), now).lists == AllowList(["ads", "no clickbait"])
      && BuildPayload(detected, IntendedFilterConfig(d), now).lists == BlockList(["ads", "no clickbait"])
  {
    var d := ExtensionStorage.Data(Some([]), Some("no clickbait"), ["ads"], ExtensionStorage.BlockList);
    assert FilterTerms(ReadFilterConfig(d)) == ["ads"] + ["no clickbait"];
  }

  /** `data.filter(datum => datum.blocked).map(datum => datum.uuid)` */
  function BlockedIds(items: seq<Verdict>): seq<string>
  {
    Map(Filter(items, (i: Verdict) => i.blocked), (i: Verdict) => i.uuid)
  }

  /** An id is in the list exactly when some item with that uuid is
      blocked. */
  lemma BlockedIdsMembership(items: seq<Verdict>, id: string)
    ensures id in BlockedIds(items) <==> exists k :: 0 <= k < |items| && items[k].blocked && items[k].uuid == id
  {
    var p := (i: Verdict) => i.blocked;
    var kept := Filter(items, p);
    if id in BlockedIds(items) {
      var j :| 0 <= j < |kept| && kept[j].uuid == id;
      assert kept[j] in kept;
      FilterMembership(items, p, kept[j]);
    }
    if exists k :: 0 <= k < |items| && items[k].blocked && items[k].uuid == id {
      var k :| 0 <= k < |items| && items[k].blocked && items[k].uuid == id;
      FilterMembership(items, p, items[k]);
      var j :| 0 <= j < |kept| && kept[j] == items[k];
      assert BlockedIds(items)[j] == id;
    }
  }

  /** The flagged ids: exactly the uuids of blocked items, no more ids
      than items, in the order of the answer (the list distributes over
      concatenation). */
  lemma BlockedIdsSpec(items: seq<Verdict>, more: seq<Verdict>)
    ensures forall id :: id in BlockedIds(items) <==> exists k :: 0 <= k < |items| && items[k].blocked && items[k].uuid == id
    ensures |BlockedIds(items)| <= |items|
    ensures BlockedIds(items + more) == BlockedIds(items) + BlockedIds(more)
  {
    var p := (i: Verdict) => i.blocked;
    forall id ensures id in BlockedIds(items) <==> exists k :: 0 <= k < |items| && items[k].blocked && items[k].uuid == id {
      BlockedIdsMembership(items, id);
    }
    FilterAppend(items, more, p);
    MapAppend(Filter(items, p), Filter(more, p), (i: Verdict) => i.uuid);
  }

  /** The stored record of a blocked detected video, flagged at `detectedAt`. */
  function ToDetails(v: VideoData, detectedAt: string): BlockedVideoDetails
  {
    BlockedVideoDetails(v.videoId, v.title, v.channel, v.channelId, v.thumbnail, v.videoType, detectedAt)
  }

  /** The detected videos whose id is among `ids`, as stored records. */
  function BlockedRecords(detected: seq<VideoData>, ids: seq<string>, detectedAt: string): seq<BlockedVideoDetails>
  {
    Map(Filter(detected, (v: VideoData) => v.videoId in ids), (v: VideoData) => ToDetails(v, detectedAt))
  }

  /** A record is stored exactly for each detected video whose id was
      flagged, copying its fields. */
  lemma BlockedRecordsMembership(detected: seq<VideoData>, ids: seq<string>, detectedAt: string, r: BlockedVideoDetails)
    ensures r in BlockedRecords(detected, ids, detectedAt) <==>
      exists v :: v in detected && v.videoId in ids && r == ToDetails(v, detectedAt)
  {
    var p := (v: VideoData) => v.videoId in ids;
    var kept := Filter(detected, p);
    if r in BlockedRecords(detected, ids, detectedAt) {
      var j :| 0 <= j < |kept| && ToDetails(kept[j], detectedAt) == r;
      assert kept[j] in kept;
      FilterMembership(detected, p, kept[j]);
    }
    if exists v :: v in detected && v.videoId in ids && r == ToDetails(v, detectedAt) {
      var v :| v in detected && v.videoId in ids && r == ToDetails(v, detectedAt);
      FilterMembership(detected, p, v);
      var j :| 0 <= j < |kept| && kept[j] == v;
      assert BlockedRecords(detected, ids, detectedAt)[j] == r;
    }
  }

  /** The stored records: one for each detected video whose id was
      flagged, so each has a flagged id that was detected (a flagged id
      that was not detected yields none); they follow the detected order
      (the list distributes over concatenation). */
  lemma BlockedRecordsSpec(detected: seq<VideoData>, more: seq<VideoData>, ids: seq<string>, detectedAt: string)
    ensures forall r :: r in BlockedRecords(detected, ids, detectedAt) <==>
      exists v :: v in detected && v.videoId in ids && r == ToDetails(v, detectedAt)
    ensures forall r :: r in BlockedRecords(detected, ids, detectedAt) ==>
      r.videoId in ids && exists k :: 0 <= k < |detected| && detected[k].videoId == r.videoId
    ensures BlockedRecords(detected + more, ids, detectedAt)
         == BlockedRecords(detected, ids, detectedAt) + BlockedRecords(more, ids, detectedAt)
  {
    var p := (v: VideoData) => v.videoId in ids;
    forall r ensures r in BlockedRecords(detected, ids, detectedAt) <==>
      exists v :: v in detected && v.videoId in ids && r == ToDetails(v, detectedAt)
    {
      BlockedRecordsMembership(detected, ids, detectedAt, r);
    }
    FilterAppend(detected, more, p);
    MapAppend(Filter(detected, p), Filter(more, p), (v: VideoData) => ToDetails(v, detectedAt));
  }

  /** What the submitting content script is told (`sendResponse`). */
  datatype Reply = Success | Error(message: string)

  /** `chrome.tabs.sendMessage(tabId, {action: 'filterVideosResponse', ...})` */
  datatype TabMessage = TabMessage(tabId: TabId, data: Option<seq<string>>, error: Option<string>)

  /** A timer callback waiting to run, with what its closure captured. */
  datatype Armed = Armed(tabId: TabId, detected: seq<VideoData>, delay: nat)

  /** A request whose callback has not yet reached its `finally`. */
  datatype Request = Request(tabId: TabId, detected: seq<VideoData>)

  /** The debounce delay of the submit handler, in milliseconds. */
  const DebounceDelay: nat := 300

  /** The module-level maps of the background script, the timers and
      requests they refer to, and the per-tab store they write. */
  class Coordinator {
    /** `debounceTimers`: tab to the handle of its last armed timer. */
    var debounceTimers: map<TabId, nat>
    /** `abortControllers`: tab to the controller of its request. */
    var abortControllers: map<TabId, nat>
    /** The browser's pending timers, by handle. */
    var timers: map<nat, Armed>
    /** The requests still running, by controller. */
    var requests: map<nat, Request>
    /** The controllers `abort()` was called on. */
    var aborted: set<nat>
    /** The next handle the browser gives out; handles are positive. */
    var nextHandle: nat
    /** `blockedVideosByTabStorage`. */
    var store: Tabs.Data

    /** A tab's slot holds the handle of every timer armed for it, so a
        tab has at most one armed timer; while a timer is armed its tab
        has no controller; a controller in a slot belongs to a running,
        unaborted request of that tab; every handle is below `nextHandle`. */
    predicate Valid()
      reads this
    {
      && 1 <= nextHandle
      && (forall t :: t in debounceTimers ==> 1 <= debounceTimers[t] < nextHandle)
      && (forall h :: h in timers ==> timers[h].tabId in debounceTimers && debounceTimers[timers[h].tabId] == h)
      && (forall h :: h in timers ==> timers[h].tabId !in abortControllers)
      && (forall t :: t in abortControllers ==>
            && abortControllers[t] in requests
            && requests[abortControllers[t]].tabId == t
            && abortControllers[t] !in aborted)
      && (forall c :: c in requests ==> 1 <= c < nextHandle)
      && (forall c :: c in aborted ==> c < nextHandle)
    }

    constructor (store: Tabs.Data)
      ensures Valid()
      ensures debounceTimers == map[] && abortControllers == map[]
      ensures timers == map[] && requests == map[] && aborted == {}
      ensures this.store == store
    {
      debounceTimers := map[];
      abortControllers := map[];
      timers := map[];
      requests := map[];
      aborted := {};
      nextHandle := 1;
      this.store := store;
    }

    /** At most one timer is armed per tab. */
    lemma OneTimerPerTab(h1: nat, h2: nat)
      requires Valid() && h1 in timers && h2 in timers
      requires timers[h1].tabId == timers[h2].tabId
      ensures h1 == h2
    {
    }

    /** `clearDebounceTimer`: cancels the timer in the tab's slot, if
        any, and empties the slot. */
    method ClearDebounceTimer(tabId: TabId)
      modifies this
      ensures debounceTimers == old(debounceTimers) - {tabId}
      ensures timers == if tabId in old(debounceTimers) then old(timers) - {old(debounceTimers)[tabId]} else old(timers)
      ensures abortControllers == old(abortControllers) && requests == old(requests) && aborted == old(aborted)
      ensures nextHandle == old(nextHandle) && store == old(store)
    {
      if tabId in debounceTimers {
        timers := timers - {debounceTimers[tabId]};
        debounceTimers := debounceTimers - {tabId};
      }
    }

    /** `abortOngoingRequest`: aborts the controller in the tab's slot,
        if any, and empties the slot. */
    method AbortOngoingRequest(tabId: TabId)
      modifies this
      ensures abortControllers == old(abortControllers) - {tabId}
      ensures aborted == if tabId in old(abortControllers) then old(aborted) + {old(abortControllers)[tabId]} else old(aborted)
      ensures debounceTimers == old(debounceTimers) && timers == old(timers) && requests == old(requests)
      ensures nextHandle == old(nextHandle) && store == old(store)
    {
      if tabId in abortControllers {
        aborted := aborted + {abortControllers[tabId]};
        abortControllers := abortControllers - {tabId};
      }
    }

    /** `cleanupAfterRequest`, in the `finally` of a request's callback:
        the request ends, and the tab's controller slot is emptied
        whichever controller it holds. */
    method CleanupAfterRequest(c: nat)
      requires c in requests
      modifies this
      ensures abortControllers == old(abortControllers) - {old(requests)[c].tabId}
      ensures requests == old(requests) - {c}
      ensures debounceTimers == old(debounceTimers) && timers == old(timers) && aborted == old(aborted)
      ensures nextHandle == old(nextHandle) && store == old(store)
    {
      abortControllers := abortControllers - {requests[c].tabId};
      requests := requests - {c};
    }

    /** A `filterVideosForTab` message. Without a non-empty video list
        the caller gets an error and nothing else happens; otherwise the
        tab's timer is cancelled, its controller aborted, and a new timer
        armed that captures the videos; the caller is answered later. */
    method Submit(tabId: TabId, detectedVideos: Option<seq<VideoData>>) returns (reply: Option<Reply>)
      requires Valid()
      modifies this
      ensures Valid()
      ensures detectedVideos.None? || detectedVideos.value == [] ==>
        reply == Some(Error(NoValidVideos)) && unchanged(this)
      ensures detectedVideos.Some? && detectedVideos.value != [] ==>
        && reply.None?
        && debounceTimers == old(debounceTimers)[tabId := old(nextHandle)]
        && timers == (if tabId in old(debounceTimers) then old(timers) - {old(debounceTimers)[tabId]} else old(timers))
                     [old(nextHandle) := Armed(tabId, detectedVideos.value, DebounceDelay)]
        && abortControllers == old(abortControllers) - {tabId}
        && aborted == (if tabId in old(abortControllers) then old(aborted) + {old(abortControllers)[tabId]} else old(aborted))
        && requests == old(requests) && store == old(store)
        && nextHandle == old(nextHandle) + 1
    {
      if detectedVideos.None? || detectedVideos.value == [] {
        return Some(Error(NoValidVideos));
      }
      ClearDebounceTimer(tabId);
      AbortOngoingRequest(tabId);
      var h := nextHandle;
      nextHandle := nextHandle + 1;
      debounceTimers := debounceTimers[tabId := h];
      timers := timers[h := Armed(tabId, detectedVideos.value, DebounceDelay)];
      reply := None;
    }

    /** The armed timer `h` runs: a new controller goes into the tab's
        slot, the settings read are `config`, and the request body is
        sent. The timer slot keeps the spent handle. */
    method TimerFired(h: nat, config: FilterConfig, now: int) returns (c: nat, body: Payload)
      requires Valid() && h in timers
      modifies this
      ensures Valid()
      ensures c == old(nextHandle) && c !in old(requests)
      ensures body == BuildPayload(old(timers)[h].detected, config, now)
      ensures abortControllers == old(abortControllers)[old(timers)[h].tabId := c]
      ensures requests == old(requests)[c := Request(old(timers)[h].tabId, old(timers)[h].detected)]
      ensures timers == old(timers) - {h}
      ensures debounceTimers == old(debounceTimers) && aborted == old(aborted) && store == old(store)
      ensures nextHandle == old(nextHandle) + 1
    {
      var armed := timers[h];
      timers := timers - {h};
      c := nextHandle;
      nextHandle := nextHandle + 1;
      abortControllers := abortControllers[armed.tabId := c];
      requests := requests[c := Request(armed.tabId, armed.detected)];
      body := BuildPayload(armed.detected, config, now);
    }

    /** The service answered with an ok status and `items`: the tab's
        store entry is replaced with its detected videos and their
        flagged records, the flagged ids go to the tab, the caller gets
        success, and the request is cleaned up. */
    method ResponseOk(c: nat, items: seq<Verdict>, detectedAt: string) returns (message: Option<TabMessage>, reply: Reply)
      requires Valid() && c in requests && c !in aborted
      modifies this
      ensures Valid()
      ensures var r := old(requests)[c];
        && store == Tabs.UpdateTabBlacklist(old(store), r.tabId, r.detected,
                                            BlockedRecords(r.detected, BlockedIds(items), detectedAt))
        && message == Some(TabMessage(r.tabId, Some(BlockedIds(items)), None))
        && abortControllers == old(abortControllers) - {r.tabId}
      ensures reply == Success
      ensures requests == old(requests) - {c}
      ensures debounceTimers == old(debounceTimers) && timers == old(timers) && aborted == old(aborted)
      ensures nextHandle == old(nextHandle)
    {
      var r := requests[c];
      var ids := BlockedIds(items);
      var records := BlockedRecords(r.detected, ids, detectedAt);
      store := Tabs.UpdateTabBlacklist(store, r.tabId, r.detected, records);
      message := Some(TabMessage(r.tabId, Some(ids), None));
      reply := Success;
      CleanupAfterRequest(c);
    }

    /** The service answered with a non-ok status: the caller gets the
        status in an error, the tab hears nothing, the store is left
        alone, and the request is cleaned up. */
    method ResponseHttpError(c: nat, status: nat) returns (message: Option<TabMessage>, reply: Reply)
      requires Valid() && c in requests && c !in aborted
      modifies this
      ensures Valid()
      ensures message.None? && reply == Error(HttpErrorPrefix + Strings.NatToString(status))
      ensures abortControllers == old(abortControllers) - {old(requests)[c].tabId}
      ensures requests == old(requests) - {c} && store == old(store)
      ensures debounceTimers == old(debounceTimers) && timers == old(timers) && aborted == old(aborted)
      ensures nextHandle == old(nextHandle)
    {
      message := None;
      reply := Error(HttpErrorPrefix + Strings.NatToString(status));
      CleanupAfterRequest(c);
    }

    /** An aborted request rejects with an `AbortError` carrying
        `errorMessage`: the tab hears nothing, the caller still gets an
        error, and the request is cleaned up, emptying the tab's
        controller slot even when it now holds a newer request's. */
    method Aborted(c: nat, errorMessage: string) returns (message: Option<TabMessage>, reply: Reply)
      requires Valid() && c in requests && c in aborted
      modifies this
      ensures Valid()
      ensures message.None? && reply == Error(errorMessage)
      ensures abortControllers == old(abortControllers) - {old(requests)[c].tabId}
      ensures requests == old(requests) - {c} && store == old(store)
      ensures debounceTimers == old(debounceTimers) && timers == old(timers) && aborted == old(aborted)
      ensures nextHandle == old(nextHandle)
    {
      message := None;
      reply := Error(errorMessage);
      CleanupAfterRequest(c);
    }

    /** Any other failure of a running request: the tab gets a message
        with no data and the error text, the caller gets the same error,
        and the request is cleaned up. */
    method OtherError(c: nat, errorMessage: string) returns (message: Option<TabMessage>, reply: Reply)
      requires Valid() && c in requests && c !in aborted
      modifies this
      ensures Valid()
      ensures message == Some(TabMessage(old(requests)[c].tabId, None, Some(errorMessage)))
      ensures reply == Error(errorMessage)
      ensures abortControllers == old(abortControllers) - {old(requests)[c].tabId}
      ensures requests == old(requests) - {c} && store == old(store)
      ensures debounceTimers == old(debounceTimers) && timers == old(timers) && aborted == old(aborted)
      ensures nextHandle == old(nextHandle)
    {
      message := Some(TabMessage(requests[c].tabId, None, Some(errorMessage)));
      reply := Error(errorMessage);
      CleanupAfterRequest(c);
    }

    /** A tab closes: its store entry is deleted, its timer cancelled
        and its request aborted. */
    method TabClosed(tabId: TabId)
      requires Valid()
      modifies this
      ensures Valid()
      ensures store == Tabs.ClearTabBlacklist(old(store), tabId)
      ensures debounceTimers == old(debounceTimers) - {tabId}
      ensures timers == if tabId in old(debounceTimers) then old(timers) - {old(debounceTimers)[tabId]} else old(timers)
      ensures abortControllers == old(abortControllers) - {tabId}
      ensures aborted == if tabId in old(abortControllers) then old(aborted) + {old(abortControllers)[tabId]} else old(aborted)
      ensures requests == old(requests) && nextHandle == old(nextHandle)
    {
      store := Tabs.ClearTabBlacklist(store, tabId);
      ClearDebounceTimer(tabId);
      AbortOngoingRequest(tabId);
    }
  }

  /** Two submits for a tab before its timer fires: the first one's
      timer is cancelled and its caller never answered, so the one
      request sent carries the second batch of videos. */
  method LastSubmitWins(tabId: TabId, first: seq<VideoData>, second: seq<VideoData>, config: FilterConfig, now: int)
    returns (firstReply: Option<Reply>, firstStillArmed: bool, body: Payload)
    requires first != [] && second != []
    ensures firstReply.None? && !firstStillArmed
    ensures body == BuildPayload(second, config, now)
  {
    var co := new Coordinator(Tabs.Initial);
    firstReply := co.Submit(tabId, Some(first));
    var h1 := co.debounceTimers[tabId];
    var _ := co.Submit(tabId, Some(second));
    firstStillArmed := h1 in co.timers;
    var _, b := co.TimerFired(co.debounceTimers[tabId], config, now);
    body := b;
  }

  /** An empty video list is rejected before any slot is touched: a
      timer armed earlier stays armed. */
  method EmptySubmitKeepsTimer(tabId: TabId, videos: seq<VideoData>) returns (reply: Option<Reply>, stillArmed: bool)
    requires videos != []
    ensures reply == Some(Error(NoValidVideos))
    ensures stillArmed
  {
    var co := new Coordinator(Tabs.Initial);
    var _ := co.Submit(tabId, Some(videos));
    var h := co.debounceTimers[tabId];
    reply := co.Submit(tabId, Some([]));
    stillArmed := h in co.timers;
  }

  /** A flagged id that was not among the detected videos still reaches
      the tab, but gets no record in the store. */
  method UnknownIdForwarded(tabId: TabId, v: VideoData, stranger: string, detectedAt: string)
    returns (message: Option<TabMessage>, entry: Tabs.TabEntry)
    requires stranger != v.videoId
    ensures message.Some? && message.value.data.Some? && stranger in message.value.data.value
    ensures entry.detectedVideos == Some([v]) && entry.blacklisted == []
  {
    var co := new Coordinator(Tabs.Initial);
    var _ := co.Submit(tabId, Some([v]));
    var c, _ := co.TimerFired(co.debounceTimers[tabId], FilterConfig(None, None, false), 0);
    var items := [Verdict(stranger, "", true)];
    var reply;
    message, reply := co.ResponseOk(c, items, detectedAt);
    assert BlockedIds(items) == [stranger];
    assert BlockedRecords([v], [stranger], detectedAt) == [];
    entry := co.store.tabs.value[tabId];
  }

  /** A superseded request whose abort is handled only after the newer
      request has started empties the tab's controller slot; the next
      submit then finds nothing to abort, and the newer request runs on,
      unaborted, beside the newest one, which holds the slot. */
  method StaleCleanup(tabId: TabId, videos: seq<VideoData>, config: FilterConfig)
    returns (newer: nat, newest: nat, newerRunning: bool, newerAborted: bool, slot: Option<nat>)
    requires videos != []
    ensures newer != newest
    ensures newerRunning && !newerAborted
    ensures slot == Some(newest)
  {
    var co := new Coordinator(Tabs.Initial);
    var _ := co.Submit(tabId, Some(videos));
    var c1, _ := co.TimerFired(co.debounceTimers[tabId], config, 0);
    var _ := co.Submit(tabId, Some(videos));
    var c2, _ := co.TimerFired(co.debounceTimers[tabId], config, 0);
    newer := c2;
    var _, _ := co.Aborted(c1, "signal is aborted without reason");
    var _ := co.Submit(tabId, Some(videos));
    var c3, _ := co.TimerFired(co.debounceTimers[tabId], config, 0);
    newest := c3;
    newerRunning := newer in co.requests;
    newerAborted := newer in co.aborted;
    slot := if tabId in co.abortControllers then Some(co.abortControllers[tabId]) else None;
  }
}
