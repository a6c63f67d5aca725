/** The per-tab store of detected and blocked videos
    (packages/storage/lib/blockedVideosByTabStorage.ts). Each operation
    hands the store an updater from the current value to the next one;
    here each updater is a function from state to state. */
module BlockedVideosByTabStorage {
  import opened Seqs
  import opened StorageTypes

  type TabId = int

  /** One tab's entry. `detectedVideos` is absent only in an entry that
      `RemoveVideoFromTabBlacklist` created for a tab that had none. */
  datatype TabEntry = TabEntry(detectedVideos: Option<seq<VideoData>>, blacklisted: seq<BlockedVideoDetails>)

  /** The stored value. `tabs` is optional because some updaters guard
      against its absence; `TabsStayDefined` shows it never is absent. */
  datatype Data = Data(tabs: Option<map<TabId, TabEntry>>)

  /** The value the store starts with: no tabs. */
  const Initial: Data := Data(Some(map[]))

  /** `current.tabs || {}` */
  function TabsOrEmpty(d: Data): map<TabId, TabEntry>
  {
    if d.tabs.Some? then d.tabs.value else map[]
  }

  /** The tab's blacklist, or the empty list for a tab without entry. */
  function ExistingBlacklist(tabs: map<TabId, TabEntry>, tabId: TabId): seq<BlockedVideoDetails>
  {
    if tabId in tabs then tabs[tabId].blacklisted else []
  }

  /** Appends `videoDetails` to the tab's blacklist and replaces its
      detected videos. */
  function AddVideoToTabBlacklist(d: Data, tabId: TabId, detectedVideos: seq<VideoData>,
                                  videoDetails: BlockedVideoDetails): (r: Data)
    ensures r.tabs.Some? && tabId in r.tabs.value
    ensures r.tabs.value[tabId].detectedVideos == Some(detectedVideos)
    ensures r.tabs.value[tabId].blacklisted == ExistingBlacklist(TabsOrEmpty(d), tabId) + [videoDetails]
    ensures r.tabs.value - {tabId} == TabsOrEmpty(d) - {tabId}
  {
    var tabs := TabsOrEmpty(d);
    var existing := if tabId in tabs then tabs[tabId] else TabEntry(Some([]), []);
    Data(Some(tabs[tabId := TabEntry(Some(detectedVideos), existing.blacklisted + [videoDetails])]))
  }

  /** Replaces the tab's entry wholesale. */
  function UpdateTabBlacklist(d: Data, tabId: TabId, detectedVideos: seq<VideoData>,
                              newBlacklist: seq<BlockedVideoDetails>): (r: Data)
    ensures r.tabs.Some? && tabId in r.tabs.value
    ensures r.tabs.value[tabId] == TabEntry(Some(detectedVideos), newBlacklist)
    ensures r.tabs.value - {tabId} == TabsOrEmpty(d) - {tabId}
  {
    Data(Some(TabsOrEmpty(d)[tabId := TabEntry(Some(detectedVideos), newBlacklist)]))
  }

  /** Drops every blacklist entry with `videoId` from the tab. Reading
      `current.tabs[tabId]` throws when `tabs` is undefined; for a tab
      without entry the spread of `undefined` contributes nothing, so the
      new entry has only an empty blacklist. */
  function RemoveVideoFromTabBlacklist(d: Data, tabId: TabId, videoId: string): (r: Result<Data>)
    ensures r.Ok? <==> d.tabs.Some?
    ensures r.Ok? ==> r.value.tabs.Some? && tabId in r.value.tabs.value
    ensures r.Ok? ==> r.value.tabs.value - {tabId} == d.tabs.value - {tabId}
    ensures r.Ok? && tabId !in d.tabs.value ==> r.value.tabs.value[tabId] == TabEntry(None, [])
    ensures r.Ok? && tabId in d.tabs.value ==>
      r.value.tabs.value[tabId].detectedVideos == d.tabs.value[tabId].detectedVideos
    ensures r.Ok? ==> forall b :: b in r.value.tabs.value[tabId].blacklisted <==>
      b in ExistingBlacklist(d.tabs.value, tabId) && b.videoId != videoId
  {
    match d.tabs
    case None => TypeError
    case Some(tabs) =>
      var kept := Filter(ExistingBlacklist(tabs, tabId), (b: BlockedVideoDetails) => b.videoId != videoId);
      var entry := if tabId in tabs then tabs[tabId].(blacklisted := kept) else TabEntry(None, kept);
      assert forall b :: b in kept <==> b in ExistingBlacklist(tabs, tabId) && b.videoId != videoId by {
        forall b ensures b in kept <==> b in ExistingBlacklist(tabs, tabId) && b.videoId != videoId {
          FilterMembership(ExistingBlacklist(tabs, tabId), (b: BlockedVideoDetails) => b.videoId != videoId, b);
        }
      }
      Ok(Data(Some(tabs[tabId := entry])))
  }

  /** `list.some(video => video.videoId === videoId)` */
  function SomeHasId(list: seq<BlockedVideoDetails>, videoId: string): (r: bool)
    ensures r <==> exists i :: 0 <= i < |list| && list[i].videoId == videoId
    decreases |list|
  {
    if list == [] then false
    else if list[0].videoId == videoId then true
    else
      var rest := SomeHasId(list[1..], videoId);
      assert rest ==> exists i :: 0 <= i < |list| && list[i].videoId == videoId by {
        if rest {
          var i :| 0 <= i < |list[1..]| && list[1..][i].videoId == videoId;
          assert list[i + 1].videoId == videoId;
        }
      }
      assert (exists i :: 0 <= i < |list| && list[i].videoId == videoId) ==> rest by {
        if exists i :: 0 <= i < |list| && list[i].videoId == videoId {
          var i :| 0 <= i < |list| && list[i].videoId == videoId;
          assert i > 0 && list[1..][i - 1].videoId == videoId;
        }
      }
      rest
  }

  /** Whether the tab's blacklist holds `videoId`; false for a tab
      without entry, and a TypeError when `tabs` is undefined. */
  function IsVideoBlacklistedInTab(d: Data, tabId: TabId, videoId: string): (r: Result<bool>)
    ensures r.Ok? <==> d.tabs.Some?
    ensures r.Ok? && tabId !in d.tabs.value ==> !r.value
    ensures r.Ok? && tabId in d.tabs.value ==>
      (r.value <==> exists b :: b in d.tabs.value[tabId].blacklisted && b.videoId == videoId)
  {
    match d.tabs
    case None => TypeError
    case Some(tabs) => Ok(SomeHasId(ExistingBlacklist(tabs, tabId), videoId))
  }

  /** Deletes the tab's key; an undefined `tabs` is left as it is. */
  function ClearTabBlacklist(d: Data, tabId: TabId): (r: Data)
    ensures d.tabs.None? ==> r == d
    ensures d.tabs.Some? ==> r.tabs.Some? && tabId !in r.tabs.value
    ensures d.tabs.Some? ==> r.tabs.value - {tabId} == d.tabs.value - {tabId}
  {
    match d.tabs
    case None => d
    case Some(tabs) => Data(Some(tabs - {tabId}))
  }

  /** After the tab's entry is replaced with `newBlacklist`, a video
      counts as blacklisted in that tab exactly when `newBlacklist` has
      an entry with its id. */
  lemma UpdateThenQuery(d: Data, tabId: TabId, detectedVideos: seq<VideoData>,
                        newBlacklist: seq<BlockedVideoDetails>, videoId: string)
    ensures IsVideoBlacklistedInTab(UpdateTabBlacklist(d, tabId, detectedVideos, newBlacklist), tabId, videoId)
         == Ok(exists b :: b in newBlacklist && b.videoId == videoId)
  {
  }

  /** After removal the video is no longer blacklisted in that tab,
      and the answer for every other tab is unchanged. */
  lemma RemoveThenQuery(d: Data, tabId: TabId, videoId: string, other: TabId, otherVideo: string)
    requires d.tabs.Some?
    ensures IsVideoBlacklistedInTab(RemoveVideoFromTabBlacklist(d, tabId, videoId).value, tabId, videoId) == Ok(false)
    ensures other != tabId ==>
      IsVideoBlacklistedInTab(RemoveVideoFromTabBlacklist(d, tabId, videoId).value, other, otherVideo)
      == IsVideoBlacklistedInTab(d, other, otherVideo)
  {
    var r := RemoveVideoFromTabBlacklist(d, tabId, videoId).value;
    assert r.tabs.value[tabId] in r.tabs.value.Values;
    if other != tabId {
      assert other in r.tabs.value <==> other in (r.tabs.value - {tabId});
      assert other in d.tabs.value <==> other in (d.tabs.value - {tabId});
      if other in r.tabs.value {
        assert r.tabs.value[other] == (r.tabs.value - {tabId})[other];
      }
    }
  }

  /** The entry removal keeps is the old blacklist with `videoId`
      filtered out, in the original order. */
  lemma RemoveKeepsOrder(d: Data, tabId: TabId, videoId: string)
    requires d.tabs.Some?
    ensures RemoveVideoFromTabBlacklist(d, tabId, videoId).value.tabs.value[tabId].blacklisted
         == Filter(ExistingBlacklist(d.tabs.value, tabId), (b: BlockedVideoDetails) => b.videoId != videoId)
  {
  }

  /** Closing a tab after its entry was written removes it again and
      leaves every other tab as the write found it. */
  lemma ClearAfterUpdate(d: Data, tabId: TabId, detectedVideos: seq<VideoData>,
                         newBlacklist: seq<BlockedVideoDetails>)
    requires d.tabs.Some?
    ensures ClearTabBlacklist(UpdateTabBlacklist(d, tabId, detectedVideos, newBlacklist), tabId)
         == ClearTabBlacklist(d, tabId)
  {
    var u := UpdateTabBlacklist(d, tabId, detectedVideos, newBlacklist);
    assert u.tabs.value - {tabId} == d.tabs.value - {tabId};
  }

  /** Replacing an entry twice is the same as replacing it once with the
      second value: the last write wins. */
  lemma UpdateLastWriteWins(d: Data, tabId: TabId, dv1: seq<VideoData>, bl1: seq<BlockedVideoDetails>,
                            dv2: seq<VideoData>, bl2: seq<BlockedVideoDetails>)
    ensures UpdateTabBlacklist(UpdateTabBlacklist(d, tabId, dv1, bl1), tabId, dv2, bl2)
         == UpdateTabBlacklist(d, tabId, dv2, bl2)
  {
    var once := UpdateTabBlacklist(d, tabId, dv2, bl2);
    var twice := UpdateTabBlacklist(UpdateTabBlacklist(d, tabId, dv1, bl1), tabId, dv2, bl2);
    assert twice.tabs.value == once.tabs.value;
  }

  /** The calls a client makes on the store, each applied through
      `storage.set(updater)`. */
  datatype Op =
    | AddVideo(tabId: TabId, detectedVideos: seq<VideoData>, videoDetails: BlockedVideoDetails)
    | Update(tabId: TabId, detectedVideos: seq<VideoData>, newBlacklist: seq<BlockedVideoDetails>)
    | Remove(tabId: TabId, videoId: string)
    | Clear(tabId: TabId)

  /** One `set` call: an updater that throws leaves the value as it was. */
  function Apply(d: Data, op: Op): Data
  {
    match op
    case AddVideo(t, dv, v) => AddVideoToTabBlacklist(d, t, dv, v)
    case Update(t, dv, bl) => UpdateTabBlacklist(d, t, dv, bl)
    case Remove(t, v) =>
      var r := RemoveVideoFromTabBlacklist(d, t, v);
      if r.Ok? then r.value else d
    case Clear(t) => ClearTabBlacklist(d, t)
  }

  function Run(d: Data, ops: seq<Op>): Data
    decreases |ops|
  {
    if ops == [] then d else Run(Apply(d, ops[0]), ops[1..])
  }

  /** From the initial value, `tabs` is defined after any sequence of
      updates, so neither the removal nor the query can throw on a store
      that only these operations have written. */
  lemma {:induction false} TabsStayDefined(d: Data, ops: seq<Op>)
    requires d.tabs.Some?
    ensures Run(d, ops).tabs.Some?
    ensures forall t, v :: RemoveVideoFromTabBlacklist(Run(d, ops), t, v).Ok?
    ensures forall t, v :: IsVideoBlacklistedInTab(Run(d, ops), t, v).Ok?
    decreases |ops|
  {
    if ops != [] {
      TabsStayDefined(Apply(d, ops[0]), ops[1..]);
    }
  }
}
