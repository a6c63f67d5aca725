# YouTube video filter extension — verified model

This project models the logic of a browser extension that hides YouTube
videos. The extension has four layers:

- **Content scripts** find the video listings on the page: the change
  detectors, plus a content script that toggles a `blocked` class. They
  work by routing on the URL, extracting the 11-character video id from
  each listing's link, and falling back through title sources. They mark
  each listing element with `detected-video`.
- **A debounce helper** delays a callback until calls stop arriving.
- **A background coordinator** collects the detected videos per tab:
  - it debounces submissions per tab;
  - it aborts the tab's superseded request;
  - it builds the classification request from the stored filter
    settings;
  - it writes the classifier's verdicts to the per-tab store and tells
    the tab.
- **Five key-value stores**, each changed only through
  `set(current => next)` updaters.

The model keeps the source's own form, module by module:

- Store updaters are functions from state to state.
- Each change detector is a class over a `Page` object, whose
  `renderers` are the video elements in document order. Its loops are
  proved against recursive specification functions.
- The content script is a class that holds the ids it last read. Its
  `updateDomClasses` loops toggle a class on the page.
- The debounce closure is a class with one `handler` slot.
- The coordinator is a class with the two per-tab maps, `debounceTimers`
  and `abortControllers`. The browser's timer table, the running
  requests and the aborted controllers are explicit state beside them.
  - Timers, controllers and requests are abstract handles.
  - Outgoing tab messages, replies to the submitting script and the
    request body are output values.
  - The clock (`Date.now()`), the ISO time stamp, the settings read
    from storage, the HTTP status and the parsed response are
    parameters.

Source modules map to Dafny modules as follows:

| source | module |
|---|---|
| `packages/storage/lib/types.ts` | `StorageTypes` (data only) |
| `packages/storage/lib/blockedVideosByTabStorage.ts` | `BlockedVideosByTabStorage` |
| `packages/storage/lib/extensionStorage.ts` | `ExtensionStorage` |
| `packages/storage/lib/blacklistedVideosStorage.ts` | `BlacklistedVideosStorage` |
| `packages/storage/lib/blacklistStorage.ts` | `BlacklistStorage` |
| `packages/storage/lib/authStorage.ts` | `AuthStorage` |
| `pages/content/lib/YouTubeChangeDetector.ts` | `VideoQuery` (routing, id and title extraction, the query) and `YouTubeChangeDetector` |
| `pages/content/lib/YoutubeChangeDetector2.ts` | `YouTubeChangeDetector2` |
| `pages/content/lib/old-index.ts` | `ContentScript` |
| `pages/content/lib/util.ts` | `Debounce` |
| `chrome-extension/lib/background/index.ts` and `types.ts` | `Background` |

`Seqs` (Option, Result, order-preserving `Filter`, `Map`),
`StringLists` (append, remove-all, `includes`), `Strings` (substring
search, JavaScript `trim`, decimal rendering) and `Dom` (elements,
class-list edits, the `Page` object) are shared helpers.

## Model

| member | source | states |
|---|---|---|
| BlockedVideosByTabStorage.AddVideoToTabBlacklist | packages/storage/lib/blockedVideosByTabStorage.ts:26-46 | the tab's detected videos become the argument and `videoDetails` is appended to its existing blacklist (empty when the tab or `tabs` is missing); every other tab is unchanged |
| BlockedVideosByTabStorage.UpdateTabBlacklist | packages/storage/lib/blockedVideosByTabStorage.ts:49-68 | the tab's entry is exactly `{detectedVideos, newBlacklist}` and every other tab is unchanged; a missing `tabs` counts as empty |
| BlockedVideosByTabStorage.RemoveVideoFromTabBlacklist | packages/storage/lib/blockedVideosByTabStorage.ts:71-82 | throws exactly when `tabs` is undefined; otherwise the tab keeps exactly the entries with another id and keeps its detected videos; an absent tab gets an entry with only an empty blacklist; other tabs are unchanged |
| BlockedVideosByTabStorage.RemoveKeepsOrder | packages/storage/lib/blockedVideosByTabStorage.ts:78 | the remaining blacklist is the old one filtered in order |
| BlockedVideosByTabStorage.SomeHasId | packages/storage/lib/blockedVideosByTabStorage.ts:87 | `some(video => video.videoId === id)` holds iff some position has that id |
| BlockedVideosByTabStorage.IsVideoBlacklistedInTab | packages/storage/lib/blockedVideosByTabStorage.ts:85-88 | throws iff `tabs` is undefined; false for an absent tab; otherwise true iff the tab's blacklist has an entry with the id |
| BlockedVideosByTabStorage.ClearTabBlacklist | packages/storage/lib/blockedVideosByTabStorage.ts:91-103 | an undefined `tabs` leaves the value unchanged; otherwise only the tab's key is removed |
| BlockedVideosByTabStorage.UpdateThenQuery | packages/storage/lib/blockedVideosByTabStorage.ts:49-88 | after an update the query answers whether the new blacklist has an entry with the id |
| BlockedVideosByTabStorage.RemoveThenQuery | packages/storage/lib/blockedVideosByTabStorage.ts:71-88 | after removal the id is not blacklisted in that tab, and every other tab answers as before |
| BlockedVideosByTabStorage.ClearAfterUpdate | packages/storage/lib/blockedVideosByTabStorage.ts:49-103 | clearing a tab after writing it is the same as clearing it directly |
| BlockedVideosByTabStorage.UpdateLastWriteWins | packages/storage/lib/blockedVideosByTabStorage.ts:49-68 | two writes to one tab equal the second write alone |
| BlockedVideosByTabStorage.TabsStayDefined | packages/storage/lib/blockedVideosByTabStorage.ts:10-14 | starting from defined `tabs` (the initial `{}`), any sequence of updaters keeps `tabs` defined, so removal and the query never throw |
| ExtensionStorage.UpdateInstructions | packages/storage/lib/extensionStorage.ts:25-30 | only `instructions` changes |
| ExtensionStorage.AddToFilterList | packages/storage/lib/extensionStorage.ts:34-39 | the term is appended at the end, duplicates kept; nothing else changes |
| ExtensionStorage.UpdateFilterList | packages/storage/lib/extensionStorage.ts:42-47 | the filter list becomes the argument; nothing else changes |
| ExtensionStorage.RemoveFromFilterList | packages/storage/lib/extensionStorage.ts:50-55 | the new list is `RemoveAll` of the old one: the term is gone, and every other term keeps its multiplicity and its order; nothing else changes |
| ExtensionStorage.ClearFilterList | packages/storage/lib/extensionStorage.ts:58-63 | the filter list becomes empty; nothing else changes |
| ExtensionStorage.SetBlockList | packages/storage/lib/extensionStorage.ts:67-72 | only `listMode` changes |
| ExtensionStorage.SetThenGetBlockList | packages/storage/lib/extensionStorage.ts:67-78 | `getBlockList` after `setBlockList(m)` returns m, also after a filter-list update |
| ExtensionStorage.AddVideoToBlacklist | packages/storage/lib/extensionStorage.ts:82-91 | the id is appended to the list, and a list that is not an array counts as empty |
| ExtensionStorage.UpdateVideoBlacklist | packages/storage/lib/extensionStorage.ts:94-99 | the id list becomes the argument |
| ExtensionStorage.RemoveVideoFromBlacklist | packages/storage/lib/extensionStorage.ts:102-107 | throws iff the list is missing; otherwise the new list is `RemoveAll` of the old one: the id is gone, and every other id keeps its multiplicity and its order; nothing else changes |
| ExtensionStorage.ClearAllVideosFromBlacklist | packages/storage/lib/extensionStorage.ts:110-115 | the id list becomes empty; nothing else changes |
| ExtensionStorage.IsVideoBlacklisted | packages/storage/lib/extensionStorage.ts:118-121 | throws iff the list is missing; otherwise membership |
| ExtensionStorage.VideoIdsStayDefined | packages/storage/lib/extensionStorage.ts:5-121 | from the initial value, any sequence of updaters keeps the id list defined, so removal and the query never throw |
| ExtensionStorage.AddThenRemoveQuery | packages/storage/lib/extensionStorage.ts:82-121 | an id is blacklisted right after add, whatever the list held, and not blacklisted after remove |
| BlacklistedVideosStorage.UpdateInstructions | packages/storage/lib/blacklistedVideosStorage.ts:20-25 | only `instructions` changes |
| BlacklistedVideosStorage.AddVideoToBlacklist | packages/storage/lib/blacklistedVideosStorage.ts:28-37 | the id is appended after the old list, and a list that is not an array counts as empty; instructions are unchanged |
| BlacklistedVideosStorage.RemoveVideoFromBlacklist | packages/storage/lib/blacklistedVideosStorage.ts:40-45 | throws iff the list is missing; otherwise the new list is `RemoveAll` of the old one: the id is gone, every other id keeps its multiplicity and its order, and instructions are unchanged |
| BlacklistedVideosStorage.ClearAllVideosFromBlacklist | packages/storage/lib/blacklistedVideosStorage.ts:48-53 | the id list becomes empty and instructions are unchanged |
| BlacklistedVideosStorage.IsVideoBlacklisted | packages/storage/lib/blacklistedVideosStorage.ts:56-59 | throws iff the list is missing; otherwise membership |
| BlacklistedVideosStorage.AddRemoveQuery | packages/storage/lib/blacklistedVideosStorage.ts:5-59 | no id is listed initially; an id is listed after add and not after remove; removal leaves every other id's answer unchanged |
| BlacklistedVideosStorage.ClearIdempotent | packages/storage/lib/blacklistedVideosStorage.ts:48-53 | clearing twice equals clearing once |
| BlacklistedVideosStorage.VideoIdsStayDefined | packages/storage/lib/blacklistedVideosStorage.ts:5-59 | from the initial value, any sequence of updaters keeps the id list defined, so removal and the query never throw |
| BlacklistStorage.AddVideoToBlacklist | packages/storage/lib/blacklistStorage.ts:16-18 | the id is appended after the old list, duplicates allowed |
| BlacklistStorage.RemoveVideoFromBlacklist | packages/storage/lib/blacklistStorage.ts:19-24 | the new list is `RemoveAll` of the old one: the id is gone, and every other id keeps its multiplicity and its order |
| BlacklistStorage.IsVideoBlacklisted | packages/storage/lib/blacklistStorage.ts:25-28 | membership |
| BlacklistStorage.AddRemoveQuery | packages/storage/lib/blacklistStorage.ts:7-28 | false initially, true after add, false after remove even when the id was added twice |
| BlacklistStorage.AddThenRemove | packages/storage/lib/blacklistStorage.ts:16-24 | add then remove equals remove alone, so the other ids keep their order |
| AuthStorage.UpdateAuthToken | packages/storage/lib/authStorage.ts:20-22 | the token is stored, the user is logged in, and `userId` is unchanged |
| AuthStorage.ClearAuthToken | packages/storage/lib/authStorage.ts:23-25 | the token is emptied, the user is logged out, and `userId` is unchanged |
| AuthStorage.UpdateUserId | packages/storage/lib/authStorage.ts:26-28 | only `userId` changes |
| AuthStorage.ClearAuthTokenIdempotent | packages/storage/lib/authStorage.ts:9-25 | logging out is idempotent and undoes a login; logging out after a login from the initial state gives the initial state |
| StringLists.AppendTreatingMissingAsEmpty | packages/storage/lib/blacklistedVideosStorage.ts:30-34 | the result is the old list (or nothing) followed by the id |
| StringLists.RemoveAllAppend | packages/storage/lib/blacklistedVideosStorage.ts:43 | `filter(id => id !== v)` keeps order: nothing from the empty list, a single element kept iff it is not `v`, and it distributes over concatenation |
| StringLists.RemoveAllMultiplicity | packages/storage/lib/blacklistedVideosStorage.ts:43 | `filter(id => id !== v)` drops every `v` and keeps every other id's count |
| VideoQuery.Route | pages/content/lib/YouTubeChangeDetector.ts:72-81 | sidebar iff the URL contains "watch"; search iff it contains "results" but not "watch"; homepage otherwise |
| VideoQuery.FirstMatchFromSpec | pages/content/lib/YouTubeChangeDetector.ts:109-114 | the scan finds the leftmost position where "/watch?v=" is followed by 11 id characters |
| VideoQuery.ExtractVideoIdSpec | pages/content/lib/YouTubeChangeDetector.ts:109-117 | an id is found iff the pattern matches somewhere; it is the 11 characters after the leftmost match, all from `[A-Za-z0-9_-]` |
| VideoQuery.ExtractFromWatchLink | pages/content/lib/YouTubeChangeDetector.ts:113-117 | a link holding "/watch?v=" and an 11-character id, with no earlier match, yields that id |
| VideoQuery.NoIdInEmptyHref | pages/content/lib/YouTubeChangeDetector.ts:113-114 | a missing anchor (href `''`) yields no id |
| VideoQuery.ExtractTitleSpec | pages/content/lib/YouTubeChangeDetector.ts:134-147 | `''` with no anchor; otherwise the trimmed title attribute if it is non-empty; otherwise the trimmed span text or `''`; always trimmed |
| VideoQuery.Listing | pages/content/lib/YouTubeChangeDetector.ts:111-127 | a listing refers to its own element and carries the routed kind |
| VideoQuery.Candidates | pages/content/lib/YouTubeChangeDetector.ts:111-127 | one optional listing per element, in document order |
| VideoQuery.CollectSound | pages/content/lib/YouTubeChangeDetector.ts:111-128 | every listing the filter keeps is the one present at its element |
| VideoQuery.CollectInOrder | pages/content/lib/YouTubeChangeDetector.ts:111-128 | kept listings refer to strictly increasing elements |
| VideoQuery.CollectComplete | pages/content/lib/YouTubeChangeDetector.ts:111-128 | every present listing is kept |
| VideoQuery.QueryVideosSpec | pages/content/lib/YouTubeChangeDetector.ts:107-129 | exactly the matching renderers yield listings, in document order, each drawn from its own element |
| VideoQuery.QueryIgnoresClasses | pages/content/lib/YouTubeChangeDetector.ts:107-129 | the query reads no class list, so marking elements does not change what it finds |
| YouTubeChangeDetector.Unreported | pages/content/lib/YouTubeChangeDetector.ts:50-58 | the callback calls are at most one per video; each carries the given URL and a video whose element was unmarked |
| YouTubeChangeDetector.AllMarkedNoReports | pages/content/lib/YouTubeChangeDetector.ts:52-57 | when every element is marked, no callback is made |
| YouTubeChangeDetector.ReportedAtMostOnce | pages/content/lib/YouTubeChangeDetector.ts:50-58 | a second mutation over the marked page finds the same videos and reports none, so each element is reported at most once |
| YouTubeChangeDetector.MarkStep | pages/content/lib/YouTubeChangeDetector.ts:52-57 | one loop step: the next video's element is still untouched, and it is reported and marked exactly when it lacks the mark |
| YouTubeChangeDetector.WalkSpec | pages/content/lib/YouTubeChangeDetector.ts:52-57 | over videos in document order the loop reports exactly the videos whose element was unmarked beforehand and marks every video's element |
| YouTubeChangeDetector.Detector.constructor | pages/content/lib/YouTubeChangeDetector.ts:15-22 | the detector starts iff the host name contains "youtube.com", and it records the location at construction |
| YouTubeChangeDetector.Detector.QueryVideosBasedOnUrl | pages/content/lib/YouTubeChangeDetector.ts:72-81 | returns the query for the live location's route, in document order |
| YouTubeChangeDetector.Detector.ReportUnmarked | pages/content/lib/YouTubeChangeDetector.ts:52-57 | the `forEach` loop reports exactly the unmarked videos with `currentUrl` and marks every video's element |
| YouTubeChangeDetector.Detector.OnMutation | pages/content/lib/YouTubeChangeDetector.ts:50-58 | reports the listings of the live location whose element was unmarked; afterwards all their elements are marked |
| YouTubeChangeDetector.NavigateThenMutate | pages/content/lib/YouTubeChangeDetector.ts:50-81 | after a navigation, the listings follow the new location while every report carries the construction-time URL |
| YouTubeChangeDetector2.MarkedExactlyMatched | pages/content/lib/YoutubeChangeDetector2.ts:50-62 | after `onMutation` an element carries `detected-video` iff it yields a listing for the live location; no other class changes; the structure is unchanged |
| YouTubeChangeDetector2.MutationIdempotent | pages/content/lib/YoutubeChangeDetector2.ts:50-62 | a second mutation finds the same listings and leaves the elements unchanged |
| YouTubeChangeDetector2.Detector2.constructor | pages/content/lib/YoutubeChangeDetector2.ts:15-22 | the detector starts iff the host name contains "youtube.com", and it records the location at construction |
| YouTubeChangeDetector2.Detector2.ResetDetectedVideos | pages/content/lib/YoutubeChangeDetector2.ts:59-62 | every element loses `detected-video` and nothing else changes |
| YouTubeChangeDetector2.Detector2.MapAndFilter | pages/content/lib/YoutubeChangeDetector2.ts:119-143 | the `map`/`filter` keeps, in order, the listing each element yields and marks exactly those elements |
| YouTubeChangeDetector2.Detector2.QueryVideos | pages/content/lib/YoutubeChangeDetector2.ts:115-144 | returns the same listings as the first detector's query and marks their elements |
| YouTubeChangeDetector2.Detector2.QueryVideosBasedOnUrl | pages/content/lib/YoutubeChangeDetector2.ts:76-85 | queries the live location's route (same routing as the first detector) |
| YouTubeChangeDetector2.Detector2.OnMutation | pages/content/lib/YoutubeChangeDetector2.ts:50-54 | clears all marks, then notifies once with the full list and the construction-time URL; the page ends in `AfterMutation` |
| YouTubeChangeDetector2.Picked | pages/content/lib/YoutubeChangeDetector2.ts:119-142 | one optional listing per element, each referring to its own element |
| YouTubeChangeDetector2.KeptSpec | pages/content/lib/YoutubeChangeDetector2.ts:119-143 | what the loop has kept, followed by the rest of the filter, is the whole filter; it refers exactly to the yielding positions passed |
| YouTubeChangeDetector2.MarkedSpec | pages/content/lib/YoutubeChangeDetector2.ts:119-143 | the loop has marked exactly the yielding positions passed |
| ContentScript.CategorizeSpec | pages/content/lib/old-index.ts:29-34 | `blacklisted` holds exactly the input videos whose id is listed, `notBlacklisted` exactly the others; multiplicities add up to the input and so do the lengths |
| ContentScript.CategorizeAppend | pages/content/lib/old-index.ts:29-34 | both groups keep input order (they distribute over concatenation) |
| ContentScript.ToggledSpec | pages/content/lib/old-index.ts:39-51 | elements of non-blacklisted videos lack `blocked`; other elements of blacklisted videos have it; all other elements are unchanged; no other class changes |
| ContentScript.ToggledIdempotent | pages/content/lib/old-index.ts:39-51 | running `updateDomClasses` twice gives the same page as running it once |
| ContentScript.BlocksExactlyListed | pages/content/lib/old-index.ts:16-19 | for videos on distinct elements, a batch's element is blocked iff its id is listed |
| ContentScript.StoredIdsFollowStore | pages/content/lib/old-index.ts:63-81 | `videoIdsToBeBlacklisted \|\| []` reads no ids initially, lists an id after the store adds it, and omits it after removal |
| ContentScript.Script.constructor | pages/content/lib/old-index.ts:5 | the id list starts empty |
| ContentScript.Script.OnBlacklistData | pages/content/lib/old-index.ts:63-81 | the ids become the stored list, or `[]` |
| ContentScript.Script.UpdateDomClasses | pages/content/lib/old-index.ts:39-51 | the two loops leave the page as `Toggled` describes |
| ContentScript.Script.OnContentChange | pages/content/lib/old-index.ts:11-24 | categorises the batch against the current ids and toggles `blocked` accordingly |
| ContentScript.FirstUnmarked | pages/content/lib/YouTubeChangeDetector.ts:52-54 | the video at which the `forEach` first calls the callback: it exists iff some video's element lacks the mark, and then it is such a video |
| ContentScript.Script.OnMutationAsWired | pages/content/lib/old-index.ts:57 | as wired, the callback throws at the first video whose element lacks the mark, before `classList.add`; no class changes, so the next mutation throws at the same video |
| ContentScript.SingleToggleSpec | pages/content/lib/old-index.ts:11-51 | a batch of one video changes only that video's element: `blocked` iff its id is listed; other classes are kept |
| ContentScript.WrappedStepSpec | pages/content/lib/YouTubeChangeDetector.ts:52-57 | one step with the callback wrapping its video in an array: only the video's element changes; an unmarked element ends marked and blocked iff listed; a marked one is left alone |
| ContentScript.WrappedWalkSpec | pages/content/lib/YouTubeChangeDetector.ts:50-58 | with the wrapped callback, over videos in document order: every element is marked; an element unmarked before is blocked iff listed; marked elements and elements of no video are unchanged |
| ContentScript.Script.OnMutationWrapped | pages/content/lib/YouTubeChangeDetector.ts:50-58 | the first detector's loop with the callback `onContentChange([video], url)` leaves the page as `WrappedWalk` describes |
| ContentScript.WiringDecidesBlocking | pages/content/lib/old-index.ts:57 | for an unmarked, listed and unblocked listing: as wired the callback throws and the page is left as it was, while the wrapped callback blocks it |
| Debounce.Debouncer.constructor | pages/content/lib/util.ts:1-2 | `wait` defaults to 100; no handler and no pending timer |
| Debounce.Debouncer.Call | pages/content/lib/util.ts:3-8 | the previous timer is cancelled; exactly one timer is pending, with this call's args; the slot holds its handle |
| Debounce.Debouncer.Fire | pages/content/lib/util.ts:7 | `cb` gets the args of the call that armed the timer; nothing is pending afterwards, and the slot still holds the spent handle |
| Debounce.Burst | pages/content/lib/util.ts:1-9 | after a burst of calls, `cb` runs once with the last call's args, after `wait` |
| Debounce.FireThenCall | pages/content/lib/util.ts:4-7 | after firing, the next call still works: clearing the spent handle does no harm, and exactly one timer is pending again, with the second call's args and the default delay |
| Background.BuildPayloadSpec | chrome-extension/lib/background/index.ts:83-103 | one payload video per detected video, in order: uuid = id, thumbnail and channel URLs built from the ids, other fields copied. The terms are `filterList ?? []` followed by the instructions iff they are truthy. `block_list` iff `isBlockList` |
| Background.ThumbnailHoldsId | chrome-extension/lib/background/index.ts:89 | the video id can be read back out of the thumbnail URL |
| Background.StoredSettingsAlwaysAllowList | chrome-extension/lib/background/index.ts:80-103 | with settings as stored (no `isBlockList`), every request carries an `allow_list`, even in block-list mode |
| Background.BlockListModeSentAsAllowList | chrome-extension/lib/background/index.ts:80-103 | block-list mode with "ads" and "no clickbait" is sent as `allow_list`; the corrected reading sends `block_list` |
| Background.IntendedConfigHonoursListMode | chrome-extension/lib/background/index.ts:96-103 | read via the list mode, the terms go in `block_list` iff the mode is block-list; terms and videos are as before |
| Background.BlockedIdsMembership | chrome-extension/lib/background/index.ts:123-125 | an id is flagged iff some blocked item has that uuid |
| Background.BlockedIdsSpec | chrome-extension/lib/background/index.ts:123-125 | the flagged ids are exactly the blocked uuids, no more than the items, in response order |
| Background.BlockedRecordsMembership | chrome-extension/lib/background/index.ts:127-137 | there is one record per detected video whose id is flagged, copying its fields |
| Background.BlockedRecordsSpec | chrome-extension/lib/background/index.ts:127-137 | records exist exactly for the detected, flagged videos, in detected order; a flagged id that was not detected yields no record |
| Background.Coordinator.constructor | chrome-extension/lib/background/index.ts:15-18 | both maps start empty |
| Background.Coordinator.OneTimerPerTab | chrome-extension/lib/background/index.ts:66-73 | a tab has at most one armed timer |
| Background.Coordinator.ClearDebounceTimer | chrome-extension/lib/background/index.ts:159-164 | cancels the timer in the tab's slot, if any, and empties the slot |
| Background.Coordinator.AbortOngoingRequest | chrome-extension/lib/background/index.ts:170-175 | aborts the controller in the tab's slot, if any, and empties the slot |
| Background.Coordinator.CleanupAfterRequest | chrome-extension/lib/background/index.ts:201-203 | the request ends and the tab's controller slot is emptied, whichever controller it holds |
| Background.Coordinator.Submit | chrome-extension/lib/background/index.ts:54-73 | a missing or empty list is answered with "No valid videos detected" and nothing changes. Otherwise the old timer is cancelled, the old controller is aborted and removed, and one new timer is armed with the videos. Validity is preserved |
| Background.Coordinator.TimerFired | chrome-extension/lib/background/index.ts:73-103 | a fresh controller fills the tab's slot and the payload is built from the captured videos; the timer slot keeps the spent handle |
| Background.Coordinator.ResponseOk | chrome-extension/lib/background/index.ts:121-151 | the tab's entry is replaced with (detected, flagged records), the flagged ids go to the tab, the caller gets success, and the controller slot is emptied |
| Background.Coordinator.ResponseHttpError | chrome-extension/lib/background/index.ts:116-119 | the caller gets "HTTP error! status: N"; no tab message and no store write; cleanup runs |
| Background.Coordinator.Aborted | chrome-extension/lib/background/index.ts:183-195 | no tab message, but the caller still gets an error; cleanup runs |
| Background.Coordinator.OtherError | chrome-extension/lib/background/index.ts:183-195 | the tab gets `{data: null, error}` and the caller gets the error; cleanup runs |
| Background.Coordinator.TabClosed | chrome-extension/lib/background/index.ts:208-215 | the store entry is deleted, the timer cancelled and the controller aborted |
| Background.LastSubmitWins | chrome-extension/lib/background/index.ts:66-73 | of two quick submits, the first timer is cancelled and the request carries the second batch |
| Background.EmptySubmitKeepsTimer | chrome-extension/lib/background/index.ts:60-64 | an empty submit leaves the tab's armed timer armed |
| Background.UnknownIdForwarded | chrome-extension/lib/background/index.ts:123-144 | a flagged id that was not detected reaches the tab but gets no stored record |
| Background.StaleCleanup | chrome-extension/lib/background/index.ts:201-203 | a late abort of a superseded request empties the newer request's slot, so the next submit does not abort it, and two unaborted requests run for one tab |
| Strings.DecimalRoundTrip | chrome-extension/lib/background/index.ts:117 | the status written into the error message reads back as the status |

## Findings

| source | as written | input that shows it | evidently intended | confidence | as-written member | corrected member |
|---|---|---|---|---|---|---|
| chrome-extension/lib/background/index.ts:80 | The timer callback reads `isBlockList` from the settings store. That store keeps a three-valued `listMode` and never has `isBlockList` (packages/storage/lib/extensionStorage.ts:11), so the flag is always undefined and the terms always go in `allow_list`. | listMode = block-list, filterList = ["ads"], instructions = "no clickbait" → `allow_list: ["ads", "no clickbait"]` | `block_list: ["ads", "no clickbait"]` in block-list mode | high; not executed | Background.BlockListModeSentAsAllowList | Background.IntendedConfigHonoursListMode |
| pages/content/lib/old-index.ts:57 | `initializeDetector` passes `onContentChange(videos: VideoData[], url)` to the first detector. That detector calls its callback with one `VideoData` (pages/content/lib/YouTubeChangeDetector.ts:54). `videos.filter` (old-index.ts:30) then throws a TypeError, which leaves the `forEach` before `classList.add`. So no element is ever marked or blocked, and the same video throws on every mutation. | a homepage whose one listing is unmarked, unblocked and has its id on the blacklist | the listing's element gets `blocked` (and the mark), e.g. with the callback `(video, url) => onContentChange([video], url)` | high; not executed | ContentScript.Script.OnMutationAsWired | ContentScript.WrappedWalkSpec |

The coordinator takes the settings it reads as a parameter
(`FilterConfig`), so it works with either reading.

- `ReadFilterConfig` is the reading as written.
- `IntendedFilterConfig` is the corrected one.
- What the disabled mode should send cannot be told from the source.
  The corrected reading sends an `allow_list` for it.

## Left out

- Background.Coordinator.TimerFired: block-list mode is meant to send
  `block_list`, but the coordinator follows the code as written, which
  always sends `allow_list` (see Findings).
- Browser messaging is modelled only by its effects:
  - `chrome.runtime.onMessage` dispatch (index.ts:23-37) is not part of
    this model. Each message becomes a method call.
  - `chrome.tabs.sendMessage` becomes a returned `TabMessage`.
  - `sendResponse` becomes a returned `Reply`.
  - `handleGetCurrentTabId` (index.ts:43-47) is a tab query of the
    browser, and it is not modelled.
- `fetch`, HTTP, `response.json()` and the server address are not
  modelled. The request body is returned. The response arrives as a
  separate event (`ResponseOk`, `ResponseHttpError`, `Aborted` or
  `OtherError`) carrying the status or the parsed items.
- Timers are not modelled in real time. This covers the delays (300 ms,
  100 ms and the detectors' 100 ms after a URL change), `Date.now()` and
  the ISO time stamp. Timers are handles with explicit fire events;
  clocks and time stamps are parameters.
- Background.Coordinator: every event is atomic. The `await`s inside the
  timer callback are not interleaved with other events. For example,
  an abort that arrives during the store write is not modelled. The
  store write itself cannot fail here.
- Background.BuildPayload: the terms are modelled as a new list.
  `filters.push(instructions)` pushes into the array that the settings
  read returned, so it may alias the stored `filterList`. That aliasing
  is not modelled, because the storage base is not part of this model.
- The `createStorage` base is not part of this model. This covers
  persistence, `liveUpdate` and `subscribe`. Each store is one
  in-memory value changed by `set(updater)`. The content script's
  subscription becomes calls to `OnBlacklistData`.
- The DOM is modelled abstractly:
  - Elements are positions in `Page.renderers`.
  - `querySelectorAll`/`querySelector` with the three selector pairs
    become each element's tag and the anchor its paired selector finds.
  - Tags other than the three renderer tags are collapsed into
    `OtherTag`.
  - A class list is a set of strings.
- MutationObserver and URL-change listeners are not modelled. This
  covers the history patching and the `popstate`/`pushState` listeners.
  A URL change followed by the delayed `onMutation` is a
  `Page.Navigate` followed by `OnMutation`.
- YouTubeChangeDetector.Detector.OnMutation: the callback is an output
  value, and its effects on the page are not part of this member. For
  the callback old-index.ts:57 wires in, see
  `ContentScript.Script.OnMutationAsWired` (it throws before any class
  changes) and `ContentScript.Script.OnMutationWrapped` (the corrected
  wiring), and Findings.
- ContentScript.Script.OnContentChange: modelled over the array its
  declaration names. Its call with a single video, as wired, is modelled
  by `ContentScript.Script.OnMutationAsWired`.
- ContentScript.Script.OnMutationAsWired: the TypeError is returned as
  the video it is thrown at. What the browser does with an exception
  from a MutationObserver callback (reporting it) is not modelled.
- ContentScript.Script.UpdateDomClasses: a video's element is
  represented by its position, so it must be a position on the page.
- The type declarations in packages/storage/lib/types.ts add nothing to
  the behaviour:
  - Only their records are modelled (`StorageTypes`).
  - The filter-list methods they declare for the blacklisted-videos
    store have no implementation, so they are not modelled.
- Debounce: `cb` runs as an output. Its `this` binding and any
  exceptions it throws are not modelled.
- Presentation and wiring are not modelled. This covers:
  - the React UI files (Dashboard, popup, user entries, video
    management, buttons, theme);
  - `manifest.js`;
  - `packages/storage/lib/index.ts`;
  - `pages/content/lib/index.ts`;
  - the theme log at index.ts:7-9.
