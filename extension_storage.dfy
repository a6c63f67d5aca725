/** The extension's settings store (packages/storage/lib/extensionStorage.ts):
    filter instructions, the filter-term list, the list mode and an
    experimental list of video ids. Every updater spreads `current` and
    replaces one field. */
module ExtensionStorage {
  import opened Seqs
  import StringLists

  /** The three list modes of `EnumExtensionStorageListMode`. */
  datatype ListMode = Disabled | AllowList | BlockList

  /** The stored value. `videoIdsToBeBlacklisted` is optional because
      the id updater guards against a value that is not an array. */
  datatype Data = Data(
    videoIdsToBeBlacklisted: Option<seq<string>>,
    instructions: Option<string>,
    filterList: seq<string>,
    listMode: ListMode)

  /** The initial value: no ids, null instructions, no filter terms,
      block-list mode. */
  const Initial: Data := Data(Some([]), None, [], BlockList)

  function UpdateInstructions(d: Data, instructions: Option<string>): (r: Data)
    ensures r.instructions == instructions
    ensures r.videoIdsToBeBlacklisted == d.videoIdsToBeBlacklisted
    ensures r.filterList == d.filterList && r.listMode == d.listMode
  {
    d.(instructions := instructions)
  }

  /** Appends a term; duplicates are kept. */
  function AddToFilterList(d: Data, filter: string): (r: Data)
    ensures |r.filterList| == |d.filterList| + 1
    ensures r.filterList[..|d.filterList|] == d.filterList && r.filterList[|d.filterList|] == filter
    ensures r.videoIdsToBeBlacklisted == d.videoIdsToBeBlacklisted
    ensures r.instructions == d.instructions && r.listMode == d.listMode
  {
    d.(filterList := d.filterList + [filter])
  }

  function UpdateFilterList(d: Data, filters: seq<string>): (r: Data)
    ensures r.filterList == filters
    ensures r.videoIdsToBeBlacklisted == d.videoIdsToBeBlacklisted
    ensures r.instructions == d.instructions && r.listMode == d.listMode
  {
    d.(filterList := filters)
  }

  /** Removes every occurrence of the term and keeps the rest in order. */
  function RemoveFromFilterList(d: Data, filter: string): (r: Data)
    ensures r.filterList == StringLists.RemoveAll(d.filterList, filter)
    ensures filter !in r.filterList
    ensures forall x :: x != filter ==> multiset(r.filterList)[x] == multiset(d.filterList)[x]
    ensures r.videoIdsToBeBlacklisted == d.videoIdsToBeBlacklisted
    ensures r.instructions == d.instructions && r.listMode == d.listMode
  {
    var kept := StringLists.RemoveAll(d.filterList, filter);
    assert forall x :: x != filter ==> multiset(kept)[x] == multiset(d.filterList)[x] by {
      forall x | x != filter ensures multiset(kept)[x] == multiset(d.filterList)[x] {
        StringLists.RemoveAllMultiplicity(d.filterList, filter, x);
      }
    }
    d.(filterList := kept)
  }

  function ClearFilterList(d: Data): (r: Data)
    ensures r.filterList == []
    ensures r.videoIdsToBeBlacklisted == d.videoIdsToBeBlacklisted
    ensures r.instructions == d.instructions && r.listMode == d.listMode
  {
    d.(filterList := [])
  }

  function SetBlockList(d: Data, listMode: ListMode): (r: Data)
    ensures r.listMode == listMode
    ensures r.videoIdsToBeBlacklisted == d.videoIdsToBeBlacklisted
    ensures r.instructions == d.instructions && r.filterList == d.filterList
  {
    d.(listMode := listMode)
  }

  function GetBlockList(d: Data): ListMode
  {
    d.listMode
  }

  /** Reading the mode back gives what was set, and setting it touches
      nothing the other updaters own. */
  lemma SetThenGetBlockList(d: Data, m: ListMode, terms: seq<string>)
    ensures GetBlockList(SetBlockList(d, m)) == m
    ensures GetBlockList(UpdateFilterList(SetBlockList(d, m), terms)) == m
  {
  }

  /** Appends the id, counting a list that is not an array as empty. */
  function AddVideoToBlacklist(d: Data, videoId: string): (r: Data)
    ensures r.videoIdsToBeBlacklisted.Some?
    ensures r.videoIdsToBeBlacklisted.value
         == (if d.videoIdsToBeBlacklisted.Some? then d.videoIdsToBeBlacklisted.value else []) + [videoId]
    ensures r.instructions == d.instructions && r.filterList == d.filterList && r.listMode == d.listMode
  {
    var ids := StringLists.AppendTreatingMissingAsEmpty(d.videoIdsToBeBlacklisted, videoId);
    d.(videoIdsToBeBlacklisted := Some(ids))
  }

  function UpdateVideoBlacklist(d: Data, newVideoIds: seq<string>): (r: Data)
    ensures r.videoIdsToBeBlacklisted == Some(newVideoIds)
    ensures r.instructions == d.instructions && r.filterList == d.filterList && r.listMode == d.listMode
  {
    d.(videoIdsToBeBlacklisted := Some(newVideoIds))
  }

  /** Removes every occurrence of the id; `filter` on a missing list
      throws. */
  function RemoveVideoFromBlacklist(d: Data, videoId: string): (r: Result<Data>)
    ensures r.Ok? <==> d.videoIdsToBeBlacklisted.Some?
    ensures r.Ok? ==> r.value.videoIdsToBeBlacklisted
                      == Some(StringLists.RemoveAll(d.videoIdsToBeBlacklisted.value, videoId))
    ensures r.Ok? ==> (r.value.videoIdsToBeBlacklisted.Some?
                       && videoId !in r.value.videoIdsToBeBlacklisted.value)
    ensures r.Ok? ==> forall x :: x != videoId ==>
      multiset(r.value.videoIdsToBeBlacklisted.value)[x] == multiset(d.videoIdsToBeBlacklisted.value)[x]
    ensures r.Ok? ==> (r.value.instructions == d.instructions && r.value.filterList == d.filterList
                       && r.value.listMode == d.listMode)
  {
    match d.videoIdsToBeBlacklisted
    case None => TypeError
    case Some(ids) =>
      var kept := StringLists.RemoveAll(ids, videoId);
      assert forall x :: x != videoId ==> multiset(kept)[x] == multiset(ids)[x] by {
        forall x | x != videoId ensures multiset(kept)[x] == multiset(ids)[x] {
          StringLists.RemoveAllMultiplicity(ids, videoId, x);
        }
      }
      Ok(d.(videoIdsToBeBlacklisted := Some(kept)))
  }

  function ClearAllVideosFromBlacklist(d: Data): (r: Data)
    ensures r.videoIdsToBeBlacklisted == Some([])
    ensures r.instructions == d.instructions && r.filterList == d.filterList && r.listMode == d.listMode
  {
    d.(videoIdsToBeBlacklisted := Some([]))
  }

  /** `includes` on the id list; a TypeError on a missing list. */
  function IsVideoBlacklisted(d: Data, videoId: string): (r: Result<bool>)
    ensures r.Ok? <==> d.videoIdsToBeBlacklisted.Some?
    ensures r.Ok? ==> (r.value <==> videoId in d.videoIdsToBeBlacklisted.value)
  {
    match d.videoIdsToBeBlacklisted
    case None => TypeError
    case Some(ids) => Ok(StringLists.Includes(ids, videoId))
  }

  /** An id is blacklisted right after it is added, whatever the list
      held before, and not blacklisted right after it is removed. */
  lemma AddThenRemoveQuery(d: Data, videoId: string)
    ensures IsVideoBlacklisted(AddVideoToBlacklist(d, videoId), videoId) == Ok(true)
    ensures IsVideoBlacklisted(RemoveVideoFromBlacklist(AddVideoToBlacklist(d, videoId), videoId).value, videoId)
         == Ok(false)
  {
  }

  /** The calls a client makes on the store, each applied through
      `storage.set(updater)`. */
  datatype Op =
    | SetInstructions(instructions: Option<string>)
    | AddFilter(filter: string)
    | SetFilters(filters: seq<string>)
    | RemoveFilter(filter: string)
    | ClearFilters
    | SetMode(listMode: ListMode)
    | AddVideo(videoId: string)
    | SetVideos(videoIds: seq<string>)
    | RemoveVideo(videoId: string)
    | ClearVideos

  /** One `set` call: an updater that throws leaves the value as it was. */
  function Apply(d: Data, op: Op): Data
  {
    match op
    case SetInstructions(i) => UpdateInstructions(d, i)
    case AddFilter(f) => AddToFilterList(d, f)
    case SetFilters(fs) => UpdateFilterList(d, fs)
    case RemoveFilter(f) => RemoveFromFilterList(d, f)
    case ClearFilters => ClearFilterList(d)
    case SetMode(m) => SetBlockList(d, m)
    case AddVideo(v) => AddVideoToBlacklist(d, v)
    case SetVideos(vs) => UpdateVideoBlacklist(d, vs)
    case RemoveVideo(v) =>
      var r := RemoveVideoFromBlacklist(d, v);
      if r.Ok? then r.value else d
    case ClearVideos => ClearAllVideosFromBlacklist(d)
  }

  function Run(d: Data, ops: seq<Op>): Data
    decreases |ops|
  {
    if ops == [] then d else Run(Apply(d, ops[0]), ops[1..])
  }

  /** The id list is defined initially and after any sequence of
      updates, so neither the removal nor the query can throw on a store
      that only these operations have written. */
  lemma {:induction false} VideoIdsStayDefined(d: Data, ops: seq<Op>)
    requires d == Initial || d.videoIdsToBeBlacklisted.Some?
    ensures Run(d, ops).videoIdsToBeBlacklisted.Some?
    ensures forall v :: RemoveVideoFromBlacklist(Run(d, ops), v).Ok?
    ensures forall v :: IsVideoBlacklisted(Run(d, ops), v).Ok?
    decreases |ops|
  {
    if ops != [] {
      VideoIdsStayDefined(Apply(d, ops[0]), ops[1..]);
    }
  }
}
