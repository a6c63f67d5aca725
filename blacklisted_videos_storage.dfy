/** The content script's store of blacklisted video ids and filter
    instructions (packages/storage/lib/blacklistedVideosStorage.ts). */
module BlacklistedVideosStorage {
  import opened Seqs
  import StringLists

  /** The stored value. The id list is optional because the add updater
      guards against a value that is not an array. */
  datatype Data = Data(videoIdsToBeBlacklisted: Option<seq<string>>, instructions: Option<string>)

  const Initial: Data := Data(Some([]), None)

  function UpdateInstructions(d: Data, instructions: Option<string>): (r: Data)
    ensures r.instructions == instructions
    ensures r.videoIdsToBeBlacklisted == d.videoIdsToBeBlacklisted
  {
    d.(instructions := instructions)
  }

  /** Appends the id at the end, counting a list that is not an array
      as empty. */
  function AddVideoToBlacklist(d: Data, videoId: string): (r: Data)
    ensures r.videoIdsToBeBlacklisted.Some?
    ensures var ids := r.videoIdsToBeBlacklisted.value;
            |ids| >= 1 && ids[|ids| - 1] == videoId
            && ids[..|ids| - 1] == (if d.videoIdsToBeBlacklisted.Some? then d.videoIdsToBeBlacklisted.value else [])
    ensures r.instructions == d.instructions
  {
    d.(videoIdsToBeBlacklisted := Some(StringLists.AppendTreatingMissingAsEmpty(d.videoIdsToBeBlacklisted, videoId)))
  }

  /** Removes every occurrence of the id and keeps the other ids with
      their multiplicities; `filter` on a missing list throws. */
  function RemoveVideoFromBlacklist(d: Data, videoId: string): (r: Result<Data>)
    ensures r.Ok? <==> d.videoIdsToBeBlacklisted.Some?
    ensures r.Ok? ==> r.value.videoIdsToBeBlacklisted
                      == Some(StringLists.RemoveAll(d.videoIdsToBeBlacklisted.value, videoId))
    ensures r.Ok? ==> (r.value.videoIdsToBeBlacklisted.Some?
                       && videoId !in r.value.videoIdsToBeBlacklisted.value)
    ensures r.Ok? ==> forall x :: x != videoId ==>
      multiset(r.value.videoIdsToBeBlacklisted.value)[x] == multiset(d.videoIdsToBeBlacklisted.value)[x]
    ensures r.Ok? ==> r.value.instructions == d.instructions
  {
    match d.videoIdsToBeBlacklisted
    case None => TypeError
    case Some(ids) =>
      var kept := StringLists.RemoveAll(ids, videoId);
      assert forall x :: x != videoId ==> multiset(kept)[x] == multiset(ids)[x] by {
        forall x | x != videoId ensures multiset(kept)[x] == multiset(ids)[x] {
          StringLists.RemoveAllMultiplicity(ids, videoId, x);
        }
      }
      Ok(d.(videoIdsToBeBlacklisted := Some(kept)))
  }

  function ClearAllVideosFromBlacklist(d: Data): (r: Data)
    ensures r.videoIdsToBeBlacklisted == Some([])
    ensures r.instructions == d.instructions
  {
    d.(videoIdsToBeBlacklisted := Some([]))
  }

  /** `includes` on the id list; a TypeError on a missing list. */
  function IsVideoBlacklisted(d: Data, videoId: string): (r: Result<bool>)
    ensures r.Ok? <==> d.videoIdsToBeBlacklisted.Some?
    ensures r.Ok? ==> (r.value <==> videoId in d.videoIdsToBeBlacklisted.value)
  {
    match d.videoIdsToBeBlacklisted
    case None => TypeError
    case Some(ids) => Ok(StringLists.Includes(ids, videoId))
  }

  /** No id is blacklisted initially; an id is blacklisted right after
      it is added and not blacklisted
      right after it is removed; removing it leaves every other id's
      answer as it was. */
  lemma AddRemoveQuery(d: Data, videoId: string, other: string)
    requires d.videoIdsToBeBlacklisted.Some?
    ensures IsVideoBlacklisted(Initial, videoId) == Ok(false)
    ensures IsVideoBlacklisted(AddVideoToBlacklist(d, videoId), videoId) == Ok(true)
    ensures IsVideoBlacklisted(RemoveVideoFromBlacklist(d, videoId).value, videoId) == Ok(false)
    ensures other != videoId ==>
      IsVideoBlacklisted(RemoveVideoFromBlacklist(d, videoId).value, other) == IsVideoBlacklisted(d, other)
  {
    var ids := d.videoIdsToBeBlacklisted.value;
    if other != videoId {
      FilterMembership(ids, (y: string) => y != videoId, other);
    }
  }

  /** Clearing twice is the same as clearing once. */
  lemma ClearIdempotent(d: Data)
    ensures ClearAllVideosFromBlacklist(ClearAllVideosFromBlacklist(d)) == ClearAllVideosFromBlacklist(d)
  {
  }

  /** The calls a client makes on the store, each applied through
      `storage.set(updater)`. */
  datatype Op =
    | SetInstructions(instructions: Option<string>)
    | AddVideo(videoId: string)
    | RemoveVideo(videoId: string)
    | ClearVideos

  /** One `set` call: an updater that throws leaves the value as it was. */
  function Apply(d: Data, op: Op): Data
  {
    match op
    case SetInstructions(i) => UpdateInstructions(d, i)
    case AddVideo(v) => AddVideoToBlacklist(d, v)
    case RemoveVideo(v) =>
      var r := RemoveVideoFromBlacklist(d, v);
      if r.Ok? then r.value else d
    case ClearVideos => ClearAllVideosFromBlacklist(d)
  }

  function Run(d: Data, ops: seq<Op>): Data
    decreases |ops|
  {
    if ops == [] then d else Run(Apply(d, ops[0]), ops[1..])
  }

  /** The id list is defined initially and after any sequence of
      updates, so neither the removal nor the query can throw on a store
      that only these operations have written. */
  lemma {:induction false} VideoIdsStayDefined(d: Data, ops: seq<Op>)
    requires d == Initial || d.videoIdsToBeBlacklisted.Some?
    ensures Run(d, ops).videoIdsToBeBlacklisted.Some?
    ensures forall v :: RemoveVideoFromBlacklist(Run(d, ops), v).Ok?
    ensures forall v :: IsVideoBlacklisted(Run(d, ops), v).Ok?
    decreases |ops|
  {
    if ops != [] {
      VideoIdsStayDefined(Apply(d, ops[0]), ops[1..]);
    }
  }
}
