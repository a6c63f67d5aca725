/** An older store of blacklisted video ids
    (packages/storage/lib/blacklistStorage.ts), with no guards: the list
    is always read as an array. */
module BlacklistStorage {
  import StringLists

  datatype Data = Data(blacklistedVideoIds: seq<string>)

  const Initial: Data := Data([])

  /** Appends the id; an id already present is appended again. */
  function AddVideoToBlacklist(d: Data, videoId: string): (r: Data)
    ensures |r.blacklistedVideoIds| == |d.blacklistedVideoIds| + 1
    ensures r.blacklistedVideoIds[..|d.blacklistedVideoIds|] == d.blacklistedVideoIds
    ensures r.blacklistedVideoIds[|d.blacklistedVideoIds|] == videoId
  {
    Data(d.blacklistedVideoIds + [videoId])
  }

  /** Removes every occurrence of the id, keeping the others in order. */
  function RemoveVideoFromBlacklist(d: Data, videoId: string): (r: Data)
    ensures r.blacklistedVideoIds == StringLists.RemoveAll(d.blacklistedVideoIds, videoId)
    ensures videoId !in r.blacklistedVideoIds
    ensures forall x :: x != videoId ==>
      multiset(r.blacklistedVideoIds)[x] == multiset(d.blacklistedVideoIds)[x]
  {
    var kept := StringLists.RemoveAll(d.blacklistedVideoIds, videoId);
    assert forall x :: x != videoId ==> multiset(kept)[x] == multiset(d.blacklistedVideoIds)[x] by {
      forall x | x != videoId ensures multiset(kept)[x] == multiset(d.blacklistedVideoIds)[x] {
        StringLists.RemoveAllMultiplicity(d.blacklistedVideoIds, videoId, x);
      }
    }
    Data(kept)
  }

  function IsVideoBlacklisted(d: Data, videoId: string): (r: bool)
    ensures r <==> videoId in d.blacklistedVideoIds
  {
    StringLists.Includes(d.blacklistedVideoIds, videoId)
  }

  /** Membership after the updaters: false initially, true after add,
      false after remove, even when the id had been added several times. */
  lemma AddRemoveQuery(d: Data, videoId: string)
    ensures !IsVideoBlacklisted(Initial, videoId)
    ensures IsVideoBlacklisted(AddVideoToBlacklist(d, videoId), videoId)
    ensures !IsVideoBlacklisted(RemoveVideoFromBlacklist(AddVideoToBlacklist(AddVideoToBlacklist(d, videoId), videoId), videoId), videoId)
  {
  }

  /** Adding an id and removing it again leaves the list with that id
      filtered out, and everything else in its original order. */
  lemma AddThenRemove(d: Data, videoId: string)
    ensures RemoveVideoFromBlacklist(AddVideoToBlacklist(d, videoId), videoId)
         == RemoveVideoFromBlacklist(d, videoId)
  {
    StringLists.RemoveAllAppend(d.blacklistedVideoIds, [videoId], videoId, videoId);
  }
}
