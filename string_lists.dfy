/** The list operations the storage updaters share: append with a guard
    against a missing list, `filter(id => id !== v)` and `includes`. */
module StringLists {
  import opened Seqs

  /** `[...(Array.isArray(ids) ? ids : []), v]`: a missing or null list
      counts as empty. */
  function AppendTreatingMissingAsEmpty(ids: Option<seq<string>>, v: string): (r: seq<string>)
    ensures |r| >= 1 && r[|r| - 1] == v
    ensures ids.Some? ==> r[..|r| - 1] == ids.value
    ensures ids.None? ==> r == [v]
  {
    match ids
    case Some(list) => list + [v]
    case None => [v]
  }

  /** `list.filter(item => item !== v)`. */
  function RemoveAll(list: seq<string>, v: string): (r: seq<string>)
    ensures v !in r
    ensures forall x :: x in r ==> x in list
  {
    Filter(list, (x: string) => x != v)
  }

  /** Every element other than `v` keeps its multiplicity, and `v` is
      gone: duplicates of other elements are preserved. */
  lemma RemoveAllMultiplicity(list: seq<string>, v: string, x: string)
    ensures multiset(RemoveAll(list, v))[x] == if x == v then 0 else multiset(list)[x]
  {
    FilterMultiplicity(list, (y: string) => y != v, x);
  }

  /** Removal keeps the order of what remains: nothing is left of the
      empty list, a single element stays exactly when it is not `v`, and
      removal distributes over concatenation, so every element other
      than `v` keeps its place relative to the others. */
  lemma RemoveAllAppend(a: seq<string>, b: seq<string>, v: string, x: string)
    ensures RemoveAll([], v) == []
    ensures RemoveAll([x], v) == if x == v then [] else [x]
    ensures RemoveAll(a + b, v) == RemoveAll(a, v) + RemoveAll(b, v)
  {
    FilterAppend(a, b, (y: string) => y != v);
  }

  /** Removing an element that is absent changes nothing. */
  lemma RemoveAllAbsent(list: seq<string>, v: string)
    requires v !in list
    ensures RemoveAll(list, v) == list
  {
    FilterAll(list, (x: string) => x != v);
  }

  /** `list.includes(v)`, written as a left-to-right scan. */
  function Includes(list: seq<string>, v: string): (r: bool)
    ensures r <==> v in list
    decreases |list|
  {
    if list == [] then false
    else list[0] == v || Includes(list[1..], v)
  }
}
