/**
 * `comparePopulation` (src/classes/RCEManager.ts): the difference between the
 * stored player list and a fresh snapshot.
 */
module Population {
  import opened Lists

  datatype Change = Change(joined: seq<string>, left: seq<string>)

  /** The names of `after` missing from `before` joined; the names of `before` missing from `after` left. */
  function ComparePopulation(before: seq<string>, after: seq<string>): (r: Change)
    ensures |r.joined| <= |after| && |r.left| <= |before|
    ensures forall n :: n in r.joined <==> n in after && n !in before
    ensures forall n :: n in r.left <==> n in before && n !in after
  {
    Change(Filter(after, n => n !in before), Filter(before, n => n !in after))
  }

  /** `joined` keeps the order of the snapshot: appending a name to the snapshot appends it to
      `joined` when it is new, and changes nothing else. */
  lemma JoinedInSnapshotOrder(before: seq<string>, after: seq<string>, n: string)
    ensures ComparePopulation(before, after + [n]).joined
         == ComparePopulation(before, after).joined + (if n in before then [] else [n])
  {
    FilterAppend(after, [n], m => m !in before);
  }

  /** `left` keeps the order of the stored list: appending a name to the stored list appends it
      to `left` when the snapshot lacks it, and changes nothing else. */
  lemma LeftInStoredOrder(before: seq<string>, after: seq<string>, n: string)
    ensures ComparePopulation(before + [n], after).left
         == ComparePopulation(before, after).left + (if n in after then [] else [n])
  {
    FilterAppend(before, [n], m => m !in after);
  }

  /** Nobody both joins and leaves, and an unchanged list reports no change. */
  lemma JoinedLeftDisjoint(before: seq<string>, after: seq<string>)
    ensures forall n :: !(n in ComparePopulation(before, after).joined && n in ComparePopulation(before, after).left)
    ensures ComparePopulation(after, after) == Change([], [])
  {
    FilterKeepsNone(after, n => n !in after);
  }

  /** Applying the change to the old list gives the new one, as sets of names. */
  lemma ChangeReconciles(before: seq<string>, after: seq<string>)
    ensures var c := ComparePopulation(before, after);
      (set n | n in before && n !in c.left) + (set n | n in c.joined) == (set n | n in after)
  {
  }

  /** A snapshot without repeated names yields a `joined` list without repeats. */
  lemma JoinedNoDup(before: seq<string>, after: seq<string>)
    requires NoDup(after)
    ensures NoDup(ComparePopulation(before, after).joined)
  {
    FilterNoDup(after, n => n !in before);
  }
}
