/**
 * `sort.Sort(UserEvents(events))`: the batch of an hour is sorted in place
 * by timestamp, using `UserEvents.Less`. The model sorts by insertion with
 * adjacent swaps (`UserEvents.Swap`); what is proved is exactly what
 * `sort.Sort` promises and no more: the result is ordered and a
 * permutation, with no promise about the order of equal timestamps.
 */
module BatchSort {
  import opened Records

  function Key(e: UserEvent): int {
    e.event.timestamp.unixNanos
  }

  /** `UserEvents.Swap(i, j)`. */
  method Swap(a: array<UserEvent>, i: nat, j: nat)
    requires i < a.Length && j < a.Length
    modifies a
    ensures a[..] == old(a[..])[i := old(a[j])][j := old(a[i])]
    ensures multiset(a[..]) == multiset(old(a[..]))
  {
    a[i], a[j] := a[j], a[i];
  }

  method SortByTime(a: array<UserEvent>)
    modifies a
    ensures SortsTo(old(a[..]), a[..])
  {
    var i := 0;
    while i < a.Length
      invariant i <= a.Length
      invariant forall p, q :: 0 <= p < q < i ==> Key(a[p]) <= Key(a[q])
      invariant multiset(a[..]) == multiset(old(a[..]))
    {
      var j := i;
      while j > 0 && Less(a[j], a[j - 1])
        invariant j <= i
        invariant forall p, q :: 0 <= p < q <= i && p != j && q != j ==> Key(a[p]) <= Key(a[q])
        invariant forall q :: j < q <= i ==> Key(a[j]) <= Key(a[q])
        invariant multiset(a[..]) == multiset(old(a[..]))
      {
        Swap(a, j - 1, j);
        j := j - 1;
      }
      i := i + 1;
    }
  }
}
