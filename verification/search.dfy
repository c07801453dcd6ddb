/** The linear search behind LINQ's `FirstOrDefault`, used by both stores. */
module Search {
  import opened Wrappers

  /** The index of the first element that satisfies `matches`, or None when no element does. */
  function IndexOfFirst<T>(s: seq<T>, matches: T -> bool): (r: Option<nat>)
    ensures r.Some? ==> r.value < |s| && matches(s[r.value])
    ensures r.Some? ==> forall k :: 0 <= k < r.value ==> !matches(s[k])
    ensures r.None? ==> forall k :: 0 <= k < |s| ==> !matches(s[k])
  {
    if |s| == 0 then None
    else if matches(s[0]) then Some(0)
    else
      match IndexOfFirst(s[1..], matches)
      case None => None
      case Some(k) => Some(k + 1)
  }
}
