/**
 * The linear scan behind JavaScript's `Array.prototype.find`, which every
 * route of the record store uses to locate an account: it visits the list
 * in order and stops at the first element the callback accepts.
 */
module Find {

  datatype Option<T> = None | Some(value: T)

  /** `k` is the position of the first element of `s` that satisfies `p`. */
  ghost predicate IsFirst<T>(s: seq<T>, p: T -> bool, k: int) {
    0 <= k < |s| && p(s[k]) && forall j :: 0 <= j < k ==> !p(s[j])
  }

  /** No element of `s` satisfies `p`. */
  ghost predicate NoneMatch<T>(s: seq<T>, p: T -> bool) {
    forall j :: 0 <= j < |s| ==> !p(s[j])
  }

  /**
   * The index of the first element of `s` satisfying `p`, or `None` when
   * there is none (where `find` returns `undefined`).
   */
  function FindFirst<T>(s: seq<T>, p: T -> bool): (r: Option<nat>)
    ensures r.Some? ==> IsFirst(s, p, r.value)
    ensures r.None? <==> NoneMatch(s, p)
  {
    if s == [] then None
    else if p(s[0]) then Some(0)
    else match FindFirst(s[1..], p)
      case None => None
      case Some(k) => Some(k + 1)
  }

  /** Whatever position is shown to be first is the one the scan returns. */
  lemma FindFirstIs<T>(s: seq<T>, p: T -> bool, k: int)
    requires IsFirst(s, p, k)
    ensures FindFirst(s, p) == Some(k)
  {
  }
}
