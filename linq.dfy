/**
 * The two LINQ operators the analyzer and the code fix are built from:
 * `FirstOrDefault(predicate)` (also `OfType<T>().FirstOrDefault()`) and `Any(predicate)`.
 * A `null` from `FirstOrDefault` is `None` here.
 */
module Linq {
  import opened Wrappers

  /** Index `i` holds the first element of `s` that satisfies `p`. */
  predicate IsFirstWhere<T>(s: seq<T>, p: T -> bool, i: int)
  {
    0 <= i < |s| && p(s[i]) && forall j :: 0 <= j < i ==> !p(s[j])
  }

  /** `s.FirstOrDefault(p)`: the first element satisfying `p`, scanning from the front. */
  function FirstOrDefault<T>(s: seq<T>, p: T -> bool): (r: Option<T>)
    ensures r.None? <==> forall i :: 0 <= i < |s| ==> !p(s[i])
    ensures r.Some? ==> exists i :: IsFirstWhere(s, p, i) && s[i] == r.value
    ensures forall i :: IsFirstWhere(s, p, i) ==> r == Some(s[i])
  {
    if s == [] then None
    else if p(s[0]) then
      assert IsFirstWhere(s, p, 0);
      Some(s[0])
    else
      assert forall i :: IsFirstWhere(s[1..], p, i) ==> IsFirstWhere(s, p, i + 1);
      FirstOrDefault(s[1..], p)
  }

  /** `s.Any(p)`: some element satisfies `p`. */
  function Any<T>(s: seq<T>, p: T -> bool): (r: bool)
    ensures r <==> exists i :: 0 <= i < |s| && p(s[i])
  {
    if s == [] then false
    else if p(s[0]) then true
    else
      assert forall i :: 1 <= i < |s| ==> s[i] == s[1..][i - 1];
      Any(s[1..], p)
  }
}
