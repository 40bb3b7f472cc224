/** Ruby's `Enumerable#find`, on which `Base#link` and `Photo#thumbnail` are built. */
module Enumerable {
  import opened Wrappers

  /** `i` is the position of the first element of `xs` that satisfies `p`. */
  ghost predicate IsFirstMatch<T>(xs: seq<T>, p: T -> bool, i: int)
  {
    0 <= i < |xs| && p(xs[i]) && forall j :: 0 <= j < i ==> !p(xs[j])
  }

  /** The first element of `xs` for which `p` holds, or None when no element does. */
  function Find<T>(xs: seq<T>, p: T -> bool): (r: Option<T>)
    ensures r.None? <==> forall i :: 0 <= i < |xs| ==> !p(xs[i])
    ensures r.Some? ==> exists i :: IsFirstMatch(xs, p, i) && xs[i] == r.value
  {
    if xs == [] then None
    else if p(xs[0]) then
      assert IsFirstMatch(xs, p, 0);
      Some(xs[0])
    else
      var r := Find(xs[1..], p);
      assert forall i :: 1 <= i < |xs| ==> xs[i] == xs[1..][i - 1];
      assert r.Some? ==> exists i :: IsFirstMatch(xs, p, i) && xs[i] == r.value by {
        if r.Some? {
          var i :| IsFirstMatch(xs[1..], p, i) && xs[1..][i] == r.value;
          assert IsFirstMatch(xs, p, i + 1);
        }
      }
      r
  }

  /** Whatever follows the first match does not matter: `find` stops at `x`. */
  lemma {:induction false} FindStopsAtFirst<T>(a: seq<T>, x: T, b: seq<T>, p: T -> bool)
    requires p(x)
    requires forall i :: 0 <= i < |a| ==> !p(a[i])
    ensures Find(a + [x] + b, p) == Some(x)
  {
    if a != [] {
      assert (a + [x] + b)[1..] == a[1..] + [x] + b;
      FindStopsAtFirst(a[1..], x, b, p);
    }
  }
}
