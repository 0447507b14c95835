/**
 * "First qualifying element in list order": the selection rule every payment
 * strategy applies to the provider's reverse-chronological listings
 * (a `foreach` that assigns and then `break`s).
 */
module Search {
  import opened Options

  /** The index of the first element of `xs` that satisfies `q`, if any. */
  function First<T>(xs: seq<T>, q: T -> bool): (r: Option<nat>)
    ensures r.None? <==> forall j :: 0 <= j < |xs| ==> !q(xs[j])
    ensures r.Some? ==> r.value < |xs| && q(xs[r.value])
    ensures r.Some? ==> forall j :: 0 <= j < r.value ==> !q(xs[j])
  {
    if |xs| == 0 then None
    else if q(xs[0]) then Some(0)
    else
      var rest := First(xs[1..], q);
      assert forall j :: 1 <= j < |xs| ==> xs[j] == xs[1..][j - 1];
      if rest.Some? then Some(rest.value + 1) else None
  }

  /** `k` indexes the first element of `xs` that satisfies `q`. */
  predicate IsFirst<T>(xs: seq<T>, q: T -> bool, k: nat) {
    k < |xs| && q(xs[k]) && forall j :: 0 <= j < k ==> !q(xs[j])
  }

  /** No element of `xs` satisfies `q`. */
  predicate NoneSatisfy<T>(xs: seq<T>, q: T -> bool) {
    forall j :: 0 <= j < |xs| ==> !q(xs[j])
  }

  /** `First` answers exactly the first qualifying index, and nothing when there is none. */
  lemma FirstCharacterized<T>(xs: seq<T>, q: T -> bool, k: nat)
    ensures First(xs, q) == Some(k) <==> IsFirst(xs, q, k)
    ensures First(xs, q) == None <==> NoneSatisfy(xs, q)
  {
  }

  /** The loop form of `First`: scan in order and stop at the first hit. */
  method FindFirst<T>(xs: seq<T>, q: T -> bool) returns (k: Option<nat>)
    ensures k == First(xs, q)
  {
    var i := 0;
    while i < |xs|
      invariant 0 <= i <= |xs|
      invariant forall j :: 0 <= j < i ==> !q(xs[j])
    {
      if q(xs[i]) {
        return Some(i);
      }
      i := i + 1;
    }
    return None;
  }
}
