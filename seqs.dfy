/** Two loop shapes of the parser stated once: a loop that transforms every element and
    stops at the first exception, and a list comprehension with a filter. */
module Seqs {
  import opened Wrappers

  /** `f` applied to every element in order; the first failure is the result, as an
      exception raised inside a Python loop ends it. */
  function MapResult<X, Y, E>(xs: seq<X>, f: X -> Result<Y, E>): Result<seq<Y>, E>
    decreases |xs|
  {
    if xs == [] then Ok([])
    else
      match MapResult(xs[..|xs| - 1], f)
      case Err(e) => Err(e)
      case Ok(ys) =>
        (match f(xs[|xs| - 1])
         case Err(e) => Err(e)
         case Ok(y) => Ok(ys + [y]))
  }

  /** Success exactly when every element succeeds; then one result per element, in order. */
  lemma {:induction false} MapResultOk<X, Y, E>(xs: seq<X>, f: X -> Result<Y, E>)
    ensures MapResult(xs, f).Ok? <==> forall i :: 0 <= i < |xs| ==> f(xs[i]).Ok?
    ensures MapResult(xs, f).Ok? ==>
              |MapResult(xs, f).value| == |xs| &&
              forall i :: 0 <= i < |xs| ==> MapResult(xs, f).value[i] == f(xs[i]).value
    decreases |xs|
  {
    if xs != [] {
      var init := xs[..|xs| - 1];
      MapResultOk(init, f);
      assert forall i :: 0 <= i < |init| ==> init[i] == xs[i];
    }
  }

  /** When the elements before `i` succeed and element `i` fails, its error is the result. */
  lemma {:induction false} MapResultFirstError<X, Y, E>(xs: seq<X>, f: X -> Result<Y, E>, i: nat)
    requires i < |xs|
    requires forall j :: 0 <= j < i ==> f(xs[j]).Ok?
    requires f(xs[i]).Err?
    ensures MapResult(xs, f).Err? && MapResult(xs, f).error == f(xs[i]).error
    decreases |xs|
  {
    var init := xs[..|xs| - 1];
    if i < |xs| - 1 {
      MapResultFirstError(init, f, i);
    } else {
      MapResultOk(init, f);
    }
  }

  /** The positions of the elements that `keep` accepts, in increasing order. */
  function Indices<T>(xs: seq<T>, keep: T -> bool): (idx: seq<nat>)
    ensures forall k :: 0 <= k < |idx| ==> idx[k] < |xs| && keep(xs[idx[k]])
    ensures forall k, l :: 0 <= k < l < |idx| ==> idx[k] < idx[l]
    ensures forall i :: 0 <= i < |xs| && keep(xs[i]) ==> i in idx
    decreases |xs|
  {
    if xs == [] then []
    else
      var init := xs[..|xs| - 1];
      Indices(init, keep) + (if keep(xs[|xs| - 1]) then [|xs| - 1] else [])
  }

  /** No position is kept exactly when no element passes `keep`. */
  lemma IndicesEmpty<T>(xs: seq<T>, keep: T -> bool)
    ensures Indices(xs, keep) == [] <==> forall i :: 0 <= i < |xs| ==> !keep(xs[i])
  {
    var idx := Indices(xs, keep);
    if idx != [] {
      assert keep(xs[idx[0]]);
    }
  }

  /** `[f(x) for x in xs if keep(x)]`. */
  function FilterMap<T, U>(xs: seq<T>, keep: T -> bool, f: T -> U): seq<U>
    decreases |xs|
  {
    if xs == [] then []
    else
      var init := xs[..|xs| - 1];
      FilterMap(init, keep, f) + (if keep(xs[|xs| - 1]) then [f(xs[|xs| - 1])] else [])
  }

  /** The comprehension yields `f` of exactly the kept elements, in their order. */
  lemma {:induction false} FilterMapAt<T, U>(xs: seq<T>, keep: T -> bool, f: T -> U)
    ensures |FilterMap(xs, keep, f)| == |Indices(xs, keep)|
    ensures forall k :: 0 <= k < |Indices(xs, keep)| ==>
              FilterMap(xs, keep, f)[k] == f(xs[Indices(xs, keep)[k]])
    decreases |xs|
  {
    if xs != [] {
      var init := xs[..|xs| - 1];
      FilterMapAt(init, keep, f);
      assert forall i :: 0 <= i < |init| ==> init[i] == xs[i];
    }
  }

  /** Two comprehensions agree when their sources keep the same positions and map the
      kept elements to the same values. */
  lemma {:induction false} FilterMapPointwise<T, U, V>(
    xs: seq<T>, keep: T -> bool, f: T -> V, ys: seq<U>, keep2: U -> bool, g: U -> V)
    requires |xs| == |ys|
    requires forall i :: 0 <= i < |xs| ==> keep(xs[i]) == keep2(ys[i])
    requires forall i :: 0 <= i < |xs| && keep(xs[i]) ==> f(xs[i]) == g(ys[i])
    ensures FilterMap(xs, keep, f) == FilterMap(ys, keep2, g)
    decreases |xs|
  {
    if xs != [] {
      FilterMapPointwise(xs[..|xs| - 1], keep, f, ys[..|ys| - 1], keep2, g);
    }
  }
}
