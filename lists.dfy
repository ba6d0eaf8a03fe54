/**
 * The array combinators the handlers use (`filter` followed by `map`, and
 * `join`), written once over sequences.
 */
module Lists {

  /** `xs.filter(keep).map(f)`: the images of the kept elements, in order. */
  function FilterMap<T, U>(xs: seq<T>, keep: T -> bool, f: T -> U): (ys: seq<U>)
    ensures |ys| <= |xs|
    ensures ys == [] <==> forall i :: 0 <= i < |xs| ==> !keep(xs[i])
    ensures forall i :: 0 <= i < |xs| && keep(xs[i]) ==> f(xs[i]) in ys
    ensures forall y :: y in ys ==> exists i :: 0 <= i < |xs| && keep(xs[i]) && f(xs[i]) == y
  {
    if xs == [] then []
    else
      var rest := FilterMap(xs[1..], keep, f);
      assert forall i :: 1 <= i < |xs| ==> xs[i] == xs[1..][i - 1];
      if keep(xs[0]) then [f(xs[0])] + rest else rest
  }

  /** Filtering distributes over concatenation: order is kept and nothing is merged. */
  lemma {:induction false} FilterMapAppend<T, U>(xs: seq<T>, zs: seq<T>, keep: T -> bool, f: T -> U)
    ensures FilterMap(xs + zs, keep, f) == FilterMap(xs, keep, f) + FilterMap(zs, keep, f)
  {
    if xs != [] {
      assert (xs + zs)[0] == xs[0];
      assert (xs + zs)[1..] == xs[1..] + zs;
      FilterMapAppend(xs[1..], zs, keep, f);
      var head := if keep(xs[0]) then [f(xs[0])] else [];
      assert FilterMap(xs + zs, keep, f) == head + FilterMap(xs[1..] + zs, keep, f);
      assert FilterMap(xs, keep, f) == head + FilterMap(xs[1..], keep, f);
    } else {
      assert xs + zs == zs;
    }
  }

  /** `xs.join(sep)`. */
  function Join(xs: seq<string>, sep: string): (s: string)
    ensures xs == [] ==> s == ""
    ensures |xs| == 1 ==> s == xs[0]
  {
    if xs == [] then ""
    else if |xs| == 1 then xs[0]
    else xs[0] + sep + Join(xs[1..], sep)
  }

  /** Joining one more element appends the separator and that element. */
  lemma {:induction false} JoinSnoc(xs: seq<string>, x: string, sep: string)
    requires xs != []
    ensures Join(xs + [x], sep) == Join(xs, sep) + sep + x
  {
    assert (xs + [x])[0] == xs[0];
    assert (xs + [x])[1..] == xs[1..] + [x];
    if |xs| > 1 {
      JoinSnoc(xs[1..], x, sep);
    } else {
      assert xs[1..] + [x] == [x];
    }
  }
}
