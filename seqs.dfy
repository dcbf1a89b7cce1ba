/** Keeping the elements a partial map accepts, in order: the shape shared by the
    recipient parser (lines without a comma are dropped) and the send loop
    (only failed attempts are recorded). */
module Seqs {
  import opened Wrappers

  /** The images under `f` of the elements of `xs` that `f` maps to `Some`, in order. */
  function FilterMap<A, B>(f: A -> Option<B>, xs: seq<A>): seq<B>
  {
    if xs == [] then []
    else
      var n := |xs| - 1;
      match f(xs[n])
      case Some(y) => FilterMap(f, xs[..n]) + [y]
      case None => FilterMap(f, xs[..n])
  }

  /** The positions of `xs` that `f` maps to `Some`, in increasing order. */
  function Kept<A, B>(f: A -> Option<B>, xs: seq<A>): (ks: seq<nat>)
    ensures forall k :: 0 <= k < |ks| ==> ks[k] < |xs|
  {
    if xs == [] then []
    else
      var n := |xs| - 1;
      if f(xs[n]).Some? then Kept(f, xs[..n]) + [n] else Kept(f, xs[..n])
  }

  /** The elements of an option: none, or the one it holds. */
  function Elements<B>(o: Option<B>): seq<B>
  {
    match o
    case Some(y) => [y]
    case None => []
  }

  /** One more element: its image is appended when `f` accepts it. */
  lemma FilterMapStep<A, B>(f: A -> Option<B>, xs: seq<A>, i: nat)
    requires i < |xs|
    ensures FilterMap(f, xs[..i + 1]) == FilterMap(f, xs[..i]) + Elements(f(xs[i]))
  {
    assert xs[..i + 1][..i] == xs[..i];
  }

  /** Filtering a concatenation filters each part: the order of the input is kept. */
  lemma {:induction false} FilterMapAppend<A, B>(f: A -> Option<B>, xs: seq<A>, ys: seq<A>)
    ensures FilterMap(f, xs + ys) == FilterMap(f, xs) + FilterMap(f, ys)
    decreases |ys|
  {
    if ys == [] {
      assert xs + ys == xs;
    } else {
      var n := |ys| - 1;
      assert (xs + ys)[..|xs| + n] == xs + ys[..n];
      FilterMapAppend(f, xs, ys[..n]);
    }
  }

  /** Each output element comes from exactly one kept input position, the kept positions
      increase, and a position is kept exactly when `f` accepts it: the output is the
      accepted inputs, each once, in input order. */
  lemma {:induction false} FilterMapKept<A, B>(f: A -> Option<B>, xs: seq<A>)
    ensures |Kept(f, xs)| == |FilterMap(f, xs)| <= |xs|
    ensures forall k :: 0 <= k < |Kept(f, xs)| ==>
              f(xs[Kept(f, xs)[k]]) == Some(FilterMap(f, xs)[k])
    ensures forall k, l :: 0 <= k < l < |Kept(f, xs)| ==> Kept(f, xs)[k] < Kept(f, xs)[l]
    ensures forall i :: 0 <= i < |xs| ==> (i in Kept(f, xs) <==> f(xs[i]).Some?)
  {
    if xs != [] {
      var n := |xs| - 1;
      FilterMapKept(f, xs[..n]);
      forall i | 0 <= i < n
        ensures xs[..n][i] == xs[i]
      {
      }
    }
  }

  /** Pairs up two sequences of equal length, position by position. */
  function Zip<A, B>(xs: seq<A>, ys: seq<B>): seq<(A, B)>
    requires |xs| == |ys|
  {
    seq(|xs|, i requires 0 <= i < |xs| => (xs[i], ys[i]))
  }
}
