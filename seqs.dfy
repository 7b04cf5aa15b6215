/** The `filter_map`-and-push shape of the line and entry parsers. */
module Seqs {
  import opened Wrappers

  /** The values `f` yields on the elements of `xs`, in order, skipping
      the elements for which it yields None. */
  function Collect<T, U>(xs: seq<T>, f: T -> Option<U>): (r: seq<U>)
    ensures |r| <= |xs|
  {
    if xs == [] then []
    else
      var front := Collect(xs[..|xs| - 1], f);
      match f(xs[|xs| - 1])
      case None => front
      case Some(u) => front + [u]
  }

  /** Collecting over a concatenation is the concatenation of the two. */
  lemma {:induction false} CollectAppend<T, U>(xs: seq<T>, ys: seq<T>, f: T -> Option<U>)
    ensures Collect(xs + ys, f) == Collect(xs, f) + Collect(ys, f)
    decreases |ys|
  {
    if ys == [] {
      assert xs + ys == xs;
    } else {
      var zs := xs + ys;
      assert zs[..|zs| - 1] == xs + ys[..|ys| - 1];
      assert zs[|zs| - 1] == ys[|ys| - 1];
      CollectAppend(xs, ys[..|ys| - 1], f);
    }
  }

  /** Every collected value is the image of some element, and every image
      of an element is collected. */
  lemma {:induction false} CollectMembers<T, U>(xs: seq<T>, f: T -> Option<U>)
    ensures forall u :: u in Collect(xs, f) <==> exists i :: 0 <= i < |xs| && f(xs[i]) == Some(u)
    decreases |xs|
  {
    if xs != [] {
      var init := xs[..|xs| - 1];
      CollectMembers(init, f);
      assert forall i :: 0 <= i < |init| ==> init[i] == xs[i];
    }
  }

  /** When `f` always yields, nothing is skipped. */
  lemma {:induction false} CollectTotal<T, U>(xs: seq<T>, f: T -> Option<U>)
    requires forall x :: f(x).Some?
    ensures |Collect(xs, f)| == |xs|
    decreases |xs|
  {
    if xs != [] {
      CollectTotal(xs[..|xs| - 1], f);
    }
  }

  lemma CollectSingle<T, U>(x: T, f: T -> Option<U>)
    ensures Collect([x], f) == if f(x).Some? then [f(x).value] else []
  {
    assert [x][..0] == [];
  }

  /** The push loop: each value `f` yields is pushed onto `acc`, in order. */
  method CollectInto<T, U>(acc: seq<U>, xs: seq<T>, f: T -> Option<U>) returns (acc': seq<U>)
    ensures acc' == acc + Collect(xs, f)
  {
    acc' := acc;
    for j := 0 to |xs|
      invariant acc' == acc + Collect(xs[..j], f)
    {
      assert xs[..j + 1][..j] == xs[..j];
      var y := f(xs[j]);
      if y.Some? {
        acc' := acc' + [y.value];
      }
    }
    assert xs[..|xs|] == xs;
  }

  /** Every element of `xs` through `f`. */
  function Mapped<T>(xs: seq<T>, f: T -> T): (r: seq<T>)
    ensures |r| == |xs|
    ensures forall i :: 0 <= i < |xs| ==> r[i] == f(xs[i])
  {
    seq(|xs|, i requires 0 <= i < |xs| => f(xs[i]))
  }

  /** The loop over `&mut` elements: each element of `a` is replaced by its
      image under `f`, the ones not yet reached staying as they were. */
  method MapInPlace<T>(a: array<T>, f: T -> T)
    modifies a
    ensures a[..] == Mapped(old(a[..]), f)
  {
    for i := 0 to a.Length
      invariant forall k :: 0 <= k < i ==> a[k] == f(old(a[k]))
      invariant forall k :: i <= k < a.Length ==> a[k] == old(a[k])
    {
      a[i] := f(a[i]);
    }
  }
}
