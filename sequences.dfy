/** Mapping a function over a sequence, the list comprehension
    `[f(x) for x in xs]`, with the facts the load loop needs about it, and
    the prefix step every loop over a list takes. */
module Sequences {

  /** One more step of a loop over xs: the prefix grows by xs[i]. */
  lemma TakeSnoc<A>(xs: seq<A>, i: nat)
    requires i < |xs|
    ensures xs[..i + 1] == xs[..i] + [xs[i]]
  {
  }

  /** [f(x) for x in xs] */
  function MapSeq<A, B>(xs: seq<A>, f: A -> B): (ys: seq<B>)
    ensures |ys| == |xs|
  {
    if xs == [] then [] else MapSeq(xs[..|xs| - 1], f) + [f(xs[|xs| - 1])]
  }

  lemma {:induction false} MapSeqAt<A, B>(xs: seq<A>, f: A -> B)
    ensures forall i :: 0 <= i < |xs| ==> MapSeq(xs, f)[i] == f(xs[i])
  {
    if xs != [] {
      MapSeqAt(xs[..|xs| - 1], f);
    }
  }

  /** Mapping distributes over concatenation. */
  lemma {:induction false} MapSeqAppend<A, B>(a: seq<A>, b: seq<A>, f: A -> B)
    ensures MapSeq(a + b, f) == MapSeq(a, f) + MapSeq(b, f)
  {
    if b == [] {
      assert a + b == a;
    } else {
      MapSeqAppend(a, b[..|b| - 1], f);
      assert (a + b)[..|a + b| - 1] == a + b[..|b| - 1];
    }
  }

  lemma MapSeqPrefix<A, B>(xs: seq<A>, i: nat, f: A -> B)
    requires i < |xs|
    ensures MapSeq(xs[..i + 1], f) == MapSeq(xs[..i], f) + [f(xs[i])]
  {
    assert xs[..i + 1][..i] == xs[..i];
  }

  /** Splitting at one element. */
  lemma MapSeqAround<A, B>(xs: seq<A>, i: nat, f: A -> B)
    requires i < |xs|
    ensures MapSeq(xs, f) == MapSeq(xs[..i], f) + [f(xs[i])] + MapSeq(xs[i + 1..], f)
  {
    assert xs == xs[..i + 1] + xs[i + 1..];
    MapSeqAppend(xs[..i + 1], xs[i + 1..], f);
    MapSeqPrefix(xs, i, f);
  }
}
