/** Generic sequence operations: an element-wise map, a map whose steps may throw, and a filter. */
module Seqs {
  import opened Wrappers

  /** `f` applied to each of `xs`, in order. */
  function MapSeq<A, B>(f: A -> B, xs: seq<A>): (r: seq<B>)
    ensures |r| == |xs|
    decreases |xs|
  {
    if xs == [] then [] else MapSeq(f, xs[..|xs| - 1]) + [f(xs[|xs| - 1])]
  }

  /** Element `k` of the mapped sequence is `f` of element `k`. */
  lemma {:induction false} MapSeqAt<A, B>(f: A -> B, xs: seq<A>)
    ensures forall k | 0 <= k < |xs| :: MapSeq(f, xs)[k] == f(xs[k])
    decreases |xs|
  {
    if xs != [] {
      var init := xs[..|xs| - 1];
      MapSeqAt(f, init);
      forall k | 0 <= k < |xs|
        ensures MapSeq(f, xs)[k] == f(xs[k])
      {
        if k < |init| {
          assert init[k] == xs[k];
        }
      }
    }
  }

  /** Mapping a prefix one element longer adds that element's image. */
  lemma MapSeqSnoc<A, B>(f: A -> B, xs: seq<A>, i: nat)
    requires i < |xs|
    ensures MapSeq(f, xs[..i + 1]) == MapSeq(f, xs[..i]) + [f(xs[i])]
  {
    assert xs[..i + 1][..i] == xs[..i] && xs[..i + 1][i] == xs[i];
  }

  /** `xs.map(f)` where `f` may throw: a throw on any element is a throw of the whole map. */
  function MapOutcome<A, B>(f: A -> Outcome<B>, xs: seq<A>): (r: Outcome<seq<B>>)
    ensures r.Returns? ==> |r.value| == |xs|
    decreases |xs|
  {
    if xs == [] then Returns([])
    else match (f(xs[0]), MapOutcome(f, xs[1..]))
      case (Returns(y), Returns(ys)) => Returns([y] + ys)
      case _ => Throws
  }

  /** The map returns exactly when every step returns, and then element `k` is step `k`'s value. */
  lemma {:induction false} MapOutcomeAt<A, B>(f: A -> Outcome<B>, xs: seq<A>)
    ensures MapOutcome(f, xs).Returns? <==> forall k | 0 <= k < |xs| :: f(xs[k]).Returns?
    ensures MapOutcome(f, xs).Returns? ==> forall k | 0 <= k < |xs| :: f(xs[k]) == Returns(MapOutcome(f, xs).value[k])
    decreases |xs|
  {
    if xs != [] {
      MapOutcomeAt(f, xs[1..]);
      assert forall k | 1 <= k < |xs| :: xs[k] == xs[1..][k - 1];
    }
  }

  /** The elements of `xs` that satisfy `p`, in order. */
  function Filter<T>(p: T -> bool, xs: seq<T>): seq<T>
    decreases |xs|
  {
    if xs == [] then []
    else Filter(p, xs[..|xs| - 1]) + (if p(xs[|xs| - 1]) then [xs[|xs| - 1]] else [])
  }

  /** Filtering one more element keeps it exactly when it satisfies `p`. */
  lemma FilterSnoc<T>(p: T -> bool, xs: seq<T>, x: T)
    ensures Filter(p, xs + [x]) == Filter(p, xs) + (if p(x) then [x] else [])
  {
    assert (xs + [x])[..|xs|] == xs;
  }

  /** Every element kept by the filter satisfies `p`. */
  lemma {:induction false} FilterAll<T>(p: T -> bool, xs: seq<T>)
    ensures forall k | 0 <= k < |Filter(p, xs)| :: p(Filter(p, xs)[k])
    decreases |xs|
  {
    if xs != [] {
      var init, x := xs[..|xs| - 1], xs[|xs| - 1];
      FilterAll(p, init);
      assert xs == init + [x];
      FilterSnoc(p, init, x);
    }
  }

  /** The filter keeps exactly the elements of `xs` that satisfy `p`. */
  lemma {:induction false} FilterMembers<T>(p: T -> bool, xs: seq<T>)
    ensures forall x :: x in Filter(p, xs) <==> x in xs && p(x)
    decreases |xs|
  {
    if xs != [] {
      var init, y := xs[..|xs| - 1], xs[|xs| - 1];
      FilterMembers(p, init);
      assert xs == init + [y];
      FilterSnoc(p, init, y);
      forall x
        ensures x in Filter(p, xs) <==> x in xs && p(x)
      {
        assert x in xs <==> x in init || x == y;
      }
    }
  }

  /** A filter and its complement split `xs`: together they hold each element as often as `xs` does. */
  lemma {:induction false} FilterSplit<T>(p: T -> bool, q: T -> bool, xs: seq<T>)
    requires forall x :: q(x) == !p(x)
    ensures multiset(Filter(p, xs)) + multiset(Filter(q, xs)) == multiset(xs)
    decreases |xs|
  {
    if xs != [] {
      var init, x := xs[..|xs| - 1], xs[|xs| - 1];
      FilterSplit(p, q, init);
      assert xs == init + [x];
      FilterSnoc(p, init, x);
      FilterSnoc(q, init, x);
      var fp, fq := Filter(p, init), Filter(q, init);
      assert multiset(xs) == multiset(init) + multiset{x};
      if p(x) {
        assert !q(x);
        assert multiset(Filter(p, xs)) == multiset(fp) + multiset{x};
        assert multiset(Filter(q, xs)) == multiset(fq);
      } else {
        assert q(x);
        assert multiset(Filter(p, xs)) == multiset(fp);
        assert multiset(Filter(q, xs)) == multiset(fq) + multiset{x};
      }
    }
  }
}
