/** Sequence combinators: how the scanner walks a document. A tree search
    (`find_all`, `find`) is a filter or a first match over the elements in
    document order, and a check that looks at every element and reports zero
    or one finding for each is a `Collect`. */
module Seqs {
  import opened Wrappers

  /** The elements of `xs` that satisfy `p`, in their original order. */
  function Filter<T(!new)>(xs: seq<T>, p: T -> bool): (r: seq<T>)
    ensures |r| <= |xs|
    ensures forall x :: x in r <==> x in xs && p(x)
  {
    if xs == [] then []
    else
      var init, last := xs[..|xs| - 1], xs[|xs| - 1];
      assert xs == init + [last];
      Filter(init, p) + (if p(last) then [last] else [])
  }

  /** `g` applied to every element of `xs`. */
  function Map<T, U>(xs: seq<T>, g: T -> U): seq<U> {
    seq(|xs|, i requires 0 <= i < |xs| => g(xs[i]))
  }

  /** The concatenation, in order, of what `f` reports for each element. */
  function Collect<T(!new), U>(xs: seq<T>, f: T -> Option<U>): (r: seq<U>)
    ensures |r| <= |xs|
  {
    if xs == [] then []
    else
      var init, last := xs[..|xs| - 1], xs[|xs| - 1];
      assert xs == init + [last];
      Collect(init, f) + f(last).ToSeq()
  }

  /** When everything `f` reports satisfies `q`, so does everything
      collected. */
  lemma {:induction false} CollectAllSatisfy<T(!new), U(!new)>(xs: seq<T>, f: T -> Option<U>, q: U -> bool)
    requires forall x :: f(x).Some? ==> q(f(x).value)
    ensures forall i :: 0 <= i < |Collect(xs, f)| ==> q(Collect(xs, f)[i])
  {
    if xs != [] {
      var init, last := xs[..|xs| - 1], xs[|xs| - 1];
      CollectAllSatisfy(init, f, q);
      var r := Collect(xs, f);
      assert r == Collect(init, f) + f(last).ToSeq();
      forall i | 0 <= i < |r| ensures q(r[i]) {
        if i >= |Collect(init, f)| {
          assert r[i] == f(last).value;
        }
      }
    }
  }

  /** The first element of `xs` that satisfies `p`, if any. */
  function Find<T(!new)>(xs: seq<T>, p: T -> bool): (r: Option<T>)
    ensures r.Some? <==> exists x :: x in xs && p(x)
    ensures r.Some? ==> r.value in xs && p(r.value)
  {
    if xs == [] then None
    else if p(xs[0]) then Some(xs[0])
    else
      assert xs == [xs[0]] + xs[1..];
      Find(xs[1..], p)
  }

  /** Nothing passes a filter that no element satisfies. */
  lemma {:induction false} FilterNone<T(!new)>(xs: seq<T>, p: T -> bool)
    requires forall x :: x in xs ==> !p(x)
    ensures Filter(xs, p) == []
  {
    if xs != [] {
      var init := xs[..|xs| - 1];
      assert forall x :: x in init ==> x in xs;
      FilterNone(init, p);
    }
  }

  lemma {:induction false} FilterSnoc<T(!new)>(xs: seq<T>, x: T, p: T -> bool)
    ensures Filter(xs + [x], p) == Filter(xs, p) + (if p(x) then [x] else [])
  {
    assert (xs + [x])[..|xs|] == xs;
  }

  lemma {:induction false} CollectSnoc<T(!new), U>(xs: seq<T>, x: T, f: T -> Option<U>)
    ensures Collect(xs + [x], f) == Collect(xs, f) + f(x).ToSeq()
  {
    assert (xs + [x])[..|xs|] == xs;
  }

  /** Concatenation regroups; stated over plain sequences so that callers
      with large concatenated terms need not prove it by extensionality. */
  lemma AppendAssoc<T>(a: seq<T>, b: seq<T>, c: seq<T>)
    ensures a + b + c == a + (b + c)
  {
  }

  /** One more step of a left-to-right walk over `xs` that appends what it
      collects to `before`. */
  lemma {:induction false} CollectStep<T(!new), U>(before: seq<U>, xs: seq<T>, i: nat, f: T -> Option<U>)
    requires i < |xs|
    ensures before + Collect(xs[..i + 1], f) == before + Collect(xs[..i], f) + f(xs[i]).ToSeq()
  {
    assert xs[..i + 1] == xs[..i] + [xs[i]];
    CollectSnoc(xs[..i], xs[i], f);
  }

  lemma {:induction false} CollectStepSome<T(!new), U>(before: seq<U>, xs: seq<T>, i: nat, f: T -> Option<U>, y: U)
    requires i < |xs| && f(xs[i]) == Some(y)
    ensures before + Collect(xs[..i + 1], f) == before + Collect(xs[..i], f) + [y]
  {
    CollectStep(before, xs, i, f);
  }

  lemma {:induction false} CollectStepNone<T(!new), U>(before: seq<U>, xs: seq<T>, i: nat, f: T -> Option<U>)
    requires i < |xs| && f(xs[i]) == None
    ensures before + Collect(xs[..i + 1], f) == before + Collect(xs[..i], f)
  {
    CollectStep(before, xs, i, f);
    assert f(xs[i]).ToSeq() == [];
  }

  /** A walk that has reached the end has seen all of `xs`. */
  lemma CollectAll<T(!new), U>(xs: seq<T>, f: T -> Option<U>)
    ensures Collect(xs[..|xs|], f) == Collect(xs, f)
  {
    assert xs[..|xs|] == xs;
  }

  lemma {:induction false} MapSnoc<T, U>(xs: seq<T>, x: T, g: T -> U)
    ensures Map(xs + [x], g) == Map(xs, g) + [g(x)]
  {
  }

  /** Filtering twice is filtering once by the conjunction. */
  lemma {:induction false} FilterFilter<T(!new)>(xs: seq<T>, p: T -> bool, q: T -> bool, both: T -> bool)
    requires forall x :: both(x) == (p(x) && q(x))
    ensures Filter(Filter(xs, p), q) == Filter(xs, both)
  {
    if xs != [] {
      var init, last := xs[..|xs| - 1], xs[|xs| - 1];
      assert xs == init + [last];
      FilterFilter(init, p, q, both);
      FilterSnoc(init, last, p);
      FilterSnoc(init, last, both);
      if p(last) {
        FilterSnoc(Filter(init, p), last, q);
        assert Filter(xs, p) == Filter(init, p) + [last];
        assert Filter(Filter(xs, p), q) == Filter(init, both) + (if q(last) then [last] else []);
      } else {
        assert Filter(xs, p) == Filter(init, p);
      }
      assert both(last) == (p(last) && q(last));
    }
  }

  /** A check that reports `g(x)` exactly for the elements satisfying `p`
      reports the images under `g` of the filtered sequence, in order. */
  lemma {:induction false} CollectIsMapOfFilter<T(!new), U>(xs: seq<T>, f: T -> Option<U>, p: T -> bool, g: T -> U)
    requires forall x :: f(x) == if p(x) then Some(g(x)) else None
    ensures Collect(xs, f) == Map(Filter(xs, p), g)
  {
    if xs != [] {
      var init, last := xs[..|xs| - 1], xs[|xs| - 1];
      assert xs == init + [last];
      CollectIsMapOfFilter(init, f, p, g);
      CollectSnoc(init, last, f);
      FilterSnoc(init, last, p);
      if p(last) {
        MapSnoc(Filter(init, p), last, g);
      }
    }
  }
}
