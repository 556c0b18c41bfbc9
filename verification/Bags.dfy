/** Sums of multisets over lists, and how they react to permuting and filtering the list. */
module Bags {

  ghost function Sum<S, F>(y: S -> multiset<F>, xs: seq<S>): multiset<F> {
    if xs == [] then multiset{} else Sum(y, xs[..|xs| - 1]) + y(xs[|xs| - 1])
  }

  function Keep<S>(p: S -> bool, xs: seq<S>): seq<S> {
    if xs == [] then []
    else if p(xs[|xs| - 1]) then Keep(p, xs[..|xs| - 1]) + [xs[|xs| - 1]]
    else Keep(p, xs[..|xs| - 1])
  }

  lemma SumOneMore<S, F>(y: S -> multiset<F>, xs: seq<S>, x: S)
    ensures Sum(y, xs + [x]) == Sum(y, xs) + y(x)
  {
    assert (xs + [x])[..|xs|] == xs;
  }

  lemma {:induction false} SumWithout<S, F>(y: S -> multiset<F>, xs: seq<S>, k: nat)
    requires k < |xs|
    ensures Sum(y, xs) == Sum(y, xs[..k] + xs[k + 1..]) + y(xs[k])
  {
    var n := |xs| - 1;
    if k == n {
      assert xs[..k] + xs[k + 1..] == xs[..n];
    } else {
      SumWithout(y, xs[..n], k);
      assert xs[..n][..k] + xs[..n][k + 1..] == (xs[..k] + xs[k + 1..])[..n - 1];
    }
  }

  lemma Without<S>(xs: seq<S>, k: nat)
    requires k < |xs|
    ensures multiset(xs) == multiset(xs[..k] + xs[k + 1..]) + multiset{xs[k]}
  {
    assert xs == xs[..k] + [xs[k]] + xs[k + 1..];
  }

  /** The order of the list does not matter. */
  lemma {:induction false} SumPermuted<S, F>(y: S -> multiset<F>, a: seq<S>, b: seq<S>)
    requires multiset(a) == multiset(b)
    ensures Sum(y, a) == Sum(y, b)
    decreases |a|
  {
    assert |multiset(a)| == |a| && |multiset(b)| == |b|;
    if a != [] {
      var n := |a| - 1;
      assert a[n] in multiset(b);
      var k :| 0 <= k < |b| && b[k] == a[n];
      var rest := b[..k] + b[k + 1..];
      Without(b, k);
      assert multiset(a) == multiset(a[..n]) + multiset{a[n]} by {
        assert a == a[..n] + [a[n]];
      }
      assert multiset(a[..n]) == multiset(a) - multiset{a[n]} == multiset(rest);
      SumPermuted(y, a[..n], rest);
      SumWithout(y, b, k);
    }
  }

  /** A filter that splits into two exclusive ones sums to both. */
  lemma {:induction false} KeepSplits<S, F>(y: S -> multiset<F>, r: S -> bool, p: S -> bool, q: S -> bool, xs: seq<S>)
    requires forall x :: x in xs ==> r(x) == (p(x) || q(x)) && !(p(x) && q(x))
    ensures Sum(y, Keep(r, xs)) == Sum(y, Keep(p, xs)) + Sum(y, Keep(q, xs))
  {
    if xs != [] {
      var n := |xs| - 1;
      KeepSplits(y, r, p, q, xs[..n]);
      assert xs[n] in xs;
      SumOneMore(y, Keep(r, xs[..n]), xs[n]);
      SumOneMore(y, Keep(p, xs[..n]), xs[n]);
      SumOneMore(y, Keep(q, xs[..n]), xs[n]);
    }
  }

  /** Elements that contribute nothing may be dropped. */
  lemma {:induction false} KeepSilent<S, F>(y: S -> multiset<F>, r: S -> bool, p: S -> bool, xs: seq<S>)
    requires forall x :: x in xs ==> (p(x) ==> r(x)) && (r(x) && !p(x) ==> y(x) == multiset{})
    ensures Sum(y, Keep(r, xs)) == Sum(y, Keep(p, xs))
  {
    if xs != [] {
      var n := |xs| - 1;
      KeepSilent(y, r, p, xs[..n]);
      assert xs[n] in xs;
      SumOneMore(y, Keep(r, xs[..n]), xs[n]);
      SumOneMore(y, Keep(p, xs[..n]), xs[n]);
    }
  }

  lemma {:induction false} KeepSame<S>(p: S -> bool, q: S -> bool, xs: seq<S>)
    requires forall x :: x in xs ==> p(x) == q(x)
    ensures Keep(p, xs) == Keep(q, xs)
  {
    if xs != [] {
      assert xs[|xs| - 1] in xs;
      KeepSame(p, q, xs[..|xs| - 1]);
    }
  }

  lemma {:induction false} KeepMembers<S(!new)>(p: S -> bool, xs: seq<S>)
    ensures forall x :: x in Keep(p, xs) <==> x in xs && p(x)
  {
    if xs != [] {
      var n := |xs| - 1;
      KeepMembers(p, xs[..n]);
      assert forall x :: x in xs <==> x in xs[..n] || x == xs[n];
    }
  }
}
