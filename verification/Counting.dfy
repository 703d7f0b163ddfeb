/** Sums over sequences, and how often an element occurs. */
module Counting {

  function Sum<T>(xs: seq<T>, f: T -> nat): nat {
    if xs == [] then 0 else Sum(xs[..|xs| - 1], f) + f(xs[|xs| - 1])
  }

  lemma SumOne<T>(xs: seq<T>, x: T, f: T -> nat)
    ensures Sum(xs + [x], f) == Sum(xs, f) + f(x)
  {
    assert (xs + [x])[..|xs + [x]| - 1] == xs;
  }

  lemma {:induction false} SumAppend<T>(a: seq<T>, b: seq<T>, f: T -> nat)
    ensures Sum(a + b, f) == Sum(a, f) + Sum(b, f)
  {
    if b == [] {
      assert a + b == a;
    } else {
      var init, last := b[..|b| - 1], b[|b| - 1];
      SumAppend(a, init, f);
      SumOne(a + init, last, f);
      assert a + b == (a + init) + [last];
    }
  }

  lemma SumReplaced<T>(xs: seq<T>, i: nat, x: T, f: T -> nat)
    requires i < |xs|
    ensures Sum(xs[i := x], f) == Sum(xs, f) + f(x) - f(xs[i])
  {
    var a, b := xs[..i], xs[i + 1..];
    assert xs == a + [xs[i]] + b && xs[i := x] == a + [x] + b;
    SumAppend(a + [xs[i]], b, f);
    SumAppend(a + [x], b, f);
    SumOne(a, xs[i], f);
    SumOne(a, x, f);
  }

  function Count<T(==)>(xs: seq<T>, x: T): nat {
    if xs == [] then 0 else Count(xs[..|xs| - 1], x) + if xs[|xs| - 1] == x then 1 else 0
  }

  lemma CountOne<T>(xs: seq<T>, y: T, x: T)
    ensures Count(xs + [y], x) == Count(xs, x) + if y == x then 1 else 0
  {
    assert (xs + [y])[..|xs + [y]| - 1] == xs;
  }

  lemma {:induction false} CountAppend<T>(a: seq<T>, b: seq<T>, x: T)
    ensures Count(a + b, x) == Count(a, x) + Count(b, x)
  {
    if b == [] {
      assert a + b == a;
    } else {
      var init, last := b[..|b| - 1], b[|b| - 1];
      CountAppend(a, init, x);
      CountOne(a + init, last, x);
      assert a + b == (a + init) + [last];
    }
  }

  lemma CountFirst<T>(xs: seq<T>, x: T)
    requires xs != []
    ensures Count(xs, x) == Count(xs[1..], x) + if xs[0] == x then 1 else 0
  {
    assert xs == [xs[0]] + xs[1..];
    CountAppend([xs[0]], xs[1..], x);
    assert [xs[0]][..0] == [];
  }

  lemma {:induction false} OccursCounts<T>(xs: seq<T>, i: nat)
    requires i < |xs|
    ensures Count(xs, xs[i]) >= 1
  {
    if i < |xs| - 1 { OccursCounts(xs[..|xs| - 1], i); }
  }

  lemma {:induction false} CountsOccurs<T>(xs: seq<T>, x: T)
    requires Count(xs, x) >= 1
    ensures x in xs
  {
    if xs[|xs| - 1] != x { CountsOccurs(xs[..|xs| - 1], x); }
  }

  lemma {:induction false} TwiceCounts<T>(xs: seq<T>, i: nat, j: nat)
    requires i < j < |xs| && xs[i] == xs[j]
    ensures Count(xs, xs[i]) >= 2
  {
    var init := xs[..|xs| - 1];
    if j < |xs| - 1 { TwiceCounts(init, i, j); } else { OccursCounts(init, i); }
  }

  lemma {:induction false} OnceCounts<T>(xs: seq<T>, x: T)
    requires forall i, j | 0 <= i < j < |xs| :: xs[i] != xs[j]
    ensures Count(xs, x) <= 1
  {
    if xs != [] {
      var init, last := xs[..|xs| - 1], xs[|xs| - 1];
      OnceCounts(init, x);
      if x == last && Count(init, x) >= 1 { CountsOccurs(init, x); }
    }
  }
}
