/** Sizes of finite sets. */
module FiniteSets {

  lemma SubsetSize<T>(a: set<T>, b: set<T>)
    requires a <= b
    ensures |a| <= |b|
  {
    assert b == a + (b - a);
  }

  lemma SmallerSubset<T>(a: set<T>, b: set<T>)
    requires a < b
    ensures |a| < |b|
  {
    var x :| x in b && x !in a;
    assert b == a + (b - a);
  }

  lemma DisjointSizes<T>(a: set<T>, b: set<T>, all: set<T>)
    requires a <= all && b <= all && a !! b
    ensures |a| + |b| <= |all|
  {
    assert all == a + b + (all - a - b);
  }

  /** A loop over a set, seen from behind: what of `some` is done when one more element is off the list. */
  lemma OneLess<T>(some: set<T>, left: set<T>, x: T)
    requires x in left
    ensures some - (left - {x}) == if x in some then (some - left) + {x} else some - left
    ensures x in some ==> |some - (left - {x})| == |some - left| + 1
  {
    if x in some {
      assert some - (left - {x}) == (some - left) + {x};
    } else {
      assert some - (left - {x}) == some - left;
    }
  }

  lemma MapWithoutOneMore<K, V>(m: map<K, V>, gone: set<K>, k: K)
    ensures m - gone - {k} == m - (gone + {k})
  {
  }
}
