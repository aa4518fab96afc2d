/** Facts about sequences and sets that the solver is slow to find by itself. */
module Sequences {

  lemma Longer<T>(a: seq<T>, b: seq<T>, c: seq<T>)
    ensures a + b + c == a + (b + c)
  {}

  lemma Whole<T>(a: seq<T>)
    ensures a + [] == a && [] + a == a
  {}

  lemma OneMore<T>(a: seq<T>, i: nat)
    requires i < |a|
    ensures a[..i + 1] == a[..i] + [a[i]]
  {}

  lemma Fewer<T>(a: set<T>, b: set<T>)
    requires a <= b
    ensures |a| <= |b|
  {
    assert b == a + (b - a);
  }
}
