/** Order-preserving selection from a sequence, as a Python list comprehension with an `if` does it. */
module Sequences {

  /** `a` is a subsequence of `b`: `b` with some elements deleted, the order kept. */
  predicate IsSubsequence<T(==)>(a: seq<T>, b: seq<T>)
    decreases |b|
  {
    if a == [] then true
    else if b == [] then false
    else (a[|a| - 1] == b[|b| - 1] && IsSubsequence(a[..|a| - 1], b[..|b| - 1]))
         || IsSubsequence(a, b[..|b| - 1])
  }

  /** The elements of `s` that `keep` accepts, in the order of `s`. */
  function Filter<T>(keep: T -> bool, s: seq<T>): seq<T>
    decreases |s|
  {
    if s == [] then []
    else Filter(keep, s[..|s| - 1]) + (if keep(s[|s| - 1]) then [s[|s| - 1]] else [])
  }

  /** An element is selected exactly when it is in `s` and accepted. */
  lemma {:induction false} FilterMembership<T>(keep: T -> bool, s: seq<T>, x: T)
    ensures x in Filter(keep, s) <==> x in s && keep(x)
    decreases |s|
  {
    if s != [] {
      var init, last := s[..|s| - 1], s[|s| - 1];
      FilterMembership(keep, init, x);
      assert s == init + [last];
    }
  }

  /** The selection keeps the order of `s`. */
  lemma {:induction false} FilterSubsequence<T>(keep: T -> bool, s: seq<T>)
    ensures IsSubsequence(Filter(keep, s), s)
    decreases |s|
  {
    if s != [] {
      var init, last := s[..|s| - 1], s[|s| - 1];
      FilterSubsequence(keep, init);
      var f := Filter(keep, init);
      assert s == init + [last];
      if keep(last) {
        assert (f + [last])[..|f|] == f;
      } else {
        assert Filter(keep, s) == f;
        if f != [] {
          assert IsSubsequence(f, s[..|s| - 1]);
        }
      }
    }
  }

  /** When `keep` accepts every element, nothing is dropped. */
  lemma {:induction false} FilterKeepsAll<T>(keep: T -> bool, s: seq<T>)
    requires forall x :: x in s ==> keep(x)
    ensures Filter(keep, s) == s
    decreases |s|
  {
    if s != [] {
      FilterKeepsAll(keep, s[..|s| - 1]);
      assert s == s[..|s| - 1] + [s[|s| - 1]];
    }
  }

  /** Of two elements, only the accepted second one is kept. */
  lemma FilterSecondOfTwo<T>(keep: T -> bool, a: T, b: T)
    requires !keep(a) && keep(b)
    ensures Filter(keep, [a, b]) == [b]
  {
    assert [a][..0] == [];
    assert Filter(keep, [a]) == [];
    assert [a, b][..1] == [a];
    assert Filter(keep, [a, b]) == Filter(keep, [a]) + [b];
  }
}
