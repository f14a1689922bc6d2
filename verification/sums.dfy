/**
 * Sums of a per-element value over a sequence, and the facts about them that
 * do not depend on what is being summed: additivity and order independence.
 */
module Sums {

  /** The sum of `f` over the elements of `s`, front to back. */
  function SumBy<T>(f: T -> int, s: seq<T>): int {
    if |s| == 0 then 0 else f(s[0]) + SumBy(f, s[1..])
  }

  /** The sum over a concatenation is the sum of the sums. */
  lemma {:induction false} SumByAppend<T>(f: T -> int, a: seq<T>, b: seq<T>)
    ensures SumBy(f, a + b) == SumBy(f, a) + SumBy(f, b)
  {
    if |a| == 0 {
      assert a + b == b;
    } else {
      assert (a + b)[1..] == a[1..] + b;
      SumByAppend(f, a[1..], b);
    }
  }

  /** Extending a prefix by one element adds that element's value. */
  lemma SumByPrefixStep<T>(f: T -> int, s: seq<T>, i: int)
    requires 0 <= i < |s|
    ensures SumBy(f, s[..i + 1]) == SumBy(f, s[..i]) + f(s[i])
  {
    assert s[..i + 1] == s[..i] + [s[i]];
    SumByAppend(f, s[..i], [s[i]]);
  }

  /** Taking one element out of a sequence takes its value out of the sum. */
  lemma SumByRemove<T>(f: T -> int, s: seq<T>, j: int)
    requires 0 <= j < |s|
    ensures SumBy(f, s) == SumBy(f, s[..j] + s[j + 1..]) + f(s[j])
  {
    var front, back := s[..j], s[j + 1..];
    assert s == front + ([s[j]] + back);
    SumByAppend(f, front, [s[j]] + back);
    SumByAppend(f, front, back);
    assert ([s[j]] + back)[1..] == back;
  }

  /** Taking the same element out of two permutations of each other leaves permutations. */
  lemma RemoveMatchingElement<T>(a: seq<T>, b: seq<T>, j: int)
    requires multiset(a) == multiset(b)
    requires 0 < |a| && 0 <= j < |b| && b[j] == a[0]
    ensures multiset(a[1..]) == multiset(b[..j] + b[j + 1..])
  {
    assert a == [a[0]] + a[1..];
    assert multiset(a) == multiset{a[0]} + multiset(a[1..]);
    assert b == b[..j] + [b[j]] + b[j + 1..];
    assert multiset(b) == multiset(b[..j]) + multiset{b[j]} + multiset(b[j + 1..]);
    assert multiset(b[..j] + b[j + 1..]) == multiset(b[..j]) + multiset(b[j + 1..]);
    assert multiset(a[1..]) == multiset(a) - multiset{a[0]};
    assert multiset(b[..j] + b[j + 1..]) == multiset(b) - multiset{b[j]};
  }

  /** The sum depends only on the multiset of elements, not on their order. */
  lemma {:induction false} SumByPermutation<T>(f: T -> int, a: seq<T>, b: seq<T>)
    requires multiset(a) == multiset(b)
    ensures SumBy(f, a) == SumBy(f, b)
    decreases |a|
  {
    if |a| == 0 {
      assert |b| == |multiset(b)| == 0;
    } else {
      assert a[0] in multiset(a);
      var j :| 0 <= j < |b| && b[j] == a[0];
      SumByRemove(f, b, j);
      RemoveMatchingElement(a, b, j);
      SumByPermutation(f, a[1..], b[..j] + b[j + 1..]);
    }
  }

  /** A sum of non-negative values is non-negative. */
  lemma {:induction false} SumByNonNegative<T>(f: T -> int, s: seq<T>)
    requires forall i :: 0 <= i < |s| ==> f(s[i]) >= 0
    ensures SumBy(f, s) >= 0
  {
    if |s| > 0 {
      assert f(s[0]) >= 0;
      assert forall i :: 0 <= i < |s[1..]| ==> s[1..][i] == s[i + 1];
      SumByNonNegative(f, s[1..]);
    }
  }
}
