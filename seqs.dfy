/**
 * Order-preserving selection over sequences: the shape shared by every
 * "keep the items that pass a test" step of the filter tool (token
 * validation, line selection, preview).
 */
module Seqs {

  /** `a` can be obtained from `b` by deleting elements, keeping order. */
  predicate IsSubsequence<T(==)>(a: seq<T>, b: seq<T>)
    decreases |b|
  {
    if a == [] then true
    else if b == [] then false
    else (a[|a| - 1] == b[|b| - 1] && IsSubsequence(a[..|a| - 1], b[..|b| - 1]))
         || IsSubsequence(a, b[..|b| - 1])
  }

  /**
   * The elements of `s` that satisfy `keep`, in their original order.
   * Defined from the back, so that it follows a loop that appends item by item.
   */
  function Filter<T>(s: seq<T>, keep: T -> bool): (r: seq<T>)
    ensures |r| <= |s|
  {
    if s == [] then []
    else Filter(s[..|s| - 1], keep) + (if keep(s[|s| - 1]) then [s[|s| - 1]] else [])
  }

  /** Extending the input by one item extends the filtered output by that item if it passes. */
  lemma FilterSnoc<T>(s: seq<T>, x: T, keep: T -> bool)
    ensures Filter(s + [x], keep) == Filter(s, keep) + (if keep(x) then [x] else [])
  {
    assert (s + [x])[..|s + [x]| - 1] == s;
  }

  /** The filtered sequence is a subsequence of the input. */
  lemma {:induction false} FilterIsSubsequence<T>(s: seq<T>, keep: T -> bool)
    ensures IsSubsequence(Filter(s, keep), s)
  {
    if s != [] {
      var init := s[..|s| - 1];
      FilterIsSubsequence(init, keep);
      var r := Filter(s, keep);
      if keep(s[|s| - 1]) {
        assert r[..|r| - 1] == Filter(init, keep);
      } else {
        assert r == Filter(init, keep);
        if r != [] {
          SubsequenceExtend(r, init, s[|s| - 1]);
        }
      }
    }
  }

  /** A subsequence of `b` is also a subsequence of `b` extended at the end. */
  lemma {:induction false} SubsequenceExtend<T>(a: seq<T>, b: seq<T>, x: T)
    requires IsSubsequence(a, b)
    ensures IsSubsequence(a, b + [x])
  {
    assert (b + [x])[..|b + [x]| - 1] == b;
  }

  /** Membership in the output: exactly the input elements that pass. */
  lemma {:induction false} FilterMembership<T>(s: seq<T>, keep: T -> bool, x: T)
    ensures x in Filter(s, keep) <==> x in s && keep(x)
  {
    if s != [] {
      var init := s[..|s| - 1];
      FilterMembership(init, keep, x);
      assert s == init + [s[|s| - 1]];
    }
  }

  /** Every input item lands in exactly one of the two outputs of a test and its negation. */
  lemma {:induction false} FilterPartition<T>(s: seq<T>, keep: T -> bool, reject: T -> bool)
    requires forall x :: reject(x) == !keep(x)
    ensures |Filter(s, keep)| + |Filter(s, reject)| == |s|
  {
    if s != [] {
      FilterPartition(s[..|s| - 1], keep, reject);
    }
  }

  /** Filtering a prefix yields a prefix of the filtered whole. */
  lemma {:induction false} FilterPrefix<T>(s: seq<T>, k: nat, keep: T -> bool)
    requires k <= |s|
    ensures var p := Filter(s[..k], keep);
            |p| <= |Filter(s, keep)| && p == Filter(s, keep)[..|p|]
  {
    if k < |s| {
      FilterPrefix(s[..|s| - 1], k, keep);
      assert s[..|s| - 1][..k] == s[..k];
    } else {
      assert s[..k] == s;
    }
  }

  /** Filtering three elements of which only the middle one is rejected. */
  lemma FilterOfThree<T>(s: seq<T>, keep: T -> bool)
    requires |s| == 3 && keep(s[0]) && !keep(s[1]) && keep(s[2])
    ensures Filter(s, keep) == [s[0], s[2]]
  {
    var one := s[..2][..1];
    assert one[..0] == [] && one[0] == s[0];
    assert Filter(one, keep) == [s[0]];
    assert s[..2][1] == s[1];
    assert Filter(s[..2], keep) == [s[0]];
  }
}
