/** Order-preserving filtering of name sequences, the `Array.prototype.filter` of the source. */
module Seqs {

  /** No element occurs twice. */
  predicate Distinct<T(==)>(s: seq<T>) {
    forall i, j :: 0 <= i < j < |s| ==> s[i] != s[j]
  }

  /** `x` occurs somewhere strictly before `y` in `s`. */
  predicate Before<T(==)>(s: seq<T>, x: T, y: T) {
    exists i, j :: 0 <= i < j < |s| && s[i] == x && s[j] == y
  }

  /** The elements of `s` that satisfy `keep`, in their original order. */
  function Filter(s: seq<string>, keep: string -> bool): (r: seq<string>)
    ensures |r| <= |s|
    ensures forall x :: x in r <==> x in s && keep(x)
  {
    if s == [] then []
    else
      var init := Filter(s[..|s| - 1], keep);
      assert forall x :: x in s <==> x in s[..|s| - 1] || x == s[|s| - 1];
      if keep(s[|s| - 1]) then init + [s[|s| - 1]] else init
  }

  /** Filtering a prefix one element longer adds at most that element. */
  lemma FilterSnoc(s: seq<string>, keep: string -> bool, j: nat)
    requires j < |s|
    ensures Filter(s[..j + 1], keep) == Filter(s[..j], keep) + (if keep(s[j]) then [s[j]] else [])
  {
    assert s[..j + 1][..j] == s[..j];
  }

  /** Filtering keeps the relative order of the elements it keeps. */
  lemma {:induction false} FilterKeepsOrder(s: seq<string>, keep: string -> bool, x: string, y: string)
    ensures Before(Filter(s, keep), x, y) ==> Before(s, x, y)
  {
    var r := Filter(s, keep);
    if Before(r, x, y) {
      var i, j :| 0 <= i < j < |r| && r[i] == x && r[j] == y;
      var init := s[..|s| - 1];
      var ri := Filter(init, keep);
      if j < |ri| {
        assert ri[i] == x && ri[j] == y;
        FilterKeepsOrder(init, keep, x, y);
        var a, b :| 0 <= a < b < |init| && init[a] == x && init[b] == y;
        assert s[a] == x && s[b] == y;
      } else {
        assert y == s[|s| - 1];
        assert x in ri;
        var a :| 0 <= a < |init| && init[a] == x;
        assert s[a] == x;
      }
    }
  }

  /** A filtered sequence without duplicates has none either. */
  lemma {:induction false} FilterDistinct(s: seq<string>, keep: string -> bool)
    requires Distinct(s)
    ensures Distinct(Filter(s, keep))
  {
    if s != [] {
      var init := s[..|s| - 1];
      FilterDistinct(init, keep);
      assert s[|s| - 1] !in init;
    }
  }

  /** Two predicates that agree on the elements of `s` keep the same elements. */
  lemma {:induction false} FilterSameRule(s: seq<string>, k1: string -> bool, k2: string -> bool)
    requires forall x :: x in s ==> k1(x) == k2(x)
    ensures Filter(s, k1) == Filter(s, k2)
  {
    if s != [] {
      FilterSameRule(s[..|s| - 1], k1, k2);
    }
  }
}
