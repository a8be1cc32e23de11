/** Sorting, as the standard library's sort promises it: a permutation in order, ties in any order. */
module Sorting {
  import opened Text
  import opened Values

  predicate Sorted<T>(s: seq<T>, cmp: (T, T) -> int) {
    forall i, j | 0 <= i < j < |s| :: cmp(s[i], s[j]) <= 0
  }

  lemma InsertKeepsOrder<T>(s: seq<T>, i: nat, x: T, cmp: (T, T) -> int)
    requires i <= |s| && Sorted(s, cmp)
    requires forall k | 0 <= k < i :: cmp(s[k], x) <= 0
    requires forall k | i <= k < |s| :: cmp(x, s[k]) <= 0
    ensures Sorted(s[..i] + [x] + s[i..], cmp)
  {
    var r := s[..i] + [x] + s[i..];
    forall j, k | 0 <= j < k < |r| ensures cmp(r[j], r[k]) <= 0 {
      assert r[j] == if j < i then s[j] else if j == i then x else s[j - 1];
      assert r[k] == if k < i then s[k] else if k == i then x else s[k - 1];
    }
  }

  lemma FromHereOn<T(!new)>(s: seq<T>, i: nat, x: T, cmp: (T, T) -> int)
    requires Preorder(cmp) && i < |s| && Sorted(s, cmp) && cmp(s[i], x) >= 0
    ensures forall k | i <= k < |s| :: cmp(x, s[k]) <= 0
  {
    forall k | i <= k < |s| ensures cmp(x, s[k]) <= 0 {
      assert cmp(x, s[i]) == -cmp(s[i], x);
      if i < k {
        assert cmp(s[i], s[k]) <= 0;
      }
    }
  }

  method Insert<T(!new)>(x: T, s: seq<T>, cmp: (T, T) -> int) returns (r: seq<T>)
    requires Preorder(cmp) && Sorted(s, cmp)
    ensures multiset(r) == multiset(s) + multiset{x} && Sorted(r, cmp)
  {
    var i := 0;
    while i < |s| && cmp(s[i], x) < 0
      invariant 0 <= i <= |s|
      invariant forall k | 0 <= k < i :: cmp(s[k], x) <= 0
    {
      i := i + 1;
    }
    r := s[..i] + [x] + s[i..];
    if i < |s| {
      FromHereOn(s, i, x, cmp);
    }
    InsertKeepsOrder(s, i, x, cmp);
    assert s == s[..i] + s[i..];
  }

  method Sort<T(!new)>(s: seq<T>, cmp: (T, T) -> int) returns (r: seq<T>)
    requires Preorder(cmp)
    ensures multiset(r) == multiset(s) && Sorted(r, cmp)
  {
    r := [];
    for i := 0 to |s|
      invariant multiset(r) == multiset(s[..i]) && Sorted(r, cmp)
    {
      assert s[..i + 1] == s[..i] + [s[i]];
      r := Insert(s[i], r, cmp);
    }
    assert s[..|s|] == s;
  }

  lemma StringPreorder()
    ensures Preorder(CompareStrings)
  {
    forall s, t ensures CompareStrings(s, t) == -CompareStrings(t, s) {
      CompareAntisymmetric(s, t);
    }
    forall s, t, u | CompareStrings(s, t) <= 0 && CompareStrings(t, u) <= 0 ensures CompareStrings(s, u) <= 0 {
      CompareTransitive(s, t, u);
    }
  }
}
