/** Sums of multisets over a sequence, used wherever rows are compared without regard to order. */
module Bags {

  /** The multiset union, with multiplicities added, of `f(x)` for every `x` of `s`. */
  function Sum<T, U>(s: seq<T>, f: T -> multiset<U>): (r: multiset<U>) {
    if s == [] then multiset{} else f(s[0]) + Sum(s[1..], f)
  }

  lemma {:induction false} SumAppend<T, U>(s: seq<T>, t: seq<T>, f: T -> multiset<U>)
    ensures Sum(s + t, f) == Sum(s, f) + Sum(t, f)
  {
    if s == [] {
      assert s + t == t;
    } else {
      assert (s + t)[1..] == s[1..] + t;
      SumAppend(s[1..], t, f);
    }
  }

  lemma SumSingle<T, U>(x: T, f: T -> multiset<U>)
    ensures Sum([x], f) == f(x)
  {
    assert [x][1..] == [];
    assert Sum([x], f) == f(x) + Sum([], f);
  }

  lemma {:induction false} SumPointwise<T, U>(s: seq<T>, f: T -> multiset<U>, g: T -> multiset<U>)
    requires forall x | x in s :: f(x) == g(x)
    ensures Sum(s, f) == Sum(s, g)
  {
    if s != [] {
      SumPointwise(s[1..], f, g);
    }
  }

  /** `s` without its element at `i`. */
  function Without<T>(s: seq<T>, i: nat): (r: seq<T>)
    requires i < |s|
  {
    s[..i] + s[i + 1..]
  }

  lemma WithoutBag<T>(s: seq<T>, i: nat)
    requires i < |s|
    ensures multiset(s) == multiset{s[i]} + multiset(Without(s, i))
  {
    assert s == s[..i] + [s[i]] + s[i + 1..];
  }

  lemma Cancel<T>(x: T, a: multiset<T>, b: multiset<T>)
    requires multiset{x} + a == multiset{x} + b
    ensures a == b
  {
    assert a == (multiset{x} + a) - multiset{x};
    assert b == (multiset{x} + b) - multiset{x};
  }

  /** The head of a sequence has a counterpart in any rearrangement of it. */
  lemma Counterpart<T>(s: seq<T>, t: seq<T>) returns (i: nat)
    requires multiset(s) == multiset(t) && s != []
    ensures i < |t| && t[i] == s[0] && multiset(s[1..]) == multiset(Without(t, i))
  {
    assert s[0] in multiset(t);
    i :| 0 <= i < |t| && t[i] == s[0];
    WithoutBag(s, 0);
    WithoutBag(t, i);
    assert Without(s, 0) == s[1..];
    Cancel(s[0], multiset(s[1..]), multiset(Without(t, i)));
  }

  lemma OneMoreBefore<T>(a: seq<T>, a': seq<T>, b: seq<T>, x: T)
    requires multiset(a') == multiset(a) + multiset{x}
    ensures multiset(a' + b) == multiset(a + b) + multiset{x}
  {
  }

  lemma OneMoreAfter<T>(a: seq<T>, b: seq<T>, x: T)
    ensures multiset(a + (b + [x])) == multiset(a + b) + multiset{x}
  {
  }

  /** Moving the head of `b` to the end of `a` keeps the whole. */
  lemma HeadMoves<T>(a: seq<T>, b: seq<T>)
    requires b != []
    ensures (a + [b[0]]) + b[1..] == a + b
  {
  }

  lemma SumFrom<T, U>(s: seq<T>, i: nat, f: T -> multiset<U>)
    requires i < |s|
    ensures Sum(s[i..], f) == f(s[i]) + Sum(s[i + 1..], f)
  {
    assert s[i..][1..] == s[i + 1..];
  }

  lemma SumWithout<T, U>(s: seq<T>, i: nat, f: T -> multiset<U>)
    requires i < |s|
    ensures Sum(s, f) == f(s[i]) + Sum(Without(s, i), f)
  {
    assert s == s[..i] + s[i..];
    SumAppend(s[..i], s[i..], f);
    SumFrom(s, i, f);
    SumAppend(s[..i], s[i + 1..], f);
  }

  /** A sum does not depend on the order of its summands. */
  lemma {:induction false} SumPermutation<T, U>(s: seq<T>, t: seq<T>, f: T -> multiset<U>)
    requires multiset(s) == multiset(t)
    ensures Sum(s, f) == Sum(t, f)
    decreases |s|
  {
    if s == [] {
      assert |t| == |multiset(t)| == 0;
    } else {
      var i := Counterpart(s, t);
      SumPermutation(s[1..], Without(t, i), f);
      SumWithout(t, i, f);
    }
  }

  /** Nothing is summed up when every summand is empty. */
  lemma {:induction false} SumEmpty<T, U>(s: seq<T>, f: T -> multiset<U>)
    requires forall x | x in s :: f(x) == multiset{}
    ensures Sum(s, f) == multiset{}
  {
    if s != [] {
      SumEmpty(s[1..], f);
    }
  }

  lemma {:induction false} InSum<T, U>(s: seq<T>, f: T -> multiset<U>, x: U)
    ensures x in Sum(s, f) <==> exists y | y in s :: x in f(y)
  {
    if s != [] {
      InSum(s[1..], f, x);
      assert s == [s[0]] + s[1..];
      if x in f(s[0]) {
        assert s[0] in s;
      }
    }
  }

  /** The same elements in the same numbers: membership is that of either sequence. */
  lemma SameMembers<T>(s: seq<T>, t: seq<T>, x: T)
    requires multiset(s) == multiset(t)
    ensures x in s <==> x in t
  {
    assert x in s <==> x in multiset(s);
    assert x in t <==> x in multiset(t);
  }

  lemma TwiceInBag<T>(s: seq<T>, i: nat, j: nat)
    requires i < j < |s| && s[i] == s[j]
    ensures multiset(s)[s[i]] >= 2
  {
    assert s == s[..j] + [s[j]] + s[j + 1..];
    assert s[i] in multiset(s[..j]) by {
      assert s[..j][i] == s[i];
    }
  }

  lemma TakeOneMore<T>(s: seq<T>, i: nat)
    requires i < |s|
    ensures s[..i + 1] == s[..i] + [s[i]]
  {
  }

  lemma LastApart<T>(s: seq<T>)
    requires s != []
    ensures s == s[..|s| - 1] + [s[|s| - 1]]
  {
  }

  lemma InEither<T>(a: seq<T>, b: seq<T>, x: T)
    ensures x in a + b <==> x in a || x in b
  {
  }

  lemma BagSize<T>(a: multiset<T>, b: multiset<T>)
    requires a <= b
    ensures |a| <= |b|
  {
    assert b == a + (b - a);
  }

  /** All elements of all lists, list after list. */
  function Concat<T>(parts: seq<seq<T>>): (all: seq<T>) {
    if parts == [] then [] else Concat(parts[..|parts| - 1]) + parts[|parts| - 1]
  }
}
