/** Sequences without duplicates, and sums over sequences. */
module Sequences {

  ghost predicate NoDup<T>(s: seq<T>) {
    forall i, j | 0 <= i < j < |s| :: s[i] != s[j]
  }

  function Without<T>(s: seq<T>, i: nat): seq<T>
    requires i < |s|
  {
    s[..i] + s[i + 1..]
  }

  lemma WithoutMember<T>(s: seq<T>, i: nat)
    requires i < |s| && NoDup(s)
    ensures NoDup(Without(s, i)) && s[i] !in Without(s, i)
    ensures forall x | x in Without(s, i) :: x in s && x != s[i]
    ensures forall x | x in s :: x == s[i] || x in Without(s, i)
  {
    forall x | x in s && x != s[i] ensures x in Without(s, i) {
      var j :| 0 <= j < |s| && s[j] == x;
      assert Without(s, i)[if j < i then j else j - 1] == x;
    }
  }

  lemma NoDupSplit<T>(s: seq<T>, k: nat)
    requires k <= |s| && NoDup(s)
    ensures NoDup(s[..k]) && NoDup(s[k..])
    ensures forall x | x in s[..k] :: x in s && x !in s[k..]
    ensures forall x | x in s[k..] :: x in s
    ensures forall x | x in s :: x in s[..k] || x in s[k..]
  {
    assert s == s[..k] + s[k..];
  }

  lemma HeadIsMember<T>(s: seq<T>)
    requires s != []
    ensures s[0] in s
  {
  }

  /** How often `x` occurs. */
  function Times<T(==)>(q: seq<T>, x: T): nat {
    multiset(q)[x]
  }

  lemma {:induction false} NoDupTimes<T>(q: seq<T>, x: T)
    requires NoDup(q)
    ensures Times(q, x) == if x in q then 1 else 0
  {
    if q != [] {
      assert q == [q[0]] + q[1..] && q[0] !in q[1..];
      NoDupTimes(q[1..], x);
    }
  }

  function Sum<T>(s: seq<T>, f: T -> int): int {
    if s == [] then 0 else f(s[0]) + Sum(s[1..], f)
  }

  lemma {:induction false} SumSame<T>(s: seq<T>, f: T -> int, g: T -> int)
    requires forall x | x in s :: f(x) == g(x)
    ensures Sum(s, f) == Sum(s, g)
  {
    if s != [] {
      SumSame(s[1..], f, g);
    }
  }

  /** Changing the summand of a single element changes the sum by the same amount. */
  lemma {:induction false} SumUpdate<T>(s: seq<T>, f: T -> int, g: T -> int, y: T)
    requires NoDup(s) && y in s
    requires forall x | x in s && x != y :: f(x) == g(x)
    ensures Sum(s, g) == Sum(s, f) - f(y) + g(y)
  {
    if s[0] == y {
      assert y !in s[1..];
      SumSame(s[1..], f, g);
    } else {
      SumUpdate(s[1..], f, g, y);
    }
  }

  lemma {:induction false} SumOrder<T>(s: seq<T>, f: T -> int, g: T -> int)
    requires forall x | x in s :: f(x) <= g(x)
    ensures Sum(s, f) <= Sum(s, g)
  {
    if s != [] {
      SumOrder(s[1..], f, g);
    }
  }

  lemma {:induction false} SumPlus<T>(s: seq<T>, f: T -> int, g: T -> int, h: T -> int)
    requires forall x | x in s :: h(x) == f(x) + g(x)
    ensures Sum(s, h) == Sum(s, f) + Sum(s, g)
  {
    if s != [] {
      SumPlus(s[1..], f, g, h);
    }
  }

  lemma {:induction false} SumBound<T>(s: seq<T>, f: T -> int, low: int)
    requires forall x | x in s :: low <= f(x)
    ensures |s| * low <= Sum(s, f)
  {
    if s != [] {
      SumBound(s[1..], f, low);
    }
  }

  /** A sum of non-negative terms is at least each of its terms. */
  lemma {:induction false} SumMember<T>(s: seq<T>, f: T -> int, y: T)
    requires y in s && forall x | x in s :: 0 <= f(x)
    ensures f(y) <= Sum(s, f)
  {
    SumBound(s[1..], f, 0);
    if s[0] != y {
      SumMember(s[1..], f, y);
    }
  }

  /** If `q` lists exactly the elements of `s` where the 0/1 function `f` is 1, the sum of `f` is `|q|`. */
  lemma {:induction false} SumCounts<T>(s: seq<T>, f: T -> int, q: seq<T>)
    requires NoDup(s) && NoDup(q)
    requires forall x | x in s :: f(x) == if x in q then 1 else 0
    requires forall x | x in q :: x in s
    ensures Sum(s, f) == |q|
    decreases |s|
  {
    if s == [] {
      if q != [] {
        HeadIsMember(q);
        assert false;
      }
    } else {
      var y := s[0];
      if y in q {
        var i :| 0 <= i < |q| && q[i] == y;
        WithoutMember(q, i);
        SumCounts(s[1..], f, Without(q, i));
      } else {
        SumCounts(s[1..], f, q);
      }
    }
  }
}
