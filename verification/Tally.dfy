/** Adding up what the elements of a queue hold. */
module Tally {

  function Sum<T, E>(s: seq<T>, f: T -> multiset<E>): multiset<E> {
    if s == [] then multiset{} else Sum(s[..|s| - 1], f) + f(s[|s| - 1])
  }

  lemma SumEmpty<T, E>(f: T -> multiset<E>)
    ensures Sum([], f) == multiset{}
  {
  }

  lemma SumAppend<T, E>(s: seq<T>, x: T, f: T -> multiset<E>)
    ensures Sum(s + [x], f) == Sum(s, f) + f(x)
  {
    assert (s + [x])[..|s|] == s;
  }

  lemma {:induction false} SumConcat<T, E>(a: seq<T>, b: seq<T>, f: T -> multiset<E>)
    ensures Sum(a + b, f) == Sum(a, f) + Sum(b, f)
    decreases |b|
  {
    if b == [] {
      assert a + b == a;
    } else {
      var n := |b| - 1;
      assert (a + b)[..|a + b| - 1] == a + b[..n];
      SumConcat(a, b[..n], f);
    }
  }

  function Without<T>(s: seq<T>, i: nat): (r: seq<T>)
    requires i < |s|
    ensures |r| == |s| - 1
  {
    s[..i] + s[i + 1..]
  }

  function One<T>(x: T, p: T -> bool): (r: seq<T>)
    ensures |r| <= 1
  {
    if p(x) then [x] else []
  }

  /** The elements that satisfy `p`, in order. */
  function Kept<T>(s: seq<T>, p: T -> bool): (r: seq<T>)
    ensures |r| <= |s|
  {
    if s == [] then [] else Kept(s[..|s| - 1], p) + One(s[|s| - 1], p)
  }

  lemma {:induction false} KeptMembers<T>(s: seq<T>, p: T -> bool)
    ensures forall x :: x in Kept(s, p) <==> x in s && p(x)
    decreases |s|
  {
    if s != [] {
      KeptMembers(s[..|s| - 1], p);
      assert s == s[..|s| - 1] + [s[|s| - 1]];
    }
  }

  lemma KeptAppend<T>(s: seq<T>, x: T, p: T -> bool)
    ensures Kept(s + [x], p) == Kept(s, p) + One(x, p)
  {
    assert (s + [x])[..|s|] == s;
  }

  lemma {:induction false} KeptConcat<T>(a: seq<T>, b: seq<T>, p: T -> bool)
    ensures Kept(a + b, p) == Kept(a, p) + Kept(b, p)
    decreases |b|
  {
    if b == [] {
      assert a + b == a && Kept(a, p) + [] == Kept(a, p);
    } else {
      var n := |b| - 1;
      var front, last := b[..n], b[n];
      assert a + b == a + front + [last] && b == front + [last];
      calc {
        Kept(a + b, p);
        { KeptAppend(a + front, last, p); }
        Kept(a + front, p) + One(last, p);
        { KeptConcat(a, front, p); }
        Kept(a, p) + Kept(front, p) + One(last, p);
        { Regroup(Kept(a, p), Kept(front, p), One(last, p)); }
        Kept(a, p) + (Kept(front, p) + One(last, p));
        { KeptAppend(front, last, p); }
        Kept(a, p) + Kept(b, p);
      }
    }
  }

  lemma Regroup<T>(a: seq<T>, b: seq<T>, c: seq<T>)
    ensures a + b + c == a + (b + c)
  {
  }

  /** Where element `k` of a sequence is among the kept ones. */
  lemma KeptSplit<T>(s: seq<T>, k: nat, p: T -> bool)
    requires k < |s|
    ensures Kept(s, p) == Kept(s[..k], p) + One(s[k], p) + Kept(s[k + 1..], p)
  {
    hide Kept, One;
    assert s[..k + 1] == s[..k] + [s[k]] && s == s[..k + 1] + s[k + 1..];
    KeptConcat(s[..k + 1], s[k + 1..], p);
    KeptAppend(s[..k], s[k], p);
  }

  lemma KeptWithout<T>(s: seq<T>, k: nat, p: T -> bool)
    requires k < |s|
    ensures var rank := |Kept(s[..k], p)|;
            if p(s[k]) then rank < |Kept(s, p)| && Kept(s, p)[rank] == s[k] && Kept(Without(s, k), p) == Without(Kept(s, p), rank)
            else Kept(Without(s, k), p) == Kept(s, p)
  {
    hide Kept;
    KeptSplit(s, k, p);
    KeptConcat(s[..k], s[k + 1..], p);
  }

  lemma KeptUpdate<T>(s: seq<T>, k: nat, x: T, p: T -> bool)
    requires k < |s| && p(x) == p(s[k])
    ensures var rank := |Kept(s[..k], p)|;
            if p(x) then rank < |Kept(s, p)| && Kept(s[k := x], p) == Kept(s, p)[rank := x]
            else Kept(s[k := x], p) == Kept(s, p)
  {
    hide Kept;
    KeptSplit(s, k, p);
    KeptSplit(s[k := x], k, p);
    assert s[k := x][..k] == s[..k] && s[k := x][k + 1..] == s[k + 1..];
  }

  lemma OneMore<T>(s: seq<T>, x: T, p: T -> bool, q: T -> bool)
    ensures Kept(s + One(x, p), q) == Kept(s, q) + if p(x) && q(x) then [x] else []
  {
    if p(x) {
      KeptAppend(s, x, q);
    } else {
      assert s + One(x, p) == s;
    }
  }

  /** Two conditions one after the other. */
  lemma {:induction false} KeptTwice<T>(s: seq<T>, p: T -> bool, q: T -> bool)
    ensures Kept(Kept(s, p), q) == Kept(Kept(s, q), p)
    decreases |s|
  {
    if s != [] {
      var n := |s| - 1;
      KeptTwice(s[..n], p, q);
      OneMore(Kept(s[..n], p), s[n], p, q);
      OneMore(Kept(s[..n], q), s[n], q, p);
    }
  }

  lemma {:induction false} KeptAll<T>(s: seq<T>, p: T -> bool)
    requires forall x :: x in s ==> p(x)
    ensures Kept(s, p) == s
    decreases |s|
  {
    if s != [] {
      var front, last := s[..|s| - 1], s[|s| - 1];
      assert s == front + [last];
      KeptAll(front, p);
      KeptAppend(front, last, p);
    }
  }

  lemma {:induction false} KeptNone<T>(s: seq<T>, p: T -> bool)
    requires forall x :: x in s ==> !p(x)
    ensures Kept(s, p) == []
    decreases |s|
  {
    if s != [] {
      KeptNone(s[..|s| - 1], p);
    }
  }

  /** Taking out the only element with its key takes out exactly this element. */
  lemma WithoutKey<T, K>(s: seq<T>, i: nat, key: T -> K)
    requires i < |s| && forall j :: 0 <= j < |s| && j != i ==> key(s[j]) != key(s[i])
    ensures forall x :: x in Without(s, i) <==> x in s && key(x) != key(s[i])
  {
    forall x | x in s && key(x) != key(s[i])
      ensures x in Without(s, i)
    {
      var j :| 0 <= j < |s| && s[j] == x;
      assert Without(s, i)[if j < i then j else j - 1] == x;
    }
    forall x | x in Without(s, i)
      ensures x in s && key(x) != key(s[i])
    {
      var j :| 0 <= j < |s| - 1 && Without(s, i)[j] == x;
      assert x == s[if j < i then j else j + 1];
    }
  }

  /** Taking one element out takes out what it holds. */
  lemma SumWithout<T, E>(s: seq<T>, i: nat, f: T -> multiset<E>)
    requires i < |s|
    ensures Sum(s, f) == Sum(Without(s, i), f) + f(s[i])
  {
    hide Sum;
    assert s == s[..i] + [s[i]] + s[i + 1..];
    SumConcat(s[..i] + [s[i]], s[i + 1..], f);
    SumAppend(s[..i], s[i], f);
    SumConcat(s[..i], s[i + 1..], f);
  }

  lemma SumInserted<T, E>(s: seq<T>, k: nat, x: T, f: T -> multiset<E>)
    requires k <= |s|
    ensures Sum(s[..k] + [x] + s[k..], f) == Sum(s, f) + f(x)
  {
    hide Sum;
    SumConcat(s[..k] + [x], s[k..], f);
    SumAppend(s[..k], x, f);
    assert s == s[..k] + s[k..];
    SumConcat(s[..k], s[k..], f);
  }

  /** Changing one element changes the sum by the difference. */
  lemma SumUpdate<T, E>(s: seq<T>, i: nat, x: T, f: T -> multiset<E>)
    requires i < |s|
    ensures Sum(s[i := x], f) == Sum(Without(s, i), f) + f(x)
    ensures Sum(s, f) == Sum(Without(s, i), f) + f(s[i])
  {
    hide Sum;
    assert Without(s[i := x], i) == Without(s, i);
    SumWithout(s[i := x], i, f);
    SumWithout(s, i, f);
  }

  lemma SumLess<T, E>(s: seq<T>, i: nat, x: T, f: T -> multiset<E>, m: multiset<E>)
    requires i < |s| && f(s[i]) == f(x) + m
    ensures Sum(s, f) == Sum(s[i := x], f) + m
  {
    hide Sum;
    SumUpdate(s, i, x, f);
  }

  lemma SumMore<T, E>(s: seq<T>, i: nat, x: T, f: T -> multiset<E>, m: multiset<E>)
    requires i < |s| && f(x) == f(s[i]) + m
    ensures Sum(s[i := x], f) == Sum(s, f) + m
  {
    hide Sum;
    SumUpdate(s, i, x, f);
  }

  lemma SumBlank<T, E>(s: seq<T>, x: T, f: T -> multiset<E>)
    requires f(x) == multiset{}
    ensures Sum(s + [x], f) == Sum(s, f)
  {
    SumAppend(s, x, f);
  }

  lemma SumAtLeast<T, E>(s: seq<T>, i: nat, f: T -> multiset<E>)
    requires i < |s|
    ensures f(s[i]) <= Sum(s, f)
  {
    hide Sum;
    SumWithout(s, i, f);
  }

  /** What two elements hold is there twice over. */
  lemma SumOfTwo<T, E>(s: seq<T>, i: nat, j: nat, f: T -> multiset<E>)
    requires i < |s| && j < |s| && i != j
    ensures f(s[i]) + f(s[j]) <= Sum(s, f)
  {
    hide Sum;
    SumWithout(s, i, f);
    var k := if j < i then j else j - 1;
    assert Without(s, i)[k] == s[j];
    SumAtLeast(Without(s, i), k, f);
  }

  lemma {:induction false} InSum<T, E>(s: seq<T>, f: T -> multiset<E>, e: E) returns (i: nat)
    requires e in Sum(s, f)
    ensures i < |s| && e in f(s[i])
    decreases |s|
  {
    var n := |s| - 1;
    if e in f(s[n]) {
      i := n;
    } else {
      i := InSum(s[..n], f, e);
    }
  }

  /** What is there once is held by exactly one element. */
  lemma OneHolder<T, E>(s: seq<T>, f: T -> multiset<E>, e: E) returns (i: nat)
    requires Sum(s, f)[e] == 1
    ensures i < |s| && e in f(s[i]) && forall j :: 0 <= j < |s| && j != i ==> e !in f(s[j])
  {
    hide Sum;
    i := InSum(s, f, e);
    forall j | 0 <= j < |s| && j != i
      ensures e !in f(s[j])
    {
      SumOfTwo(s, i, j, f);
      assert (f(s[i]) + f(s[j]))[e] <= Sum(s, f)[e];
    }
  }

  lemma {:induction false} SumOfNothing<T, E>(s: seq<T>, f: T -> multiset<E>)
    requires forall x :: x in s ==> f(x) == multiset{}
    ensures Sum(s, f) == multiset{}
    decreases |s|
  {
    if s != [] {
      SumOfNothing(s[..|s| - 1], f);
    }
  }

  lemma NoHolder<T, E>(s: seq<T>, f: T -> multiset<E>, e: E)
    requires Sum(s, f)[e] == 0
    ensures forall j :: 0 <= j < |s| ==> e !in f(s[j])
  {
    forall j | 0 <= j < |s|
      ensures e !in f(s[j])
    {
      SumAtLeast(s, j, f);
    }
  }

  // ------------------------------------------------------------------------- arithmetic of multisets

  function Added<E>(m: multiset<E>, e: E): multiset<E> {
    m + multiset{e}
  }

  function Removed<E>(m: multiset<E>, e: E): multiset<E> {
    m - multiset{e}
  }

  lemma AddedRemoved<E>(m: multiset<E>, e: E)
    ensures Removed(Added(m, e), e) == m && e in Added(m, e)
  {
  }

  /** `m`, with `e` added if it is held. */
  function Plus(m: multiset<int>, held: bool, e: int): multiset<int> {
    if held then m + multiset{e} else m
  }

  /** `m`, with `e` taken out if it goes. */
  function Minus(m: multiset<int>, gone: bool, e: int): multiset<int> {
    if gone then m - multiset{e} else m
  }

  lemma PlusMinus(m: multiset<int>, held: bool, e: int)
    ensures Minus(Plus(m, held, e), held, e) == m && (held ==> e in Plus(m, held, e))
    ensures Plus(m, false, e) == m && Minus(m, false, e) == m
  {
  }

  lemma Cancel<E>(a: multiset<E>, b: multiset<E>, c: multiset<E>)
    ensures a + c == b + c ==> a == b
    ensures a + c <= b + c ==> a <= b
  {
    forall e
      ensures (a + c)[e] == a[e] + c[e] && (b + c)[e] == b[e] + c[e]
    {
    }
    assert a + c <= b + c ==> forall e :: a[e] <= b[e];
    assert a + c == b + c ==> forall e :: a[e] == b[e];
  }
}
