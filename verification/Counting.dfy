/** Counting the entries of a list that satisfy a condition. */
module Counting {
  function Count<T>(s: seq<T>, p: T -> bool): (c: nat)
    ensures c <= |s|
  {
    if s == [] then 0 else (if p(s[0]) then 1 else 0) + Count(s[1..], p)
  }

  lemma {:induction false} CountAppend<T>(a: seq<T>, b: seq<T>, p: T -> bool)
    ensures Count(a + b, p) == Count(a, p) + Count(b, p)
  {
    if a == [] {
      assert a + b == b;
    } else {
      CountAppend(a[1..], b, p);
      assert (a + b)[1..] == a[1..] + b;
    }
  }

  lemma CountSnoc<T>(a: seq<T>, x: T, p: T -> bool)
    ensures Count(a + [x], p) == Count(a, p) + if p(x) then 1 else 0
  {
    CountAppend(a, [x], p);
    assert [x][1..] == [];
  }

  lemma {:induction false} SameCount<T>(s: seq<T>, p: T -> bool, q: T -> bool)
    requires forall i :: 0 <= i < |s| ==> p(s[i]) == q(s[i])
    ensures Count(s, p) == Count(s, q)
  {
    if s != [] {
      assert p(s[0]) == q(s[0]);
      SameCount(s[1..], p, q);
    }
  }
}
