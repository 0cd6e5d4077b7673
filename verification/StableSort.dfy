/** `sorted(items, key=..., reverse=True)`: descending, and items with equal keys keep their order. */
module StableSort {
  ghost predicate Descending<T>(s: seq<T>, key: T -> real) {
    forall i, j :: 0 <= i < j < |s| ==> key(s[i]) >= key(s[j])
  }

  /** The items whose key is exactly `k`, in order. */
  function WithKey<T>(s: seq<T>, key: T -> real, k: real): seq<T> {
    if s == [] then [] else (if key(s[0]) == k then [s[0]] else []) + WithKey(s[1..], key, k)
  }

  /** The items whose key is at least `c`, in order. */
  function AtLeast<T>(s: seq<T>, key: T -> real, c: real): seq<T> {
    if s == [] then [] else (if key(s[0]) >= c then [s[0]] else []) + AtLeast(s[1..], key, c)
  }

  /** Sorted, and for every key the same items in the same order: what a stable sort promises. */
  ghost predicate IsStableSortOf<T>(out: seq<T>, s: seq<T>, key: T -> real) {
    Descending(out, key) && forall k :: WithKey(out, key, k) == WithKey(s, key, k)
  }

  function Insert<T>(x: T, s: seq<T>, key: T -> real): seq<T> {
    if s == [] || key(x) >= key(s[0]) then [x] + s else [s[0]] + Insert(x, s[1..], key)
  }

  function SortDesc<T>(s: seq<T>, key: T -> real): (out: seq<T>)
    ensures |out| == |s|
  {
    if s == [] then [] else
    var rest := SortDesc(s[1..], key);
    InsertLength(s[0], rest, key);
    Insert(s[0], rest, key)
  }

  lemma InsertLength<T>(x: T, s: seq<T>, key: T -> real)
    ensures |Insert(x, s, key)| == |s| + 1
  {
  }

  lemma {:induction false} InsertKeepsDescending<T>(x: T, s: seq<T>, key: T -> real)
    requires Descending(s, key)
    ensures Descending(Insert(x, s, key), key)
    ensures forall y :: y in Insert(x, s, key) ==> y == x || y in s
  {
    if s != [] && key(x) < key(s[0]) {
      InsertKeepsDescending(x, s[1..], key);
      var rest := Insert(x, s[1..], key);
      forall y | y in rest ensures key(s[0]) >= key(y) {
        if y != x {
          var j :| 0 <= j < |s[1..]| && s[1..][j] == y;
          assert y == s[j + 1];
        }
      }
      assert forall i :: 0 <= i < |rest| ==> rest[i] in rest;
    }
  }

  lemma {:induction false} InsertKeepsOrder<T>(x: T, s: seq<T>, key: T -> real, k: real)
    requires Descending(s, key)
    ensures WithKey(Insert(x, s, key), key, k) == (if key(x) == k then [x] else []) + WithKey(s, key, k)
  {
    hide WithKey;
    if s == [] || key(x) >= key(s[0]) {
      WithKeyCons(x, s, key, k);
    } else {
      InsertKeepsOrder(x, s[1..], key, k);
      WithKeyCons(s[0], Insert(x, s[1..], key), key, k);
      WithKeyCons(s[0], s[1..], key, k);
      assert [s[0]] + s[1..] == s;
    }
  }

  lemma WithKeyCons<T>(x: T, s: seq<T>, key: T -> real, k: real)
    ensures WithKey([x] + s, key, k) == (if key(x) == k then [x] else []) + WithKey(s, key, k)
  {
    assert ([x] + s)[1..] == s;
  }

  /** `SortDesc` meets the specification of a stable descending sort. */
  lemma {:induction false} SortDescIsStable<T>(s: seq<T>, key: T -> real)
    ensures IsStableSortOf(SortDesc(s, key), s, key)
  {
    if s != [] {
      SortDescIsStable(s[1..], key);
      var rest := SortDesc(s[1..], key);
      InsertKeepsDescending(s[0], rest, key);
      forall k ensures WithKey(SortDesc(s, key), key, k) == WithKey(s, key, k) {
        InsertKeepsOrder(s[0], rest, key, k);
      }
    }
  }

  lemma {:induction false} WithKeyMember<T>(s: seq<T>, key: T -> real, k: real)
    ensures WithKey(s, key, k) != [] <==> exists i :: 0 <= i < |s| && key(s[i]) == k
  {
    if s != [] {
      WithKeyMember(s[1..], key, k);
      if i :| 0 <= i < |s| && key(s[i]) == k {
        if i > 0 { assert s[1..][i - 1] == s[i]; }
      }
    }
  }

  /** A stable descending sort is unique: the specification leaves the output no freedom. */
  lemma {:induction false} StableSortIsUnique<T>(a: seq<T>, b: seq<T>, key: T -> real)
    requires Descending(a, key) && Descending(b, key)
    requires forall k :: WithKey(a, key, k) == WithKey(b, key, k)
    ensures a == b
  {
    if a == [] || b == [] {
      if a != [] { WithKeyMember(a, key, key(a[0])); WithKeyMember(b, key, key(a[0])); }
      if b != [] { WithKeyMember(a, key, key(b[0])); WithKeyMember(b, key, key(b[0])); }
    } else {
      WithKeyMember(a, key, key(a[0]));
      WithKeyMember(b, key, key(a[0]));
      WithKeyMember(a, key, key(b[0]));
      WithKeyMember(b, key, key(b[0]));
      var k := key(a[0]);
      assert key(b[0]) == k;
      assert WithKey(a, key, k)[0] == a[0] && WithKey(b, key, k)[0] == b[0];
      forall k' ensures WithKey(a[1..], key, k') == WithKey(b[1..], key, k') {
        assert WithKey(a, key, k') == WithKey(b, key, k');
        var head := if k == k' then [a[0]] else [];
        assert WithKey(a, key, k') == head + WithKey(a[1..], key, k');
        assert WithKey(b, key, k') == head + WithKey(b[1..], key, k');
        assert WithKey(a[1..], key, k') == WithKey(a, key, k')[|head|..];
        assert WithKey(b[1..], key, k') == WithKey(b, key, k')[|head|..];
      }
      StableSortIsUnique(a[1..], b[1..], key);
    }
  }

  /** Sorting a list that is already descending changes nothing. */
  lemma {:induction false} ResortIsIdentity<T>(s: seq<T>, key: T -> real)
    requires Descending(s, key)
    ensures SortDesc(s, key) == s
  {
    SortDescIsStable(s, key);
    StableSortIsUnique(SortDesc(s, key), s, key);
  }

  lemma {:induction false} AtLeastNone<T>(s: seq<T>, key: T -> real, c: real)
    requires forall i :: 0 <= i < |s| ==> key(s[i]) < c
    ensures AtLeast(s, key, c) == []
  {
    if s != [] { AtLeastNone(s[1..], key, c); }
  }

  lemma {:induction false} AtLeastInsert<T>(x: T, s: seq<T>, key: T -> real, c: real)
    requires Descending(s, key)
    ensures AtLeast(Insert(x, s, key), key, c)
         == if key(x) >= c then Insert(x, AtLeast(s, key, c), key) else AtLeast(s, key, c)
  {
    assert ([x] + s)[1..] == s;
    if s == [] {
    } else if key(s[0]) < c {
      AtLeastNone(s, key, c);
      if key(x) < key(s[0]) {
        AtLeastInsert(x, s[1..], key, c);
        AtLeastNone(s[1..], key, c);
        assert Insert(x, s, key)[1..] == Insert(x, s[1..], key);
      }
    } else if key(x) < key(s[0]) {
      AtLeastInsert(x, s[1..], key, c);
      assert Insert(x, s, key)[1..] == Insert(x, s[1..], key);
      var kept := AtLeast(s, key, c);
      assert kept[0] == s[0] && kept[1..] == AtLeast(s[1..], key, c);
    }
  }

  /** Of a descending list, the items above a cutoff are a prefix. */
  lemma {:induction false} AtLeastIsPrefix<T>(s: seq<T>, key: T -> real, c: real)
    requires Descending(s, key)
    ensures AtLeast(s, key, c) <= s
  {
    if s != [] {
      if key(s[0]) >= c { AtLeastIsPrefix(s[1..], key, c); } else { AtLeastNone(s, key, c); }
    }
  }

  lemma {:induction false} CutThenSort<T>(s: seq<T>, key: T -> real, c: real)
    ensures SortDesc(AtLeast(s, key, c), key) == AtLeast(SortDesc(s, key), key, c)
  {
    if s != [] {
      CutThenSort(s[1..], key, c);
      SortDescIsStable(s[1..], key);
      AtLeastInsert(s[0], SortDesc(s[1..], key), key, c);
      var kept := AtLeast(s, key, c);
      if key(s[0]) >= c {
        assert kept[0] == s[0] && kept[1..] == AtLeast(s[1..], key, c);
      } else {
        assert kept == AtLeast(s[1..], key, c);
      }
    }
  }

  /** Dropping everything below a cutoff before sorting leaves a prefix of the full ranking. */
  lemma CutoffKeepsRankingPrefix<T>(s: seq<T>, key: T -> real, c: real)
    ensures SortDesc(AtLeast(s, key, c), key) <= SortDesc(s, key)
  {
    CutThenSort(s, key, c);
    SortDescIsStable(s, key);
    AtLeastIsPrefix(SortDesc(s, key), key, c);
  }


  lemma {:induction false} InsertKeepsItems<T>(x: T, s: seq<T>, key: T -> real)
    ensures multiset(Insert(x, s, key)) == multiset(s) + multiset{x}
  {
    if s != [] && key(x) < key(s[0]) {
      InsertKeepsItems(x, s[1..], key);
      assert s == [s[0]] + s[1..];
    }
  }

  lemma {:induction false} SortKeepsItems<T>(s: seq<T>, key: T -> real)
    ensures multiset(SortDesc(s, key)) == multiset(s)
  {
    if s != [] {
      SortKeepsItems(s[1..], key);
      InsertKeepsItems(s[0], SortDesc(s[1..], key), key);
      assert s == [s[0]] + s[1..];
    }
  }

  /** A cutoff keeps exactly the items at or above it, each as often as it was there. */
  lemma {:induction false} AtLeastKeeps<T>(s: seq<T>, key: T -> real, c: real, x: T)
    ensures multiset(AtLeast(s, key, c))[x] == if key(x) >= c then multiset(s)[x] else 0
  {
    if s != [] {
      AtLeastKeeps(s[1..], key, c, x);
      assert s == [s[0]] + s[1..];
    }
  }
}
