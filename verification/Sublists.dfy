/** What filtering a list means: the entries that satisfy a condition, each as often as it was there, in order. */
module Sublists {
  /** `out` lists the entries of `s` at the increasing positions `at`. */
  ghost predicate Picks<T>(out: seq<T>, s: seq<T>, at: seq<nat>) {
    && |at| == |out|
    && (forall k :: 0 <= k < |at| ==> at[k] < |s| && s[at[k]] == out[k])
    && forall k, l :: 0 <= k < l < |at| ==> at[k] < at[l]
  }

  ghost predicate InOrder<T>(out: seq<T>, s: seq<T>) { exists at :: Picks(out, s, at) }

  ghost predicate SameCounts<T(!new)>(out: seq<T>, s: seq<T>, p: T -> bool) {
    forall x :: multiset(out)[x] == if p(x) then multiset(s)[x] else 0
  }

  ghost predicate IsFilter<T(!new)>(out: seq<T>, s: seq<T>, p: T -> bool) { SameCounts(out, s, p) && InOrder(out, s) }

  lemma FilterOfNone<T(!new)>(p: T -> bool)
    ensures IsFilter([], [], p)
  {
    assert Picks<T>([], [], []);
  }

  lemma PicksSnoc<T>(out: seq<T>, s: seq<T>, at: seq<nat>, x: T)
    requires Picks(out, s, at)
    ensures Picks(out, s + [x], at) && Picks(out + [x], s + [x], at + [|s|])
  {
  }

  lemma FilterSnoc<T(!new)>(out: seq<T>, s: seq<T>, x: T, p: T -> bool)
    requires IsFilter(out, s, p)
    ensures IsFilter(if p(x) then out + [x] else out, s + [x], p)
  {
    var at :| Picks(out, s, at);
    PicksSnoc(out, s, at, x);
  }

  /** The description leaves no freedom. */
  lemma {:induction false} FilterIsUnique<T(!new)>(a: seq<T>, b: seq<T>, s: seq<T>, p: T -> bool)
    requires IsFilter(a, s, p) && IsFilter(b, s, p)
    ensures a == b
  {
    hide InOrder, SameCounts;
    if s == [] {
      NothingOfNone(a, p);
      NothingOfNone(b, p);
    } else {
      var n := |s| - 1;
      LastOfFilter(a, s, p);
      LastOfFilter(b, s, p);
      if p(s[n]) {
        FilterIsUnique(a[..|a| - 1], b[..|b| - 1], s[..n], p);
      } else {
        FilterIsUnique(a, b, s[..n], p);
      }
    }
  }

  lemma NothingOfNone<T(!new)>(out: seq<T>, p: T -> bool)
    requires IsFilter(out, [], p)
    ensures out == []
  {
    assert multiset(out) == multiset{};
    assert |multiset(out)| == |out|;
  }

  lemma PicksEarlier<T>(out: seq<T>, s: seq<T>, at: seq<nat>)
    requires s != [] && Picks(out, s, at)
    ensures out == [] || at[|at| - 1] < |s| - 1 ==> Picks(out, s[..|s| - 1], at)
    ensures out != [] && at[|at| - 1] == |s| - 1 ==>
              out[|out| - 1] == s[|s| - 1] && Picks(out[..|out| - 1], s[..|s| - 1], at[..|at| - 1])
  {
  }

  lemma CountSnoc<T>(s: seq<T>, y: T)
    requires s != []
    ensures multiset(s)[y] == multiset(s[..|s| - 1])[y] + if s[|s| - 1] == y then 1 else 0
  {
    assert s == s[..|s| - 1] + [s[|s| - 1]];
  }

  lemma {:induction false} PicksAtMost<T>(out: seq<T>, s: seq<T>, at: seq<nat>, y: T)
    requires Picks(out, s, at)
    ensures multiset(out)[y] <= multiset(s)[y]
    decreases |s|
  {
    if s != [] {
      hide Picks;
      PicksEarlier(out, s, at);
      CountSnoc(s, y);
      if out == [] || at[|at| - 1] < |s| - 1 {
        PicksAtMost(out, s[..|s| - 1], at, y);
      } else {
        LastPick(out, s, at);
        CountSnoc(out, y);
        PicksAtMost(out[..|out| - 1], s[..|s| - 1], at[..|at| - 1], y);
      }
    } else {
      assert out == [];
    }
  }

  lemma LastPick<T>(out: seq<T>, s: seq<T>, at: seq<nat>)
    requires Picks(out, s, at) && out != []
    ensures |at| == |out| && at[|at| - 1] < |s| && s[at[|at| - 1]] == out[|out| - 1]
  {
  }

  lemma LastOfFilter<T(!new)>(out: seq<T>, s: seq<T>, p: T -> bool)
    requires s != [] && IsFilter(out, s, p)
    ensures if p(s[|s| - 1]) then
              out != [] && out[|out| - 1] == s[|s| - 1] && IsFilter(out[..|out| - 1], s[..|s| - 1], p)
            else IsFilter(out, s[..|s| - 1], p)
  {
    hide Picks;
    var x := s[|s| - 1];
    var at :| Picks(out, s, at);
    if out != [] { LastPick(out, s, at); }
    PicksEarlier(out, s, at);
    forall y ensures multiset(s)[y] == multiset(s[..|s| - 1])[y] + if x == y then 1 else 0 { CountSnoc(s, y); }
    if out == [] || at[|at| - 1] < |s| - 1 {
      PicksAtMost(out, s[..|s| - 1], at, x);
    } else {
      forall y ensures multiset(out)[y] == multiset(out[..|out| - 1])[y] + if x == y then 1 else 0 {
        CountSnoc(out, y);
      }
    }
  }
}
