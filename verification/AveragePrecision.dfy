/** All-points interpolated average precision of a ranked list of hits and misses. */
module AveragePrecision {
  import opened StableSort
  import opened Boxes

  datatype Scored = Scored(confidence: real, isTp: bool)

  function Confidence(s: Scored): real { s.confidence }

  function Flags(s: seq<Scored>): (f: seq<bool>)
    ensures |f| == |s| && forall i :: 0 <= i < |s| ==> f[i] == s[i].isTp
  {
    seq(|s|, i requires 0 <= i < |s| => s[i].isTp)
  }

  /** True positives among the first `n` ranked predictions. */
  function Tp(flags: seq<bool>, n: nat): (t: nat)
    requires n <= |flags|
    ensures t <= n
  {
    if n == 0 then 0 else Tp(flags, n - 1) + if flags[n - 1] then 1 else 0
  }

  /** Precision of every ranking prefix: entry `k` is about the first `k + 1` predictions. */
  function Precisions(flags: seq<bool>): (p: seq<real>)
    ensures |p| == |flags|
    ensures forall k :: 0 <= k < |flags| ==> p[k] == Precision(flags, k)
    ensures forall k :: 0 <= k < |flags| ==> 0.0 <= p[k] <= 1.0
  {
    PrecisionsAreFractions(flags);
    seq(|flags|, k requires 0 <= k < |flags| => Precision(flags, k))
  }

  function Precision(flags: seq<bool>, k: nat): real
    requires k < |flags|
  {
    Tp(flags, k + 1) as real / (k + 1) as real
  }

  lemma PrecisionsAreFractions(flags: seq<bool>)
    ensures forall k :: 0 <= k < |flags| ==> 0.0 <= Precision(flags, k) <= 1.0
    ensures forall k :: 0 <= k < |flags| ==> (Precision(flags, k) == 1.0 <==> Tp(flags, k + 1) == k + 1)
  {
    forall k | 0 <= k < |flags|
      ensures 0.0 <= Precision(flags, k) <= 1.0 && (Precision(flags, k) == 1.0 <==> Tp(flags, k + 1) == k + 1)
    {
      FractionBounds(Tp(flags, k + 1) as real, (k + 1) as real);
    }
  }

  /** The best precision of any ranking prefix, from position `from` on, that already holds `j` hits. */
  function BestFrom(p: seq<real>, flags: seq<bool>, j: nat, from: nat): (b: real)
    requires from <= |flags| == |p|
    ensures b >= 0.0
    decreases |flags| - from
  {
    if from == |flags| then 0.0
    else Max(if Tp(flags, from + 1) >= j then p[from] else 0.0, BestFrom(p, flags, j, from + 1))
  }

  function SumBest(p: seq<real>, flags: seq<bool>, m: nat): (s: real)
    requires |p| == |flags|
    ensures s >= 0.0
  {
    if m == 0 then 0.0 else SumBest(p, flags, m - 1) + BestFrom(p, flags, m, 0)
  }

  /** The closed form: the mean, over the ground-truth boxes, of the best precision that reaches each of them. */
  function Ap(flags: seq<bool>, numGt: nat): real {
    if numGt == 0 then 0.0 else SumBest(Precisions(flags), flags, Tp(flags, |flags|)) / numGt as real
  }

  /** `BestFrom` is the maximum it is named after. */
  lemma {:induction false} BestFromIsMaximum(p: seq<real>, flags: seq<bool>, j: nat, from: nat)
    requires from <= |flags| == |p|
    ensures forall k :: from <= k < |flags| && Tp(flags, k + 1) >= j ==> p[k] <= BestFrom(p, flags, j, from)
    ensures BestFrom(p, flags, j, from) > 0.0
        ==> exists k :: from <= k < |flags| && Tp(flags, k + 1) >= j && p[k] == BestFrom(p, flags, j, from)
    decreases |flags| - from
  {
    if from < |flags| { BestFromIsMaximum(p, flags, j, from + 1); }
  }

  lemma {:induction false} TpGrows(flags: seq<bool>, m: nat, n: nat)
    requires m <= n <= |flags|
    ensures Tp(flags, m) <= Tp(flags, n) <= Tp(flags, m) + (n - m)
    decreases n - m
  {
    if m < n { TpGrows(flags, m, n - 1); }
  }

  /** Suffix maximum of the precisions: what the right-to-left pass leaves behind. */
  function Envelope(p: seq<real>, k: nat): real
    requires k < |p|
    decreases |p| - k
  {
    if k + 1 == |p| then p[k] else Max(p[k], Envelope(p, k + 1))
  }

  lemma {:induction false} EnvelopeIsBestFrom(p: seq<real>, flags: seq<bool>, j: nat, k: nat)
    requires k < |flags| == |p| && Tp(flags, k + 1) >= j
    requires forall i :: 0 <= i < |p| ==> p[i] >= 0.0
    ensures Envelope(p, k) == BestFrom(p, flags, j, k)
    decreases |flags| - k
  {
    if k + 1 < |flags| { EnvelopeIsBestFrom(p, flags, j, k + 1); }
  }

  lemma {:induction false} BestFromSkipsShortPrefixes(p: seq<real>, flags: seq<bool>, j: nat, k: nat, from: nat)
    requires from <= k < |flags| == |p| && Tp(flags, k) < j
    ensures BestFrom(p, flags, j, from) == BestFrom(p, flags, j, k)
    decreases k - from
  {
    if from < k {
      TpGrows(flags, from + 1, k);
      BestFromSkipsShortPrefixes(p, flags, j, k, from + 1);
    }
  }

  /** At a hit, the envelope is the best precision that reaches this many hits. */
  lemma EnvelopeAtHit(p: seq<real>, flags: seq<bool>, k: nat)
    requires k < |flags| == |p| && flags[k]
    requires forall i :: 0 <= i < |p| ==> p[i] >= 0.0
    ensures Envelope(p, k) == BestFrom(p, flags, Tp(flags, k + 1), 0)
  {
    EnvelopeIsBestFrom(p, flags, Tp(flags, k + 1), k);
    BestFromSkipsShortPrefixes(p, flags, Tp(flags, k + 1), k, 0);
  }

  function Scale(x: real, unit: real): real { x * unit }

  function Before(recalls: seq<real>, k: nat): real
    requires k <= |recalls|
  {
    if k == 0 then 0.0 else recalls[k - 1]
  }

  /** Area under the envelope over the first `n` recall steps, as the program accumulates it. */
  function AreaUnder(heights: seq<real>, recalls: seq<real>, n: nat): real
    requires n <= |heights| == |recalls|
  {
    if n == 0 then 0.0
    else AreaUnder(heights, recalls, n - 1) + Scale(heights[n - 1], recalls[n - 1] - Before(recalls, n - 1))
  }

  /** Recall rises by one unit at each hit and stays level at each miss. */
  ghost predicate RisesAtHits(recalls: seq<real>, flags: seq<bool>, unit: real) {
    && |recalls| == |flags|
    && forall k {:trigger flags[k]} :: 0 <= k < |flags| ==>
          recalls[k] - Before(recalls, k) == if flags[k] then unit else 0.0
  }

  /** Each rectangle at a hit contributes the best precision reaching that hit; the others are empty. */
  lemma {:induction false} AreaIsSumOfBest(p: seq<real>, flags: seq<bool>, heights: seq<real>, recalls: seq<real>,
                                           unit: real, n: nat)
    requires n <= |heights| == |p| == |flags| && RisesAtHits(recalls, flags, unit)
    requires forall i :: 0 <= i < |p| ==> p[i] >= 0.0
    requires |heights| == |p| && forall k {:trigger heights[k]} :: 0 <= k < |p| ==> heights[k] == Envelope(p, k)
    ensures AreaUnder(heights, recalls, n) == Scale(SumBest(p, flags, Tp(flags, n)), unit)
  {
    if n > 0 {
      AreaIsSumOfBest(p, flags, heights, recalls, unit, n - 1);
      var rise := recalls[n - 1] - Before(recalls, n - 1);
      if flags[n - 1] {
        EnvelopeAtHit(p, flags, n - 1);
        assert rise == unit;
        AddRectangle(unit, SumBest(p, flags, Tp(flags, n - 1)), heights[n - 1]);
      } else {
        assert rise == 0.0;
      }
    }
  }

  lemma AddRectangle(unit: real, sum: real, height: real)
    ensures Scale(sum, unit) + Scale(height, unit) == Scale(sum + height, unit)
  {
  }

  lemma UnitStep(t: nat, numGt: nat)
    requires numGt > 0
    ensures (t + 1) as real / numGt as real - t as real / numGt as real == 1.0 / numGt as real
  {
  }

  method PrecisionsAndRecalls(ordered: seq<Scored>, numGt: nat) returns (precisions: seq<real>, recalls: seq<real>)
    requires numGt > 0
    ensures precisions == Precisions(Flags(ordered))
    ensures RisesAtHits(recalls, Flags(ordered), 1.0 / numGt as real)
  {
    ghost var flags := Flags(ordered);
    var tpCum, fpCum := 0, 0;
    precisions, recalls := [], [];
    for k := 0 to |ordered|
      invariant tpCum == Tp(flags, k) && tpCum + fpCum == k
      invariant |precisions| == |recalls| == k
      invariant Before(recalls, k) == tpCum as real / numGt as real
      invariant forall i :: 0 <= i < k ==> precisions[i] == Precision(flags, i)
      invariant forall i {:trigger flags[i]} :: 0 <= i < k ==>
                recalls[i] - Before(recalls, i) == if flags[i] then 1.0 / numGt as real else 0.0
    {
      UnitStep(tpCum, numGt);
      if ordered[k].isTp { tpCum := tpCum + 1; } else { fpCum := fpCum + 1; }
      precisions := precisions + [tpCum as real / (tpCum + fpCum) as real];
      recalls := recalls + [tpCum as real / numGt as real];
    }
  }

  /** The in-place pass from the right: each entry is raised to the maximum of itself and its successor. */
  method RaiseToEnvelope(points: seq<real>) returns (precisions: seq<real>)
    ensures |precisions| == |points|
    ensures forall k {:trigger precisions[k]} :: 0 <= k < |points| ==> precisions[k] == Envelope(points, k)
  {
    precisions := points;
    var i := |precisions| - 2;
    while i >= 0
      invariant -2 <= i < |precisions| == |points|
      invariant forall k :: 0 <= k <= i ==> precisions[k] == points[k]
      invariant forall k :: 0 <= k < |points| && i < k ==> precisions[k] == Envelope(points, k)
    {
      precisions := precisions[i := Max(precisions[i], precisions[i + 1])];
      i := i - 1;
    }
  }

  method Integrate(precisions: seq<real>, recalls: seq<real>) returns (ap: real)
    requires |precisions| == |recalls|
    ensures ap == AreaUnder(precisions, recalls, |precisions|)
  {
    ap := 0.0;
    var prevRecall := 0.0;
    for k := 0 to |precisions|
      invariant prevRecall == Before(recalls, k)
      invariant ap == AreaUnder(precisions, recalls, k)
    {
      ap := ap + precisions[k] * (recalls[k] - prevRecall);
      prevRecall := recalls[k];
    }
  }

  /** The program's three passes compute the closed form of the stably re-sorted list. */
  method ComputeAveragePrecision(scored: seq<Scored>, numGt: nat) returns (ap: real)
    ensures ap == Ap(Flags(SortDesc(scored, Confidence)), numGt)
  {
    if numGt == 0 {
      return 0.0;
    }
    var ordered := SortDesc(scored, Confidence);
    var precisions, recalls := PrecisionsAndRecalls(ordered, numGt);
    ghost var p, flags := precisions, Flags(ordered);
    precisions := RaiseToEnvelope(precisions);
    ap := Integrate(precisions, recalls);
    AreaIsSumOfBest(p, flags, precisions, recalls, 1.0 / numGt as real, |ordered|);
    TimesUnit(SumBest(p, flags, Tp(flags, |flags|)), numGt as real);
  }

  lemma TimesUnit(x: real, n: real)
    requires n > 0.0
    ensures Scale(x, 1.0 / n) == x / n
  {
  }

  lemma {:induction false} BestMonotone(worse: seq<bool>, better: seq<bool>, j: nat, from: nat)
    requires from <= |worse| <= |better|
    requires forall n :: 0 <= n <= |worse| ==> Tp(worse, n) <= Tp(better, n)
    ensures BestFrom(Precisions(worse), worse, j, from) <= BestFrom(Precisions(better), better, j, from)
    decreases |worse| - from
  {
    if from < |worse| {
      BestMonotone(worse, better, j, from + 1);
      DivideMonotone(Tp(worse, from + 1) as real, Tp(better, from + 1) as real, (from + 1) as real);
    }
  }

  lemma {:induction false} SumBestMonotone(worse: seq<bool>, better: seq<bool>, m: nat, m': nat)
    requires |worse| <= |better| && m <= m'
    requires forall n :: 0 <= n <= |worse| ==> Tp(worse, n) <= Tp(better, n)
    ensures SumBest(Precisions(worse), worse, m) <= SumBest(Precisions(better), better, m')
    decreases m'
  {
    if m < m' {
      SumBestMonotone(worse, better, m, m' - 1);
    } else if m > 0 {
      SumBestMonotone(worse, better, m - 1, m' - 1);
      BestMonotone(worse, better, m, 0);
    }
  }

  /** A ranking with at least as many hits in every prefix, and possibly more entries, never scores less. */
  lemma {:induction false} ApMonotone(worse: seq<bool>, better: seq<bool>, numGt: nat)
    requires |worse| <= |better|
    requires forall n :: 0 <= n <= |worse| ==> Tp(worse, n) <= Tp(better, n)
    ensures Ap(worse, numGt) <= Ap(better, numGt)
  {
    if numGt > 0 {
      var m, m' := Tp(worse, |worse|), Tp(better, |better|);
      TpGrows(better, |worse|, |better|);
      SumBestMonotone(worse, better, m, m');
      DivideMonotone(SumBest(Precisions(worse), worse, m), SumBest(Precisions(better), better, m'), numGt as real);
    }
  }

  lemma DivideMonotone(a: real, b: real, n: real)
    requires a <= b && n > 0.0
    ensures a / n <= b / n
  {
  }

  lemma {:induction false} TpOfPrefix(short: seq<bool>, long: seq<bool>, n: nat)
    requires short <= long && n <= |short|
    ensures Tp(short, n) == Tp(long, n)
  {
    if n > 0 { TpOfPrefix(short, long, n - 1); }
  }

  lemma ApOfPrefix(short: seq<bool>, long: seq<bool>, numGt: nat)
    requires short <= long
    ensures Ap(short, numGt) <= Ap(long, numGt)
  {
    forall n | 0 <= n <= |short| ensures Tp(short, n) <= Tp(long, n) { TpOfPrefix(short, long, n); }
    ApMonotone(short, long, numGt);
  }

  lemma BestIsAFraction(flags: seq<bool>, j: nat)
    ensures 0.0 <= BestFrom(Precisions(flags), flags, j, 0) <= 1.0
    ensures j > 0 ==>
            (BestFrom(Precisions(flags), flags, j, 0) == 1.0 <==> exists n :: j <= n <= |flags| && Tp(flags, n) == n)
  {
    BestFromIsMaximum(Precisions(flags), flags, j, 0);
    PrecisionsAreFractions(flags);
    if j > 0 && BestFrom(Precisions(flags), flags, j, 0) == 1.0 {
      var k :| 0 <= k < |flags| && Tp(flags, k + 1) >= j && Precision(flags, k) == 1.0;
      assert Tp(flags, k + 1) == k + 1;
    }
    if n :| 0 < j <= n <= |flags| && Tp(flags, n) == n {
      assert Precision(flags, n - 1) == 1.0;
    }
  }

  lemma {:induction false} SumBestIsBounded(flags: seq<bool>, m: nat)
    ensures SumBest(Precisions(flags), flags, m) <= m as real
    ensures SumBest(Precisions(flags), flags, m) == m as real <==>
            forall j :: 1 <= j <= m ==> BestFrom(Precisions(flags), flags, j, 0) == 1.0
  {
    if m > 0 {
      SumBestIsBounded(flags, m - 1);
      BestIsAFraction(flags, m);
    }
  }

  lemma {:induction false} ApIsAFraction(flags: seq<bool>, numGt: nat)
    requires Tp(flags, |flags|) <= numGt
    ensures 0.0 <= Ap(flags, numGt) <= 1.0
    ensures numGt == 0 ==> Ap(flags, numGt) == 0.0
  {
    if numGt > 0 {
      SumBestIsBounded(flags, Tp(flags, |flags|));
      FractionBounds(SumBest(Precisions(flags), flags, Tp(flags, |flags|)), numGt as real);
    }
  }

  lemma {:induction false} AllHits(flags: seq<bool>, n: nat)
    requires n <= |flags|
    ensures Tp(flags, n) == n <==> forall i :: 0 <= i < n ==> flags[i]
  {
    if n > 0 { AllHits(flags, n - 1); }
  }

  /** A perfect score means exactly that the top `numGt` predictions are all hits. */
  lemma {:induction false} ApIsOneExactlyWhenTopAreHits(flags: seq<bool>, numGt: nat)
    requires numGt > 0 && Tp(flags, |flags|) <= numGt
    ensures Ap(flags, numGt) == 1.0 <==> numGt <= |flags| && forall i :: 0 <= i < numGt ==> flags[i]
  {
    var t := Tp(flags, |flags|);
    SumBestIsBounded(flags, t);
    FractionBounds(SumBest(Precisions(flags), flags, t), numGt as real);
    if numGt <= |flags| { AllHits(flags, numGt); TpGrows(flags, numGt, |flags|); }
    BestIsAFraction(flags, numGt);
    if Ap(flags, numGt) == 1.0 {
      assert t == numGt && BestFrom(Precisions(flags), flags, numGt, 0) == 1.0;
      var n :| numGt <= n <= |flags| && Tp(flags, n) == n;
      TpGrows(flags, numGt, n);
    } else if numGt <= |flags| && Tp(flags, numGt) == numGt {
      forall j | 1 <= j <= numGt ensures BestFrom(Precisions(flags), flags, j, 0) == 1.0 {
        BestIsAFraction(flags, j);
      }
    }
  }


  lemma {:induction false} TpOfOneHit(flags: seq<bool>, k: nat, n: nat)
    requires k < |flags| && n <= |flags| && forall i :: 0 <= i < |flags| ==> (flags[i] <==> i == k)
    ensures Tp(flags, n) == if n > k then 1 else 0
  {
    if n > 0 { TpOfOneHit(flags, k, n - 1); }
  }

  /** A single hit at rank k + 1 is worth its precision there, 1 / (k + 1), on one box among `numGt`. */
  lemma {:induction false} ApOfOneHit(flags: seq<bool>, k: nat, numGt: nat)
    requires k < |flags| && numGt > 0 && forall i :: 0 <= i < |flags| ==> (flags[i] <==> i == k)
    ensures Ap(flags, numGt) == 1.0 / (k + 1) as real / numGt as real
  {
    var p := Precisions(flags);
    forall n | 0 <= n <= |flags| ensures Tp(flags, n) == if n > k then 1 else 0 { TpOfOneHit(flags, k, n); }
    BestFromIsMaximum(p, flags, 1, 0);
    forall n | k <= n < |flags| ensures p[n] <= p[k] { Reciprocals(k + 1, n + 1); }
    assert p[k] == 1.0 / (k + 1) as real > 0.0;
    assert SumBest(p, flags, 0) == 0.0;
  }

  lemma InverseIsPositive(x: real, a: real)
    requires a > 0.0 && x * a == 1.0
    ensures x > 0.0
  {
  }

  lemma ProductNotNegative(x: real, y: real)
    requires x >= 0.0 && y >= 0.0
    ensures x * y >= 0.0
  {
  }

  lemma SignOfFactor(x: real, b: real)
    requires b > 0.0 && x * b >= 0.0
    ensures x >= 0.0
  {
  }

  lemma Reciprocals(a: nat, b: nat)
    requires 0 < a <= b
    ensures 0.0 < 1.0 / b as real <= 1.0 / a as real
  {
    var x, y := 1.0 / a as real, 1.0 / b as real;
    assert x * a as real == 1.0 && y * b as real == 1.0;
    InverseIsPositive(y, b as real);
    InverseIsPositive(x, a as real);
    ProductNotNegative(x, b as real - a as real);
    SignOfFactor(x - y, b as real);
  }

  lemma {:induction false} TpOfMoreMisses(flags: seq<bool>, n: nat)
    requires n <= |flags|
    ensures Tp(flags + [false], n) == Tp(flags, n)
  {
    if n > 0 { TpOfMoreMisses(flags, n - 1); }
  }

  lemma {:induction false} BestOfMoreMisses(flags: seq<bool>, j: nat, from: nat)
    requires from <= |flags| && 0 < j <= Tp(flags, |flags|)
    ensures var more := flags + [false];
            from < |flags| ==> BestFrom(Precisions(more), more, j, from) == BestFrom(Precisions(flags), flags, j, from)
    decreases |flags| - from
  {
    var more := flags + [false];
    if from < |flags| {
      TpOfMoreMisses(flags, from + 1);
      BestOfMoreMisses(flags, j, from + 1);
      if from + 1 == |flags| {
        var n := |flags|;
        TpOfMoreMisses(flags, n);
        assert Tp(more, n + 1) == Tp(flags, n);
        DivideByMore(Tp(flags, n), n);
        assert BestFrom(Precisions(more), more, j, n + 1) == 0.0;
        assert BestFrom(Precisions(flags), flags, j, n) == 0.0;
      }
    }
  }

  lemma DivideByMore(t: nat, n: nat)
    requires n > 0
    ensures 0.0 <= t as real / (n + 1) as real <= t as real / n as real
  {
    Reciprocals(n, n + 1);
    var x, y := 1.0 / n as real, 1.0 / (n + 1) as real;
    assert t as real * y <= t as real * x;
    assert t as real / n as real == t as real * x && t as real / (n + 1) as real == t as real * y;
  }

  lemma {:induction false} SumBestOfMoreMisses(flags: seq<bool>, m: nat)
    requires m <= Tp(flags, |flags|)
    ensures SumBest(Precisions(flags + [false]), flags + [false], m) == SumBest(Precisions(flags), flags, m)
  {
    if m > 0 {
      SumBestOfMoreMisses(flags, m - 1);
      BestOfMoreMisses(flags, m, 0);
    }
  }

  /** Misses ranked below everything else cost nothing. */
  lemma {:induction false} TrailingMissesAreFree(flags: seq<bool>, numGt: nat)
    ensures Ap(flags + [false], numGt) == Ap(flags, numGt)
  {
    TpOfMoreMisses(flags, |flags|);
    SumBestOfMoreMisses(flags, Tp(flags, |flags|));
  }
}
