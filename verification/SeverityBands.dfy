/** The aggregated severity of a group of defects: composition weighted by class, damped by how widespread it is. */
module SeverityBands {
  import opened Defects
  import opened ImageState
  import opened Wrappers

  function Weight(t: DefectType): nat { Rank(DefaultSeverity(t)) + 1 }

  const RATE_FLOOR := 0.5
  const WEIGHT_MIN := 1.0
  const BAND_WIDTH := 0.75

  /** One class's share of the group, weighted. */
  function Term(count: nat, total: nat, weight: nat): real
    requires total > 0
  {
    count as real / total as real * weight as real
  }

  function TermOf(counts: map<DefectType, nat>, t: DefectType): real
    requires SumValues(counts) > 0
  {
    Term(At(counts, t), SumValues(counts), Weight(t))
  }

  function Composition(counts: map<DefectType, nat>): real
    requires SumValues(counts) > 0
  {
    TermOf(counts, MissingHole) + TermOf(counts, MouseBite) + TermOf(counts, OpenCircuit)
    + TermOf(counts, Short) + TermOf(counts, Spur) + TermOf(counts, SpuriousCopper)
  }

  function Clamp(rate: real): (r: real)
    ensures 0.0 <= r <= 1.0
  {
    var atLeast := if rate < 0.0 then 0.0 else rate;
    if atLeast > 1.0 then 1.0 else atLeast
  }

  function RateFactor(rate: real): (f: real)
    ensures RATE_FLOOR <= f <= 1.0
  {
    RATE_FLOOR + (1.0 - RATE_FLOOR) * Clamp(rate)
  }

  function Banded(score: real): Severity {
    if score < WEIGHT_MIN + BAND_WIDTH then Low
    else if score < WEIGHT_MIN + 2.0 * BAND_WIDTH then Medium
    else if score < WEIGHT_MIN + 3.0 * BAND_WIDTH then High
    else Critical
  }

  function Times(a: real, b: real): real { a * b }

  function SeverityOf(counts: map<DefectType, nat>, rate: real): Option<Severity> {
    if SumValues(counts) <= 0 then None else Some(Banded(Times(Composition(counts), RateFactor(rate))))
  }

  predicate NoWorse(a: Option<Severity>, b: Option<Severity>) {
    (a.Some? <==> b.Some?) && (a.Some? ==> Rank(a.value) <= Rank(b.value))
  }

  // ---- the composition as one fraction ----

  /** The sum of all weights in the group. */
  function TotalWeight(counts: map<DefectType, nat>): nat {
    3 * At(counts, MissingHole) + At(counts, MouseBite) + 4 * At(counts, OpenCircuit)
    + 4 * At(counts, Short) + At(counts, Spur) + 2 * At(counts, SpuriousCopper)
  }

  lemma {:induction false} TermTimesTotal(count: nat, total: nat, weight: nat)
    requires total > 0
    ensures Times(Term(count, total, weight), total as real) == (count * weight) as real
  {
    var c, n, w := count as real, total as real, weight as real;
    assert c / n * n == c;
    assert Times(Term(count, total, weight), n) == (c / n) * w * n == (c / n * n) * w == c * w;
    ProductOfReals(count, weight);
  }

  lemma ProductOfReals(a: nat, b: nat)
    ensures (a * b) as real == a as real * b as real
  {
    if a > 0 {
      ProductOfReals(a - 1, b);
      assert a * b == (a - 1) * b + b;
    }
  }

  lemma TimesDistributes(a: real, b: real, c: real, d: real, e: real, f: real, n: real)
    ensures Times(a + b + c + d + e + f, n)
            == Times(a, n) + Times(b, n) + Times(c, n) + Times(d, n) + Times(e, n) + Times(f, n)
  {
  }

  /** The code's sum of weighted shares is the average weight. */
  lemma {:induction false} CompositionIsAverageWeight(counts: map<DefectType, nat>)
    requires SumValues(counts) > 0
    ensures Times(Composition(counts), SumValues(counts) as real) == TotalWeight(counts) as real
  {
    hide Term, Times, SumValues;
    var n := SumValues(counts);
    TimesDistributes(TermOf(counts, MissingHole), TermOf(counts, MouseBite), TermOf(counts, OpenCircuit),
                     TermOf(counts, Short), TermOf(counts, Spur), TermOf(counts, SpuriousCopper), n as real);
    TermTimesTotal(At(counts, MissingHole), n, 3);
    TermTimesTotal(At(counts, MouseBite), n, 1);
    TermTimesTotal(At(counts, OpenCircuit), n, 4);
    TermTimesTotal(At(counts, Short), n, 4);
    TermTimesTotal(At(counts, Spur), n, 1);
    TermTimesTotal(At(counts, SpuriousCopper), n, 2);
  }

  lemma {:induction false} TimesMonotone(a: real, b: real, f: real)
    requires a <= b && f >= 0.0
    ensures Times(a, f) <= Times(b, f)
  {
    assert Times(b, f) - Times(a, f) == (b - a) * f;
  }

  lemma {:induction false} TimesStrict(a: real, b: real, f: real)
    requires a < b && f > 0.0
    ensures Times(a, f) < Times(b, f)
  {
    assert Times(b, f) - Times(a, f) == (b - a) * f;
    assert (b - a) * f > 0.0;
  }

  lemma {:induction false} FromProducts(a: real, b: real, f: real)
    requires f > 0.0 && Times(a, f) <= Times(b, f)
    ensures a <= b
  {
    hide Times;
    if a > b { TimesStrict(b, a, f); }
  }

  lemma BandedMonotone(a: real, b: real)
    requires a <= b
    ensures Rank(Banded(a)) <= Rank(Banded(b))
  {
  }

  /** Of two groups of one size, the one with the smaller total weight never reads worse. */
  lemma {:induction false} LighterGroupNeverReadsWorse(a: map<DefectType, nat>, b: map<DefectType, nat>, rate: real)
    requires SumValues(a) == SumValues(b) && TotalWeight(a) <= TotalWeight(b)
    ensures NoWorse(SeverityOf(a, rate), SeverityOf(b, rate))
  {
    hide Composition, RateFactor, TotalWeight, SumValues, Times, Banded;
    if SumValues(a) > 0 {
      CompositionIsAverageWeight(a);
      CompositionIsAverageWeight(b);
      FromProducts(Composition(a), Composition(b), SumValues(a) as real);
      TimesMonotone(Composition(a), Composition(b), RateFactor(rate));
      BandedMonotone(Times(Composition(a), RateFactor(rate)), Times(Composition(b), RateFactor(rate)));
    }
  }

  // ---- the promises ----

  /** The range of scores, 1 to 4, is split into four equal bands. */
  lemma {:induction false} BandsAreQuarters(score: real)
    ensures Rank(Banded(score))
         == if score >= 3.25 then 3 else if score >= 2.5 then 2 else if score >= 1.75 then 1 else 0
  {
  }

  /** Scale lowers a reading by at most one half, at rate 0, and not at all at rate 1. */
  lemma {:induction false} RateFactorIsLinear(rate: real)
    ensures rate <= 0.0 ==> RateFactor(rate) == 0.5
    ensures 0.0 <= rate <= 1.0 ==> 2.0 * RateFactor(rate) == 1.0 + rate
    ensures rate >= 1.0 ==> RateFactor(rate) == 1.0
  {
  }

  /** The reading, as bounds on the average weight: with rate r in [0, 1], at least MEDIUM, HIGH or CRITICAL exactly
      when (1 + r) times the total weight reaches 3.5, 5 or 6.5 per defect. */
  lemma {:induction false} ReadingExactlyWhen(counts: map<DefectType, nat>, rate: real)
    requires SumValues(counts) > 0 && 0.0 <= rate <= 1.0
    ensures var score, n := (1.0 + rate) * TotalWeight(counts) as real, SumValues(counts) as real;
            SeverityOf(counts, rate)
              == Some(if score >= 6.5 * n then Critical else if score >= 5.0 * n then High
                      else if score >= 3.5 * n then Medium else Low)
  {
    hide Composition, TotalWeight, SumValues;
    CompositionIsAverageWeight(counts);
    RateFactorIsLinear(rate);
    var c, f, n := Composition(counts), RateFactor(rate), SumValues(counts) as real;
    ScoreTimes(c, f, n, 3.25, TotalWeight(counts) as real);
    ScoreTimes(c, f, n, 2.5, TotalWeight(counts) as real);
    ScoreTimes(c, f, n, 1.75, TotalWeight(counts) as real);
  }

  lemma ScoreTimes(c: real, f: real, n: real, bound: real, total: real)
    requires n > 0.0 && Times(c, n) == total
    ensures Times(c, f) >= bound <==> (2.0 * f) * total >= 2.0 * bound * n
  {
    var d := c * f - bound;
    assert (2.0 * f) * total == 2.0 * (f * (c * n)) == 2.0 * ((c * f) * n);
    assert 2.0 * (d * n) == 2.0 * ((c * f) * n) - 2.0 * bound * n;
    if d >= 0.0 { assert d * n >= 0.0; } else { assert d * n < 0.0; }
  }

  lemma CompositionIsPositive(counts: map<DefectType, nat>)
    requires SumValues(counts) > 0
    ensures Composition(counts) >= 1.0
  {
    hide Composition;
    CompositionIsAverageWeight(counts);
    assert TotalWeight(counts) >= SumValues(counts);
    FromProducts(1.0, Composition(counts), SumValues(counts) as real);
  }

  /** A wider spread of the same defects never reads milder. */
  lemma {:induction false} WorseRateNeverReadsMilder(counts: map<DefectType, nat>, low: real, high: real)
    requires low <= high
    ensures NoWorse(SeverityOf(counts, low), SeverityOf(counts, high))
  {
    hide Composition;
    if SumValues(counts) > 0 {
      CompositionIsPositive(counts);
      TimesMonotone(RateFactor(low), RateFactor(high), Composition(counts));
      BandedMonotone(Times(Composition(counts), RateFactor(low)), Times(Composition(counts), RateFactor(high)));
    }
  }

  function Scaled(counts: map<DefectType, nat>, k: nat): map<DefectType, nat> {
    map t | t in counts :: k * counts[t]
  }

  /** Only proportions count: scaling every count changes nothing. */
  lemma {:induction false} ScalingChangesNothing(counts: map<DefectType, nat>, k: nat, rate: real)
    requires k > 0
    ensures SeverityOf(Scaled(counts, k), rate) == SeverityOf(counts, rate)
  {
    hide Composition, Banded, RateFactor, SumValues, TotalWeight, Scaled;
    ScaledSums(counts, k);
    var n := SumValues(counts);
    if n > 0 {
      ProductPositive(k, n);
      ScaledComposition(counts, k);
    } else {
      assert k * n == 0;
    }
  }

  lemma ScaledComposition(counts: map<DefectType, nat>, k: nat)
    requires k > 0 && SumValues(counts) > 0 && SumValues(Scaled(counts, k)) > 0
    ensures Composition(Scaled(counts, k)) == Composition(counts)
  {
    hide Composition, SumValues, TotalWeight, Scaled;
    ScaledSums(counts, k);
    CompositionIsAverageWeight(counts);
    CompositionIsAverageWeight(Scaled(counts, k));
    ProductOfReals(k, SumValues(counts));
    ProductOfReals(k, TotalWeight(counts));
    SameAverage(Composition(counts), Composition(Scaled(counts, k)), k as real, SumValues(counts) as real);
  }

  lemma ProductPositive(a: nat, b: nat)
    requires a > 0 && b > 0
    ensures a * b > 0
  {
  }

  lemma SameAverage(a: real, b: real, k: real, n: real)
    requires k > 0.0 && n > 0.0 && Times(b, k * n) == k * Times(a, n)
    ensures a == b
  {
    assert (b - a) * (k * n) == 0.0;
    assert k * n > 0.0;
  }

  lemma {:induction false} ScaledSums(counts: map<DefectType, nat>, k: nat)
    ensures SumValues(Scaled(counts, k)) == k * SumValues(counts)
    ensures TotalWeight(Scaled(counts, k)) == k * TotalWeight(counts)
  {
    ScaledAt(counts, k, MissingHole);
    ScaledAt(counts, k, MouseBite);
    ScaledAt(counts, k, OpenCircuit);
    ScaledAt(counts, k, Short);
    ScaledAt(counts, k, Spur);
    ScaledAt(counts, k, SpuriousCopper);
    hide At, Scaled;
    var a, b, c := At(counts, MissingHole), At(counts, MouseBite), At(counts, OpenCircuit);
    var d, e, f := At(counts, Short), At(counts, Spur), At(counts, SpuriousCopper);
    Distributes(k, a, b, c, d, e, f);
    Distributes(k, 3 * a, b, 4 * c, 4 * d, e, 2 * f);
    Factor(k, 3, a);
    Factor(k, 4, c);
    Factor(k, 4, d);
    Factor(k, 2, f);
  }

  lemma ScaledAt(counts: map<DefectType, nat>, k: nat, t: DefectType)
    ensures At(Scaled(counts, k), t) == k * At(counts, t)
  {
  }

  lemma Factor(k: int, w: int, a: int)
    ensures k * (w * a) == w * (k * a)
  {
  }

  lemma Distributes(k: int, a: int, b: int, c: int, d: int, e: int, f: int)
    ensures k * (a + b + c + d + e + f) == k * a + k * b + k * c + k * d + k * e + k * f
  {
  }

  function Replaced(counts: map<DefectType, nat>, t: DefectType, u: DefectType): map<DefectType, nat>
    requires At(counts, t) > 0
  {
    var without := counts[t := counts[t] - 1];
    without[u := At(without, u) + 1]
  }

  /** Replacing a defect by one of an equally heavy or heavier class never reads milder. */
  lemma {:induction false} HeavierDefectNeverReadsMilder(counts: map<DefectType, nat>, t: DefectType, u: DefectType,
                                                         rate: real)
    requires At(counts, t) > 0 && Weight(t) <= Weight(u)
    ensures NoWorse(SeverityOf(counts, rate), SeverityOf(Replaced(counts, t, u), rate))
  {
    ReplacedSums(counts, t, u);
    LighterGroupNeverReadsWorse(counts, Replaced(counts, t, u), rate);
  }

  lemma ReplacedSums(counts: map<DefectType, nat>, t: DefectType, u: DefectType)
    requires At(counts, t) > 0
    ensures SumValues(Replaced(counts, t, u)) == SumValues(counts)
    ensures TotalWeight(Replaced(counts, t, u)) == TotalWeight(counts) - Weight(t) + Weight(u)
  {
    hide SumValues, TotalWeight, Weight;
    var without := counts[t := counts[t] - 1];
    UpdatedSums(counts, t, -1);
    UpdatedSums(without, u, 1);
  }

  lemma UpdatedSums(counts: map<DefectType, nat>, t: DefectType, d: int)
    requires At(counts, t) + d >= 0
    ensures SumValues(counts[t := At(counts, t) + d]) == SumValues(counts) + d
    ensures TotalWeight(counts[t := At(counts, t) + d]) == TotalWeight(counts) + Weight(t) * d
  {
    hide At, Weight;
    UpdatedAt(counts, t, d, MissingHole);
    UpdatedAt(counts, t, d, MouseBite);
    UpdatedAt(counts, t, d, OpenCircuit);
    UpdatedAt(counts, t, d, Short);
    UpdatedAt(counts, t, d, Spur);
    UpdatedAt(counts, t, d, SpuriousCopper);
    WeightTimes(t, d);
  }

  /** The weight, as the six products with which the total counts each class. */
  lemma WeightTimes(t: DefectType, d: int)
    ensures Weight(t) * d == 3 * (if t == MissingHole then d else 0) + (if t == MouseBite then d else 0)
                           + 4 * (if t == OpenCircuit then d else 0) + 4 * (if t == Short then d else 0)
                           + (if t == Spur then d else 0) + 2 * (if t == SpuriousCopper then d else 0)
  {
    match t {
      case MissingHole => case MouseBite => case OpenCircuit => case Short => case Spur => case SpuriousCopper =>
    }
  }

  lemma UpdatedAt(counts: map<DefectType, nat>, t: DefectType, d: int, u: DefectType)
    requires At(counts, t) + d >= 0
    ensures At(counts[t := At(counts, t) + d], u) == At(counts, u) + if u == t then d else 0
  {
  }

  lemma WeightBound(counts: map<DefectType, nat>, heaviest: Severity)
    requires forall t :: At(counts, t) > 0 ==> Rank(DefaultSeverity(t)) <= Rank(heaviest)
    ensures TotalWeight(counts) <= (Rank(heaviest) + 1) * SumValues(counts)
  {
    assert At(counts, MissingHole) > 0 ==> Rank(heaviest) >= 2;
    assert At(counts, OpenCircuit) > 0 ==> Rank(heaviest) >= 3;
    assert At(counts, Short) > 0 ==> Rank(heaviest) >= 3;
    assert At(counts, SpuriousCopper) > 0 ==> Rank(heaviest) >= 1;
  }

  lemma OnlyCritical(counts: map<DefectType, nat>)
    requires forall t :: At(counts, t) > 0 ==> DefaultSeverity(t) == Critical
    ensures TotalWeight(counts) == 4 * SumValues(counts)
  {
    assert DefaultSeverity(MissingHole) != Critical && DefaultSeverity(MouseBite) != Critical;
    assert DefaultSeverity(Spur) != Critical && DefaultSeverity(SpuriousCopper) != Critical;
  }

  /** The reading is never above the heaviest class in the group, whatever the rate. */
  lemma {:induction false} NeverAboveHeaviestClass(counts: map<DefectType, nat>, rate: real, heaviest: Severity)
    requires SumValues(counts) > 0
    requires forall t :: At(counts, t) > 0 ==> Rank(DefaultSeverity(t)) <= Rank(heaviest)
    ensures Rank(SeverityOf(counts, rate).value) <= Rank(heaviest)
  {
    hide Composition, RateFactor;
    var w := Rank(heaviest) + 1;
    assert TotalWeight(counts) <= w * SumValues(counts) by { WeightBound(counts, heaviest); }
    CompositionIsAverageWeight(counts);
    ProductOfReals(w, SumValues(counts));
    FromProducts(Composition(counts), w as real, SumValues(counts) as real);
    CompositionIsPositive(counts);
    TimesMonotone(RateFactor(rate), 1.0, Composition(counts));
    BandedMonotone(Times(Composition(counts), RateFactor(rate)), w as real);
    assert Banded(w as real) == heaviest;
  }

  /** An all-critical group reads at least MEDIUM, however few boards carry it. */
  lemma {:induction false} AllCriticalReadsAtLeastMedium(counts: map<DefectType, nat>, rate: real)
    requires SumValues(counts) > 0
    requires forall t :: At(counts, t) > 0 ==> DefaultSeverity(t) == Critical
    ensures Rank(SeverityOf(counts, rate).value) >= Rank(Medium)
  {
    hide Composition, RateFactor;
    assert TotalWeight(counts) == 4 * SumValues(counts) by { OnlyCritical(counts); }
    CompositionIsAverageWeight(counts);
    FromProducts(4.0, Composition(counts), SumValues(counts) as real);
    TimesMonotone(RATE_FLOOR, RateFactor(rate), Composition(counts));
    TimesMonotone(4.0, Composition(counts), RATE_FLOOR);
    BandedMonotone(2.0, Times(Composition(counts), RateFactor(rate)));
  }

  lemma PureSums(t: DefectType, n: nat)
    ensures SumValues(map[t := n]) == n && TotalWeight(map[t := n]) == Weight(t) * n
  {
    match t {
      case MissingHole => case MouseBite => case OpenCircuit => case Short => case Spur => case SpuriousCopper =>
    }
  }

  /** A group of one class found on every board reads as that class's own severity. */
  lemma {:induction false} PureGroupReadsAsItsClass(t: DefectType, n: nat, rate: real)
    requires n > 0 && rate >= 1.0
    ensures SeverityOf(map[t := n], rate) == Some(DefaultSeverity(t))
  {
    hide Composition;
    var counts := map[t := n];
    assert SumValues(counts) == n && TotalWeight(counts) == Weight(t) * n by { PureSums(t, n); }
    CompositionIsAverageWeight(counts);
    ProductOfReals(Weight(t), n);
    FromProducts(Composition(counts), Weight(t) as real, n as real);
    FromProducts(Weight(t) as real, Composition(counts), n as real);
    assert Banded(Weight(t) as real) == DefaultSeverity(t);
  }

}
