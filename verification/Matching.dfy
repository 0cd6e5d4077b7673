/** Greedy, confidence-ordered matching of predictions to ground-truth boxes, one class at a time. */
module Matching {
  import opened AveragePrecision
  import opened Boxes
  import opened StableSort

  datatype Prediction = Prediction(image: string, confidence: real, bbox: BBox)

  function PredictionConfidence(p: Prediction): real { p.confidence }

  /** A dictionary of lists keyed by image, in insertion order. */
  datatype PerImage<T> = PerImage(images: seq<string>, items: map<string, seq<T>>) {
    ghost predicate Valid() {
      && (forall i, j :: 0 <= i < j < |images| ==> images[i] != images[j])
      && (forall k :: k in images <==> k in items)
    }

    function Of(image: string): seq<T> { if image in items then items[image] else [] }
  }

  /** The ground-truth boxes of one class. */
  type GroundTruth = PerImage<BBox>

  function NumGtUpTo(gt: GroundTruth, n: nat): nat
    requires n <= |gt.images|
  {
    if n == 0 then 0 else NumGtUpTo(gt, n - 1) + |gt.Of(gt.images[n - 1])|
  }

  function NumGt(gt: GroundTruth): nat { NumGtUpTo(gt, |gt.images|) }

  /** Which boxes have been consumed so far. */
  type Matched = map<string, seq<bool>>

  ghost predicate Fits(gt: GroundTruth, m: Matched) {
    m.Keys == gt.items.Keys && forall k :: k in m ==> |m[k]| == |gt.items[k]|
  }

  function Unmatched(gt: GroundTruth): (m: Matched)
    ensures Fits(gt, m) && forall k, i :: k in m && 0 <= i < |m[k]| ==> !m[k][i]
  {
    map k | k in gt.items :: seq(|gt.items[k]|, _ => false)
  }

  /** The first of the best-overlapping free boxes, or -1 when no free box overlaps at all. */
  ghost predicate IsBestFree(bbox: BBox, boxes: seq<BBox>, used: seq<bool>, idx: int)
    requires |boxes| == |used|
  {
    && -1 <= idx < |boxes|
    && (idx == -1 ==> forall j :: 0 <= j < |boxes| && !used[j] ==> Iou(bbox, boxes[j]) <= 0.0)
    && (idx >= 0 ==>
          && !used[idx] && Iou(bbox, boxes[idx]) > 0.0
          && (forall j :: 0 <= j < |boxes| && !used[j] ==> Iou(bbox, boxes[j]) <= Iou(bbox, boxes[idx]))
          && (forall j :: 0 <= j < idx && !used[j] ==> Iou(bbox, boxes[j]) < Iou(bbox, boxes[idx])))
  }

  lemma BestFreeGrows(bbox: BBox, boxes: seq<BBox>, used: seq<bool>, prev: int)
    requires 0 < |boxes| == |used| && IsBestFree(bbox, boxes[..|boxes| - 1], used[..|boxes| - 1], prev)
    ensures var n := |boxes| - 1;
            IsBestFree(bbox, boxes, used,
              if !used[n] && Iou(bbox, boxes[n]) > (if prev == -1 then 0.0 else Iou(bbox, boxes[prev])) then n
              else prev)
  {
    hide Iou;
    var n := |boxes| - 1;
    assert boxes == boxes[..n] + [boxes[n]] && used == used[..n] + [used[n]];
    assert forall j :: 0 <= j < n ==> boxes[..n][j] == boxes[j] && used[..n][j] == used[j];
  }

  function BestFree(bbox: BBox, boxes: seq<BBox>, used: seq<bool>): (idx: int)
    requires |boxes| == |used|
    ensures IsBestFree(bbox, boxes, used, idx)
  {
    if boxes == [] then -1 else
    var n := |boxes| - 1;
    var prev := BestFree(bbox, boxes[..n], used[..n]);
    BestFreeGrows(bbox, boxes, used, prev);
    if !used[n] && Iou(bbox, boxes[n]) > (if prev == -1 then 0.0 else Iou(bbox, boxes[prev])) then n else prev
  }

  lemma BestFreeIsUnique(bbox: BBox, boxes: seq<BBox>, used: seq<bool>, a: int, b: int)
    requires |boxes| == |used| && IsBestFree(bbox, boxes, used, a) && IsBestFree(bbox, boxes, used, b)
    ensures a == b
  {
  }

  /** Index of the box a prediction consumes in state `m`, or -1 when it is a false positive. */
  function Hit(gt: GroundTruth, m: Matched, p: Prediction, threshold: real): (h: int)
    requires Fits(gt, m)
    ensures h != -1 ==>
            p.image in m && 0 <= h < |m[p.image]| && !m[p.image][h] && Iou(p.bbox, gt.items[p.image][h]) >= threshold
  {
    if p.image !in m then -1 else
    var idx := BestFree(p.bbox, gt.items[p.image], m[p.image]);
    if idx != -1 && Iou(p.bbox, gt.items[p.image][idx]) >= threshold then idx else -1
  }

  function Consume(m: Matched, image: string, h: int): Matched
    requires h != -1 ==> image in m && 0 <= h < |m[image]|
  {
    if h == -1 then m else m[image := m[image][h := true]]
  }

  function Moved(gt: GroundTruth, m: Matched, p: Prediction, threshold: real): (m': Matched)
    requires Fits(gt, m)
    ensures Fits(gt, m')
  {
    Consume(m, p.image, Hit(gt, m, p, threshold))
  }

  /** The matched flags after the first `n` ranked predictions. */
  function After(gt: GroundTruth, ps: seq<Prediction>, threshold: real, n: nat): (m: Matched)
    requires n <= |ps|
    ensures Fits(gt, m)
  {
    if n == 0 then Unmatched(gt) else Moved(gt, After(gt, ps, threshold, n - 1), ps[n - 1], threshold)
  }

  function HitAt(gt: GroundTruth, ps: seq<Prediction>, threshold: real, k: nat): (h: int)
    requires k < |ps|
  {
    Hit(gt, After(gt, ps, threshold, k), ps[k], threshold)
  }

  function HitFlags(gt: GroundTruth, ps: seq<Prediction>, threshold: real): (f: seq<bool>)
    ensures |f| == |ps| && forall k :: 0 <= k < |ps| ==> (f[k] <==> HitAt(gt, ps, threshold, k) != -1)
  {
    seq(|ps|, k requires 0 <= k < |ps| => HitAt(gt, ps, threshold, k) != -1)
  }

  function Ranked(predictions: seq<Prediction>): seq<Prediction> { SortDesc(predictions, PredictionConfidence) }

  /** Average precision of one class at one IoU threshold. */
  function ClassAp(predictions: seq<Prediction>, gt: GroundTruth, threshold: real): real {
    Ap(HitFlags(gt, Ranked(predictions), threshold), NumGt(gt))
  }

  method FindBestFree(bbox: BBox, boxes: seq<BBox>, used: seq<bool>) returns (bestIou: real, bestIdx: int)
    requires |boxes| == |used|
    ensures bestIdx == BestFree(bbox, boxes, used)
    ensures bestIou == if bestIdx == -1 then 0.0 else Iou(bbox, boxes[bestIdx])
  {
    hide Iou, BestFree;
    bestIou, bestIdx := 0.0, -1;
    for idx := 0 to |boxes|
      invariant -1 <= bestIdx < idx
      invariant bestIou == if bestIdx == -1 then 0.0 else Iou(bbox, boxes[bestIdx])
      invariant IsBestFree(bbox, boxes[..idx], used[..idx], bestIdx)
    {
      if !used[idx] {
        var iou := Iou(bbox, boxes[idx]);
        if iou > bestIou {
          bestIou, bestIdx := iou, idx;
        }
      }
      assert boxes[..idx + 1] == boxes[..idx] + [boxes[idx]] && used[..idx + 1] == used[..idx] + [used[idx]];
    }
    assert boxes[..|boxes|] == boxes && used[..|used|] == used;
    BestFreeIsUnique(bbox, boxes, used, bestIdx, BestFree(bbox, boxes, used));
  }

  method MatchOne(gt: GroundTruth, matched: Matched, p: Prediction, threshold: real) returns (next: Matched, isTp: bool)
    requires Fits(gt, matched)
    ensures next == Moved(gt, matched, p, threshold)
    ensures isTp == (Hit(gt, matched, p, threshold) != -1)
  {
    next, isTp := matched, false;
    if p.image in matched {
      var bestIou, bestIdx := FindBestFree(p.bbox, gt.items[p.image], matched[p.image]);
      isTp := bestIdx != -1 && bestIou >= threshold;
      if isTp {
        next := matched[p.image := matched[p.image][bestIdx := true]];
      }
    }
  }

  /** The program's matching loop and its scoring compute `ClassAp`; the second sort it performs is the identity. */
  method ClassApAtIou(predictions: seq<Prediction>, gt: GroundTruth, threshold: real) returns (ap: real)
    requires gt.Valid()
    ensures ap == ClassAp(predictions, gt, threshold)
  {
    hide Iou, BestFree, IsBestFree, HitAt, After, Ap;
    var numGt := 0;
    for i := 0 to |gt.images|
      invariant numGt == NumGtUpTo(gt, i)
    {
      numGt := numGt + |gt.items[gt.images[i]]|;
    }
    var ps := Ranked(predictions);
    var scored := ScoreRanked(gt, ps, threshold);
    SortDescIsStable(predictions, PredictionConfidence);
    ResortIsIdentity(scored, Confidence);
    assert Flags(scored) == HitFlags(gt, ps, threshold);
    ap := ComputeAveragePrecision(scored, numGt);
  }

  method ScoreRanked(gt: GroundTruth, ps: seq<Prediction>, threshold: real) returns (scored: seq<Scored>)
    ensures |scored| == |ps|
    ensures forall i :: 0 <= i < |ps| ==> scored[i] == Scored(ps[i].confidence, HitAt(gt, ps, threshold, i) != -1)
  {
    hide Iou, BestFree, IsBestFree, Moved, Hit, Fits;
    var matched := Unmatched(gt);
    scored := [];
    for k := 0 to |ps|
      invariant matched == After(gt, ps, threshold, k)
      invariant |scored| == k
      invariant forall i :: 0 <= i < k ==> scored[i] == Scored(ps[i].confidence, HitAt(gt, ps, threshold, i) != -1)
    {
      var isTp;
      matched, isTp := MatchOne(gt, matched, ps[k], threshold);
      scored := scored + [Scored(ps[k].confidence, isTp)];
    }
  }

  // ---- what the matcher guarantees ----

  ghost predicate Subset(a: Matched, b: Matched) {
    a.Keys == b.Keys && forall k :: k in a ==> |a[k]| == |b[k]| && forall i :: 0 <= i < |a[k]| && a[k][i] ==> b[k][i]
  }

  lemma SubsetOfItself(m: Matched)
    ensures Subset(m, m)
  {
  }

  /** One prediction, matched in a smaller state at a stricter threshold, leaves the smaller state smaller. */
  lemma StepKeepsSubset(gt: GroundTruth, strict: Matched, loose: Matched, p: Prediction, tLoose: real, tStrict: real)
    requires Fits(gt, strict) && Fits(gt, loose) && Subset(strict, loose) && tLoose <= tStrict
    ensures Subset(Consume(strict, p.image, Hit(gt, strict, p, tStrict)),
                   Consume(loose, p.image, Hit(gt, loose, p, tLoose)))
  {
    var h := Hit(gt, strict, p, tStrict);
    if h != -1 && !loose[p.image][h] {
      BestFreeIsUnique(p.bbox, gt.items[p.image], loose[p.image], h,
                       BestFree(p.bbox, gt.items[p.image], loose[p.image]));
    }
  }

  /** After every prediction, the boxes matched at the stricter threshold are among those matched at the looser one. */
  lemma {:induction false} MatchedSetShrinksWithThreshold(gt: GroundTruth, ps: seq<Prediction>, tLoose: real,
                                                          tStrict: real, n: nat)
    requires tLoose <= tStrict && n <= |ps|
    ensures Subset(After(gt, ps, tStrict, n), After(gt, ps, tLoose, n))
  {
    hide Iou, BestFree, IsBestFree, Hit, Subset, Fits, Consume;
    if n == 0 {
      SubsetOfItself(Unmatched(gt));
    } else {
      MatchedSetShrinksWithThreshold(gt, ps, tLoose, tStrict, n - 1);
      StepKeepsSubset(gt, After(gt, ps, tStrict, n - 1), After(gt, ps, tLoose, n - 1), ps[n - 1], tLoose, tStrict);
    }
  }

  function CountTrue(s: seq<bool>): (c: nat)
    ensures c <= |s|
  {
    if s == [] then 0 else (if s[0] then 1 else 0) + CountTrue(s[1..])
  }

  lemma {:induction false} CountTrueMonotone(a: seq<bool>, b: seq<bool>)
    requires |a| == |b| && forall i :: 0 <= i < |a| && a[i] ==> b[i]
    ensures CountTrue(a) <= CountTrue(b)
  {
    if a != [] { CountTrueMonotone(a[1..], b[1..]); }
  }

  lemma {:induction false} CountTrueSet(s: seq<bool>, h: nat)
    requires h < |s| && !s[h]
    ensures CountTrue(s[h := true]) == CountTrue(s) + 1
  {
    if h == 0 {
      assert s[h := true][1..] == s[1..];
    } else {
      CountTrueSet(s[1..], h - 1);
      assert s[h := true][1..] == s[1..][h - 1 := true];
    }
  }

  lemma {:induction false} CountTrueNone(s: seq<bool>)
    requires forall i :: 0 <= i < |s| ==> !s[i]
    ensures CountTrue(s) == 0
  {
    if s != [] { CountTrueNone(s[1..]); }
  }

  /** Number of consumed boxes over the first `n` images. */
  function Consumed(gt: GroundTruth, m: Matched, n: nat): (c: nat)
    requires Fits(gt, m) && n <= |gt.images| && forall k :: k in gt.images ==> k in m
    ensures c <= NumGtUpTo(gt, n)
  {
    if n == 0 then 0 else Consumed(gt, m, n - 1) + CountTrue(m[gt.images[n - 1]])
  }

  lemma {:induction false} ConsumedMonotone(gt: GroundTruth, a: Matched, b: Matched, n: nat)
    requires gt.Valid() && Fits(gt, a) && Fits(gt, b) && Subset(a, b) && n <= |gt.images|
    ensures Consumed(gt, a, n) <= Consumed(gt, b, n)
  {
    hide CountTrue, NumGtUpTo;
    if n > 0 {
      ConsumedMonotone(gt, a, b, n - 1);
      CountTrueMonotone(a[gt.images[n - 1]], b[gt.images[n - 1]]);
    }
  }

  lemma {:induction false} ConsumedNone(gt: GroundTruth, n: nat)
    requires gt.Valid() && n <= |gt.images|
    ensures Consumed(gt, Unmatched(gt), n) == 0
  {
    if n > 0 {
      ConsumedNone(gt, n - 1);
      CountTrueNone(Unmatched(gt)[gt.images[n - 1]]);
    }
  }

  lemma {:induction false} ConsumedStep(gt: GroundTruth, m: Matched, image: string, h: nat, n: nat)
    requires gt.Valid() && Fits(gt, m) && n <= |gt.images|
    requires image in m && h < |m[image]| && !m[image][h]
    ensures Consumed(gt, Consume(m, image, h), n) == Consumed(gt, m, n) + if image in gt.images[..n] then 1 else 0
  {
    hide CountTrue, NumGtUpTo;
    if n > 0 {
      ConsumedStep(gt, m, image, h, n - 1);
      var last := gt.images[n - 1];
      assert gt.images[..n] == gt.images[..n - 1] + [last];
      if last == image { CountTrueSet(m[image], h); }
    }
  }

  lemma AfterNone(gt: GroundTruth, ps: seq<Prediction>, threshold: real)
    ensures After(gt, ps, threshold, 0) == Unmatched(gt)
  {
  }

  lemma AfterOne(gt: GroundTruth, ps: seq<Prediction>, threshold: real, n: nat)
    requires n < |ps|
    ensures var m, h := After(gt, ps, threshold, n), HitAt(gt, ps, threshold, n);
            After(gt, ps, threshold, n + 1) == if h == -1 then m else Consume(m, ps[n].image, h)
  {
    hide Hit, Fits;
  }

  lemma ConsumedAtHit(gt: GroundTruth, ps: seq<Prediction>, threshold: real, n: nat)
    requires gt.Valid() && n < |ps|
    ensures Consumed(gt, After(gt, ps, threshold, n + 1), |gt.images|)
         == Consumed(gt, After(gt, ps, threshold, n), |gt.images|) + if HitAt(gt, ps, threshold, n) != -1 then 1 else 0
  {
    hide Iou, BestFree, IsBestFree, Hit, Consumed, Consume, After;
    var h := HitAt(gt, ps, threshold, n);
    AfterOne(gt, ps, threshold, n);
    if h != -1 {
      ConsumedStep(gt, After(gt, ps, threshold, n), ps[n].image, h, |gt.images|);
      assert gt.images[..|gt.images|] == gt.images;
    }
  }

  /** True positives so far are exactly the consumed boxes; so there are never more than ground-truth boxes. */
  lemma {:induction false} HitsAreConsumedBoxes(gt: GroundTruth, ps: seq<Prediction>, threshold: real, n: nat)
    requires gt.Valid() && n <= |ps|
    ensures Tp(HitFlags(gt, ps, threshold), n) == Consumed(gt, After(gt, ps, threshold, n), |gt.images|) <= NumGt(gt)
  {
    hide Iou, BestFree, IsBestFree, HitAt, Consumed, NumGtUpTo, After, Fits;
    if n == 0 {
      AfterNone(gt, ps, threshold);
      ConsumedNone(gt, |gt.images|);
    } else {
      HitsAreConsumedBoxes(gt, ps, threshold, n - 1);
      ConsumedAtHit(gt, ps, threshold, n - 1);
    }
  }

  lemma {:induction false} AfterGrows(gt: GroundTruth, ps: seq<Prediction>, threshold: real, m: nat, n: nat)
    requires m <= n <= |ps|
    ensures Subset(After(gt, ps, threshold, m), After(gt, ps, threshold, n))
    decreases n - m
  {
    hide Iou, BestFree, IsBestFree, Hit;
    if m < n { AfterGrows(gt, ps, threshold, m, n - 1); }
  }

  /** No ground-truth box is consumed by two predictions. */
  lemma {:induction false} MatchingIsInjective(gt: GroundTruth, ps: seq<Prediction>, threshold: real, a: nat, b: nat)
    requires a < b < |ps| && HitAt(gt, ps, threshold, a) != -1 && HitAt(gt, ps, threshold, b) != -1
    ensures ps[a].image != ps[b].image || HitAt(gt, ps, threshold, a) != HitAt(gt, ps, threshold, b)
  {
    hide Iou, BestFree, IsBestFree, Hit;
    AfterGrows(gt, ps, threshold, a + 1, b);
  }

  /** Raising the IoU threshold never raises a class's average precision. */
  lemma {:induction false} ClassApAntitoneInThreshold(predictions: seq<Prediction>, gt: GroundTruth, tLoose: real,
                                                      tStrict: real)
    requires gt.Valid() && tLoose <= tStrict
    ensures ClassAp(predictions, gt, tStrict) <= ClassAp(predictions, gt, tLoose)
  {
    var ps := Ranked(predictions);
    forall n | 0 <= n <= |ps| ensures Tp(HitFlags(gt, ps, tStrict), n) <= Tp(HitFlags(gt, ps, tLoose), n) {
      HitsAreConsumedBoxes(gt, ps, tStrict, n);
      HitsAreConsumedBoxes(gt, ps, tLoose, n);
      MatchedSetShrinksWithThreshold(gt, ps, tLoose, tStrict, n);
      ConsumedMonotone(gt, After(gt, ps, tStrict, n), After(gt, ps, tLoose, n), |gt.images|);
    }
    ApMonotone(HitFlags(gt, ps, tStrict), HitFlags(gt, ps, tLoose), NumGt(gt));
  }

  lemma {:induction false} AfterOfPrefix(gt: GroundTruth, short: seq<Prediction>, long: seq<Prediction>,
                                         threshold: real, n: nat)
    requires short <= long && n <= |short|
    ensures After(gt, short, threshold, n) == After(gt, long, threshold, n)
  {
    hide Iou, BestFree, IsBestFree, Hit, Consume, Moved, Fits;
    if n > 0 { AfterOfPrefix(gt, short, long, threshold, n - 1); }
  }

  /** Dropping the predictions below any confidence never raises a class's average precision. */
  lemma {:induction false} CutoffNeverRaisesClassAp(predictions: seq<Prediction>, gt: GroundTruth, threshold: real,
                                                    cutoff: real)
    ensures ClassAp(AtLeast(predictions, PredictionConfidence, cutoff), gt, threshold)
         <= ClassAp(predictions, gt, threshold)
  {
    var short, long := Ranked(AtLeast(predictions, PredictionConfidence, cutoff)), Ranked(predictions);
    CutoffKeepsRankingPrefix(predictions, PredictionConfidence, cutoff);
    forall k | 0 <= k < |short| ensures HitFlags(gt, short, threshold)[k] == HitFlags(gt, long, threshold)[k] {
      AfterOfPrefix(gt, short, long, threshold, k);
    }
    ApOfPrefix(HitFlags(gt, short, threshold), HitFlags(gt, long, threshold), NumGt(gt));
  }

  lemma {:induction false} ClassApIsAFraction(predictions: seq<Prediction>, gt: GroundTruth, threshold: real)
    requires gt.Valid()
    ensures 0.0 <= ClassAp(predictions, gt, threshold) <= 1.0
  {
    var ps := Ranked(predictions);
    HitsAreConsumedBoxes(gt, ps, threshold, |ps|);
    ApIsAFraction(HitFlags(gt, ps, threshold), NumGt(gt));
  }

  /** A class scores 1 exactly when as many top-ranked predictions as there are boxes each consume one. */
  lemma {:induction false} ClassApIsOneExactlyWhenTopMatch(predictions: seq<Prediction>, gt: GroundTruth,
                                                           threshold: real)
    requires gt.Valid() && NumGt(gt) > 0
    ensures ClassAp(predictions, gt, threshold) == 1.0
       <==> NumGt(gt) <= |predictions| && forall k :: 0 <= k < NumGt(gt) ==>
            HitAt(gt, Ranked(predictions), threshold, k) != -1
  {
    hide Iou, BestFree, IsBestFree, HitAt, After, Ap;
    var ps := Ranked(predictions);
    HitsAreConsumedBoxes(gt, ps, threshold, |ps|);
    ApIsOneExactlyWhenTopAreHits(HitFlags(gt, ps, threshold), NumGt(gt));
  }


  /** Predictions are ranked by confidence, the highest first, and none is lost. */
  lemma {:induction false} RankedByConfidence(predictions: seq<Prediction>)
    ensures forall i, j :: 0 <= i < j < |Ranked(predictions)| ==>
              Ranked(predictions)[i].confidence >= Ranked(predictions)[j].confidence
    ensures multiset(Ranked(predictions)) == multiset(predictions)
  {
    SortDescIsStable(predictions, PredictionConfidence);
    SortKeepsItems(predictions, PredictionConfidence);
    var ranked := Ranked(predictions);
    forall i, j | 0 <= i < j < |ranked| ensures ranked[i].confidence >= ranked[j].confidence {
      assert PredictionConfidence(ranked[i]) >= PredictionConfidence(ranked[j]);
    }
  }

  /** A prediction is a false positive exactly when its image has no ground-truth list, or none of the boxes still free
      there overlaps it at all and by at least the threshold; otherwise it takes the best of them. */
  lemma {:induction false} HitExactlyWhen(gt: GroundTruth, m: Matched, p: Prediction, threshold: real)
    requires Fits(gt, m)
    ensures Hit(gt, m, p, threshold) == -1 <==>
              p.image !in gt.items || forall j :: 0 <= j < |gt.items[p.image]| && !m[p.image][j] ==>
                Iou(p.bbox, gt.items[p.image][j]) <= 0.0 || Iou(p.bbox, gt.items[p.image][j]) < threshold
    ensures Hit(gt, m, p, threshold) != -1 ==>
              IsBestFree(p.bbox, gt.items[p.image], m[p.image], Hit(gt, m, p, threshold))
  {
    hide Iou;
  }

  /** The matched flags change at the consumed box only. */
  lemma ConsumeSetsOneFlag(m: Matched, image: string, h: nat, k: string, i: nat)
    requires image in m && h < |m[image]| && k in m && i < |m[k]|
    ensures var after := Consume(m, image, h);
            k in after && |after[k]| == |m[k]| && (after[k][i] <==> m[k][i] || (k == image && i == h))
  {
  }
}
