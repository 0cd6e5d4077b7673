/** Mean average precision of a candidate model over the golden set. */
module MeanAp {
  import opened AveragePrecision
  import opened Boxes
  import opened Matching
  import opened Wrappers

  datatype Detection = Detection(defectType: string, confidence: real, bbox: BBox)

  datatype GroundTruthBox = GroundTruthBox(defectType: string, bbox: BBox)

  datatype Metrics = Metrics(map50: real, map5095: real, perClass: map<string, real>)

  datatype Error = GoldenSetEmpty

  /** Ten IoU thresholds, 0.50 to 0.95 in steps of 0.05. */
  const THRESHOLDS: seq<real> := seq(10, i => 0.5 + 0.05 * i as real)

  function BoxesOf(boxes: seq<GroundTruthBox>, cls: string): seq<BBox> {
    if boxes == [] then [] else (if boxes[0].defectType == cls then [boxes[0].bbox] else []) + BoxesOf(boxes[1..], cls)
  }

  function ClassTruth(gt: PerImage<GroundTruthBox>, cls: string): (t: GroundTruth)
    ensures gt.Valid() ==> t.Valid()
  {
    PerImage(gt.images, map k | k in gt.items :: BoxesOf(gt.items[k], cls))
  }

  function PredictionsOf(image: string, detections: seq<Detection>, cls: string): seq<Prediction> {
    if detections == [] then [] else
    (if detections[0].defectType == cls then [Prediction(image, detections[0].confidence, detections[0].bbox)] else [])
    + PredictionsOf(image, detections[1..], cls)
  }

  function ClassPredictionsUpTo(preds: PerImage<Detection>, cls: string, n: nat): seq<Prediction>
    requires n <= |preds.images|
  {
    if n == 0 then []
    else
      ClassPredictionsUpTo(preds, cls, n - 1)
      + PredictionsOf(preds.images[n - 1], preds.Of(preds.images[n - 1]), cls)
  }

  function ClassPredictions(preds: PerImage<Detection>, cls: string): seq<Prediction> {
    ClassPredictionsUpTo(preds, cls, |preds.images|)
  }

  function ApOfClass(preds: PerImage<Detection>, gt: PerImage<GroundTruthBox>, cls: string, threshold: real): real {
    ClassAp(ClassPredictions(preds, cls), ClassTruth(gt, cls), threshold)
  }

  predicate HasTruth(gt: PerImage<GroundTruthBox>, cls: string) { NumGt(ClassTruth(gt, cls)) > 0 }

  /** The classes that enter the average, in their listed order. */
  function Included(gt: PerImage<GroundTruthBox>, classes: seq<string>): (inc: seq<string>)
    ensures forall c :: c in inc <==> c in classes && HasTruth(gt, c)
  {
    if classes == [] then [] else
    var n := |classes| - 1;
    Included(gt, classes[..n]) + if HasTruth(gt, classes[n]) then [classes[n]] else []
  }

  function Sum(xs: seq<real>): real { if xs == [] then 0.0 else Sum(xs[..|xs| - 1]) + xs[|xs| - 1] }

  function Mean(xs: seq<real>): real
    requires xs != []
  {
    Sum(xs) / |xs| as real
  }

  function Sweep(preds: PerImage<Detection>, gt: PerImage<GroundTruthBox>, cls: string): (aps: seq<real>)
    ensures |aps| == 10
  {
    seq(10, j requires 0 <= j < 10 => ApOfClass(preds, gt, cls, THRESHOLDS[j]))
  }

  function Aps50(preds: PerImage<Detection>, gt: PerImage<GroundTruthBox>, inc: seq<string>): (aps: seq<real>)
    ensures |aps| == |inc|
  {
    seq(|inc|, i requires 0 <= i < |inc| => ApOfClass(preds, gt, inc[i], 0.5))
  }

  function Aps5095(preds: PerImage<Detection>, gt: PerImage<GroundTruthBox>, inc: seq<string>): (aps: seq<real>)
    ensures |aps| == |inc|
  {
    seq(|inc|, i requires 0 <= i < |inc| => Mean(Sweep(preds, gt, inc[i])))
  }

  /** Averages over the classes with ground truth; the others are reported as zero and left out. */
  function MapOf(preds: PerImage<Detection>, gt: PerImage<GroundTruthBox>,
                 classes: seq<string>): Result<Metrics, Error>
  {
    var inc := Included(gt, classes);
    if inc == [] then Err(GoldenSetEmpty)
    else Ok(Metrics(Mean(Aps50(preds, gt, inc)), Mean(Aps5095(preds, gt, inc)),
                    PerClass(preds, gt, classes)))
  }

  function ReportedAp(preds: PerImage<Detection>, gt: PerImage<GroundTruthBox>, cls: string): real {
    if HasTruth(gt, cls) then ApOfClass(preds, gt, cls, 0.5) else 0.0
  }

  function PerClass(preds: PerImage<Detection>, gt: PerImage<GroundTruthBox>, classes: seq<string>): map<string, real> {
    map c | c in classes :: ReportedAp(preds, gt, c)
  }

  method SumOf(xs: seq<real>) returns (total: real)
    ensures total == Sum(xs)
  {
    total := 0.0;
    for i := 0 to |xs|
      invariant total == Sum(xs[..i])
    {
      assert xs[..i + 1][..i] == xs[..i];
      total := total + xs[i];
    }
    assert xs[..|xs|] == xs;
  }

  method SweepThresholds(preds: seq<Prediction>, gt: GroundTruth) returns (aps: seq<real>)
    requires gt.Valid()
    ensures |aps| == 10 && forall j :: 0 <= j < 10 ==> aps[j] == ClassAp(preds, gt, THRESHOLDS[j])
  {
    hide ClassAp;
    aps := [];
    for j := 0 to 10
      invariant |aps| == j && forall i :: 0 <= i < j ==> aps[i] == ClassAp(preds, gt, THRESHOLDS[i])
    {
      var ap := ClassApAtIou(preds, gt, THRESHOLDS[j]);
      aps := aps + [ap];
    }
  }

  /** The per-class pass: classes without ground truth report zero and are skipped. */
  method EvaluateClasses(preds: PerImage<Detection>, gt: PerImage<GroundTruthBox>, classes: seq<string>)
      returns (included: seq<string>, perClass50: map<string, real>, perClassRange: map<string, seq<real>>)
    requires gt.Valid()
    ensures included == Included(gt, classes)
    ensures perClass50 == PerClass(preds, gt, classes)
    ensures forall c :: c in included ==>
            c in perClass50 && HasTruth(gt, c) && perClass50[c] == ReportedAp(preds, gt, c)
    ensures forall c :: c in included ==> c in perClassRange && perClassRange[c] == Sweep(preds, gt, c)
  {
    hide ClassAp, ClassPredictions, NumGt, ClassTruth;
    perClass50, perClassRange, included := map[], map[], [];
    for i := 0 to |classes|
      invariant included == Included(gt, classes[..i])
      invariant perClass50.Keys == (set c | c in classes[..i])
      invariant forall c :: c in perClass50 ==> perClass50[c] == ReportedAp(preds, gt, c)
      invariant forall c :: c in included ==> c in perClassRange && perClassRange[c] == Sweep(preds, gt, c)
    {
      var cls := classes[i];
      assert classes[..i + 1] == classes[..i] + [cls] && classes[..i + 1][..i] == classes[..i];
      if NumGt(ClassTruth(gt, cls)) == 0 {
        perClass50 := perClass50[cls := 0.0];
        continue;
      }
      included := included + [cls];
      var aps := SweepThresholds(ClassPredictions(preds, cls), ClassTruth(gt, cls));
      assert THRESHOLDS[0] == 0.5;
      assert aps == Sweep(preds, gt, cls);
      perClass50 := perClass50[cls := aps[0]];
      perClassRange := perClassRange[cls := aps];
    }
    assert classes[..|classes|] == classes;
  }

  method ClassValues(included: seq<string>, perClass50: map<string, real>, perClassRange: map<string, seq<real>>)
      returns (aps50: seq<real>, aps5095: seq<real>)
    requires forall c :: c in included ==> c in perClass50 && c in perClassRange && perClassRange[c] != []
    ensures |aps50| == |aps5095| == |included|
    ensures forall k :: 0 <= k < |included| ==>
            aps50[k] == perClass50[included[k]] && aps5095[k] == Mean(perClassRange[included[k]])
  {
    aps50, aps5095 := [], [];
    for i := 0 to |included|
      invariant |aps50| == |aps5095| == i
      invariant forall k :: 0 <= k < i ==>
                aps50[k] == perClass50[included[k]] && aps5095[k] == Mean(perClassRange[included[k]])
    {
      assert included[i] in included;
      var total := SumOf(perClassRange[included[i]]);
      aps50 := aps50 + [perClass50[included[i]]];
      aps5095 := aps5095 + [total / |perClassRange[included[i]]| as real];
    }
  }

  lemma ValuesAreAps(preds: PerImage<Detection>, gt: PerImage<GroundTruthBox>, included: seq<string>,
                     perClass50: map<string, real>, perClassRange: map<string, seq<real>>,
                     aps50: seq<real>, aps5095: seq<real>)
    requires forall c :: c in included ==> c in perClass50 && c in perClassRange && HasTruth(gt, c)
    requires forall c :: c in included ==>
             perClass50[c] == ReportedAp(preds, gt, c) && perClassRange[c] == Sweep(preds, gt, c)
    requires |aps50| == |aps5095| == |included|
    requires forall k :: 0 <= k < |included| ==>
             aps50[k] == perClass50[included[k]] && aps5095[k] == Mean(Sweep(preds, gt, included[k]))
    ensures aps50 == Aps50(preds, gt, included) && aps5095 == Aps5095(preds, gt, included)
  {
    hide Sweep, HasTruth, ApOfClass;
    forall k | 0 <= k < |included| ensures aps50[k] == ApOfClass(preds, gt, included[k], 0.5) {
      assert included[k] in included;
    }
  }

  method ComputeMap(preds: PerImage<Detection>, gt: PerImage<GroundTruthBox>, classes: seq<string>)
      returns (r: Result<Metrics, Error>)
    requires preds.Valid() && gt.Valid()
    ensures r == MapOf(preds, gt, classes)
    ensures r.Ok? ==> 0.0 <= r.value.map5095 <= r.value.map50 <= 1.0
  {
    hide Aps50, Aps5095, PerClass, Sweep, Included, Sum;
    var included, perClass50, perClassRange := EvaluateClasses(preds, gt, classes);
    if included == [] {
      return Err(GoldenSetEmpty);
    }
    var aps50, aps5095 := ClassValues(included, perClass50, perClassRange);
    ValuesAreAps(preds, gt, included, perClass50, perClassRange, aps50, aps5095);
    var total50 := SumOf(aps50);
    var total5095 := SumOf(aps5095);
    r := Ok(Metrics(total50 / |included| as real, total5095 / |included| as real, perClass50));
    Map50DominatesMap5095(preds, gt, classes);
  }

  lemma {:induction false} SumMonotone(a: seq<real>, b: seq<real>)
    requires |a| == |b| && forall i :: 0 <= i < |a| ==> a[i] <= b[i]
    ensures Sum(a) <= Sum(b)
  {
    if a != [] { SumMonotone(a[..|a| - 1], b[..|b| - 1]); }
  }

  lemma {:induction false} SumOfBounded(xs: seq<real>, hi: real)
    requires forall i :: 0 <= i < |xs| ==> 0.0 <= xs[i] <= hi
    ensures 0.0 <= Sum(xs) <= hi * |xs| as real
    ensures Sum(xs) == hi * |xs| as real <==> AllAre(xs, hi)
  {
    if xs != [] {
      var n := |xs| - 1;
      SumOfBounded(xs[..n], hi);
      OneMoreTime(hi, n as real);
      AllAreSnoc(xs, hi);
    }
  }

  predicate AllAre(xs: seq<real>, hi: real) { forall i :: 0 <= i < |xs| ==> xs[i] == hi }

  lemma AllAreSnoc(xs: seq<real>, hi: real)
    requires xs != []
    ensures AllAre(xs, hi) <==> AllAre(xs[..|xs| - 1], hi) && xs[|xs| - 1] == hi
  {
    assert forall i :: 0 <= i < |xs| ==> xs[i] == if i < |xs| - 1 then xs[..|xs| - 1][i] else xs[|xs| - 1];
  }

  lemma OneMoreTime(hi: real, n: real)
    ensures hi * (n + 1.0) == hi * n + hi
  {
  }

  lemma MeanOfBounded(xs: seq<real>, hi: real)
    requires xs != [] && forall i :: 0 <= i < |xs| ==> 0.0 <= xs[i] <= hi
    ensures 0.0 <= Mean(xs) <= hi
    ensures Mean(xs) == hi <==> AllAre(xs, hi)
  {
    hide Sum;
    SumOfBounded(xs, hi);
    QuotientBounds(Sum(xs), hi, |xs| as real);
  }

  lemma QuotientBounds(total: real, hi: real, n: real)
    requires n > 0.0 && 0.0 <= total <= hi * n
    ensures 0.0 <= total / n <= hi
    ensures total / n == hi <==> total == hi * n
  {
    var q := total / n;
    assert q * n == total;
    if q > hi { StrictProduct(hi, q, n); }
    if q < 0.0 { StrictProduct(q, 0.0, n); }
  }

  lemma StrictProduct(a: real, b: real, n: real)
    requires a < b && n > 0.0
    ensures a * n < b * n
  {
    assert (b - a) * n > 0.0;
  }

  /** The sweep's mean is bounded by the value at its loosest threshold. */
  lemma SweepMeanBelowAp50(preds: PerImage<Detection>, gt: PerImage<GroundTruthBox>, cls: string)
    requires gt.Valid()
    ensures 0.0 <= Mean(Sweep(preds, gt, cls)) <= ApOfClass(preds, gt, cls, 0.5) <= 1.0
  {
    var ps, truth := ClassPredictions(preds, cls), ClassTruth(gt, cls);
    forall j | 0 <= j < 10 ensures 0.0 <= Sweep(preds, gt, cls)[j] <= ApOfClass(preds, gt, cls, 0.5) {
      ClassApAntitoneInThreshold(ps, truth, 0.5, THRESHOLDS[j]);
      ClassApIsAFraction(ps, truth, THRESHOLDS[j]);
    }
    MeanOfBounded(Sweep(preds, gt, cls), ApOfClass(preds, gt, cls, 0.5));
    ClassApIsAFraction(ps, truth, 0.5);
  }

  /** Whatever the model predicts, 0 <= mAP@50-95 <= mAP@50 <= 1. */
  lemma {:induction false} Map50DominatesMap5095(preds: PerImage<Detection>, gt: PerImage<GroundTruthBox>,
                                                 classes: seq<string>)
    requires gt.Valid()
    ensures MapOf(preds, gt, classes).Ok?
        ==> 0.0 <= MapOf(preds, gt, classes).value.map5095 <= MapOf(preds, gt, classes).value.map50 <= 1.0
  {
    var inc := Included(gt, classes);
    if inc != [] {
      var a50, a5095 := Aps50(preds, gt, inc), Aps5095(preds, gt, inc);
      forall i | 0 <= i < |inc| ensures 0.0 <= a5095[i] <= a50[i] <= 1.0 {
        SweepMeanBelowAp50(preds, gt, inc[i]);
      }
      SumMonotone(a5095, a50);
      DivideMonotone(Sum(a5095), Sum(a50), |inc| as real);
      MeanOfBounded(a50, 1.0);
      MeanOfBounded(a5095, 1.0);
    }
  }

  ghost predicate TopMatch(preds: PerImage<Detection>, gt: PerImage<GroundTruthBox>, cls: string) {
    var ps, truth := ClassPredictions(preds, cls), ClassTruth(gt, cls);
    NumGt(truth) <= |ps| && forall k :: 0 <= k < NumGt(truth) ==> HitAt(truth, Ranked(ps), 0.5, k) != -1
  }

  lemma PerfectClass(preds: PerImage<Detection>, gt: PerImage<GroundTruthBox>, cls: string)
    requires gt.Valid() && HasTruth(gt, cls)
    ensures 0.0 <= ApOfClass(preds, gt, cls, 0.5) <= 1.0
    ensures ApOfClass(preds, gt, cls, 0.5) == 1.0 <==> TopMatch(preds, gt, cls)
  {
    ClassApIsAFraction(ClassPredictions(preds, cls), ClassTruth(gt, cls), 0.5);
    ClassApIsOneExactlyWhenTopMatch(ClassPredictions(preds, cls), ClassTruth(gt, cls), 0.5);
  }

  /** mAP@50 is 1 exactly when, for every class with ground truth, the top-ranked predictions claim one box each. */
  lemma {:induction false} Map50IsOneExactlyWhenEveryClassIsPerfect(preds: PerImage<Detection>,
                                                                    gt: PerImage<GroundTruthBox>, classes: seq<string>)
    requires gt.Valid() && MapOf(preds, gt, classes).Ok?
    ensures MapOf(preds, gt, classes).value.map50 == 1.0 <==>
            forall c :: c in classes && HasTruth(gt, c) ==> TopMatch(preds, gt, c)
  {
    hide TopMatch, ApOfClass, HasTruth;
    var inc := Included(gt, classes);
    var a50 := Aps50(preds, gt, inc);
    forall i | 0 <= i < |inc| ensures 0.0 <= a50[i] <= 1.0 && (a50[i] == 1.0 <==> TopMatch(preds, gt, inc[i])) {
      assert inc[i] in inc;
      PerfectClass(preds, gt, inc[i]);
    }
    MeanOfBounded(a50, 1.0);
    assert forall c :: c in inc <==> c in classes && HasTruth(gt, c);
  }

  ghost predicate NoneOf(boxes: seq<GroundTruthBox>, cls: string) {
    forall i :: 0 <= i < |boxes| ==> boxes[i].defectType != cls
  }

  lemma {:induction false} BoxesOfEmpty(boxes: seq<GroundTruthBox>, cls: string)
    ensures BoxesOf(boxes, cls) == [] <==> NoneOf(boxes, cls)
  {
    if boxes != [] {
      BoxesOfEmpty(boxes[1..], cls);
      assert forall i :: 0 < i < |boxes| ==> boxes[i] == boxes[1..][i - 1];
    }
  }

  lemma {:induction false} NumGtZero(gt: PerImage<GroundTruthBox>, cls: string, n: nat)
    requires gt.Valid() && n <= |gt.images|
    ensures NumGtUpTo(ClassTruth(gt, cls), n) == 0 <==> forall i :: 0 <= i < n ==> NoneOf(gt.items[gt.images[i]], cls)
  {
    hide BoxesOf, NoneOf;
    if n > 0 {
      NumGtZero(gt, cls, n - 1);
      BoxesOfEmpty(gt.items[gt.images[n - 1]], cls);
    }
  }

  /** The evaluation is refused exactly when no listed class has a ground-truth box anywhere. */
  lemma {:induction false} RefusedExactlyWithoutGroundTruth(preds: PerImage<Detection>, gt: PerImage<GroundTruthBox>,
                                                            classes: seq<string>)
    requires gt.Valid()
    ensures MapOf(preds, gt, classes).Err?
       <==> forall c, i :: c in classes && 0 <= i < |gt.images| ==> NoneOf(gt.items[gt.images[i]], c)
  {
    var inc := Included(gt, classes);
    forall c | c in classes
      ensures HasTruth(gt, c) <==> exists i :: 0 <= i < |gt.images| && !NoneOf(gt.items[gt.images[i]], c)
    {
      NumGtZero(gt, c, |gt.images|);
    }
    if inc != [] { assert inc[0] in inc; }
  }
}
