/** Which detections and boxes a class is scored on, and what the averages average. */
module MeanApProperties {
  import opened Boxes
  import opened Matching
  import opened MeanAp

  // ---- the predictions of a class ----

  lemma {:induction false} PredictionsOfCount(image: string, ds: seq<Detection>, cls: string, p: Prediction)
    ensures multiset(PredictionsOf(image, ds, cls))[p]
         == if p.image == image then multiset(ds)[Detection(cls, p.confidence, p.bbox)] else 0
    decreases |ds|
  {
    if ds != [] {
      PredictionsOfCount(image, ds[1..], cls, p);
      assert ds == [ds[0]] + ds[1..];
    }
  }

  lemma CountOfBoth<T>(a: seq<T>, b: seq<T>, x: T)
    ensures multiset(a + b)[x] == multiset(a)[x] + multiset(b)[x]
  {
  }

  lemma {:induction false} ClassPredictionsUpToCount(preds: PerImage<Detection>, cls: string, n: nat, p: Prediction)
    requires preds.Valid() && n <= |preds.images|
    ensures multiset(ClassPredictionsUpTo(preds, cls, n))[p]
         == if p.image in preds.images[..n] then multiset(preds.Of(p.image))[Detection(cls, p.confidence, p.bbox)]
            else 0
    decreases n
  {
    if n > 0 {
      hide PredictionsOf;
      var image := preds.images[n - 1];
      ClassPredictionsUpToCount(preds, cls, n - 1, p);
      PredictionsOfCount(image, preds.Of(image), cls, p);
      CountOfBoth(ClassPredictionsUpTo(preds, cls, n - 1), PredictionsOf(image, preds.Of(image), cls), p);
      OneMore(preds.images, n, p.image);
    }
  }

  lemma OneMore<T>(s: seq<T>, n: nat, x: T)
    requires 0 < n <= |s| && forall i, j :: 0 <= i < j < |s| ==> s[i] != s[j]
    ensures x in s[..n] <==> x in s[..n - 1] || x == s[n - 1]
    ensures x == s[n - 1] ==> x !in s[..n - 1]
  {
    assert s[..n] == s[..n - 1] + [s[n - 1]];
  }

  /** A class is scored on exactly the detections of that class, each as often as its image lists it. */
  lemma {:induction false} ClassPredictionsAreItsDetections(
      preds: PerImage<Detection>, cls: string, image: string, confidence: real, bbox: BBox)
    requires preds.Valid()
    ensures multiset(ClassPredictions(preds, cls))[Prediction(image, confidence, bbox)]
         == multiset(preds.Of(image))[Detection(cls, confidence, bbox)]
  {
    ClassPredictionsUpToCount(preds, cls, |preds.images|, Prediction(image, confidence, bbox));
    assert preds.images[..|preds.images|] == preds.images;
  }

  /** Where a prediction comes from: the position of its image, and its position in the image's list. */
  datatype Origin = Origin(image: nat, index: nat)

  predicate Earlier(a: Origin, b: Origin) { a.image < b.image || (a.image == b.image && a.index < b.index) }

  predicate ComesFrom(preds: PerImage<Detection>, cls: string, o: Origin, p: Prediction) {
    && o.image < |preds.images| && p.image == preds.images[o.image]
    && o.index < |preds.Of(p.image)| && preds.Of(p.image)[o.index] == Detection(cls, p.confidence, p.bbox)
  }

  predicate Rising(js: seq<nat>) { forall k, l :: 0 <= k < l < |js| ==> js[k] < js[l] }

  function Shift(js: seq<nat>): seq<nat> { seq(|js|, k requires 0 <= k < |js| => js[k] + 1) }

  lemma RisingInFront(js: seq<nat>)
    requires Rising(js)
    ensures Rising(Shift(js)) && Rising([0] + Shift(js))
  {
  }

  predicate IsPrediction(p: Prediction, image: string, d: Detection, cls: string) {
    p == Prediction(image, d.confidence, d.bbox) && d.defectType == cls
  }

  predicate Draws(js: seq<nat>, ps: seq<Prediction>, image: string, ds: seq<Detection>, cls: string) {
    && |js| == |ps|
    && forall k :: 0 <= k < |js| ==> js[k] < |ds| && IsPrediction(ps[k], image, ds[js[k]], cls)
  }

  lemma DrawsInFront(js: seq<nat>, ps: seq<Prediction>, image: string, ds: seq<Detection>, cls: string, p: Prediction)
    requires ds != [] && Draws(js, ps, image, ds[1..], cls)
    ensures Draws(Shift(js), ps, image, ds, cls)
    ensures IsPrediction(p, image, ds[0], cls) ==> Draws([0] + Shift(js), [p] + ps, image, ds, cls)
  {
    hide IsPrediction;
    assert forall k :: 0 <= k < |js| ==> ds[Shift(js)[k]] == ds[1..][js[k]];
  }

  lemma {:induction false} IndicesOf(image: string, ds: seq<Detection>, cls: string) returns (js: seq<nat>)
    ensures Rising(js) && Draws(js, PredictionsOf(image, ds, cls), image, ds, cls)
    decreases |ds|
  {
    if ds == [] {
      js := [];
    } else {
      hide Rising, Draws;
      var rest := IndicesOf(image, ds[1..], cls);
      RisingInFront(rest);
      DrawsInFront(rest, PredictionsOf(image, ds[1..], cls), image, ds, cls,
                   Prediction(image, ds[0].confidence, ds[0].bbox));
      js := if ds[0].defectType == cls then [0] + Shift(rest) else Shift(rest);
    }
  }

  predicate Ordered(os: seq<Origin>) { forall k, l :: 0 <= k < l < |os| ==> Earlier(os[k], os[l]) }

  /** The predictions come from these positions, all of the first `n` images. */
  predicate Listed(preds: PerImage<Detection>, cls: string, n: nat, os: seq<Origin>, ps: seq<Prediction>) {
    && |os| == |ps|
    && forall k :: 0 <= k < |os| ==> os[k].image < n && ComesFrom(preds, cls, os[k], ps[k])
  }

  function InImage(n: nat, js: seq<nat>): seq<Origin> { seq(|js|, k requires 0 <= k < |js| => Origin(n, js[k])) }

  lemma OrderedSnoc(n: nat, os: seq<Origin>, js: seq<nat>)
    requires Ordered(os) && Rising(js) && forall k :: 0 <= k < |os| ==> os[k].image < n
    ensures Ordered(os + InImage(n, js))
  {
  }

  lemma ListedInImage(preds: PerImage<Detection>, cls: string, n: nat, js: seq<nat>, ps: seq<Prediction>)
    requires n < |preds.images| && Draws(js, ps, preds.images[n], preds.Of(preds.images[n]), cls)
    ensures Listed(preds, cls, n + 1, InImage(n, js), ps)
  {
  }

  lemma ListedAppend(preds: PerImage<Detection>, cls: string, n: nat,
                     os: seq<Origin>, ps: seq<Prediction>, more: seq<Origin>, next: seq<Prediction>)
    requires Listed(preds, cls, n, os, ps) && Listed(preds, cls, n + 1, more, next)
    ensures Listed(preds, cls, n + 1, os + more, ps + next)
  {
    hide ComesFrom;
  }

  lemma NextImage(preds: PerImage<Detection>, cls: string, n: nat,
                  os: seq<Origin>, ps: seq<Prediction>, js: seq<nat>, next: seq<Prediction>)
    requires n < |preds.images| && Ordered(os) && Listed(preds, cls, n, os, ps)
    requires Rising(js) && Draws(js, next, preds.images[n], preds.Of(preds.images[n]), cls)
    ensures Ordered(os + InImage(n, js)) && Listed(preds, cls, n + 1, os + InImage(n, js), ps + next)
  {
    OrderedSnoc(n, os, js);
    hide Rising, Ordered, ComesFrom;
    ListedInImage(preds, cls, n, js, next);
    ListedAppend(preds, cls, n, os, ps, InImage(n, js), next);
  }

  lemma {:induction false} OriginsUpTo(preds: PerImage<Detection>, cls: string, n: nat) returns (os: seq<Origin>)
    requires n <= |preds.images|
    ensures Ordered(os) && Listed(preds, cls, n, os, ClassPredictionsUpTo(preds, cls, n))
    decreases n
  {
    if n == 0 {
      os := [];
    } else {
      hide PredictionsOf, Draws, Rising, Ordered, Listed, InImage;
      var before := OriginsUpTo(preds, cls, n - 1);
      var image := preds.images[n - 1];
      var js := IndicesOf(image, preds.Of(image), cls);
      os := before + InImage(n - 1, js);
      NextImage(preds, cls, n - 1, before, ClassPredictionsUpTo(preds, cls, n - 1), js,
                PredictionsOf(image, preds.Of(image), cls));
    }
  }

  /** They are listed image after image, and within an image as the detector lists them. */
  lemma {:induction false} ClassPredictionsAreInOrder(preds: PerImage<Detection>, cls: string) returns (os: seq<Origin>)
    ensures |os| == |ClassPredictions(preds, cls)|
    ensures forall k :: 0 <= k < |os| ==> ComesFrom(preds, cls, os[k], ClassPredictions(preds, cls)[k])
    ensures forall k, l :: 0 <= k < l < |os| ==> Earlier(os[k], os[l])
  {
    os := OriginsUpTo(preds, cls, |preds.images|);
  }

  // ---- the ground truth of a class ----

  lemma {:induction false} BoxesOfCount(boxes: seq<GroundTruthBox>, cls: string, b: BBox)
    ensures multiset(BoxesOf(boxes, cls))[b] == multiset(boxes)[GroundTruthBox(cls, b)]
    decreases |boxes|
  {
    if boxes != [] {
      BoxesOfCount(boxes[1..], cls, b);
      assert boxes == [boxes[0]] + boxes[1..];
    }
  }

  lemma {:induction false} BoxesOfInOrder(boxes: seq<GroundTruthBox>, cls: string) returns (js: seq<nat>)
    ensures |js| == |BoxesOf(boxes, cls)| && Rising(js)
    ensures forall k :: 0 <= k < |js| ==>
              js[k] < |boxes| && boxes[js[k]] == GroundTruthBox(cls, BoxesOf(boxes, cls)[k])
    decreases |boxes|
  {
    if boxes == [] {
      js := [];
    } else {
      hide Rising;
      var rest := BoxesOfInOrder(boxes[1..], cls);
      RisingInFront(rest);
      js := if boxes[0].defectType == cls then [0] + Shift(rest) else Shift(rest);
      assert forall k :: 0 <= k < |rest| ==> boxes[Shift(rest)[k]] == boxes[1..][rest[k]];
    }
  }

  /** A class's ground truth is exactly the boxes of that class, image by image, in the order of the label file. */
  lemma {:induction false} ClassTruthIsItsBoxes(gt: PerImage<GroundTruthBox>, cls: string, image: string)
      returns (js: seq<nat>)
    requires gt.Valid()
    ensures ClassTruth(gt, cls).images == gt.images
    ensures forall b :: multiset(ClassTruth(gt, cls).Of(image))[b] == multiset(gt.Of(image))[GroundTruthBox(cls, b)]
    ensures |js| == |ClassTruth(gt, cls).Of(image)|
    ensures forall k :: 0 <= k < |js| ==>
              js[k] < |gt.Of(image)| && gt.Of(image)[js[k]] == GroundTruthBox(cls, ClassTruth(gt, cls).Of(image)[k])
    ensures forall k, l :: 0 <= k < l < |js| ==> js[k] < js[l]
  {
    if image in gt.items {
      forall b { BoxesOfCount(gt.items[image], cls, b); }
      js := BoxesOfInOrder(gt.items[image], cls);
    } else {
      js := [];
    }
  }

  /** A state in which every box is consumed has consumed as many boxes as the class's recall is out of. */
  lemma {:induction false} NumGtCountsBoxes(gt: GroundTruth, m: Matched, n: nat)
    requires gt.Valid() && Fits(gt, m) && n <= |gt.images|
    requires forall k, i :: k in m && 0 <= i < |m[k]| ==> m[k][i]
    ensures Consumed(gt, m, n) == NumGtUpTo(gt, n)
  {
    if n > 0 {
      NumGtCountsBoxes(gt, m, n - 1);
      AllTrue(m[gt.images[n - 1]]);
    }
  }

  lemma {:induction false} AllTrue(s: seq<bool>)
    requires forall i :: 0 <= i < |s| ==> s[i]
    ensures CountTrue(s) == |s|
  {
    if s != [] { AllTrue(s[1..]); }
  }

  // ---- other classes do not count ----

  function Inserted<T>(s: seq<T>, j: nat, x: T): seq<T>
    requires j <= |s|
  {
    s[..j] + [x] + s[j..]
  }

  /** The same lists, with one more entry at one place of one image's. */
  function WithOneMore<T>(lists: PerImage<T>, image: string, j: nat, x: T): PerImage<T>
    requires image in lists.items && j <= |lists.items[image]|
  {
    PerImage(lists.images, lists.items[image := Inserted(lists.items[image], j, x)])
  }

  lemma {:induction false} PredictionsOfOther(image: string, ds: seq<Detection>, cls: string, j: nat, d: Detection)
    requires j <= |ds| && d.defectType != cls
    ensures PredictionsOf(image, Inserted(ds, j, d), cls) == PredictionsOf(image, ds, cls)
  {
    var more := Inserted(ds, j, d);
    if j == 0 {
      assert more[1..] == ds;
    } else {
      assert more[0] == ds[0] && more[1..] == Inserted(ds[1..], j - 1, d);
      PredictionsOfOther(image, ds[1..], cls, j - 1, d);
    }
  }

  lemma {:induction false} ClassPredictionsOfOther(
      preds: PerImage<Detection>, cls: string, image: string, j: nat, d: Detection, n: nat)
    requires image in preds.items && j <= |preds.items[image]| && d.defectType != cls && n <= |preds.images|
    ensures ClassPredictionsUpTo(WithOneMore(preds, image, j, d), cls, n) == ClassPredictionsUpTo(preds, cls, n)
  {
    if n > 0 {
      ClassPredictionsOfOther(preds, cls, image, j, d, n - 1);
      PredictionsOfOther(image, preds.items[image], cls, j, d);
    }
  }

  /** A detection of another class, wherever it stands, changes none of a class's values; nor does leaving it out. */
  lemma {:induction false} OtherDetectionsDoNotCount(
      preds: PerImage<Detection>, gt: PerImage<GroundTruthBox>, cls: string, image: string, j: nat, d: Detection)
    requires image in preds.items && j <= |preds.items[image]| && d.defectType != cls
    ensures ReportedAp(WithOneMore(preds, image, j, d), gt, cls) == ReportedAp(preds, gt, cls)
    ensures Sweep(WithOneMore(preds, image, j, d), gt, cls) == Sweep(preds, gt, cls)
  {
    hide ClassAp;
    ClassPredictionsOfOther(preds, cls, image, j, d, |preds.images|);
  }

  lemma {:induction false} BoxesOfOther(boxes: seq<GroundTruthBox>, cls: string, j: nat, b: GroundTruthBox)
    requires j <= |boxes| && b.defectType != cls
    ensures BoxesOf(Inserted(boxes, j, b), cls) == BoxesOf(boxes, cls)
  {
    var more := Inserted(boxes, j, b);
    if j == 0 {
      assert more[1..] == boxes;
    } else {
      assert more[0] == boxes[0] && more[1..] == Inserted(boxes[1..], j - 1, b);
      BoxesOfOther(boxes[1..], cls, j - 1, b);
    }
  }

  lemma {:induction false} OtherBoxesDoNotCount(
      preds: PerImage<Detection>, gt: PerImage<GroundTruthBox>, cls: string, image: string, j: nat, b: GroundTruthBox)
    requires image in gt.items && j <= |gt.items[image]| && b.defectType != cls
    ensures ReportedAp(preds, WithOneMore(gt, image, j, b), cls) == ReportedAp(preds, gt, cls)
    ensures Sweep(preds, WithOneMore(gt, image, j, b), cls) == Sweep(preds, gt, cls)
  {
    hide ClassAp;
    BoxesOfOther(gt.items[image], cls, j, b);
    assert ClassTruth(WithOneMore(gt, image, j, b), cls) == ClassTruth(gt, cls);
  }

  // ---- the averages ----

  /** The thresholds are 0.50, 0.55, ..., 0.95. */
  lemma ThresholdsAreTwentieths()
    ensures |THRESHOLDS| == 10 && forall j :: 0 <= j < 10 ==> 20.0 * THRESHOLDS[j] == (10 + j) as real
  {
  }

  lemma {:induction false} SumAppend(a: seq<real>, b: seq<real>)
    ensures Sum(a + b) == Sum(a) + Sum(b)
    ensures |b| == 1 ==> Sum(b) == b[0]
  {
    if b == [] {
      assert a + b == a;
    } else {
      var n := |b| - 1;
      SumAppend(a, b[..n]);
      assert (a + b)[..|a| + n] == a + b[..n];
      if n == 0 { assert b[..0] == []; }
    }
  }

  /** The number that, taken once for each entry, adds up to their sum. */
  predicate IsAverage(x: real, xs: seq<real>) { xs != [] && x * |xs| as real == Sum(xs) }

  lemma MeanIsAverage(xs: seq<real>)
    requires xs != []
    ensures IsAverage(Mean(xs), xs)
  {
  }

  lemma SplitLast<T>(a: seq<T>, b: seq<T>)
    requires b != []
    ensures b == b[..|b| - 1] + [b[|b| - 1]] && a + b == a + b[..|b| - 1] + [b[|b| - 1]]
  {
  }

  lemma PlusAssociates<T>(a: seq<T>, b: seq<T>, c: seq<T>)
    ensures a + (b + c) == a + b + c
  {
  }

  lemma IncludedSnoc(gt: PerImage<GroundTruthBox>, a: seq<string>, c: string)
    ensures Included(gt, a + [c]) == Included(gt, a) + if HasTruth(gt, c) then [c] else []
  {
    hide HasTruth;
    assert (a + [c])[..|a|] == a;
  }

  lemma {:induction false} IncludedAppend(gt: PerImage<GroundTruthBox>, a: seq<string>, b: seq<string>)
    ensures Included(gt, a + b) == Included(gt, a) + Included(gt, b)
    decreases |b|
  {
    hide HasTruth;
    if b == [] {
      assert a + b == a && Included(gt, a) + [] == Included(gt, a);
    } else {
      hide Included;
      var n := |b| - 1;
      IncludedAppend(gt, a, b[..n]);
      SplitLast(a, b);
      IncludedSnoc(gt, a + b[..n], b[n]);
      IncludedSnoc(gt, b[..n], b[n]);
      PlusAssociates(Included(gt, a), Included(gt, b[..n]), if HasTruth(gt, b[n]) then [b[n]] else []);
    }
  }

  /** Each listed class with ground truth enters the averages as often as it is listed, and no other class does. */
  lemma {:induction false} IncludedCount(gt: PerImage<GroundTruthBox>, classes: seq<string>, c: string)
    ensures multiset(Included(gt, classes))[c] == if HasTruth(gt, c) then multiset(classes)[c] else 0
  {
    hide HasTruth;
    if classes != [] {
      var n := |classes| - 1;
      IncludedCount(gt, classes[..n], c);
      assert classes == classes[..n] + [classes[n]];
    }
  }

  /** A listed class's report is its AP at 0.5, or 0 without ground truth. */
  lemma {:induction false} ReportsAreAps(
      preds: PerImage<Detection>, gt: PerImage<GroundTruthBox>, classes: seq<string>, c: string)
    requires MapOf(preds, gt, classes).Ok?
    ensures c in MapOf(preds, gt, classes).value.perClass <==> c in classes
    ensures c in classes ==>
              MapOf(preds, gt, classes).value.perClass[c]
                == if HasTruth(gt, c) then ApOfClass(preds, gt, c, 0.5) else 0.0
  {
    hide ApOfClass, HasTruth, Aps50, Aps5095, Mean;
  }

  function Reports(m: Metrics, classes: seq<string>): (rs: seq<real>)
    requires forall c :: c in classes ==> c in m.perClass
    ensures |rs| == |classes| && forall i :: 0 <= i < |rs| ==> rs[i] == m.perClass[classes[i]]
  {
    seq(|classes|, i requires 0 <= i < |classes| => assert classes[i] in classes; m.perClass[classes[i]])
  }

  lemma MetricsAreMeans(preds: PerImage<Detection>, gt: PerImage<GroundTruthBox>, classes: seq<string>)
    requires MapOf(preds, gt, classes).Ok?
    ensures var m, inc := MapOf(preds, gt, classes).value, Included(gt, classes);
            && inc != [] && m.map50 == Mean(Aps50(preds, gt, inc)) && m.map5095 == Mean(Aps5095(preds, gt, inc))
  {
    hide Included, Aps50, Aps5095, PerClass, Mean;
  }

  lemma IncludedAreReported(preds: PerImage<Detection>, gt: PerImage<GroundTruthBox>, classes: seq<string>, c: string)
    requires MapOf(preds, gt, classes).Ok? && c in Included(gt, classes)
    ensures c in MapOf(preds, gt, classes).value.perClass
    ensures MapOf(preds, gt, classes).value.perClass[c] == ApOfClass(preds, gt, c, 0.5)
  {
    IncludedCount(gt, classes, c);
    ReportsAreAps(preds, gt, classes, c);
    hide Included, HasTruth, ApOfClass, MapOf;
  }

  /** mAP@50 is the average of the reports of the included classes. */
  lemma {:induction false} Map50AveragesReports(
      preds: PerImage<Detection>, gt: PerImage<GroundTruthBox>, classes: seq<string>)
    requires MapOf(preds, gt, classes).Ok?
    ensures var m, inc := MapOf(preds, gt, classes).value, Included(gt, classes);
            && inc != [] && (forall c :: c in inc ==> c in m.perClass)
            && IsAverage(m.map50, Reports(m, inc))
  {
    var m, inc := MapOf(preds, gt, classes).value, Included(gt, classes);
    MetricsAreMeans(preds, gt, classes);
    hide ApOfClass, Included, Sum, Mean, MapOf, IsAverage;
    forall c | c in inc ensures c in m.perClass && m.perClass[c] == ApOfClass(preds, gt, c, 0.5) {
      IncludedAreReported(preds, gt, classes, c);
    }
    assert Aps50(preds, gt, inc) == Reports(m, inc);
    MeanIsAverage(Reports(m, inc));
  }

  /** mAP@50-95 is the average of the included classes' averages over the ten thresholds. */
  lemma {:induction false} Map5095AveragesSweeps(
      preds: PerImage<Detection>, gt: PerImage<GroundTruthBox>, classes: seq<string>) returns (means: seq<real>)
    requires MapOf(preds, gt, classes).Ok?
    ensures var inc := Included(gt, classes);
            && IsAverage(MapOf(preds, gt, classes).value.map5095, means) && |means| == |inc|
            && forall i :: 0 <= i < |means| ==> IsAverage(means[i], Sweep(preds, gt, inc[i]))
    ensures forall c, j :: 0 <= j < 10 ==> Sweep(preds, gt, c)[j] == ApOfClass(preds, gt, c, THRESHOLDS[j])
  {
    MetricsAreMeans(preds, gt, classes);
    SweepEntries(preds, gt);
    var inc := Included(gt, classes);
    means := Aps5095(preds, gt, inc);
    hide ApOfClass, Included, Sum, Mean, MapOf, IsAverage, Sweep;
    MeanIsAverage(means);
    forall i | 0 <= i < |means| ensures IsAverage(means[i], Sweep(preds, gt, inc[i])) {
      MeanIsAverage(Sweep(preds, gt, inc[i]));
    }
  }

  lemma SweepEntries(preds: PerImage<Detection>, gt: PerImage<GroundTruthBox>)
    ensures forall c, j :: 0 <= j < 10 ==> Sweep(preds, gt, c)[j] == ApOfClass(preds, gt, c, THRESHOLDS[j])
  {
    hide ApOfClass;
  }

  lemma {:induction false} SumOfEqual(a: seq<real>, b: seq<real>)
    requires |a| == |b| && forall i :: 0 <= i < |a| ==> a[i] <= b[i]
    ensures Sum(a) == Sum(b) <==> a == b
  {
    if a != [] {
      var n := |a| - 1;
      SumOfEqual(a[..n], b[..n]);
      SumMonotone(a[..n], b[..n]);
      assert a == a[..n] + [a[n]] && b == b[..n] + [b[n]];
    }
  }

  /** mAP@50-95 is as high as mAP@50 exactly when no included class loses anything at the strictest threshold. */
  lemma {:induction false} Map5095EqualsMap50ExactlyWhen(
      preds: PerImage<Detection>, gt: PerImage<GroundTruthBox>, classes: seq<string>)
    requires gt.Valid() && MapOf(preds, gt, classes).Ok?
    ensures MapOf(preds, gt, classes).value.map5095 == MapOf(preds, gt, classes).value.map50 <==>
            forall c :: c in classes && HasTruth(gt, c) ==>
              ApOfClass(preds, gt, c, 0.95) == ApOfClass(preds, gt, c, 0.5)
  {
    hide ApOfClass, HasTruth, Sum, Sweep;
    var inc := Included(gt, classes);
    var a50, a5095 := Aps50(preds, gt, inc), Aps5095(preds, gt, inc);
    forall i | 0 <= i < |inc|
      ensures a5095[i] <= a50[i]
      ensures a5095[i] == a50[i] <==> ApOfClass(preds, gt, inc[i], 0.95) == ApOfClass(preds, gt, inc[i], 0.5)
    {
      SweepMeanBelowAp50(preds, gt, inc[i]);
      SweepIsLevelExactlyWhen(preds, gt, inc[i]);
    }
    SumOfEqual(a5095, a50);
    SameMean(a5095, a50);
    if a5095 == a50 {
      forall c | c in classes && HasTruth(gt, c) ensures ApOfClass(preds, gt, c, 0.95) == ApOfClass(preds, gt, c, 0.5) {
        assert c in inc;
        var i :| 0 <= i < |inc| && inc[i] == c;
        assert a5095[i] == a50[i];
      }
    }
    if forall c :: c in classes && HasTruth(gt, c) ==> ApOfClass(preds, gt, c, 0.95) == ApOfClass(preds, gt, c, 0.5) {
      assert forall i :: 0 <= i < |inc| ==> inc[i] in inc;
    }
  }

  lemma SameMean(a: seq<real>, b: seq<real>)
    requires |a| == |b| > 0
    ensures Mean(a) == Mean(b) <==> Sum(a) == Sum(b)
  {
    SameQuotient(Sum(a), Sum(b), |a| as real);
  }

  lemma SameQuotient(x: real, y: real, n: real)
    requires n > 0.0
    ensures x / n == y / n <==> x == y
  {
    if x / n == y / n { assert x == x / n * n && y == y / n * n; }
  }

  /** A class's ten values are level exactly when the last is as high as the first. */
  lemma SweepIsLevelExactlyWhen(preds: PerImage<Detection>, gt: PerImage<GroundTruthBox>, cls: string)
    requires gt.Valid()
    ensures Mean(Sweep(preds, gt, cls)) == ApOfClass(preds, gt, cls, 0.5)
       <==> ApOfClass(preds, gt, cls, 0.95) == ApOfClass(preds, gt, cls, 0.5)
  {
    var ps, truth, top := ClassPredictions(preds, cls), ClassTruth(gt, cls), ApOfClass(preds, gt, cls, 0.5);
    hide ClassAp;
    forall j | 0 <= j < 10 ensures ApOfClass(preds, gt, cls, 0.95) <= Sweep(preds, gt, cls)[j] <= top {
      ClassApAntitoneInThreshold(ps, truth, 0.5, THRESHOLDS[j]);
      ClassApAntitoneInThreshold(ps, truth, THRESHOLDS[j], 0.95);
    }
    forall j | 0 <= j < 10 ensures 0.0 <= Sweep(preds, gt, cls)[j] { ClassApIsAFraction(ps, truth, THRESHOLDS[j]); }
    MeanOfBounded(Sweep(preds, gt, cls), top);
    assert THRESHOLDS[9] == 0.95;
    assert Sweep(preds, gt, cls)[9] == ApOfClass(preds, gt, cls, 0.95);
  }
}
