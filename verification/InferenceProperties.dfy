/** What the inference stage stores and reports of a detector's output. */
module InferenceProperties {
  import opened Boxes
  import opened Defects
  import opened ImageState
  import opened Sublists
  import opened Wrappers

  /** What is stored for each detection: the class with its name, its confidence to the nearest thousandth, the part of
      its box inside the image, and whether it reaches the reporting threshold. */
  lemma {:induction false} StoredRowsDescribe(
      kept: seq<RawDetection>, minReport: real, r: Result<Detections, DetectionError>, i: nat)
    requires StoredAs(kept, minReport, r) && r.Ok? && i < |kept|
    ensures var row := r.value.stored[i];
            && Name(row.defectType) == kept[i].className
            && -0.5 <= row.confidence as real - 1000.0 * kept[i].confidence <= 0.5
            && row.bbox == Meet(kept[i].bbox, BBox(0.0, 0.0, 1.0, 1.0))
            && (row.isReported <==> kept[i].confidence >= minReport)
  {
    assert Storable(kept[i]);
  }

  /** And these are the only rows, in this order; a refusal, too, is determined: it is of the first unknown class if
      there is one. */
  lemma {:induction false} OutcomeIsUnique(kept: seq<RawDetection>, minReport: real,
                                           r: Result<Detections, DetectionError>, q: Result<Detections, DetectionError>)
    requires StoredAs(kept, minReport, r) && StoredAs(kept, minReport, q)
    ensures r == q
  {
    hide RowOf, OnlyReported, Kept, Admitted;
    if r.Ok? && q.Ok? {
      assert r.value.stored == q.value.stored;
    } else if r.Err? && q.Err? && r.error.UnknownClass? && q.error.UnknownClass? {
      var i :| 0 <= i < |kept| && ClassOf(kept[i].className).None? && kept[i].className == r.error.name
               && forall j :: 0 <= j < i ==> ClassOf(kept[j].className).Some?;
      var k :| 0 <= k < |kept| && ClassOf(kept[k].className).None? && kept[k].className == q.error.name
               && forall j :: 0 <= j < k ==> ClassOf(kept[j].className).Some?;
      assert i == k;
    }
  }

  /** A maximum severity is one of those given, and there is only one. */
  lemma HighestIsUnique(s: Severity, t: Severity, severities: seq<Severity>)
    requires IsHighest(s, severities) && IsHighest(t, severities)
    ensures s == t && s in severities
  {
  }

  /** A confidence half-way between two thousandths is stored as the even one. */
  lemma TiesGoToEven(k: int)
    ensures Thousandths((2 * k) as real / 2000.0 + 0.0005) == if k % 2 == 0 then k else k + 1
  {
  }

  function Reaches(floor: real): RawDetection -> bool { (d: RawDetection) => d.confidence >= floor }

  /** A threshold keeps exactly the detections that reach it, in the detector's order. */
  lemma {:induction false} KeptReachTheFloor(raw: seq<RawDetection>, floor: real)
    ensures IsFilter(Kept(raw, floor), raw, Reaches(floor))
  {
    hide IsFilter;
    if raw == [] {
      FilterOfNone(Reaches(floor));
    } else {
      var n := |raw| - 1;
      KeptReachTheFloor(raw[..n], floor);
      FilterSnoc(Kept(raw[..n], floor), raw[..n], raw[n], Reaches(floor));
      assert raw == raw[..n] + [raw[n]] && Kept(raw[..n], floor) + [] == Kept(raw[..n], floor);
    }
  }

  const IS_REPORTED: DetectionRow -> bool := (d: DetectionRow) => d.isReported

  /** Exactly the rows marked as reported are handed on, in the order of storage. */
  lemma {:induction false} ReportedAreMarked(ds: seq<DetectionRow>)
    ensures IsFilter(OnlyReported(ds), ds, IS_REPORTED)
  {
    hide IsFilter;
    if ds == [] {
      FilterOfNone(IS_REPORTED);
    } else {
      var n := |ds| - 1;
      ReportedAreMarked(ds[..n]);
      FilterSnoc(OnlyReported(ds[..n]), ds[..n], ds[n], IS_REPORTED);
      assert ds == ds[..n] + [ds[n]] && OnlyReported(ds[..n]) + [] == OnlyReported(ds[..n]);
    }
  }
}
