/** The inspection image's status machine and the inference stage that drives it. */
module ImageState {
  import opened Boxes
  import opened Defects
  import opened Wrappers

  datatype Status = Queued | Processing | Detected | Analyzing | Completed | Failed

  /** The lifecycle columns of an image's row. */
  datatype Row = Row(status: Status, failureReason: Option<string>, processedAt: Option<nat>)

  function Allowed(s: Status): set<Status> {
    match s
    case Queued => {Processing, Failed}
    case Processing => {Detected, Completed, Failed}
    case Detected => {Analyzing, Completed, Failed}
    case Analyzing => {Completed, Failed}
    case Completed => {Analyzing}
    case Failed => {Queued}
  }

  predicate Terminal(s: Status) { s == Completed || s == Failed }

  datatype TransitionError = InvalidTransition | ReasonRequired

  function Transitioned(r: Row, to: Status, reason: Option<string>, now: nat): Result<Row, TransitionError> {
    if to !in Allowed(r.status) then Err(InvalidTransition)
    else if to == Failed then
      if reason.None? || reason.value == "" then Err(ReasonRequired) else Ok(Row(Failed, reason, Some(now)))
    else Ok(Row(to, None, if Terminal(to) then Some(now) else None))
  }

  function MarkedFailed(r: Row, reason: string, now: nat): Result<Row, TransitionError> {
    if r.status == Failed then Ok(r.(failureReason := Some(reason))) else Transitioned(r, Failed, Some(reason), now)
  }

  /** A finished image has a timestamp, a failed one a reason, and no other image has either. */
  predicate StampOk(r: Row) { r.processedAt.Some? <==> Terminal(r.status) }

  predicate ReasonOk(r: Row) { r.failureReason.Some? <==> r.status == Failed }

  class InspectionImage {
    var status: Status
    var failureReason: Option<string>
    var processedAt: Option<nat>

    constructor (r: Row)
      ensures Value() == r
    {
      status, failureReason, processedAt := r.status, r.failureReason, r.processedAt;
    }

    function Value(): Row
      reads this
    {
      Row(status, failureReason, processedAt)
    }

    /** A refused transition changes nothing. */
    method Transition(to: Status, reason: Option<string>, now: nat) returns (r: Result<(), TransitionError>)
      modifies this
      ensures match Transitioned(old(Value()), to, reason, now)
              case Ok(row) => r == Ok(()) && Value() == row
              case Err(e) => r == Err(e) && Value() == old(Value())
    {
      if to !in Allowed(status) {
        return Err(InvalidTransition);
      }
      if to == Failed {
        if reason.None? || reason.value == "" {
          return Err(ReasonRequired);
        }
        failureReason := reason;
      } else {
        failureReason := None;
        processedAt := None;
      }
      status := to;
      if Terminal(to) {
        processedAt := Some(now);
      }
      return Ok(());
    }

    method MarkFailed(reason: string, now: nat) returns (r: Result<(), TransitionError>)
      modifies this
      ensures match MarkedFailed(old(Value()), reason, now)
              case Ok(row) => r == Ok(()) && Value() == row
              case Err(e) => r == Err(e) && Value() == old(Value())
    {
      if status == Failed {
        failureReason := Some(reason);
        return Ok(());
      }
      r := Transition(Failed, Some(reason), now);
    }
  }

  /** Every permitted transition of a well-stamped row gives a well-stamped row. */
  lemma TransitionKeepsStamps(r: Row, to: Status, reason: Option<string>, now: nat)
    requires Transitioned(r, to, reason, now).Ok?
    ensures StampOk(Transitioned(r, to, reason, now).value) && ReasonOk(Transitioned(r, to, reason, now).value)
  {
  }

  /** Failure is reachable from every unfinished status, with a non-empty reason, and never from COMPLETED. */
  lemma FailureIsReachable(r: Row, reason: string, now: nat)
    ensures MarkedFailed(r, reason, now).Ok? <==> r.status == Failed || (r.status != Completed && reason != "")
  {
  }

  /** The flow, by what each status is entered from: one step at a time, except that any image in flight may fail and a
      finished detection may complete at once; only a request re-opens COMPLETED, and only re-ingestion FAILED. */
  lemma {:induction false} AllowedExactly(s: Status, to: Status)
    ensures to in Allowed(s) <==>
              match to
              case Queued => s == Failed
              case Processing => s == Queued
              case Detected => s == Processing
              case Analyzing => s == Detected || s == Completed
              case Completed => s == Processing || s == Detected || s == Analyzing
              case Failed => s != Failed && s != Completed
  {
  }

  /** What a permitted transition writes, column by column. */
  lemma {:induction false} TransitionWrites(r: Row, to: Status, reason: Option<string>, now: nat)
    ensures Transitioned(r, to, reason, now).Ok? <==>
              to in Allowed(r.status) && (to == Failed ==> reason.Some? && reason.value != "")
    ensures Transitioned(r, to, reason, now).Ok? ==>
              var row := Transitioned(r, to, reason, now).value;
              && row.status == to
              && (to == Failed ==> row.failureReason == reason) && (to != Failed ==> row.failureReason.None?)
              && (to == Completed || to == Failed ==> row.processedAt == Some(now))
              && (to != Completed && to != Failed ==> row.processedAt.None?)
  {
  }

  /** Marking failed leaves FAILED with the latest reason; an image that was FAILED keeps its time. */
  lemma {:induction false} MarkFailedWrites(r: Row, reason: string, now: nat)
    requires MarkedFailed(r, reason, now).Ok?
    ensures var row := MarkedFailed(r, reason, now).value;
            && row.status == Failed && row.failureReason == Some(reason)
            && row.processedAt == if r.status == Failed then r.processedAt else Some(now)
  {
  }

  // ---- the inference stage ----

  datatype Severity = Low | Medium | High | Critical

  function Rank(s: Severity): (r: nat)
    ensures r <= 3
  {
    match s case Low => 0 case Medium => 1 case High => 2 case Critical => 3
  }

  /** The knowledge base's default severity of each class. */
  function DefaultSeverity(t: DefectType): Severity {
    match t
    case MissingHole => High
    case MouseBite => Low
    case OpenCircuit => Critical
    case Short => Critical
    case Spur => Low
    case SpuriousCopper => Medium
  }

  /** One of the detector's boxes: a class name as the weights spell it, and corners anywhere. */
  datatype RawDetection = RawDetection(className: string, confidence: real, bbox: BBox)

  /** The stored row; the confidence is in thousandths. */
  datatype DetectionRow = DetectionRow(defectType: DefectType, confidence: int, bbox: BBox, isReported: bool)

  datatype DetectionError = UnknownClass(name: string) | RowRejected

  function Clamp(x: real): real { Min(Max(x, 0.0), 1.0) }

  function Clamped(b: BBox): BBox { BBox(Clamp(b.x1), Clamp(b.y1), Clamp(b.x2), Clamp(b.y2)) }

  /** Nearest thousandth, ties to even. */
  function Thousandths(x: real): (m: int)
    ensures -0.5 <= m as real - x * 1000.0 <= 0.5
  {
    var y := x * 1000.0;
    var f := y.Floor;
    var d := y - f as real;
    if d < 0.5 || (d == 0.5 && f % 2 == 0) then f else f + 1
  }

  function RowOf(d: RawDetection, t: DefectType, minReport: real): DetectionRow {
    DetectionRow(t, Thousandths(d.confidence), Clamped(d.bbox), d.confidence >= minReport)
  }

  /** The table's check constraints on a row. */
  predicate Admitted(row: DetectionRow) {
    && 0 <= row.confidence <= 1000
    && ValidBox(row.bbox)
  }

  predicate Storable(d: RawDetection) {
    match ClassOf(d.className)
    case None => false
    case Some(t) => Admitted(RowOf(d, t, 0.0))
  }

  /** A detection can be stored exactly when its class is one of the six, its confidence rounds into [0, 1], and its box
      runs forward and overlaps the image with an area. */
  lemma {:induction false} StorableExactlyWhen(d: RawDetection)
    ensures Storable(d) <==>
              && d.className in CLASS_NAMES && -0.0005 <= d.confidence <= 1.0005
              && d.bbox.x1 < d.bbox.x2 && d.bbox.x1 < 1.0 && d.bbox.x2 > 0.0
              && d.bbox.y1 < d.bbox.y2 && d.bbox.y1 < 1.0 && d.bbox.y2 > 0.0
  {
    ThousandthsInRange(d.confidence);
  }

  lemma ThousandthsInRange(x: real)
    ensures 0 <= Thousandths(x) <= 1000 <==> -0.0005 <= x <= 1.0005
  {
  }

  function Kept(raw: seq<RawDetection>, floor: real): seq<RawDetection> {
    if raw == [] then []
    else Kept(raw[..|raw| - 1], floor) + if raw[|raw| - 1].confidence >= floor then [raw[|raw| - 1]] else []
  }

  function OnlyReported(ds: seq<DetectionRow>): seq<DetectionRow> {
    if ds == [] then [] else OnlyReported(ds[..|ds| - 1]) + if ds[|ds| - 1].isReported then [ds[|ds| - 1]] else []
  }

  datatype Detections = Detections(stored: seq<DetectionRow>, reportable: seq<DetectionRow>)

  /** What is stored and reported of the detections kept, or the first refusal: building the rows stops at the first
      unknown class, and a row the table refuses fails the flush after that. */
  ghost predicate StoredAs(kept: seq<RawDetection>, minReport: real, r: Result<Detections, DetectionError>) {
    match r
    case Ok(ds) =>
      && |ds.stored| == |kept|
      && (forall i :: 0 <= i < |kept| ==>
            && Storable(kept[i])
            && ds.stored[i] == RowOf(kept[i], ClassOf(kept[i].className).value, minReport))
      && ds.reportable == OnlyReported(ds.stored) && |ds.reportable| == |Kept(kept, minReport)|
    case Err(UnknownClass(name)) =>
      exists i ::
        && 0 <= i < |kept| && ClassOf(kept[i].className).None? && kept[i].className == name
        && forall j :: 0 <= j < i ==> ClassOf(kept[j].className).Some?
    case Err(RowRejected) =>
      && (forall i :: 0 <= i < |kept| ==> ClassOf(kept[i].className).Some?)
      && exists i :: 0 <= i < |kept| && !Storable(kept[i])
  }

  /** Every detection kept is stored, or none: that is the case exactly when all of them can be. */
  lemma StoredExactlyWhenAllStorable(kept: seq<RawDetection>, minReport: real, r: Result<Detections, DetectionError>)
    requires StoredAs(kept, minReport, r)
    ensures r.Ok? <==> forall i :: 0 <= i < |kept| ==> Storable(kept[i])
  {
  }

  /** Stores everything at or above the storing threshold, reports what also reaches the reporting one,
      and leaves PROCESSING for DETECTED exactly when something is reported. A refusal leaves the image as it was. */
  method ProcessImage(image: InspectionImage, raw: seq<RawDetection>, minStore: real, minReport: real, now: nat)
      returns (r: Result<Detections, DetectionError>)
    requires image.status == Processing
    modifies image
    ensures StoredAs(Kept(raw, minStore), minReport, r)
    ensures r.Err? ==> image.Value() == old(image.Value())
    ensures r.Ok? ==> image.Value() == if r.value.reportable != [] then Row(Detected, None, None)
                                       else Row(Completed, None, Some(now))
  {
    hide Kept, OnlyReported, Storable, RowOf, ClassOf;
    var kept := KeepAtLeast(raw, minStore);
    var reportableRaw := KeepAtLeast(kept, minReport);
    r := StoreKept(kept, minReport);
    if r.Err? {
      return r;
    }
    if reportableRaw != [] {
      var moved := image.Transition(Detected, None, now);
    } else {
      var moved := image.Transition(Completed, None, now);
    }
  }

  lemma KeptStep(raw: seq<RawDetection>, i: nat, floor: real)
    requires i < |raw|
    ensures Kept(raw[..i + 1], floor) == Kept(raw[..i], floor) + if raw[i].confidence >= floor then [raw[i]] else []
  {
    assert raw[..i + 1][..i] == raw[..i];
  }

  lemma ReportedStep(stored: seq<DetectionRow>, d: DetectionRow)
    ensures OnlyReported(stored + [d]) == OnlyReported(stored) + if d.isReported then [d] else []
  {
    assert (stored + [d])[..|stored|] == stored;
  }

  /** Rows built from the first detections kept. */
  ghost predicate BuiltFrom(kept: seq<RawDetection>, minReport: real, stored: seq<DetectionRow>) {
    && |stored| <= |kept|
    && forall i :: 0 <= i < |stored| ==>
         && ClassOf(kept[i].className).Some?
         && stored[i] == RowOf(kept[i], ClassOf(kept[i].className).value, minReport)
  }

  lemma BuiltOneMore(kept: seq<RawDetection>, minReport: real, stored: seq<DetectionRow>)
    requires BuiltFrom(kept, minReport, stored) && |stored| < |kept|
    ensures match ClassOf(kept[|stored|].className)
            case None => StoredAs(kept, minReport, Err(UnknownClass(kept[|stored|].className)))
            case Some(t) => BuiltFrom(kept, minReport, stored + [RowOf(kept[|stored|], t, minReport)])
  {
    hide RowOf, ClassOf, Kept, OnlyReported, Storable;
  }

  /** The loop that builds the rows, before the table has seen any. */
  method BuildRows(kept: seq<RawDetection>, minReport: real) returns (r: Result<Detections, DetectionError>)
    ensures r.Ok? ==>
              && |r.value.stored| == |kept| && BuiltFrom(kept, minReport, r.value.stored)
              && r.value.reportable == OnlyReported(r.value.stored)
              && |r.value.reportable| == |Kept(kept, minReport)|
    ensures r.Err? ==> r.error.UnknownClass? && StoredAs(kept, minReport, r)
  {
    var stored: seq<DetectionRow>, reportable: seq<DetectionRow> := [], [];
    assert Kept(kept[..0], minReport) == [] && OnlyReported([]) == [] && BuiltFrom(kept, minReport, []);
    hide RowOf, ClassOf, Storable, Kept, OnlyReported, BuiltFrom, StoredAs;
    for i := 0 to |kept|
      invariant |stored| == i && BuiltFrom(kept, minReport, stored)
      invariant |reportable| == |Kept(kept[..i], minReport)|
      invariant reportable == OnlyReported(stored)
    {
      KeptStep(kept, i, minReport);
      BuiltOneMore(kept, minReport, stored);
      var t := ClassOf(kept[i].className);
      if t.None? {
        return Err(UnknownClass(kept[i].className));
      }
      var d := RowOf(kept[i], t.value, minReport);
      RowFields(kept[i], t.value, minReport);
      ReportedStep(stored, d);
      stored := stored + [d];
      if d.isReported {
        reportable := reportable + [d];
      }
    }
    assert kept[..|kept|] == kept;
    return Ok(Detections(stored, reportable));
  }

  method StoreKept(kept: seq<RawDetection>, minReport: real) returns (r: Result<Detections, DetectionError>)
    ensures StoredAs(kept, minReport, r)
  {
    hide RowOf, ClassOf, Storable, Kept, OnlyReported, Admitted;
    r := BuildRows(kept, minReport);
    if r.Err? {
      return r;
    }
    var stored := r.value.stored;
    forall k | 0 <= k < |kept| ensures Storable(kept[k]) <==> Admitted(stored[k]) {
      StorableIsAdmitted(kept[k], minReport);
    }
    var admitted := Flush(stored);
    if !admitted {
      r := Err(RowRejected);
    }
  }

  /** The INSERT of all rows at once: one refused row refuses them all. */
  method Flush(rows: seq<DetectionRow>) returns (admitted: bool)
    ensures admitted <==> forall i :: 0 <= i < |rows| ==> Admitted(rows[i])
  {
    for i := 0 to |rows|
      invariant forall k :: 0 <= k < i ==> Admitted(rows[k])
    {
      if !Admitted(rows[i]) {
        return false;
      }
    }
    return true;
  }

  lemma RowFields(d: RawDetection, t: DefectType, minReport: real)
    ensures RowOf(d, t, minReport).isReported == (d.confidence >= minReport)
  {
  }

  lemma StorableIsAdmitted(d: RawDetection, minReport: real)
    requires ClassOf(d.className).Some?
    ensures Storable(d) <==> Admitted(RowOf(d, ClassOf(d.className).value, minReport))
  {
  }

  method KeepAtLeast(raw: seq<RawDetection>, floor: real) returns (kept: seq<RawDetection>)
    ensures kept == Kept(raw, floor)
  {
    kept := [];
    for i := 0 to |raw|
      invariant kept == Kept(raw[..i], floor)
    {
      KeptStep(raw, i, floor);
      if raw[i].confidence >= floor {
        kept := kept + [raw[i]];
      }
    }
    assert raw[..|raw|] == raw;
  }

  datatype Finding = Finding(detection: DetectionRow, severity: Severity)

  ghost predicate IsHighest(s: Severity, severities: seq<Severity>) {
    s in severities && forall t :: t in severities ==> Rank(t) <= Rank(s)
  }

  function Severities(ds: seq<DetectionRow>): (s: seq<Severity>)
    ensures |s| == |ds| && forall i :: 0 <= i < |s| ==> s[i] == DefaultSeverity(ds[i].defectType)
  {
    seq(|ds|, i requires 0 <= i < |ds| => DefaultSeverity(ds[i].defectType))
  }

  method ComputeSeverityMax(ds: seq<DetectionRow>) returns (s: Severity)
    requires ds != []
    ensures IsHighest(s, Severities(ds))
  {
    s := DefaultSeverity(ds[0].defectType);
    assert Severities(ds)[0] == s;
    for i := 1 to |ds|
      invariant s in Severities(ds)
      invariant forall k :: 0 <= k < i ==> Rank(Severities(ds)[k]) <= Rank(s)
    {
      assert Severities(ds)[i] in Severities(ds);
      if Rank(DefaultSeverity(ds[i].defectType)) > Rank(s) {
        s := DefaultSeverity(ds[i].defectType);
      }
    }
  }

  /** One finding per reported detection, in order; the image leaves DETECTED in the same transaction. */
  method CreateBaselineAnalysis(image: InspectionImage, reportable: seq<DetectionRow>, to: Status, now: nat)
      returns (findings: seq<Finding>, severityMax: Severity)
    requires image.status == Detected && reportable != [] && to in {Analyzing, Completed}
    modifies image
    ensures |findings| == |reportable|
    ensures forall i :: 0 <= i < |findings| ==>
            findings[i] == Finding(reportable[i], DefaultSeverity(reportable[i].defectType))
    ensures IsHighest(severityMax, Severities(reportable))
    ensures image.Value() == Row(to, None, if to == Completed then Some(now) else None)
  {
    findings := [];
    for i := 0 to |reportable|
      invariant |findings| == i
      invariant forall k :: 0 <= k < i ==>
                findings[k] == Finding(reportable[k], DefaultSeverity(reportable[k].defectType))
    {
      findings := findings + [Finding(reportable[i], DefaultSeverity(reportable[i].defectType))];
    }
    severityMax := ComputeSeverityMax(reportable);
    var r := image.Transition(to, None, now);
  }

  /** The row the inference stage's second commit writes. */
  function FinishedRow(anyReported: bool, toAgents: bool, now: nat): Row {
    if anyReported && toAgents then Row(Analyzing, None, None) else Row(Completed, None, Some(now))
  }

  datatype StageResult = StageResult(detections: Detections, findings: Option<seq<Finding>>, enqueue: bool)

  /** The stage between its two commits: DETECTED exists in memory only, and a refusal commits nothing. */
  method RunInferenceStage(image: InspectionImage, raw: seq<RawDetection>, minStore: real, minReport: real,
                           agentsWanted: bool, now: nat)
      returns (r: Result<StageResult, DetectionError>)
    requires image.status == Processing
    modifies image
    ensures r.Ok? <==> forall i :: 0 <= i < |Kept(raw, minStore)| ==> Storable(Kept(raw, minStore)[i])
    ensures r.Err? ==> image.Value() == old(image.Value())
    ensures r.Ok? ==>
              var reported := Kept(Kept(raw, minStore), minReport);
              && StoredAs(Kept(raw, minStore), minReport, Ok(r.value.detections))
              && image.Value() == FinishedRow(reported != [], agentsWanted, now)
              && (r.value.findings.Some? <==> reported != [])
              && (r.value.findings.Some? ==> |r.value.findings.value| == |reported|)
              && (r.value.enqueue <==> reported != [] && agentsWanted)
  {
    hide Kept, OnlyReported, Storable, RowOf, ClassOf;
    var processed := ProcessImage(image, raw, minStore, minReport, now);
    StoredExactlyWhenAllStorable(Kept(raw, minStore), minReport, processed);
    if processed.Err? {
      return Err(processed.error);
    }
    var reportable := processed.value.reportable;
    if reportable == [] {
      return Ok(StageResult(processed.value, None, false));
    }
    var to := if agentsWanted then Analyzing else Completed;
    var findings, severityMax := CreateBaselineAnalysis(image, reportable, to, now);
    return Ok(StageResult(processed.value, Some(findings), agentsWanted));
  }
}
