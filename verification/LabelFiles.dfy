/** YOLO label files: the dataset exporter that writes them and the golden-set loader that reads them. */
module LabelFiles {
  import opened Boxes
  import opened Counting
  import opened DecimalText
  import opened Defects
  import opened TextLines
  import opened Wrappers
  import Matching
  import MeanAp

  datatype Review = Unreviewed | Confirmed | FalsePositive

  datatype Detection = Detection(image: string, defectType: DefectType, bbox: BBox, review: Review)

  predicate ValidDetection(d: Detection) { ValidBox(d.bbox) }

  function LabelLine(d: Detection): string
    requires ValidDetection(d)
  {
    var c := ToCentre(d.bbox);
    Digits(Index(d.defectType)) + " " + FormatReal(c.cx) + " " + FormatReal(c.cy) + " "
    + FormatReal(c.w) + " " + FormatReal(c.h)
  }

  function LabelLines(ds: seq<Detection>): seq<string>
    requires forall i :: 0 <= i < |ds| ==> ValidDetection(ds[i])
  {
    if ds == [] then [] else [LabelLine(ds[0])] + LabelLines(ds[1..])
  }

  function Join(lines: seq<string>): string {
    if lines == [] then "" else if |lines| == 1 then lines[0] else lines[0] + "\n" + Join(lines[1..])
  }

  function FileContent(lines: seq<string>): string {
    var content := Join(lines);
    if content == "" then "" else content + "\n"
  }

  // ---- reading ----

  datatype ParseError = TooFewFields | BadNumber | BadClass

  function ClassAt(classes: seq<string>, idx: int): Option<string> {
    if 0 <= idx < |classes| then Some(classes[idx])
    else if -|classes| <= idx < 0 then Some(classes[|classes| + idx])
    else None
  }

  function ParseFields(words: seq<string>, classes: seq<string>): Result<MeanAp.GroundTruthBox, ParseError> {
    if |words| < 5 then Err(TooFewFields) else
    var idx := ParseInt(words[0]);
    if idx.None? then Err(BadNumber) else
    var cls := ClassAt(classes, idx.value);
    if cls.None? then Err(BadClass) else
    var cx, cy, w, h := ParseReal(words[1]), ParseReal(words[2]), ParseReal(words[3]), ParseReal(words[4]);
    if cx.None? || cy.None? || w.None? || h.None? then Err(BadNumber)
    else Ok(MeanAp.GroundTruthBox(cls.value, ToCorners(CentreBox(cx.value, cy.value, w.value, h.value))))
  }

  /** Blank lines are skipped; the first malformed line ends the reading. */
  function ParseLines(lines: seq<string>, classes: seq<string>): Result<seq<MeanAp.GroundTruthBox>, ParseError> {
    if lines == [] then Ok([]) else
    var words := Words(lines[0]);
    if words == [] then ParseLines(lines[1..], classes) else
    match ParseFields(words, classes)
    case Err(e) => Err(e)
    case Ok(box) =>
      match ParseLines(lines[1..], classes)
      case Err(e) => Err(e)
      case Ok(rest) => Ok([box] + rest)
  }

  function ParseText(text: Option<string>, classes: seq<string>): Result<seq<MeanAp.GroundTruthBox>, ParseError> {
    match text
    case None => Ok([])
    case Some(t) => ParseLines(Lines(t), classes)
  }

  function Prepend(boxes: seq<MeanAp.GroundTruthBox>, r: Result<seq<MeanAp.GroundTruthBox>, ParseError>):
      Result<seq<MeanAp.GroundTruthBox>, ParseError>
  {
    match r
    case Ok(rest) => Ok(boxes + rest)
    case Err(e) => Err(e)
  }

  lemma ParseOneMore(lines: seq<string>, i: nat, classes: seq<string>, boxes: seq<MeanAp.GroundTruthBox>)
    requires i < |lines|
    ensures var words := Words(lines[i]);
            var here := Prepend(boxes, ParseLines(lines[i..], classes));
            if words == [] then here == Prepend(boxes, ParseLines(lines[i + 1..], classes))
            else match ParseFields(words, classes)
                 case Err(e) => here == Err(e)
                 case Ok(box) => here == Prepend(boxes + [box], ParseLines(lines[i + 1..], classes))
  {
    hide ParseFields, Words;
    assert lines[i..][0] == lines[i] && lines[i..][1..] == lines[i + 1..];
    var words := Words(lines[i]);
    var rest := ParseLines(lines[i + 1..], classes);
    if words != [] && ParseFields(words, classes).Ok? && rest.Ok? {
      var box := ParseFields(words, classes).value;
      assert boxes + ([box] + rest.value) == (boxes + [box]) + rest.value;
    }
  }

  /** Reads a label file; a missing file means an image without defects. */
  method LoadGroundTruth(text: Option<string>, classes: seq<string>)
        returns (r: Result<seq<MeanAp.GroundTruthBox>, ParseError>)
    ensures r == ParseText(text, classes)
  {
    hide ParseFields, Words, Lines, ParseLines;
    if text.None? {
      return Ok([]);
    }
    var lines := Lines(text.value);
    var boxes: seq<MeanAp.GroundTruthBox> := [];
    NoLinesLeft(lines, boxes, classes);
    for i := 0 to |lines|
      invariant Prepend(boxes, ParseLines(lines[i..], classes)) == ParseLines(lines, classes)
    {
      ParseOneMore(lines, i, classes, boxes);
      var words := Words(lines[i]);
      if words == [] {
        continue;
      }
      var box := ParseFields(words, classes);
      if box.Err? {
        return Err(box.error);
      }
      boxes := boxes + [box.value];
    }
    NoLinesLeft(lines, boxes, classes);
    r := Ok(boxes);
  }

  lemma NoLinesLeft(lines: seq<string>, boxes: seq<MeanAp.GroundTruthBox>, classes: seq<string>)
    ensures Prepend(boxes, ParseLines(lines[|lines|..], classes)) == Ok(boxes)
    ensures Prepend([], ParseLines(lines[0..], classes)) == ParseLines(lines, classes)
  {
    hide ParseFields, Words;
    assert lines[0..] == lines && lines[|lines|..] == [] && boxes + [] == boxes;
    var whole := ParseLines(lines, classes);
    if whole.Ok? { assert [] + whole.value == whole.value; }
  }

  // ---- the round trip ----

  function RoundedCentre(c: CentreBox): CentreBox {
    CentreBox(Rounded(c.cx), Rounded(c.cy), Rounded(c.w), Rounded(c.h))
  }

  function Rounded(x: real): real { RoundMicros(x) as real / MICRO as real }

  predicate CentreOnGrid(c: CentreBox) { OnGrid(c.cx) && OnGrid(c.cy) && OnGrid(c.w) && OnGrid(c.h) }

  lemma FormatReadsRounded(x: real)
    requires x >= 0.0
    ensures ParseReal(FormatReal(x)) == Some(Rounded(x)) && IsWord(FormatReal(x))
    ensures Abs(Rounded(x) - x) <= 0.000_000_5
    ensures OnGrid(x) ==> Rounded(x) == x
  {
    ParseUndoesPrint(RoundMicros(x));
    FormatError(x);
  }

  lemma WordsOfFive(a: string, b: string, c: string, d: string, e: string)
    requires IsWord(a) && IsWord(b) && IsWord(c) && IsWord(d) && IsWord(e)
    ensures Words(a + " " + b + " " + c + " " + d + " " + e) == [a, b, c, d, e]
  {
    hide Words, IsWord;
    WordsCons(e, "");
    WordsCons(d, e);
    WordsCons(c, d + " " + e);
    WordsCons(b, c + " " + (d + " " + e));
    WordsCons(a, b + " " + (c + " " + (d + " " + e)));
    assert a + " " + b + " " + c + " " + d + " " + e == a + " " + (b + " " + (c + " " + (d + " " + e)));
    assert [a] + ([b] + ([c] + ([d] + [e]))) == [a, b, c, d, e];
  }

  /** One printed line reads back as the class name and the box of the rounded numbers. */
  lemma {:induction false} LineRoundTrip(d: Detection)
    requires ValidDetection(d)
    ensures ParseFields(Words(LabelLine(d)), CLASS_NAMES)
         == Ok(MeanAp.GroundTruthBox(Name(d.defectType), ToCorners(RoundedCentre(ToCentre(d.bbox)))))
    ensures Words(LabelLine(d)) != []
  {
    hide ParseReal, FormatReal, Rounded, Words, IsWord, Digits, ParseInt, OnGrid;
    var c := ToCentre(d.bbox);
    ParseIntUndoesDigits(Index(d.defectType));
    FormatReadsRounded(c.cx);
    FormatReadsRounded(c.cy);
    FormatReadsRounded(c.w);
    FormatReadsRounded(c.h);
    WordsOfFive(Digits(Index(d.defectType)), FormatReal(c.cx), FormatReal(c.cy), FormatReal(c.w), FormatReal(c.h));
  }

  lemma WordIsOneLine(w: string)
    requires IsWord(w)
    ensures OneLine(w)
  {
    assert forall i :: 0 <= i < |w| ==> w[i] != '\n';
  }

  lemma LabelLineIsOneLine(d: Detection)
    requires ValidDetection(d)
    ensures OneLine(LabelLine(d)) && LabelLine(d) != ""
  {
    hide ParseReal, FormatReal, Rounded, IsWord, Digits, OnGrid, RoundMicros;
    var c := ToCentre(d.bbox);
    ParseIntUndoesDigits(Index(d.defectType));
    FormatReadsRounded(c.cx);
    FormatReadsRounded(c.cy);
    FormatReadsRounded(c.w);
    FormatReadsRounded(c.h);
    WordIsOneLine(Digits(Index(d.defectType)));
    WordIsOneLine(FormatReal(c.cx));
    WordIsOneLine(FormatReal(c.cy));
    WordIsOneLine(FormatReal(c.w));
    WordIsOneLine(FormatReal(c.h));
  }

  lemma FirstAndRest<T>(s: seq<T>, last: T)
    requires s != []
    ensures [s[0]] + (s[1..] + [last]) == s + [last]
  {
  }

  lemma JoinStep(lines: seq<string>)
    requires lines != []
    ensures Join(lines) + "\n" == lines[0] + "\n" + if |lines| == 1 then "" else Join(lines[1..]) + "\n"
  {
  }

  lemma {:induction false} LinesOfFile(lines: seq<string>)
    requires lines != [] && forall i :: 0 <= i < |lines| ==> OneLine(lines[i])
    ensures Lines(Join(lines) + "\n") == lines + [""]
    decreases |lines|
  {
    assert Lines("") == [""];
    JoinStep(lines);
    FirstAndRest(lines, "");
    hide Lines, OneLine, Join;
    if |lines| == 1 {
      LinesOfOneLine(lines[0], "");
      assert lines[1..] == [];
    } else {
      LinesOfFile(lines[1..]);
      LinesOfOneLine(lines[0], Join(lines[1..]) + "\n");
    }
  }

  lemma {:induction false} ParseLinesAfter(lines: seq<string>, classes: seq<string>)
    ensures ParseLines(lines + [""], classes) == ParseLines(lines, classes)
  {
    if lines == [] {
      assert lines + [""] == [""] && [""][1..] == [] && Words("") == [];
    } else {
      assert (lines + [""])[1..] == lines[1..] + [""];
      ParseLinesAfter(lines[1..], classes);
    }
  }

  /** The box read back for a detection. */
  function ReadBack(d: Detection): MeanAp.GroundTruthBox {
    MeanAp.GroundTruthBox(Name(d.defectType), ToCorners(RoundedCentre(ToCentre(d.bbox))))
  }

  function ReadBackAll(ds: seq<Detection>): (boxes: seq<MeanAp.GroundTruthBox>)
    ensures |boxes| == |ds| && forall i :: 0 <= i < |ds| ==> boxes[i] == ReadBack(ds[i])
  {
    seq(|ds|, i requires 0 <= i < |ds| => ReadBack(ds[i]))
  }

  lemma {:induction false} ParseLinesOfPrinted(ds: seq<Detection>)
    requires forall i :: 0 <= i < |ds| ==> ValidDetection(ds[i])
    ensures ParseLines(LabelLines(ds), CLASS_NAMES) == Ok(ReadBackAll(ds))
    ensures |LabelLines(ds)| == |ds|
    ensures forall i :: 0 <= i < |ds| ==> OneLine(LabelLines(ds)[i]) && LabelLines(ds)[i] != ""
  {
    hide LabelLine, ReadBack, ParseFields, OneLine;
    if ds != [] {
      ParseLinesOfPrinted(ds[1..]);
      LabelLineIsOneLine(ds[0]);
      LineReadsBack(ds[0]);
      assert LabelLines(ds)[1..] == LabelLines(ds[1..]);
      assert ReadBackAll(ds) == [ReadBack(ds[0])] + ReadBackAll(ds[1..]);
    }
  }

  lemma LineReadsBack(d: Detection)
    requires ValidDetection(d)
    ensures Words(LabelLine(d)) != [] && ParseFields(Words(LabelLine(d)), CLASS_NAMES) == Ok(ReadBack(d))
  {
    LineRoundTrip(d);
  }

  lemma ReadBackIsClose(d: Detection)
    requires ValidDetection(d)
    ensures CornersWithin(ReadBack(d).bbox, d.bbox, 0.000_000_75)
    ensures CentreOnGrid(ToCentre(d.bbox)) ==> ReadBack(d).bbox == d.bbox
  {
    hide ParseReal, FormatReal, Rounded, RoundMicros, OnGrid, IsWord, Name;
    var c := ToCentre(d.bbox);
    FormatReadsRounded(c.cx);
    FormatReadsRounded(c.cy);
    FormatReadsRounded(c.w);
    FormatReadsRounded(c.h);
    CornerError(d.bbox, RoundedCentre(c), 0.000_000_5);
  }

  /** Writing detections and loading the file gives back as many boxes, in order, with their class names,
      each corner within 0.75e-6, and exactly the original box when its numbers need no rounding. */
  lemma {:induction false} FileRoundTrip(ds: seq<Detection>)
    requires forall i :: 0 <= i < |ds| ==> ValidDetection(ds[i])
    ensures var r := ParseText(Some(FileContent(LabelLines(ds))), CLASS_NAMES);
            && r.Ok? && |r.value| == |ds|
            && forall i :: 0 <= i < |ds| ==>
                 && r.value[i].defectType == Name(ds[i].defectType)
                 && CornersWithin(r.value[i].bbox, ds[i].bbox, 0.000_000_75)
                 && (CentreOnGrid(ToCentre(ds[i].bbox)) ==> r.value[i].bbox == ds[i].bbox)
  {
    assert LabelLines([]) == [] && Lines("") == [""] && [""][1..] == [] && Words("") == [];
    assert ParseLines(Lines(""), CLASS_NAMES) == Ok([]);
    hide LabelLine, LabelLines, ParseLines, Lines, CornersWithin, CentreOnGrid, ToCentre;
    var lines := LabelLines(ds);
    ParseLinesOfPrinted(ds);
    forall i | 0 <= i < |ds|
      ensures && ReadBack(ds[i]).defectType == Name(ds[i].defectType)
              && CornersWithin(ReadBack(ds[i]).bbox, ds[i].bbox, 0.000_000_75)
      ensures CentreOnGrid(ToCentre(ds[i].bbox)) ==> ReadBack(ds[i]).bbox == ds[i].bbox
    {
      ReadBackIsClose(ds[i]);
    }
    if ds != [] {
      assert Join(lines) != "" by { assert lines[0] != ""; }
      LinesOfFile(lines);
      ParseLinesAfter(lines, CLASS_NAMES);
    }
  }

  // ---- grouping and statistics ----

  datatype LabelFile = LabelFile(image: string, content: string)

  datatype Statistics = Statistics(imageCount: nat, labelCount: nat, byDefectType: map<DefectType, nat>,
                                   byReview: map<Review, nat>)

  type Grouped = Matching.PerImage<Detection>

  function OfImage(rows: seq<Detection>, image: string): seq<Detection> {
    if rows == [] then []
    else OfImage(rows[..|rows| - 1], image) + if rows[|rows| - 1].image == image then [rows[|rows| - 1]] else []
  }

  function ConfirmedOf(ds: seq<Detection>): seq<Detection> {
    if ds == [] then [] else ConfirmedOf(ds[..|ds| - 1]) + if ds[|ds| - 1].review.Confirmed? then [ds[|ds| - 1]] else []
  }

  ghost predicate Mentions(rows: seq<Detection>, image: string) {
    exists i :: 0 <= i < |rows| && rows[i].image == image
  }

  /** An image stands before another only if some row of it comes before all rows of the other. */
  ghost predicate ByFirstAppearance(images: seq<string>, rows: seq<Detection>) {
    forall i, j :: 0 <= i < j < |images| ==> AppearsBefore(images[i], images[j], rows)
  }

  ghost predicate AppearsBefore(a: string, b: string, rows: seq<Detection>) {
    forall k :: 0 <= k < |rows| && rows[k].image == b ==> Mentions(rows[..k], a)
  }

  /** Each image once, by first appearance, with its detections in query order. */
  ghost predicate IsGroupingOf(grouped: Grouped, rows: seq<Detection>) {
    && grouped.Valid() && ByFirstAppearance(grouped.images, rows)
    && (forall image :: image in grouped.items <==> Mentions(rows, image))
    && (forall image :: image in grouped.items ==> grouped.items[image] == OfImage(rows, image))
  }

  /** Get-or-create the image's list, then append. */
  function AddRow(g: Grouped, d: Detection): Grouped {
    var images := if d.image in g.items then g.images else g.images + [d.image];
    Matching.PerImage(images, g.items[d.image := g.Of(d.image) + [d]])
  }

  lemma AddRowKeepsGrouping(g: Grouped, rows: seq<Detection>, d: Detection)
    requires IsGroupingOf(g, rows)
    ensures IsGroupingOf(AddRow(g, d), rows + [d])
  {
    hide OfImage, Mentions;
    forall image ensures Mentions(rows + [d], image) <==> image == d.image || Mentions(rows, image) {
      MentionsSnoc(rows, d, image);
    }
    forall image ensures OfImage(rows + [d], image) == OfImage(rows, image) + if d.image == image then [d] else [] {
      OfImageSnoc(rows, d, image);
    }
    if d.image !in g.items { OfImageNone(rows, d.image); }
    forall i, j | 0 <= i < j < |AddRow(g, d).images|
      ensures AppearsBefore(AddRow(g, d).images[i], AddRow(g, d).images[j], rows + [d])
    {
      var images := AddRow(g, d).images;
      assert images[i] in g.images;
      AppearsBeforeSnoc(images[i], images[j], rows, d);
    }
  }

  lemma AppearsBeforeSnoc(a: string, b: string, rows: seq<Detection>, d: Detection)
    requires Mentions(rows, a) && (AppearsBefore(a, b, rows) || !Mentions(rows, b))
    ensures AppearsBefore(a, b, rows + [d])
  {
    var more := rows + [d];
    forall k | 0 <= k < |more| && more[k].image == b ensures Mentions(more[..k], a) {
      if k < |rows| {
        assert rows[k].image == b && more[..k] == rows[..k];
      } else {
        assert more[..k] == rows;
      }
    }
  }

  lemma MentionsSnoc(rows: seq<Detection>, d: Detection, image: string)
    ensures Mentions(rows + [d], image) <==> image == d.image || Mentions(rows, image)
  {
    var more := rows + [d];
    assert more[|rows|] == d && forall k :: 0 <= k < |rows| ==> more[k] == rows[k];
    if i :| 0 <= i < |rows| && rows[i].image == image { assert more[i].image == image; }
  }

  lemma OfImageSnoc(rows: seq<Detection>, d: Detection, image: string)
    ensures OfImage(rows + [d], image) == OfImage(rows, image) + if d.image == image then [d] else []
  {
    assert (rows + [d])[..|rows|] == rows;
  }

  lemma {:induction false} OfImageNone(rows: seq<Detection>, image: string)
    requires !Mentions(rows, image)
    ensures OfImage(rows, image) == []
  {
    if rows != [] { OfImageNone(rows[..|rows| - 1], image); }
  }

  lemma NothingGrouped()
    ensures IsGroupingOf(Matching.PerImage([], map[]), [])
  {
  }

  method GroupByImage(rows: seq<Detection>) returns (grouped: Grouped)
    ensures IsGroupingOf(grouped, rows)
  {
    hide IsGroupingOf;
    NothingGrouped();
    var images: seq<string>, items: map<string, seq<Detection>> := [], map[];
    for i := 0 to |rows|
      invariant IsGroupingOf(Matching.PerImage(images, items), rows[..i])
    {
      var d := rows[i];
      AddRowKeepsGrouping(Matching.PerImage(images, items), rows[..i], d);
      assert rows[..i + 1] == rows[..i] + [d];
      ghost var next := AddRow(Matching.PerImage(images, items), d);
      if d.image !in items {
        images, items := images + [d.image], items[d.image := []];
      }
      items := items[d.image := items[d.image] + [d]];
      assert items == next.items;
    }
    assert rows[..|rows|] == rows;
    grouped := Matching.PerImage(images, items);
  }

  /** The grouped detections, image after image. */
  function Flat(g: Grouped, n: nat): seq<Detection>
    requires n <= |g.images|
  {
    if n == 0 then [] else Flat(g, n - 1) + g.Of(g.images[n - 1])
  }

  lemma {:induction false} CountOfImage(rows: seq<Detection>, image: string, p: Detection -> bool)
    ensures Count(OfImage(rows, image), p) == Count(rows, (d: Detection) => d.image == image && p(d))
  {
    if rows != [] {
      var n := |rows| - 1;
      CountOfImage(rows[..n], image, p);
      assert rows == rows[..n] + [rows[n]];
      CountSnoc(rows[..n], rows[n], (d: Detection) => d.image == image && p(d));
      if rows[n].image == image {
        CountSnoc(OfImage(rows[..n], image), rows[n], p);
      } else {
        assert OfImage(rows[..n], image) + [] == OfImage(rows[..n], image);
      }
    }
  }

  lemma {:induction false} CountDisjoint(rows: seq<Detection>, images: seq<string>, image: string, p: Detection -> bool)
    requires image !in images
    ensures Count(rows, (d: Detection) => d.image in images + [image] && p(d))
         == Count(rows, (d: Detection) => d.image in images && p(d))
          + Count(rows, (d: Detection) => d.image == image && p(d))
  {
    if rows != [] { CountDisjoint(rows[1..], images, image, p); }
  }

  function InAnyAnd(images: seq<string>, p: Detection -> bool): Detection -> bool {
    (d: Detection) => d.image in images && p(d)
  }

  lemma {:induction false} CountFlat(g: Grouped, rows: seq<Detection>, n: nat, p: Detection -> bool)
    requires IsGroupingOf(g, rows) && n <= |g.images|
    ensures Count(Flat(g, n), p) == Count(rows, InAnyAnd(g.images[..n], p))
  {
    hide Count, OfImage, InAnyAnd, IsGroupingOf;
    if n == 0 {
      NoneInNoImages(rows, p);
      assert g.images[..0] == [];
    } else {
      CountFlat(g, rows, n - 1, p);
      var image, before := g.images[n - 1], g.images[..n - 1];
      GroupHoldsItsRows(g, rows, n - 1);
      CountFlatStep(Flat(g, n - 1), rows, before, image, p);
      assert g.images[..n] == before + [image];
    }
  }

  lemma GroupHoldsItsRows(g: Grouped, rows: seq<Detection>, n: nat)
    requires IsGroupingOf(g, rows) && n < |g.images|
    ensures g.Of(g.images[n]) == OfImage(rows, g.images[n]) && g.images[n] !in g.images[..n]
  {
  }

  lemma NoneInNoImages(rows: seq<Detection>, p: Detection -> bool)
    ensures Count(rows, InAnyAnd([], p)) == Count([], p) == 0
  {
    SameCount(rows, InAnyAnd([], p), (d: Detection) => false);
    CountNever(rows);
  }

  lemma CountFlatStep(flat: seq<Detection>, rows: seq<Detection>, before: seq<string>, image: string,
                      p: Detection -> bool)
    requires image !in before && Count(flat, p) == Count(rows, InAnyAnd(before, p))
    ensures Count(flat + OfImage(rows, image), p) == Count(rows, InAnyAnd(before + [image], p))
  {
    CountAppend(flat, OfImage(rows, image), p);
    CountOfImage(rows, image, p);
    CountDisjoint(rows, before, image, p);
    SameCount(rows, InAnyAnd(before, p), (d: Detection) => d.image in before && p(d));
    SameCount(rows, InAnyAnd(before + [image], p), (d: Detection) => d.image in before + [image] && p(d));
  }

  lemma {:induction false} CountNever(rows: seq<Detection>)
    ensures Count(rows, (d: Detection) => false) == 0
  {
    if rows != [] { CountNever(rows[1..]); }
  }

  /** Grouping by image neither drops nor repeats a detection, whatever is being counted. */
  lemma {:induction false} GroupingConservesCounts(g: Grouped, rows: seq<Detection>, p: Detection -> bool)
    requires IsGroupingOf(g, rows)
    ensures Count(Flat(g, |g.images|), p) == Count(rows, p)
  {
    CountFlat(g, rows, |g.images|, p);
    assert g.images[..|g.images|] == g.images;
    forall i | 0 <= i < |rows| ensures rows[i].image in g.images {
      assert Mentions(rows, rows[i].image);
    }
    SameCount(rows, InAnyAnd(g.images, p), p);
  }

  function AtReview(m: map<Review, nat>, r: Review): nat { if r in m then m[r] else 0 }

  function WithReview(r: Review): Detection -> bool { (d: Detection) => d.review == r }

  function ConfirmedAs(t: DefectType): Detection -> bool { (d: Detection) => d.review.Confirmed? && d.defectType == t }

  const IS_CONFIRMED: Detection -> bool := (d: Detection) => d.review.Confirmed?

  /** Every counter says what its name says about the detections seen so far. */
  ghost predicate CountsOf(stats: Statistics, seen: seq<Detection>) {
    && stats.labelCount == Count(seen, IS_CONFIRMED)
    && (forall t :: At(stats.byDefectType, t) == Count(seen, ConfirmedAs(t)))
    && (forall r :: AtReview(stats.byReview, r) == Count(seen, WithReview(r)))
  }

  method CountImage(stats0: Statistics, ghost seen: seq<Detection>, detections: seq<Detection>)
      returns (stats: Statistics, lines: seq<string>)
    requires CountsOf(stats0, seen) && forall i :: 0 <= i < |detections| ==> ValidDetection(detections[i])
    ensures CountsOf(stats, seen + detections) && stats.imageCount == stats0.imageCount
    ensures forall i :: 0 <= i < |ConfirmedOf(detections)| ==> ValidDetection(ConfirmedOf(detections)[i])
    ensures lines == LabelLines(ConfirmedOf(detections))
  {
    hide LabelLine, ValidDetection, CountsOf, Count;
    stats, lines := stats0, [];
    assert seen + detections[..0] == seen;
    for i := 0 to |detections|
      invariant CountsOf(stats, seen + detections[..i]) && stats.imageCount == stats0.imageCount
      invariant forall k :: 0 <= k < |ConfirmedOf(detections[..i])| ==> ValidDetection(ConfirmedOf(detections[..i])[k])
      invariant lines == LabelLines(ConfirmedOf(detections[..i]))
    {
      var d := detections[i];
      ghost var next := detections[..i + 1];
      assert next[..i] == detections[..i] && next[i] == d;
      assert seen + next == (seen + detections[..i]) + [d];
      OneMoreCounted(stats, seen + detections[..i], d);
      stats := stats.(byReview := stats.byReview[d.review := AtReview(stats.byReview, d.review) + 1]);
      if d.review.Confirmed? {
        LabelLinesSnoc(ConfirmedOf(detections[..i]), d);
        lines := lines + [LabelLine(d)];
        stats := stats.(byDefectType := stats.byDefectType[d.defectType := At(stats.byDefectType, d.defectType) + 1],
                        labelCount := stats.labelCount + 1);
      } else {
        assert ConfirmedOf(next) == ConfirmedOf(detections[..i]);
      }
    }
    assert detections[..|detections|] == detections;
  }

  function Counted(stats: Statistics, d: Detection): Statistics {
    var reviewed := stats.(byReview := stats.byReview[d.review := AtReview(stats.byReview, d.review) + 1]);
    if d.review.Confirmed? then
      reviewed.(byDefectType := stats.byDefectType[d.defectType := At(stats.byDefectType, d.defectType) + 1],
                labelCount := stats.labelCount + 1)
    else reviewed
  }

  lemma OneMoreCounted(stats: Statistics, seen: seq<Detection>, d: Detection)
    requires CountsOf(stats, seen)
    ensures CountsOf(Counted(stats, d), seen + [d])
  {
    CountSnoc(seen, d, IS_CONFIRMED);
    forall t ensures At(Counted(stats, d).byDefectType, t) == Count(seen + [d], ConfirmedAs(t)) {
      CountSnoc(seen, d, ConfirmedAs(t));
    }
    forall r ensures AtReview(Counted(stats, d).byReview, r) == Count(seen + [d], WithReview(r)) {
      CountSnoc(seen, d, WithReview(r));
    }
  }

  lemma {:induction false} LabelLinesSnoc(ds: seq<Detection>, d: Detection)
    requires ValidDetection(d) && forall i :: 0 <= i < |ds| ==> ValidDetection(ds[i])
    ensures LabelLines(ds + [d]) == LabelLines(ds) + [LabelLine(d)]
  {
    hide LabelLine, ValidDetection;
    if ds == [] {
      assert [] + [d] == [d] && [d][1..] == [];
    } else {
      assert (ds + [d])[1..] == ds[1..] + [d];
      LabelLinesSnoc(ds[1..], d);
    }
  }

  /** The export: one label file per image, holding its confirmed detections, and statistics over all rows. */
  method Generate(rows: seq<Detection>) returns (files: seq<LabelFile>, stats: Statistics)
    requires forall i :: 0 <= i < |rows| ==> ValidDetection(rows[i])
    ensures CountsOf(stats, rows) && stats.imageCount == |files|
    ensures forall i, j :: 0 <= i < j < |files| ==> files[i].image != files[j].image
    ensures forall image :: Mentions(rows, image) ==> exists i :: 0 <= i < |files| && files[i].image == image
    ensures forall i :: 0 <= i < |files| ==> IsFileOf(files[i], rows)
  {
    hide ValidDetection, CountsOf, FileContent, LabelLines, OfImage, ConfirmedOf, Mentions, Flat, IsFileOf;
    var grouped := GroupByImage(rows);
    files := [];
    stats := Statistics(|grouped.images|, 0, map[], map[Confirmed := 0, FalsePositive := 0]);
    NothingCounted(stats, grouped);
    for i := 0 to |grouped.images|
      invariant CountsOf(stats, Flat(grouped, i)) && stats.imageCount == |grouped.images|
      invariant |files| == i
      invariant forall k :: 0 <= k < i ==> files[k].image == grouped.images[k] && IsFileOf(files[k], rows)
    {
      var image := grouped.images[i];
      OfImageIsFromRows(rows, image);
      FlatStep(grouped, i);
      var lines;
      stats, lines := CountImage(stats, Flat(grouped, i), grouped.items[image]);
      FileIsOf(LabelFile(image, FileContent(lines)), rows);
      files := files + [LabelFile(image, FileContent(lines))];
    }
    CountsOverGroupsAreOverRows(stats, grouped, rows);
    forall image | Mentions(rows, image) ensures exists i :: 0 <= i < |files| && files[i].image == image {
      var k :| 0 <= k < |grouped.images| && grouped.images[k] == image;
      assert files[k].image == image;
    }
  }

  ghost predicate IsFileOf(f: LabelFile, rows: seq<Detection>) {
    var ds := ConfirmedOf(OfImage(rows, f.image));
    (forall i :: 0 <= i < |ds| ==> ValidDetection(ds[i])) && f.content == FileContent(LabelLines(ds))
  }

  lemma FileIsOf(f: LabelFile, rows: seq<Detection>)
    requires var ds := ConfirmedOf(OfImage(rows, f.image));
             (forall i :: 0 <= i < |ds| ==> ValidDetection(ds[i])) && f.content == FileContent(LabelLines(ds))
    ensures IsFileOf(f, rows)
  {
    hide ValidDetection, LabelLines, FileContent;
  }

  lemma FlatStep(g: Grouped, n: nat)
    requires n < |g.images|
    ensures Flat(g, n + 1) == Flat(g, n) + g.Of(g.images[n])
  {
  }

  lemma NothingCounted(stats: Statistics, g: Grouped)
    requires && stats.labelCount == 0 && stats.byDefectType == map[]
             && stats.byReview == map[Confirmed := 0, FalsePositive := 0]
    ensures CountsOf(stats, []) && Flat(g, 0) == []
  {
  }

  lemma {:induction false} OfImageIsFromRows(rows: seq<Detection>, image: string)
    requires forall i :: 0 <= i < |rows| ==> ValidDetection(rows[i])
    ensures forall i :: 0 <= i < |OfImage(rows, image)| ==> ValidDetection(OfImage(rows, image)[i])
  {
    hide ValidDetection;
    if rows != [] { OfImageIsFromRows(rows[..|rows| - 1], image); }
  }

  lemma CountsOverGroupsAreOverRows(stats: Statistics, g: Grouped, rows: seq<Detection>)
    requires IsGroupingOf(g, rows) && CountsOf(stats, Flat(g, |g.images|))
    ensures CountsOf(stats, rows)
  {
    hide Flat, IsGroupingOf;
    GroupingConservesCounts(g, rows, IS_CONFIRMED);
    forall t ensures At(stats.byDefectType, t) == Count(rows, ConfirmedAs(t)) {
      GroupingConservesCounts(g, rows, ConfirmedAs(t));
    }
    forall r ensures AtReview(stats.byReview, r) == Count(rows, WithReview(r)) {
      GroupingConservesCounts(g, rows, WithReview(r));
    }
  }

  lemma {:induction false} EveryReviewCountedOnce(rows: seq<Detection>)
    ensures Count(rows, WithReview(Unreviewed)) + Count(rows, WithReview(Confirmed))
            + Count(rows, WithReview(FalsePositive)) == |rows|
    ensures Count(rows, ConfirmedAs(MissingHole)) + Count(rows, ConfirmedAs(MouseBite))
            + Count(rows, ConfirmedAs(OpenCircuit))
          + Count(rows, ConfirmedAs(Short)) + Count(rows, ConfirmedAs(Spur)) + Count(rows, ConfirmedAs(SpuriousCopper))
         == Count(rows, IS_CONFIRMED)
  {
    if rows != [] { EveryReviewCountedOnce(rows[1..]); }
  }

  /** The manifest's numbers agree with each other: labels split by class, detections by review. */
  lemma {:induction false} StatisticsAddUp(stats: Statistics, rows: seq<Detection>)
    requires CountsOf(stats, rows)
    ensures SumValues(stats.byDefectType) == stats.labelCount == AtReview(stats.byReview, Confirmed)
    ensures AtReview(stats.byReview, Unreviewed) + AtReview(stats.byReview, Confirmed)
            + AtReview(stats.byReview, FalsePositive) == |rows|
  {
    EveryReviewCountedOnce(rows);
    SameCount(rows, IS_CONFIRMED, WithReview(Confirmed));
  }

  /** End to end: each exported file loads back as exactly its image's confirmed detections. */
  lemma {:induction false} ExportedFileLoads(f: LabelFile, rows: seq<Detection>)
    requires IsFileOf(f, rows)
    ensures var ds := ConfirmedOf(OfImage(rows, f.image));
            var r := ParseText(Some(f.content), CLASS_NAMES);
            r.Ok? && |r.value| == |ds| && forall i :: 0 <= i < |ds| ==>
              && r.value[i].defectType == Name(ds[i].defectType)
              && CornersWithin(r.value[i].bbox, ds[i].bbox, 0.000_000_75)
  {
    FileRoundTrip(ConfirmedOf(OfImage(rows, f.image)));
  }
}
