/** What a label file says, line by line and number by number. */
module LabelProperties {
  import opened Boxes
  import opened DecimalText
  import opened Defects
  import opened LabelFiles
  import opened Sublists
  import opened Wrappers

  predicate Near(word: string, x: real) {
    ParseReal(word).Some? && -0.000_000_5 <= ParseReal(word).value - x <= 0.000_000_5
  }

  /** A written line is the class's position among the six names, then the middle of the box across and down, then its
      width and height, each to the nearest millionth. */
  lemma {:induction false} LineFields(d: Detection)
    requires ValidDetection(d)
    ensures var words := Words(LabelLine(d));
            && |words| == 5
            && ParseInt(words[0]).Some? && 0 <= ParseInt(words[0]).value < 6
            && CLASS_NAMES[ParseInt(words[0]).value] == Name(d.defectType)
            && Near(words[1], (d.bbox.x1 + d.bbox.x2) / 2.0) && Near(words[2], (d.bbox.y1 + d.bbox.y2) / 2.0)
            && Near(words[3], d.bbox.x2 - d.bbox.x1) && Near(words[4], d.bbox.y2 - d.bbox.y1)
  {
    hide ParseReal, FormatReal, Words, IsWord, Digits, ParseInt, OnGrid;
    var c := ToCentre(d.bbox);
    ParseIntUndoesDigits(Index(d.defectType));
    FormatError(c.cx);
    FormatError(c.cy);
    FormatError(c.w);
    FormatError(c.h);
    WordsOfFive(Digits(Index(d.defectType)), FormatReal(c.cx), FormatReal(c.cy), FormatReal(c.w), FormatReal(c.h));
  }

  /** The six names, in the order of their numbers. */
  lemma ClassNumbers()
    ensures CLASS_NAMES == ["missing_hole", "mouse_bite", "open_circuit", "short", "spur", "spurious_copper"]
    ensures |CLASS_NAMES| == 6 && forall t: DefectType :: CLASS_NAMES[Index(t)] == Name(t)
    ensures Name(MissingHole) == "missing_hole" && Name(MouseBite) == "mouse_bite"
    ensures Name(OpenCircuit) == "open_circuit" && Name(Short) == "short"
    ensures Name(Spur) == "spur" && Name(SpuriousCopper) == "spurious_copper"
  {
  }

  /** Class numbers are list positions, counted from the end when negative. */
  lemma {:induction false} ClassAtIsAPosition(classes: seq<string>, idx: int)
    ensures ClassAt(classes, idx)
         == if -|classes| <= idx < |classes| then Some(classes[idx % |classes|]) else None
  {
    if 0 <= idx < |classes| {
      assert idx % |classes| == idx;
    } else if -|classes| <= idx < 0 {
      Wraps(idx, |classes|);
    }
  }

  lemma Wraps(idx: int, n: nat)
    requires idx < 0 <= idx + n
    ensures n > 0 && idx % n == idx + n
  {
    var q, r := idx / n, idx % n;
    assert idx == q * n + r && 0 <= r < n;
    if q < -1 { TimesAtMost(q, -2, n); }
    if q > -1 { TimesAtMost(0, q, n); }
  }

  lemma TimesAtMost(a: int, b: int, n: nat)
    requires a <= b
    ensures a * n <= b * n
  {
  }

  predicate IsNumber(word: string) { ParseReal(word).Some? }

  /** A line reads as a box exactly when its first five fields are a class number in range and four numbers; the first
      two numbers are the middle of the box, the others its width and height. */
  lemma {:induction false} FieldsExactly(words: seq<string>, classes: seq<string>)
    ensures ParseFields(words, classes).Ok? <==>
              && |words| >= 5
              && ParseInt(words[0]).Some? && -|classes| <= ParseInt(words[0]).value < |classes|
              && IsNumber(words[1]) && IsNumber(words[2]) && IsNumber(words[3]) && IsNumber(words[4])
    ensures ParseFields(words, classes).Ok? ==>
              var r := ParseFields(words, classes).value;
              && r.defectType == classes[ParseInt(words[0]).value % |classes|]
              && (r.bbox.x1 + r.bbox.x2) / 2.0 == ParseReal(words[1]).value
              && (r.bbox.y1 + r.bbox.y2) / 2.0 == ParseReal(words[2]).value
              && r.bbox.x2 - r.bbox.x1 == ParseReal(words[3]).value
              && r.bbox.y2 - r.bbox.y1 == ParseReal(words[4]).value
    ensures ParseFields(words, classes) == Err(TooFewFields) <==> |words| < 5
    ensures ParseFields(words, classes) == Err(BadClass) <==>
              && |words| >= 5 && ParseInt(words[0]).Some?
              && !(-|classes| <= ParseInt(words[0]).value < |classes|)
  {
    hide ParseReal, ParseInt, ClassAt;
    if |words| >= 5 && ParseInt(words[0]).Some? { ClassAtIsAPosition(classes, ParseInt(words[0]).value); }
  }

  /** Lines are read one after another: a bad line ends the reading, whatever follows it. */
  lemma {:induction false} LinesReadInOrder(a: seq<string>, b: seq<string>, classes: seq<string>)
    ensures ParseLines(a + b, classes)
         == match ParseLines(a, classes)
            case Err(e) => Err(e)
            case Ok(boxes) => Prepend(boxes, ParseLines(b, classes))
  {
    hide Words, ParseFields;
    if a == [] {
      assert a + b == b;
      PrependNothing(ParseLines(b, classes));
    } else {
      assert (a + b)[0] == a[0] && (a + b)[1..] == a[1..] + b;
      LinesReadInOrder(a[1..], b, classes);
      var rest := ParseLines(a[1..], classes);
      if Words(a[0]) != [] && ParseFields(Words(a[0]), classes).Ok? && rest.Ok? {
        PrependTwice([ParseFields(Words(a[0]), classes).value], rest.value, ParseLines(b, classes));
      }
    }
  }

  lemma PrependNothing(r: Result<seq<MeanAp.GroundTruthBox>, ParseError>)
    ensures Prepend([], r) == r
  {
    if r.Ok? { assert [] + r.value == r.value; }
  }

  lemma PrependTwice(a: seq<MeanAp.GroundTruthBox>, b: seq<MeanAp.GroundTruthBox>,
                     r: Result<seq<MeanAp.GroundTruthBox>, ParseError>)
    ensures Prepend(a + b, r) == Prepend(a, Prepend(b, r))
  {
    if r.Ok? { assert (a + b) + r.value == a + (b + r.value); }
  }

  /** One line: nothing if it is blank, its box, or its error. And a missing file is an image without defects. */
  lemma {:induction false} OneLineReads(line: string, classes: seq<string>)
    ensures ParseLines([line], classes)
         == if Words(line) == [] then Ok([])
            else match ParseFields(Words(line), classes)
                 case Err(e) => Err(e)
                 case Ok(box) => Ok([box])
    ensures ParseLines([], classes) == Ok([]) && ParseText(None, classes) == Ok([])
  {
    NoLineReads(classes);
    hide Words, ParseFields;
    assert [line][1..] == [];
    assert ParseLines([line][1..], classes) == Ok([]);
    if Words(line) != [] && ParseFields(Words(line), classes).Ok? {
      assert [ParseFields(Words(line), classes).value] + [] == [ParseFields(Words(line), classes).value];
    }
  }

  lemma NoLineReads(classes: seq<string>)
    ensures ParseLines([], classes) == Ok([]) && ParseText(None, classes) == Ok([])
  {
  }

  /** A file is read in full exactly when each of its lines is blank or well formed. */
  lemma {:induction false} ReadsExactlyWhen(lines: seq<string>, classes: seq<string>)
    ensures ParseLines(lines, classes).Ok? <==> forall i :: 0 <= i < |lines| ==> LineReads(lines[i], classes)
  {
    hide Words, ParseFields, LineReads;
    if lines != [] {
      ReadsExactlyWhen(lines[1..], classes);
      OneLineReads(lines[0], classes);
      assert lines == [lines[0]] + lines[1..];
      LinesReadInOrder([lines[0]], lines[1..], classes);
      LineReadsExactlyWhen(lines[0], classes);
    }
  }

  predicate LineReads(line: string, classes: seq<string>) {
    Words(line) == [] || ParseFields(Words(line), classes).Ok?
  }

  lemma LineReadsExactlyWhen(line: string, classes: seq<string>)
    ensures ParseLines([line], classes).Ok? <==> LineReads(line, classes)
  {
    hide Words, ParseFields;
    OneLineReads(line, classes);
  }

  // ---- which detections a file holds ----

  function IsOf(image: string): Detection -> bool { (d: Detection) => d.image == image }

  /** An image's rows are exactly those of the query that name it, in order. */
  lemma {:induction false} OfImageIsFilter(rows: seq<Detection>, image: string)
    ensures IsFilter(OfImage(rows, image), rows, IsOf(image))
  {
    hide IsFilter;
    if rows == [] {
      FilterOfNone(IsOf(image));
    } else {
      var n := |rows| - 1;
      OfImageIsFilter(rows[..n], image);
      FilterSnoc(OfImage(rows[..n], image), rows[..n], rows[n], IsOf(image));
      assert rows == rows[..n] + [rows[n]] && OfImage(rows[..n], image) + [] == OfImage(rows[..n], image);
    }
  }

  /** A file is its lines, each ended by a newline. */
  lemma {:induction false} LinesAreEnded(line: string, rest: seq<string>)
    requires line != "" && forall i :: 0 <= i < |rest| ==> rest[i] != ""
    ensures FileContent([]) == ""
    ensures FileContent([line] + rest) == line + "\n" + FileContent(rest)
  {
    assert ([line] + rest)[1..] == rest;
    if rest != [] { assert Join(rest) != ""; }
  }

  /** A file holds exactly its image's confirmed detections, in order. */
  lemma {:induction false} ConfirmedIsFilter(ds: seq<Detection>)
    ensures IsFilter(ConfirmedOf(ds), ds, IS_CONFIRMED)
  {
    hide IsFilter;
    if ds == [] {
      FilterOfNone(IS_CONFIRMED);
    } else {
      var n := |ds| - 1;
      ConfirmedIsFilter(ds[..n]);
      FilterSnoc(ConfirmedOf(ds[..n]), ds[..n], ds[n], IS_CONFIRMED);
      assert ds == ds[..n] + [ds[n]] && ConfirmedOf(ds[..n]) + [] == ConfirmedOf(ds[..n]);
    }
  }
}
