/** What the readers take from a frame. */
module FrameProperties {
  import opened SseFrames
  import opened TextLines
  import opened WhiteSpace
  import opened Wrappers

  predicate AllSpace(s: string) { forall i :: 0 <= i < |s| ==> IsSpace(s[i]) }

  lemma {:induction false} TrimLeftStrips(s: string) returns (a: string)
    ensures s == a + TrimLeft(s) && AllSpace(a)
    ensures TrimLeft(s) != "" ==> !IsSpace(TrimLeft(s)[0])
  {
    if s != [] && IsSpace(s[0]) {
      var rest := TrimLeftStrips(s[1..]);
      a := [s[0]] + rest;
    } else {
      a := "";
    }
  }

  lemma {:induction false} TrimRightStrips(s: string) returns (b: string)
    ensures s == TrimRight(s) + b && AllSpace(b)
    ensures TrimRight(s) != "" ==> !IsSpace(TrimRight(s)[|TrimRight(s)| - 1]) && TrimRight(s)[0] == s[0]
  {
    if s != [] && IsSpace(s[|s| - 1]) {
      var rest := TrimRightStrips(s[..|s| - 1]);
      b := rest + [s[|s| - 1]];
    } else {
      b := "";
    }
  }

  /** Trimming drops white space at both ends, all of it, and nothing else. */
  lemma {:induction false} TrimStrips(s: string) returns (a: string, b: string)
    ensures s == a + Trim(s) + b && AllSpace(a) && AllSpace(b) && Trimmed(Trim(s))
  {
    hide IsSpace;
    a := TrimLeftStrips(s);
    b := TrimRightStrips(TrimLeft(s));
  }

  /** A field is what follows its name and colon, trimmed; other lines say nothing. */
  lemma {:induction false} FieldLines(f: Fields, value: string, line: string)
    ensures WithLine(f, "event:" + value) == Fields(Some(Trim(value)), f.data)
    ensures WithLine(f, "data:" + value) == Fields(f.event, Some(Trim(value)))
    ensures !("event:" <= line) && !("data:" <= line) ==> WithLine(f, line) == f
  {
    hide Trim;
    assert ("event:" + value)[6..] == value && ("event:" + value)[..6] == "event:";
    assert ("data:" + value)[5..] == value && ("data:" + value)[..5] == "data:" && ("data:" + value)[0] == 'd';
  }

  /** Line `i` is the last that starts with the prefix. */
  ghost predicate IsLastWith(lines: seq<string>, prefix: string, i: nat) {
    && i < |lines| && prefix <= lines[i]
    && forall j :: i < j < |lines| ==> !(prefix <= lines[j])
  }

  /** A field's value in a frame: that of its last line, trimmed, or missing. */
  ghost predicate IsValue(lines: seq<string>, prefix: string, v: Option<string>) {
    match v
    case None => forall j :: 0 <= j < |lines| ==> !(prefix <= lines[j])
    case Some(x) => exists i: nat :: IsLastWith(lines, prefix, i) && x == Trim(lines[i][|prefix|..])
  }

  lemma ValueSnoc(lines: seq<string>, line: string, prefix: string, v: Option<string>)
    requires IsValue(lines, prefix, v)
    ensures IsValue(lines + [line], prefix, if prefix <= line then Some(Trim(line[|prefix|..])) else v)
  {
    hide Trim;
    var more := lines + [line];
    assert more[|lines|] == line;
    if prefix <= line {
      assert IsLastWith(more, prefix, |lines|);
    } else if v.Some? {
      var i: nat :| IsLastWith(lines, prefix, i) && v.value == Trim(lines[i][|prefix|..]);
      assert IsLastWith(more, prefix, i);
    }
  }

  /** Of several lines for a field the last one counts; without any, the field is missing. */
  lemma {:induction false} LastFieldCounts(lines: seq<string>)
    ensures IsValue(lines, "event:", FieldsOfLines(lines).event)
    ensures IsValue(lines, "data:", FieldsOfLines(lines).data)
  {
    assert IsValue([], "event:", None) && IsValue([], "data:", None);
    hide Trim, IsValue;
    if lines != [] {
      var n := |lines| - 1;
      LastFieldCounts(lines[..n]);
      NotBoth(lines[n]);
      ValueSnoc(lines[..n], lines[n], "event:", FieldsOfLines(lines[..n]).event);
      ValueSnoc(lines[..n], lines[n], "data:", FieldsOfLines(lines[..n]).data);
      assert lines == lines[..n] + [lines[n]];
    }
  }

  lemma NotBoth(line: string)
    ensures !("event:" <= line && "data:" <= line)
  {
    if "event:" <= line { assert line[0] == "event:"[0]; }
    if "data:" <= line { assert line[0] == "data:"[0]; }
  }

  /** A frame invalidates exactly when its last event line names an event, in more than white space. */
  lemma {:induction false} InvalidatesExactlyWhen(raw: string)
    ensures Invalidates(raw) <==>
              exists i: nat :: IsLastWith(Lines(raw), "event:", i) && !AllSpace(Lines(raw)[i][6..])
  {
    var lines := Lines(raw);
    hide Trim, Lines, FieldsOfLines;
    LastFieldCounts(lines);
    if FieldsOfLines(lines).event.Some? {
      var i: nat :| IsLastWith(lines, "event:", i) && FieldsOfLines(lines).event.value == Trim(lines[i][6..]);
      TrimEmptyExactlyWhen(lines[i][6..]);
      assert forall k: nat :: IsLastWith(lines, "event:", k) ==> k == i;
    }
  }

  lemma TrimEmptyExactlyWhen(s: string)
    ensures Trim(s) == "" <==> AllSpace(s)
  {
    hide IsSpace;
    var a, b := TrimStrips(s);
    if Trim(s) == "" {
      assert s == a + b;
    } else {
      assert s[|a|] == Trim(s)[0] && !IsSpace(s[|a|]);
    }
  }
}
