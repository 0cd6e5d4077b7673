/** Server-sent-event text: the printer, the incremental readers, and why no chunking can confuse them. */
module SseFrames {
  import opened TextLines
  import opened WhiteSpace
  import opened Wrappers

  predicate BlankAt(s: string, i: nat)
    requires i + 2 <= |s|
  {
    s[i] == '\n' && s[i + 1] == '\n'
  }

  /** Position of the first blank line separator, or -1. */
  function Boundary(s: string): (b: int)
    ensures -1 <= b
    ensures b != -1 ==> b + 2 <= |s| && BlankAt(s, b)
  {
    if |s| < 2 then -1
    else if BlankAt(s, 0) then 0
    else
      var r := Boundary(s[1..]);
      if r == -1 then -1 else r + 1
  }

  lemma {:induction false} NoneBeforeBoundary(s: string)
    ensures forall i :: 0 <= i && i + 2 <= |s| && (Boundary(s) == -1 || i < Boundary(s)) ==> !BlankAt(s, i)
  {
    if |s| >= 2 && !BlankAt(s, 0) {
      NoneBeforeBoundary(s[1..]);
      assert forall i :: 0 < i && i + 2 <= |s| ==> BlankAt(s, i) == BlankAt(s[1..], i - 1);
    }
  }

  datatype Split = Split(frames: seq<string>, rest: string)

  /** Cutting a whole text at every blank line: the reference the incremental readers must agree with. */
  function SplitText(s: string): Split
    decreases |s|
  {
    var b := Boundary(s);
    if b == -1 then Split([], s)
    else
      var tail := SplitText(s[b + 2..]);
      Split([s[..b]] + tail.frames, tail.rest)
  }

  function Concat(chunks: seq<string>): string {
    if chunks == [] then "" else Concat(chunks[..|chunks| - 1]) + chunks[|chunks| - 1]
  }

  /** However a text is cut, the pieces in order are the text. */
  lemma {:induction false} ConcatAppend(a: seq<string>, b: seq<string>)
    ensures Concat(a + b) == Concat(a) + Concat(b)
    ensures |a| == 1 ==> Concat(a) == a[0]
    decreases |b|
  {
    if |a| == 1 { assert Concat(a[..0]) == "" && "" + a[0] == a[0]; }
    if b == [] {
      assert a + b == a && Concat(a) + "" == Concat(a);
    } else {
      var n := |b| - 1;
      ConcatAppend(a, b[..n]);
      assert (a + b)[..|a| + n] == a + b[..n];
      assert Concat(a) + (Concat(b[..n]) + b[n]) == (Concat(a) + Concat(b[..n])) + b[n];
    }
  }

  lemma BoundaryIsFirst(s: string, b: int)
    requires 0 <= b && b + 2 <= |s| && BlankAt(s, b)
    requires forall i :: 0 <= i < b ==> !BlankAt(s, i)
    ensures Boundary(s) == b
  {
    NoneBeforeBoundary(s);
  }

  /** Text that arrives later only ever extends the unfinished remainder. */
  lemma {:induction false} SplitAppend(a: string, b: string)
    ensures SplitText(a + b).frames == SplitText(a).frames + SplitText(SplitText(a).rest + b).frames
    ensures SplitText(a + b).rest == SplitText(SplitText(a).rest + b).rest
    decreases |a|
  {
    hide SplitText, BlankAt;
    var k := Boundary(a);
    if k != -1 {
      BoundaryOfAppend(a, b);
      var rest := a[k + 2..];
      assert (a + b)[..k] == a[..k] && (a + b)[k + 2..] == rest + b;
      SplitAppend(rest, b);
      SplitStep(a);
      SplitStep(a + b);
      assert [a[..k]] + (SplitText(rest).frames + SplitText(SplitText(rest).rest + b).frames)
          == ([a[..k]] + SplitText(rest).frames) + SplitText(SplitText(rest).rest + b).frames;
    } else {
      SplitNone(a);
      assert [] + SplitText(a + b).frames == SplitText(a + b).frames;
    }
  }

  lemma BoundaryOfAppend(a: string, b: string)
    requires Boundary(a) != -1
    ensures Boundary(a + b) == Boundary(a)
  {
    NoneBeforeBoundary(a);
    assert forall i :: 0 <= i <= Boundary(a) ==> BlankAt(a + b, i) == BlankAt(a, i);
    BoundaryIsFirst(a + b, Boundary(a));
  }

  lemma SplitNone(s: string)
    requires Boundary(s) == -1
    ensures SplitText(s) == Split([], s)
  {
  }

  lemma SplitStep(s: string)
    requires Boundary(s) != -1
    ensures SplitText(s).frames == [s[..Boundary(s)]] + SplitText(s[Boundary(s) + 2..]).frames
    ensures SplitText(s).rest == SplitText(s[Boundary(s) + 2..]).rest
  {
  }

  lemma {:induction false} RestHasNoBoundary(s: string)
    ensures Boundary(SplitText(s).rest) == -1
    decreases |s|
  {
    if Boundary(s) != -1 { RestHasNoBoundary(s[Boundary(s) + 2..]); }
  }

  /** One read: append the chunk, then cut off every complete frame. */
  method Feed(buffer: string, chunk: string) returns (frames: seq<string>, rest: string)
    ensures Split(frames, rest) == SplitText(buffer + chunk)
  {
    rest := buffer + chunk;
    frames := [];
    var boundary := Boundary(rest);
    while boundary != -1
      invariant boundary == Boundary(rest)
      invariant frames + SplitText(rest).frames == SplitText(buffer + chunk).frames
      invariant SplitText(rest).rest == SplitText(buffer + chunk).rest
      decreases |rest|
    {
      frames := frames + [rest[..boundary]];
      rest := rest[boundary + 2..];
      boundary := Boundary(rest);
    }
  }

  /** The read loop: however the text was chunked, the frames are those of the whole text, in order. */
  method ReadFrames(chunks: seq<string>) returns (frames: seq<string>, buffer: string)
    ensures Split(frames, buffer) == SplitText(Concat(chunks))
  {
    frames, buffer := [], "";
    for i := 0 to |chunks|
      invariant Split(frames, buffer) == SplitText(Concat(chunks[..i]))
    {
      var more;
      more, buffer := Feed(buffer, chunks[i]);
      SplitAppend(Concat(chunks[..i]), chunks[i]);
      assert chunks[..i + 1][..i] == chunks[..i];
      frames := frames + more;
    }
    assert chunks[..|chunks|] == chunks;
  }

  // ---- fields of a frame ----

  function TrimLeft(s: string): string { if s != [] && IsSpace(s[0]) then TrimLeft(s[1..]) else s }

  function TrimRight(s: string): string
  {
    if s != [] && IsSpace(s[|s| - 1]) then TrimRight(s[..|s| - 1]) else s
  }

  function Trim(s: string): string { TrimRight(TrimLeft(s)) }

  predicate Trimmed(s: string) { s == [] || (!IsSpace(s[0]) && !IsSpace(s[|s| - 1])) }

  const EVENT_PREFIX := "event:"
  const DATA_PREFIX := "data:"

  datatype Fields = Fields(event: Option<string>, data: Option<string>)

  function WithLine(f: Fields, line: string): Fields {
    if EVENT_PREFIX <= line then f.(event := Some(Trim(line[|EVENT_PREFIX|..])))
    else if DATA_PREFIX <= line then f.(data := Some(Trim(line[|DATA_PREFIX|..])))
    else f
  }

  function FieldsOfLines(lines: seq<string>): Fields {
    if lines == [] then Fields(None, None) else WithLine(FieldsOfLines(lines[..|lines| - 1]), lines[|lines| - 1])
  }

  method ParseFields(raw: string) returns (f: Fields)
    ensures f == FieldsOfLines(Lines(raw))
  {
    var eventType: Option<string>, dataRaw: Option<string> := None, None;
    var lines := Lines(raw);
    for i := 0 to |lines|
      invariant Fields(eventType, dataRaw) == FieldsOfLines(lines[..i])
    {
      var line := lines[i];
      assert lines[..i + 1][..i] == lines[..i];
      if EVENT_PREFIX <= line {
        eventType := Some(Trim(line[|EVENT_PREFIX|..]));
      } else if DATA_PREFIX <= line {
        dataRaw := Some(Trim(line[|DATA_PREFIX|..]));
      }
    }
    assert lines[..|lines|] == lines;
    f := Fields(eventType, dataRaw);
  }

  // ---- the printer ----

  datatype Printed = Event(name: string, data: string) | KeepAlive

  function Body(p: Printed): string {
    match p
    case Event(name, data) => "event: " + name + "\ndata: " + data
    case KeepAlive => ": keep-alive"
  }

  function Print(p: Printed): string { Body(p) + "\n\n" }

  function PrintAll(ps: seq<Printed>): string { if ps == [] then "" else Print(ps[0]) + PrintAll(ps[1..]) }

  function Bodies(ps: seq<Printed>): (bodies: seq<string>)
    ensures |bodies| == |ps|
  {
    if ps == [] then [] else [Body(ps[0])] + Bodies(ps[1..])
  }

  /** What a JSON encoder guarantees of an object's text: braces at both ends and no raw line break. */
  predicate JsonObjectText(d: string) { |d| >= 2 && d[0] == '{' && d[|d| - 1] == '}' && OneLine(d) }

  predicate Printable(p: Printed) { p.Event? ==> OneLine(p.name) && OneLine(p.data) }

  lemma BodyBoundary(p: Printed, tail: string)
    requires Printable(p)
    ensures Boundary(Print(p) + tail) == |Body(p)|
  {
    var s, b := Print(p) + tail, |Body(p)|;
    assert BlankAt(s, b);
    forall i | 0 <= i < b ensures !BlankAt(s, i) {
      match p
      case KeepAlive =>
        assert s[i] == ": keep-alive"[i];
      case Event(name, data) =>
        var head := "event: " + name;
        if i < |head| {
          assert s[i] == head[i];
        } else if i == |head| {
          assert s[i + 1] == "\ndata: "[1];
        } else if i < |head| + 7 {
          assert s[i] == "\ndata: "[i - |head|];
        } else {
          assert s[i] == data[i - |head| - 7];
        }
    }
    BoundaryIsFirst(s, b);
  }

  /** Splitting undoes printing: one frame per printed item and nothing left over. */
  lemma {:induction false} SplitUndoesPrint(ps: seq<Printed>)
    requires forall i :: 0 <= i < |ps| ==> Printable(ps[i])
    ensures SplitText(PrintAll(ps)) == Split(Bodies(ps), "")
  {
    if ps != [] {
      SplitUndoesPrint(ps[1..]);
      BodyBoundary(ps[0], PrintAll(ps[1..]));
      var s, b := PrintAll(ps), |Body(ps[0])|;
      assert s == Print(ps[0]) + PrintAll(ps[1..]);
      assert s[..b] == Body(ps[0]) && s[b + 2..] == PrintAll(ps[1..]);
    }
  }

  lemma TrimOfSpaced(s: string)
    requires Trimmed(s)
    ensures Trim(" " + s) == s
  {
    assert (" " + s)[1..] == s && (" " + s)[0] == ' ';
    assert TrimLeft(" " + s) == TrimLeft(s) == s;
  }

  lemma LineOfEvent(f: Fields, name: string)
    requires Trimmed(name)
    ensures WithLine(f, "event: " + name) == f.(event := Some(name))
  {
    var line := "event: " + name;
    assert line[..6] == EVENT_PREFIX && line[6..] == " " + name;
    TrimOfSpaced(name);
  }

  lemma LineOfData(f: Fields, data: string)
    requires Trimmed(data)
    ensures WithLine(f, "data: " + data) == f.(data := Some(data))
  {
    var line := "data: " + data;
    assert line[..5] == DATA_PREFIX && line[5..] == " " + data && line[0] == 'd';
    TrimOfSpaced(data);
  }

  /** The two fields of a printed event read back exactly. */
  lemma FieldsOfPrintedEvent(name: string, data: string)
    requires OneLine(name) && OneLine(data) && Trimmed(name) && Trimmed(data)
    ensures FieldsOfLines(Lines(Body(Event(name, data)))) == Fields(Some(name), Some(data))
  {
    hide WithLine, Trimmed, Trim;
    var first, second := "event: " + name, "data: " + data;
    assert Body(Event(name, data)) == first + "\n" + second;
    LinesOfOneLine(first, second);
    LinesOfOneLine(second, "");
    LineOfEvent(Fields(None, None), name);
    LineOfData(Fields(Some(name), None), data);
    FieldsOfOne(first);
    var lines := [first, second];
    assert lines == [first] + [second] && lines[..1] == [first];
  }

  lemma FieldsOfOne(line: string)
    ensures FieldsOfLines([line]) == WithLine(Fields(None, None), line)
  {
    assert [line][..0] == [];
  }

  lemma FieldsOfKeepAlive()
    ensures FieldsOfLines(Lines(Body(KeepAlive))) == Fields(None, None)
  {
    hide Trim, Lines;
    var line := ": keep-alive";
    LinesOfOneLine(line, "");
    FieldsOfOne(line);
    assert line[0] == ':' && EVENT_PREFIX[0] == 'e' && DATA_PREFIX[0] == 'd';
  }

  // ---- the dashboard's reader ----

  predicate Invalidates(raw: string) {
    var event := FieldsOfLines(Lines(raw)).event;
    event.Some? && event.value != ""
  }

  function CountInvalidating(frames: seq<string>): nat {
    if frames == [] then 0 else (if Invalidates(frames[0]) then 1 else 0) + CountInvalidating(frames[1..])
  }

  lemma {:induction false} CountInvalidatingAppend(a: seq<string>, b: seq<string>)
    ensures CountInvalidating(a + b) == CountInvalidating(a) + CountInvalidating(b)
  {
    if a == [] {
      assert a + b == b;
    } else {
      CountInvalidatingAppend(a[1..], b);
      assert (a + b)[1..] == a[1..] + b;
    }
  }

  method InvalidateFor(frames: seq<string>) returns (count: nat)
    ensures count == CountInvalidating(frames)
  {
    count := 0;
    for i := 0 to |frames|
      invariant count == CountInvalidating(frames[..i])
    {
      CountInvalidatingAppend(frames[..i], [frames[i]]);
      assert frames[..i + 1] == frames[..i] + [frames[i]];
      var f := ParseFields(frames[i]);
      if f.event.Some? && f.event.value != "" {
        count := count + 1;
      }
    }
    assert frames[..|frames|] == frames;
  }

  /** Reads until the stream ends or the caller cancels; every named event triggers one cache invalidation. */
  method ReadEventStream(chunks: seq<string>, isCancelled: nat -> bool) returns (invalidations: nat, received: nat)
    ensures received <= |chunks|
    ensures received < |chunks| ==> isCancelled(received)
    ensures forall i :: 0 <= i < received ==> !isCancelled(i)
    ensures invalidations == CountInvalidating(SplitText(Concat(chunks[..received])).frames)
  {
    hide Invalidates, SplitText;
    var buffer := "";
    invalidations, received := 0, 0;
    assert SplitText("") == Split([], "") by { SplitUndoesPrint([]); }
    while received < |chunks| && !isCancelled(received)
      invariant received <= |chunks|
      invariant forall i :: 0 <= i < received ==> !isCancelled(i)
      invariant buffer == SplitText(Concat(chunks[..received])).rest
      invariant invalidations == CountInvalidating(SplitText(Concat(chunks[..received])).frames)
    {
      var frames;
      ghost var before := SplitText(Concat(chunks[..received])).frames;
      frames, buffer := Feed(buffer, chunks[received]);
      SplitAppend(Concat(chunks[..received]), chunks[received]);
      assert chunks[..received + 1][..received] == chunks[..received];
      CountInvalidatingAppend(before, frames);
      var count := InvalidateFor(frames);
      invalidations, received := invalidations + count, received + 1;
    }
  }

  function CountEvents(ps: seq<Printed>): nat {
    if ps == [] then 0 else (if ps[0].Event? then 1 else 0) + CountEvents(ps[1..])
  }

  /** What the server prints: a plain event name and an encoded object. */
  predicate WellFormed(p: Printed) {
    p.Event? ==> OneLine(p.name) && Trimmed(p.name) && p.name != "" && JsonObjectText(p.data)
  }

  lemma BodyInvalidates(p: Printed)
    requires WellFormed(p)
    ensures Invalidates(Body(p)) <==> p.Event?
  {
    hide FieldsOfLines, Lines, Body, Trimmed, OneLine;
    match p
    case KeepAlive => FieldsOfKeepAlive();
    case Event(name, data) => DataIsTrimmed(data); FieldsOfPrintedEvent(name, data);
  }

  lemma DataIsTrimmed(data: string)
    requires JsonObjectText(data)
    ensures OneLine(data) && Trimmed(data)
  {
  }

  lemma {:induction false} BodiesInvalidate(ps: seq<Printed>)
    requires forall i :: 0 <= i < |ps| ==> WellFormed(ps[i])
    ensures CountInvalidating(Bodies(ps)) == CountEvents(ps)
  {
    hide Invalidates, WellFormed, Body;
    if ps != [] {
      BodiesInvalidate(ps[1..]);
      BodyInvalidates(ps[0]);
      assert Bodies(ps)[0] == Body(ps[0]) && Bodies(ps)[1..] == Bodies(ps[1..]);
    }
  }

  /** Keep-alive comments never invalidate and every event does, for every chunking of what the server printed. */
  lemma {:induction false} EveryEventInvalidatesOnce(ps: seq<Printed>)
    requires forall i :: 0 <= i < |ps| ==> WellFormed(ps[i])
    ensures SplitText(PrintAll(ps)).rest == ""
    ensures CountInvalidating(SplitText(PrintAll(ps)).frames) == CountEvents(ps)
  {
    hide SplitText, PrintAll, CountInvalidating, CountEvents, Bodies;
    forall i | 0 <= i < |ps| ensures Printable(ps[i]) {
      assert WellFormed(ps[i]);
      if ps[i].Event? { DataIsTrimmed(ps[i].data); }
    }
    SplitUndoesPrint(ps);
    BodiesInvalidate(ps);
  }
}
