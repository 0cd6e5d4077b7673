/** A chat turn over the wire: the printed stream, read in chunks of any size, and the client's events. */
module ChatClient {
  import opened ChatTurn
  import opened SseFrames
  import opened TextLines
  import opened TurnProperties
  import opened WireText
  import opened Wrappers

  /** What parsing a frame's data gives: no JSON text, which throws; an event name the client does not know; an
      event. */
  datatype Loaded = Malformed | Ignored | Received(event: ChatEvent)

  /** A codec for event payloads; section 7 of RFC 8259 has the printed text free of newlines. */
  datatype Codec = Codec(dumps: ChatEvent -> string, loads: (string, string) -> Loaded)

  function EventName(e: ChatEvent): string {
    match e
    case ToolCall(_, _) => "tool_call"
    case Delta(_) => "content_delta"
    case Error(_) => "error"
    case Done(_) => "done"
  }

  ghost predicate Faithful(codec: Codec) {
    forall e: ChatEvent :: JsonObjectText(codec.dumps(e)) && codec.loads(EventName(e), codec.dumps(e)) == Received(e)
  }

  function PrintedEvent(codec: Codec, e: ChatEvent): Printed { Event(EventName(e), codec.dumps(e)) }

  function PrintedEvents(codec: Codec, es: seq<ChatEvent>): (ps: seq<Printed>)
    ensures |ps| == |es| && forall i :: 0 <= i < |es| ==> ps[i] == PrintedEvent(codec, es[i])
  {
    seq(|es|, i requires 0 <= i < |es| => PrintedEvent(codec, es[i]))
  }

  function ParseChunk(codec: Codec, raw: string): Loaded {
    var f := FieldsOfLines(Lines(raw));
    if f.event.None? || f.event.value == "" || f.data.None? then Ignored else codec.loads(f.event.value, f.data.value)
  }

  /** The events handed to the callback, and whether the turn was cut short by a malformed payload. */
  datatype Reception = Reception(events: seq<ChatEvent>, failed: bool)

  function Parsed(codec: Codec, frames: seq<string>): Reception {
    if frames == [] then Reception([], false) else
    var n := |frames| - 1;
    var before := Parsed(codec, frames[..n]);
    if before.failed then before
    else match ParseChunk(codec, frames[n])
         case Malformed => Reception(before.events, true)
         case Ignored => before
         case Received(e) => Reception(before.events + [e], false)
  }

  lemma {:induction false} ParsedAppend(codec: Codec, a: seq<string>, b: seq<string>)
    ensures var before, after := Parsed(codec, a), Parsed(codec, b);
            Parsed(codec, a + b)
              == if before.failed then before else Reception(before.events + after.events, after.failed)
  {
    hide ParseChunk;
    if b == [] {
      assert a + b == a;
      assert Parsed(codec, a).events + [] == Parsed(codec, a).events;
    } else {
      var n := |b| - 1;
      ParsedAppend(codec, a, b[..n]);
      assert (a + b)[..|a| + n] == a + b[..n];
    }
  }

  /** A turn is cut short exactly when some frame's payload is malformed; otherwise every event is handed on. */
  lemma {:induction false} FailsExactlyWhenMalformed(codec: Codec, frames: seq<string>)
    ensures Parsed(codec, frames).failed <==> exists i :: 0 <= i < |frames| && ParseChunk(codec, frames[i]).Malformed?
    ensures |Parsed(codec, frames).events| <= |frames|
    ensures (forall i :: 0 <= i < |frames| ==> ParseChunk(codec, frames[i]).Received?) ==>
              |Parsed(codec, frames).events| == |frames|
  {
    hide ParseChunk;
    if frames != [] { FailsExactlyWhenMalformed(codec, frames[..|frames| - 1]); }
  }

  method HandleFrames(frames: seq<string>, codec: Codec, received0: seq<ChatEvent>)
        returns (received: seq<ChatEvent>, failed: bool)
    ensures failed == Parsed(codec, frames).failed && received == received0 + Parsed(codec, frames).events
  {
    received := received0;
    for i := 0 to |frames|
      invariant !Parsed(codec, frames[..i]).failed && received == received0 + Parsed(codec, frames[..i]).events
    {
      assert frames[..i + 1][..i] == frames[..i];
      var f := ParseFields(frames[i]);
      if f.event.Some? && f.event.value != "" && f.data.Some? {
        match codec.loads(f.event.value, f.data.value) {
          case Malformed =>
            assert frames == frames[..i + 1] + frames[i + 1..];
            ParsedAppend(codec, frames[..i + 1], frames[i + 1..]);
            return received, true;
          case Ignored =>
          case Received(event) => received := received + [event];
        }
      }
    }
    assert frames[..|frames|] == frames;
    return received, false;
  }

  /** The client's loop: the callback sees the parsed frames of the whole text, whatever the chunking, up to the first
      malformed payload. */
  method ReceiveTurn(chunks: seq<string>, codec: Codec) returns (received: seq<ChatEvent>, failed: bool, buffer: string)
    ensures Reception(received, failed) == Parsed(codec, SplitText(Concat(chunks)).frames)
    ensures !failed ==> buffer == SplitText(Concat(chunks)).rest
  {
    hide Parsed, SplitText;
    received, buffer := [], "";
    assert SplitText("") == Split([], "") && Parsed(codec, []) == Reception([], false) by { NothingReceived(codec); }
    for i := 0 to |chunks|
      invariant Reception(received, false) == Parsed(codec, SplitText(Concat(chunks[..i])).frames)
      invariant buffer == SplitText(Concat(chunks[..i])).rest
    {
      ghost var before := SplitText(Concat(chunks[..i])).frames;
      var frames;
      frames, buffer := Feed(buffer, chunks[i]);
      SplitAppend(Concat(chunks[..i]), chunks[i]);
      assert chunks[..i + 1][..i] == chunks[..i];
      ParsedAppend(codec, before, frames);
      received, failed := HandleFrames(frames, codec, received);
      if failed {
        LaterChunksChangeNothing(codec, chunks, i + 1);
        return;
      }
    }
    assert chunks[..|chunks|] == chunks;
    failed := false;
  }

  lemma NothingReceived(codec: Codec)
    ensures SplitText("") == Split([], "") && Parsed(codec, []) == Reception([], false)
  {
    SplitUndoesPrint([]);
  }

  lemma {:induction false} ConcatSplit(chunks: seq<string>, i: nat)
    requires i <= |chunks|
    ensures Concat(chunks) == Concat(chunks[..i]) + Concat(chunks[i..])
  {
    var n := |chunks| - 1;
    if i == |chunks| {
      assert chunks[..i] == chunks && chunks[i..] == [];
    } else {
      ConcatSplit(chunks[..n], i);
      assert chunks[..n][..i] == chunks[..i] && chunks[..n][i..] == chunks[i..][..n - i];
    }
  }

  lemma LaterChunksChangeNothing(codec: Codec, chunks: seq<string>, i: nat)
    requires i <= |chunks| && Parsed(codec, SplitText(Concat(chunks[..i])).frames).failed
    ensures Parsed(codec, SplitText(Concat(chunks)).frames) == Parsed(codec, SplitText(Concat(chunks[..i])).frames)
  {
    hide Parsed, SplitText, Concat;
    ConcatSplit(chunks, i);
    SplitAppend(Concat(chunks[..i]), Concat(chunks[i..]));
    var before := SplitText(Concat(chunks[..i]));
    ParsedAppend(codec, before.frames, SplitText(before.rest + Concat(chunks[i..])).frames);
  }

  lemma {:induction false} ParseUndoesPrint(codec: Codec, e: ChatEvent)
    requires Faithful(codec)
    ensures WellFormed(PrintedEvent(codec, e))
    ensures ParseChunk(codec, Body(PrintedEvent(codec, e))) == Received(e)
  {
    hide FieldsOfLines, Lines, Body;
    assert JsonObjectText(codec.dumps(e));
    FieldsOfPrintedEvent(EventName(e), codec.dumps(e));
  }

  lemma {:induction false} ParsedUndoesPrint(codec: Codec, es: seq<ChatEvent>)
    requires Faithful(codec)
    ensures Parsed(codec, Bodies(PrintedEvents(codec, es))) == Reception(es, false)
  {
    hide ParseChunk, Body, PrintedEvent, Faithful, Bodies;
    var bodies := Bodies(PrintedEvents(codec, es));
    BodiesAreMapped(PrintedEvents(codec, es));
    if es != [] {
      var n := |es| - 1;
      ParsedUndoesPrint(codec, es[..n]);
      BodiesAreMapped(PrintedEvents(codec, es[..n]));
      assert bodies[..n] == Bodies(PrintedEvents(codec, es[..n]));
      ParseUndoesPrint(codec, es[n]);
      assert bodies[n] == Body(PrintedEvent(codec, es[n]));
    }
  }

  lemma {:induction false} BodiesAreMapped(ps: seq<Printed>)
    ensures forall i :: 0 <= i < |ps| ==> Bodies(ps)[i] == Body(ps[i])
  {
    if ps != [] { BodiesAreMapped(ps[1..]); }
  }

  /** For every chunking of a printed turn the client receives exactly the server's events, and its buffer ends
      empty. */
  lemma {:induction false} ClientReceivesTheStream(codec: Codec, stream: seq<ChatEvent>, chunks: seq<string>)
    requires Faithful(codec) && Concat(chunks) == PrintAll(PrintedEvents(codec, stream))
    ensures Parsed(codec, SplitText(Concat(chunks)).frames) == Reception(stream, false)
    ensures SplitText(Concat(chunks)).rest == ""
  {
    forall i | 0 <= i < |stream| ensures Printable(PrintedEvents(codec, stream)[i]) {
      ParseUndoesPrint(codec, stream[i]);
    }
    SplitUndoesPrint(PrintedEvents(codec, stream));
    ParsedUndoesPrint(codec, stream);
  }

  function ReceivedEvents(codec: Codec, chunks: seq<string>): seq<ChatEvent> {
    Parsed(codec, SplitText(Concat(chunks)).frames).events
  }

  /** End to end: the client is handed one final `done` if and only if the turn completes on the server. */
  lemma {:induction false} ClientSeesDoneExactlyWhenTurnCompletes(
      codec: Codec, client: Option<Llm>, tools: Tools, chunks: seq<string>)
    requires Faithful(codec) && Concat(chunks) == PrintAll(PrintedEvents(codec, TurnStream(client, tools)))
    ensures EndsInDone(ReceivedEvents(codec, chunks)) <==> Completes(client, tools)
  {
    ClientReceivesTheStream(codec, TurnStream(client, tools), chunks);
    EndsInDoneExactlyWhenCompletes(client, tools);
  }

  /** And in a successful turn it is handed every call, in order, then pieces that join to the model's answer, which is
      also the content of the final message, and with that message every call and its result. */
  lemma {:induction false} ShownTextIsDoneContent(codec: Codec, client: Option<Llm>, tools: Tools, chunks: seq<string>)
    requires Faithful(codec) && Concat(chunks) == PrintAll(PrintedEvents(codec, TurnStream(client, tools)))
    requires Succeeds(client, tools)
    ensures var received := ReceivedEvents(codec, chunks);
            && received != [] && received[|received| - 1].Done?
            && Text(received) == received[|received| - 1].stored.content == Answer(client.value)
            && IsFirstAnswer(Text(received), client.value)
            && RecordsCalls(received[|received| - 1].stored.toolCalls, Asked(client.value), tools)
            && OpensWithCalls(received, Asked(client.value))
  {
    hide Parsed, SplitText, Text, Deltas, RecordsCalls, IsFirstAnswer, OpensWithCalls;
    ClientReceivesTheStream(codec, TurnStream(client, tools), chunks);
    EndsInDoneExactlyWhenCompletes(client, tools);
    CompletedTurnTells(client.value, tools);
  }

  // ---- a faithful codec exists ----

  /** A recorded call as four fields. */
  function CallFields(r: Recorded): seq<string> { [r.call.id, r.call.name, r.call.arguments, r.result] }

  function CallsFields(rs: seq<Recorded>): seq<string> {
    if rs == [] then [] else CallFields(rs[0]) + CallsFields(rs[1..])
  }

  function ReadCalls(fields: seq<string>): Option<seq<Recorded>> {
    if fields == [] then Some([])
    else if |fields| < 4 then None
    else match ReadCalls(fields[4..])
         case None => None
         case Some(rs) => Some([Recorded(Call(fields[0], fields[1], fields[2]), fields[3])] + rs)
  }

  lemma {:induction false} ReadCallsUndoes(rs: seq<Recorded>)
    ensures ReadCalls(CallsFields(rs)) == Some(rs)
  {
    if rs != [] {
      ReadCallsUndoes(rs[1..]);
      assert CallsFields(rs)[4..] == CallsFields(rs[1..]);
      assert [rs[0]] + rs[1..] == rs;
    }
  }

  function EventFields(e: ChatEvent): seq<string> {
    match e
    case ToolCall(name, arguments) => [name, arguments]
    case Delta(text) => [text]
    case Error(message) => [message]
    case Done(stored) =>
      if stored.toolCalls.None? then [stored.content]
      else [stored.content, "tool_calls"] + CallsFields(stored.toolCalls.value)
  }

  function EventOfFields(name: string, fields: seq<string>): Loaded {
    if name == "tool_call" then (if |fields| == 2 then Received(ToolCall(fields[0], fields[1])) else Malformed)
    else if name == "content_delta" then (if |fields| == 1 then Received(Delta(fields[0])) else Malformed)
    else if name == "error" then (if |fields| == 1 then Received(Error(fields[0])) else Malformed)
    else if name == "done" then
      if |fields| == 0 then Malformed
      else if |fields| == 1 then Received(Done(StoredMessage(fields[0], None)))
      else match ReadCalls(fields[2..])
           case None => Malformed
           case Some(rs) => Received(Done(StoredMessage(fields[0], Some(rs))))
    else Ignored
  }

  function Dumped(e: ChatEvent): string { "{" + PrintList(EventFields(e)) + "}" }

  function LoadedFrom(name: string, data: string): Loaded {
    if |data| < 2 || data[0] != '{' || data[|data| - 1] != '}' then Malformed
    else match ReadList(data[1..|data| - 1])
         case None => Malformed
         case Some(fields) => EventOfFields(name, fields)
  }

  lemma {:induction false} FieldsComeBack(e: ChatEvent)
    ensures EventOfFields(EventName(e), EventFields(e)) == Received(e)
  {
    if e.Done? && e.stored.toolCalls.Some? {
      ReadCallsUndoes(e.stored.toolCalls.value);
      assert EventFields(e)[2..] == CallsFields(e.stored.toolCalls.value);
    }
  }

  lemma LoadedUndoesDumped(e: ChatEvent)
    ensures JsonObjectText(Dumped(e)) && LoadedFrom(EventName(e), Dumped(e)) == Received(e)
  {
    hide EventFields, PrintList, ReadList, EventOfFields, EventName;
    ReadUndoesPrint(EventFields(e));
    PrintedIsOneLine(EventFields(e));
    FieldsComeBack(e);
    assert Dumped(e)[1..|Dumped(e)| - 1] == PrintList(EventFields(e));
  }

  /** The assumption on the codec can be met. */
  lemma {:induction false} FaithfulCodecExists()
    ensures Faithful(Codec(Dumped, LoadedFrom))
  {
    hide Dumped, LoadedFrom, EventName, JsonObjectText;
    forall e: ChatEvent ensures JsonObjectText(Dumped(e)) && LoadedFrom(EventName(e), Dumped(e)) == Received(e) {
      LoadedUndoesDumped(e);
    }
  }
}
