/** What the stream and the stored message of a chat turn promise, and when. */
module TurnProperties {
  import opened ChatTurn
  import opened Wrappers

  /** No exception escapes: every call asked for executes, and the model's client raises nothing but the one exception
      it promises. */
  predicate Completes(client: Option<Llm>, tools: Tools) {
    client.Some? ==> AllExecute(Asked(client.value), tools) && !Crashes(client.value)
  }

  predicate Succeeds(client: Option<Llm>, tools: Tools) {
    Completes(client, tools) && client.Some? && Answers(client.value)
  }

  predicate EndsInDone(stream: seq<ChatEvent>) {
    && stream != [] && stream[|stream| - 1].Done?
    && forall i :: 0 <= i < |stream| - 1 ==> !stream[i].Done?
  }

  /** Tool calls, then either the answer in pieces or one error, then exactly one `done`. */
  ghost predicate TurnShape(stream: seq<ChatEvent>, stored: StoredMessage, succeeded: bool) {
    && EndsInDone(stream) && stream[|stream| - 1] == Done(stored)
    && (forall i :: 0 <= i < |stream| && stream[i].Error? ==> !succeeded && i == |stream| - 2)
    && (!succeeded ==> |stream| >= 2 && stream[|stream| - 2] == Error(UNAVAILABLE_MESSAGE) && stored == UNAVAILABLE)
    && Text(stream) == if succeeded then stored.content else ""
  }

  lemma {:induction false} TextOfWire(events: seq<AgentEvent>)
    requires forall i :: 0 <= i < |events| ==> !events[i].Finished?
    ensures Text(WireAll(events)) == DeltaText(events)
  {
    if events != [] {
      TextOfWire(events[1..]);
      assert WireAll(events)[1..] == WireAll(events[1..]);
    }
  }

  lemma TextCons(e: ChatEvent, rest: seq<ChatEvent>)
    ensures Text([e] + rest) == (if e.Delta? then e.text else "") + Text(rest)
  {
    assert ([e] + rest)[1..] == rest;
  }

  lemma {:induction false} TextOfAppend(a: seq<ChatEvent>, b: seq<ChatEvent>)
    ensures Text(a + b) == Text(a) + Text(b)
  {
    if a == [] {
      assert a + b == b;
    } else {
      hide Text;
      TextOfAppend(a[1..], b);
      TextCons(a[0], a[1..]);
      TextCons(a[0], a[1..] + b);
      assert [a[0]] + a[1..] == a && [a[0]] + (a[1..] + b) == a + b;
      Regroup(if a[0].Delta? then a[0].text else "", Text(a[1..]), Text(b));
    }
  }

  lemma Regroup(x: string, y: string, z: string)
    ensures x + (y + z) == (x + y) + z
  {
  }

  lemma {:induction false} NoTextInToolEvents(events: seq<AgentEvent>)
    requires forall i :: 0 <= i < |events| ==> events[i].ToolCallEvent?
    ensures DeltaText(events) == ""
  {
    if events != [] { NoTextInToolEvents(events[1..]); }
  }

  lemma {:induction false} DeltaTextAppend(a: seq<AgentEvent>, b: seq<AgentEvent>)
    ensures DeltaText(a + b) == DeltaText(a) + DeltaText(b)
  {
    if a == [] {
      assert a + b == b;
    } else {
      DeltaTextAppend(a[1..], b);
      assert (a + b)[1..] == a[1..] + b;
    }
  }

  lemma TextOfLast(stored: StoredMessage)
    ensures Text([Done(stored)]) == ""
  {
    assert [Done(stored)][1..] == [];
  }

  /** The events of a turn's loop are never terminal ones, and carry the loop's text. */
  ghost predicate BodyOf(w: seq<ChatEvent>, text: string) {
    Text(w) == text && forall i :: 0 <= i < |w| ==> w[i].ToolCall? || w[i].Delta?
  }

  lemma WiredBody(body: seq<AgentEvent>, text: string)
    requires forall i :: 0 <= i < |body| ==> !body[i].Finished?
    requires DeltaText(body) == text
    ensures BodyOf(WireAll(body), text)
  {
    TextOfWire(body);
  }

  lemma AnsweredStream(w: seq<ChatEvent>, stored: StoredMessage)
    requires BodyOf(w, stored.content)
    ensures TurnShape(w + [Done(stored)], stored, true)
  {
    hide Text, UNAVAILABLE_MESSAGE, UNAVAILABLE;
    var stream := w + [Done(stored)];
    TextOfLast(stored);
    TextOfAppend(w, [Done(stored)]);
    assert forall i :: 0 <= i < |w| ==> stream[i] == w[i];
  }

  lemma FailedStream(w: seq<ChatEvent>)
    requires BodyOf(w, "")
    ensures TurnShape(w + [Error(UNAVAILABLE_MESSAGE), Done(UNAVAILABLE)], UNAVAILABLE, false)
  {
    hide Text, UNAVAILABLE_MESSAGE;
    var tail := [Error(UNAVAILABLE_MESSAGE), Done(UNAVAILABLE)];
    var stream := w + tail;
    TextOfLast(UNAVAILABLE);
    TextCons(Error(UNAVAILABLE_MESSAGE), [Done(UNAVAILABLE)]);
    assert [Error(UNAVAILABLE_MESSAGE)] + [Done(UNAVAILABLE)] == tail;
    TextOfAppend(w, tail);
    assert forall i :: 0 <= i < |w| ==> stream[i] == w[i];
  }

  /** A turn that completes has its shape. */
  lemma CompletedTurnHasShape(client: Option<Llm>, tools: Tools)
    requires Completes(client, tools)
    ensures TurnStored(client, tools).Some?
    ensures TurnShape(TurnStream(client, tools), TurnStored(client, tools).value, Succeeds(client, tools))
  {
    hide TurnShape, Text, DeltaText, Deltas, Rounds, CallsUpTo, AllExecute, Announced, Record, BodyOf;
    if client.None? {
      NoTextInToolEvents([]);
      WiredBody([], "");
      assert WireAll([]) == [];
      FailedStream([]);
      assert [] + [Error(UNAVAILABLE_MESSAGE), Done(UNAVAILABLE)] == TurnStream(client, tools);
    } else {
      var llm := client.value;
      var calls := ToolEvents(Asked(llm));
      AnnouncedWhenAllExecute(Asked(llm), tools);
      NoTextInToolEvents(calls);
      if Answers(llm) {
        DeltasRejoin(Answer(llm));
        DeltaTextAppend(calls, Deltas(Answer(llm)));
        assert "" + Answer(llm) == Answer(llm);
        WiredBody(calls + Deltas(Answer(llm)), Answer(llm));
        AnsweredStream(WireAll(calls + Deltas(Answer(llm))), TurnStored(client, tools).value);
      } else {
        WiredBody(calls, "");
        FailedStream(WireAll(calls));
      }
    }
  }

  /** Where a call stands among all that are asked for: round after round, each round's in the model's order. */
  lemma {:induction false} AskedRoundByRound(llm: Llm, i: nat, k: nat)
    requires i < Rounds(llm, 0) && WantsTools(llm(i)) && k < |llm(i).calls|
    ensures var before := |CallsUpTo(llm, i)|;
            before + k < |Asked(llm)| && Asked(llm)[before + k] == llm(i).calls[k]
    ensures |CallsUpTo(llm, 0)| == 0 && |CallsUpTo(llm, i + 1)| == |CallsUpTo(llm, i)| + |llm(i).calls|
  {
    CallsStep(llm, i);
    CallsGrow(llm, i + 1, Rounds(llm, 0));
  }

  /** The first entries announce the calls, in order. */
  ghost predicate OpensWithCalls(stream: seq<ChatEvent>, calls: seq<Call>) {
    && |calls| <= |stream|
    && forall i :: 0 <= i < |calls| ==> stream[i] == ToolCall(calls[i].name, calls[i].arguments)
  }

  /** The recorded calls are those asked for, each with the result of its execution; none is recorded as `None`. */
  ghost predicate RecordsCalls(recorded: Option<seq<Recorded>>, calls: seq<Call>, tools: Tools) {
    && (recorded.None? <==> calls == [])
    && (recorded.Some? ==>
          && |recorded.value| == |calls|
          && forall i :: 0 <= i < |calls| ==>
               recorded.value[i].call == calls[i] && tools(i, calls[i]) == Some(recorded.value[i].result))
  }

  /** The content is that of the model's first answer without calls, or empty if it has none. */
  ghost predicate IsFirstAnswer(content: string, llm: Llm) {
    exists k: nat ::
      && k < 5 && (forall i :: 0 <= i < k ==> WantsTools(llm(i)))
      && llm(k).Completion? && llm(k).calls == []
      && content == match llm(k).content { case Some(text) => text case None => "" }
  }

  /** A turn that completes announces all its calls; between these and the end it says the answer in pieces, or that the
      assistant is unavailable. A successful one stores the answer with every call and its result. */
  lemma {:induction false} CompletedTurnTells(llm: Llm, tools: Tools)
    requires Completes(Some(llm), tools)
    ensures var stream, stored := TurnStream(Some(llm), tools), TurnStored(Some(llm), tools).value;
            && OpensWithCalls(stream, Asked(llm))
            && (Succeeds(Some(llm), tools) ==>
                  && (forall i :: |Asked(llm)| <= i < |stream| - 1 ==> stream[i].Delta?)
                  && RecordsCalls(stored.toolCalls, Asked(llm), tools) && IsFirstAnswer(stored.content, llm))
            && (!Succeeds(Some(llm), tools) ==> |stream| == |Asked(llm)| + 2)
  {
    hide Asked, Deltas, UNAVAILABLE_MESSAGE, Executed;
    AnnouncedWhenAllExecute(Asked(llm), tools);
    if Succeeds(Some(llm), tools) { assert WantsTools(llm(Rounds(llm, 0))) == false; }
  }

  /** The stream ends in exactly one `done`, with a message stored, if and only if every tool call the model asks for
      executes and the model's client raises only what it promises; otherwise the stream is the announcements up to
      and including the first call that raises, and nothing is stored. */
  lemma {:induction false} EndsInDoneExactlyWhenCompletes(client: Option<Llm>, tools: Tools)
    ensures EndsInDone(TurnStream(client, tools)) <==> Completes(client, tools)
    ensures TurnStored(client, tools).Some? <==> Completes(client, tools)
    ensures Completes(client, tools) ==>
              TurnShape(TurnStream(client, tools), TurnStored(client, tools).value, Succeeds(client, tools))
    ensures Succeeds(client, tools) ==>
              && RecordsCalls(TurnStored(client, tools).value.toolCalls, Asked(client.value), tools)
              && IsFirstAnswer(TurnStored(client, tools).value.content, client.value)
    ensures !Completes(client, tools) ==>
              var stream, calls := TurnStream(client, tools), Asked(client.value);
              && |stream| <= |calls|
              && (forall i :: 0 <= i < |stream| ==> stream[i] == ToolCall(calls[i].name, calls[i].arguments))
              && (forall i :: 0 <= i < |stream| - 1 ==> tools(i, calls[i]).Some?)
              && (if AllExecute(calls, tools) then |stream| == |calls|
                  else stream != [] && tools(|stream| - 1, calls[|stream| - 1]).None?)
  {
    hide Asked, Text, DeltaText, Deltas, Record, RecordsCalls, IsFirstAnswer, OpensWithCalls;
    if Completes(client, tools) {
      CompletedTurnHasShape(client, tools);
      if client.Some? { CompletedTurnTells(client.value, tools); }
    } else {
      var calls := Asked(client.value);
      AnnouncedWhenAllExecute(calls, tools);
      var n := Executed(calls, tools);
      forall i | 0 <= i < n ensures tools(i, calls[i]).Some? { assert calls[..n][i] == calls[i]; }
    }
  }

  /** The promise of exactly one `done` is false of the code: the model asks for a tool that does not exist, and would
      answer next. */
  lemma UnknownToolEndsTheTurn(llm: Llm, tools: Tools)
    requires llm(0) == Completion(None, [Call("1", "no_such_tool", "{}")]) && llm(1) == Completion(Some("ok"), [])
    requires forall i, c: Call :: c.name == "no_such_tool" ==> tools(i, c) == None
    ensures TurnStream(Some(llm), tools) == [ToolCall("no_such_tool", "{}")] && TurnStored(Some(llm), tools) == None
  {
    hide Deltas, Record, Executed;
    var c := Call("1", "no_such_tool", "{}");
    assert Rounds(llm, 2 - 1) == 1 && Rounds(llm, 0) == 1;
    assert CallsUpTo(llm, 0) == [] && Asked(llm) == [c];
    AnnouncedUpToFailure([c], 0, [c], tools);
    assert [c][..1] == [c];
  }
}
