/** One chat turn: the bounded tool-calling loop and the stream of events the router makes of it. */
module ChatTurn {
  import opened Wrappers

  const MAX_TOOL_ITERATIONS: nat := 5
  const CHUNK_SIZE: nat := 40
  const UNAVAILABLE_MESSAGE :=
    "The AI assistant is temporarily unavailable. Your question was saved — try again in a moment."

  datatype Call = Call(id: string, name: string, arguments: string)

  datatype Recorded = Recorded(call: Call, result: string)

  /** `Unavailable` is the one exception the model's client promises; `Crashed` is any other it lets through. */
  datatype Completion = Unavailable | Crashed | Completion(content: Option<string>, calls: seq<Call>)

  datatype Message =
    | System(text: string)
    | User(text: string)
    | Assistant(content: Option<string>, calls: seq<Call>)
    | Tool(callId: string, result: string)

  datatype AgentEvent =
    | ToolCallEvent(name: string, arguments: string)
    | ContentDelta(text: string)
    | Finished(content: string, recorded: seq<Recorded>)

  /** The model's answers and the tools' results are arbitrary, one value per request; `None` is a tool that raises,
      as for an unknown name or arguments it cannot read. */
  type Llm = nat -> Completion
  type Tools = (nat, Call) -> Option<string>

  predicate WantsTools(c: Completion) { c.Completion? && c.calls != [] }

  /** Rounds spent on tools before the first answer, failure, or the bound. */
  function Rounds(llm: Llm, from: nat): (r: nat)
    requires from <= MAX_TOOL_ITERATIONS
    ensures from <= r <= MAX_TOOL_ITERATIONS
    ensures forall i :: from <= i < r ==> WantsTools(llm(i))
    ensures r < MAX_TOOL_ITERATIONS ==> !WantsTools(llm(r))
    decreases MAX_TOOL_ITERATIONS - from
  {
    if from == MAX_TOOL_ITERATIONS || !WantsTools(llm(from)) then from else Rounds(llm, from + 1)
  }

  predicate Answers(llm: Llm) {
    var r := Rounds(llm, 0);
    r < MAX_TOOL_ITERATIONS && llm(r).Completion?
  }

  predicate Crashes(llm: Llm) {
    var r := Rounds(llm, 0);
    r < MAX_TOOL_ITERATIONS && llm(r).Crashed?
  }

  function Answer(llm: Llm): string
    requires Answers(llm)
  {
    match llm(Rounds(llm, 0)).content
    case Some(text) => text
    case None => ""
  }

  function CallsUpTo(llm: Llm, r: nat): seq<Call>
    requires forall i :: 0 <= i < r ==> WantsTools(llm(i))
  {
    if r == 0 then [] else assert WantsTools(llm(r - 1)); CallsUpTo(llm, r - 1) + llm(r - 1).calls
  }

  /** Every call the model asks for, as long as the ones before it return. */
  function Asked(llm: Llm): seq<Call> { CallsUpTo(llm, Rounds(llm, 0)) }

  /** At most five rounds are spent on tools; a model that keeps asking for them is given up after the fifth. */
  lemma {:induction false} FiveRoundsAtMost(llm: Llm)
    ensures Rounds(llm, 0) <= 5
    ensures Rounds(llm, 0) == 5 <==> forall i :: 0 <= i < 5 ==> WantsTools(llm(i))
  {
    assert Rounds(llm, 5) == 5;
  }

  lemma {:induction false} CallsGrow(llm: Llm, i: nat, r: nat)
    requires i <= r && forall k :: 0 <= k < r ==> WantsTools(llm(k))
    ensures CallsUpTo(llm, i) <= CallsUpTo(llm, r)
  {
    if i < r { CallsGrow(llm, i, r - 1); }
  }

  predicate AllExecute(calls: seq<Call>, tools: Tools) {
    forall i :: 0 <= i < |calls| ==> tools(i, calls[i]).Some?
  }

  /** The number of calls before the first that raises. */
  function Executed(calls: seq<Call>, tools: Tools): (n: nat)
    ensures n <= |calls| && AllExecute(calls[..n], tools)
    ensures n < |calls| ==> tools(n, calls[n]).None?
  {
    if calls == [] then 0 else
    var last := |calls| - 1;
    var n := Executed(calls[..last], tools);
    assert calls[..last][..n] == calls[..n];
    if n < last || tools(last, calls[last]).None? then n else assert calls[..last + 1] == calls; last + 1
  }

  /** The calls announced to the client: those that return, and the first that raises. */
  function Announced(calls: seq<Call>, tools: Tools): seq<Call> {
    var n := Executed(calls, tools);
    calls[..if n < |calls| then n + 1 else n]
  }

  lemma AnnouncedWhenAllExecute(calls: seq<Call>, tools: Tools)
    ensures AllExecute(calls, tools) <==> Executed(calls, tools) == |calls|
    ensures AllExecute(calls, tools) ==> Announced(calls, tools) == calls
  {
    assert calls[..|calls|] == calls;
  }

  /** The first call to raise decides, whatever would have been asked after it. */
  lemma AnnouncedUpToFailure(calls: seq<Call>, n: nat, all: seq<Call>, tools: Tools)
    requires n < |calls| && AllExecute(calls[..n], tools) && tools(n, calls[n]).None?
    requires calls <= all
    ensures !AllExecute(all, tools) && Announced(all, tools) == calls[..n + 1]
  {
    var m := Executed(all, tools);
    assert tools(n, all[n]).None?;
    assert forall i :: 0 <= i < n ==> calls[..n][i] == all[i];
    assert forall i :: 0 <= i < m ==> all[..m][i] == all[i];
  }

  function EventOf(c: Call): AgentEvent { ToolCallEvent(c.name, c.arguments) }

  function ToolEvents(calls: seq<Call>): (events: seq<AgentEvent>)
    ensures |events| == |calls| && forall i :: 0 <= i < |events| ==> events[i] == EventOf(calls[i])
  {
    seq(|calls|, i requires 0 <= i < |calls| => EventOf(calls[i]))
  }

  function Record(calls: seq<Call>, tools: Tools): (recorded: seq<Recorded>)
    requires AllExecute(calls, tools)
    ensures |recorded| == |calls|
    ensures forall i :: 0 <= i < |calls| ==> recorded[i] == Recorded(calls[i], tools(i, calls[i]).value)
  {
    seq(|calls|, i requires 0 <= i < |calls| => Recorded(calls[i], tools(i, calls[i]).value))
  }

  function Deltas(content: string): (events: seq<AgentEvent>)
    ensures forall i :: 0 <= i < |events| ==> events[i].ContentDelta?
  {
    if |content| <= CHUNK_SIZE then (if content == "" then [] else [ContentDelta(content)])
    else [ContentDelta(content[..CHUNK_SIZE])] + Deltas(content[CHUNK_SIZE..])
  }

  function DeltaText(events: seq<AgentEvent>): string {
    if events == [] then "" else (if events[0].ContentDelta? then events[0].text else "") + DeltaText(events[1..])
  }

  /** Re-chunking an answer loses nothing, and no chunk is empty or longer than the chunk size. */
  lemma {:induction false} DeltasRejoin(content: string)
    ensures DeltaText(Deltas(content)) == content
    ensures forall i :: 0 <= i < |Deltas(content)| ==> 0 < |Deltas(content)[i].text| <= 40
    ensures |Deltas(content)| == (|content| + 39) / 40
    decreases |content|
  {
    if |content| > CHUNK_SIZE {
      DeltasRejoin(content[CHUNK_SIZE..]);
      assert content == content[..CHUNK_SIZE] + content[CHUNK_SIZE..];
    } else if content != "" {
      assert Deltas(content)[1..] == [];
    }
  }

  /** Every tool result in a conversation answers a call made by an assistant message before it. */
  ghost predicate ToolResultsAnswerCalls(messages: seq<Message>, from: nat) {
    forall i :: from <= i < |messages| && messages[i].Tool? ==> AnswersACall(messages, i)
  }

  ghost predicate AnswersACall(messages: seq<Message>, i: nat)
    requires i < |messages| && messages[i].Tool?
  {
    exists j, k ::
      && 0 <= j < i && messages[j].Assistant?
      && 0 <= k < |messages[j].calls| && messages[j].calls[k].id == messages[i].callId
  }

  /** The end of a slice, which stops at the end of the text. */
  function SliceEnd(content: string, end: nat): nat { if end <= |content| then end else |content| }

  lemma NextChunk(content: string, start: nat)
    requires start < |content|
    ensures var end := SliceEnd(content, start + CHUNK_SIZE);
            Deltas(content[start..]) == [ContentDelta(content[start..end])] + Deltas(content[end..])
  {
    var rest := content[start..];
    if |rest| > CHUNK_SIZE {
      assert rest[..CHUNK_SIZE] == content[start..start + CHUNK_SIZE];
      assert rest[CHUNK_SIZE..] == content[start + CHUNK_SIZE..];
    } else {
      assert content[start..|content|] == rest && content[|content|..] == "";
    }
  }

  lemma NoChunkLeft(content: string)
    ensures content[0..] == content && Deltas(content[|content|..]) == []
  {
  }

  method ChunkContent(content: string) returns (events: seq<AgentEvent>)
    ensures events == Deltas(content)
  {
    hide Deltas;
    events := [];
    var start := 0;
    NoChunkLeft(content);
    while start < |content|
      invariant 0 <= start
      invariant events + Deltas(content[SliceEnd(content, start)..]) == Deltas(content)
    {
      NextChunk(content, start);
      var end := SliceEnd(content, start + CHUNK_SIZE);
      ghost var rest := Deltas(content[end..]);
      var piece := [ContentDelta(content[start..end])];
      assert events + (piece + rest) == events + piece + rest;
      events := events + piece;
      start := start + CHUNK_SIZE;
    }
  }

  /** The assistant message at `at` is followed by `n` tool messages: in the order of its calls, each with the call's id
      and the result of its execution. */
  ghost predicate ResultsFollow(messages: seq<Message>, at: nat, calls: seq<Call>, n: nat, tools: Tools, before: nat)
    requires n <= |calls|
  {
    && at + n < |messages| && messages[at].Assistant? && messages[at].calls == calls
    && forall k :: at < k <= at + n ==> ResultOf(messages[k], calls[k - at - 1], tools, before + k - at - 1)
  }

  predicate ResultOf(m: Message, c: Call, tools: Tools, i: nat) {
    m.Tool? && m.callId == c.id && tools(i, c) == Some(m.result)
  }

  ghost predicate EndsWithResults(messages: seq<Message>, calls: seq<Call>, n: nat, tools: Tools, before: nat)
    requires n <= |calls|
  {
    n < |messages| && ResultsFollow(messages, |messages| - n - 1, calls, n, tools, before)
  }

  lemma OneMoreResult(messages: seq<Message>, calls: seq<Call>, n: nat, tools: Tools, before: nat, result: string)
    requires n < |calls| && EndsWithResults(messages, calls, n, tools, before)
    requires tools(before + n, calls[n]) == Some(result)
    ensures EndsWithResults(messages + [Tool(calls[n].id, result)], calls, n + 1, tools, before)
  {
  }

  /** Runs one round's calls in order: an event, an execution, a record and a tool message for each, up to the first
      that raises. */
  method RunCalls(calls: seq<Call>, ghost earlier: seq<Call>, tools: Tools, events0: seq<AgentEvent>,
                  recorded0: seq<Recorded>, messages0: seq<Message>)
      returns (events: seq<AgentEvent>, recorded: seq<Recorded>, messages: seq<Message>, raised: bool, ghost n: nat)
    requires AllExecute(earlier, tools) && events0 == ToolEvents(earlier) && recorded0 == Record(earlier, tools)
    requires EndsWithResults(messages0, calls, 0, tools, |earlier|)
    ensures n <= |calls| && AllExecute(earlier + calls[..n], tools)
    ensures raised <==> n < |calls|
    ensures raised ==> tools(|earlier| + n, calls[n]).None? && events == ToolEvents(earlier + calls[..n + 1])
    ensures !raised ==> events == ToolEvents(earlier + calls)
    ensures recorded == Record(earlier + calls[..n], tools)
    ensures messages0 <= messages && |messages| == |messages0| + n
    ensures EndsWithResults(messages, calls, n, tools, |earlier|)
  {
    hide ToolEvents, Record, EndsWithResults;
    events, recorded, messages, n := events0, recorded0, messages0, 0;
    assert earlier + calls[..0] == earlier;
    for i := 0 to |calls|
      invariant n == i && AllExecute(earlier + calls[..i], tools)
      invariant events == ToolEvents(earlier + calls[..i])
      invariant recorded == Record(earlier + calls[..i], tools) && |recorded| == |earlier| + i
      invariant |messages| == |messages0| + i && messages0 <= messages
      invariant EndsWithResults(messages, calls, i, tools, |earlier|)
    {
      var call := calls[i];
      ghost var before := earlier + calls[..i];
      assert earlier + calls[..i + 1] == before + [call];
      events := events + [ToolCallEvent(call.name, call.arguments)];
      assert events == ToolEvents(before + [call]);
      var result := tools(|recorded|, call);
      if result.None? {
        return events, recorded, messages, true, n;
      }
      assert AllExecute(before + [call], tools);
      recorded := recorded + [Recorded(call, result.value)];
      assert recorded == Record(before + [call], tools);
      OneMoreResult(messages, calls, i, tools, |earlier|, result.value);
      messages := messages + [Tool(call.id, result.value)];
      n := n + 1;
    }
    assert calls[..|calls|] == calls;
    raised := false;
  }

  lemma ResultsAnswerCalls(before: seq<Message>, after: seq<Message>, calls: seq<Call>, n: nat, tools: Tools,
                           earlier: nat, from: nat)
    requires n <= |calls| && before <= after && |after| == |before| + 1 + n
    requires EndsWithResults(after, calls, n, tools, earlier)
    requires ToolResultsAnswerCalls(before, from)
    ensures ToolResultsAnswerCalls(after, from)
  {
    var m := |before| + 1;
    forall i | from <= i < |after| && after[i].Tool? ensures AnswersACall(after, i) {
      if i < |before| {
        assert AnswersACall(before, i);
        var j, k :| && 0 <= j < i && before[j].Assistant?
                    && 0 <= k < |before[j].calls| && before[j].calls[k].id == before[i].callId;
        assert after[j] == before[j] && after[i] == before[i];
      } else {
        assert ResultOf(after[i], calls[i - m], tools, earlier + i - m);
        assert after[m - 1].calls[i - m].id == after[i].callId;
      }
    }
  }

  lemma NoResultYet(messages: seq<Message>, calls: seq<Call>, tools: Tools, before: nat)
    requires messages != [] && messages[|messages| - 1].Assistant? && messages[|messages| - 1].calls == calls
    ensures EndsWithResults(messages, calls, 0, tools, before)
  {
  }

  /** `GivenUp` is the exception the router turns into one `error`; `Broken` is any other, which nothing catches. */
  datatype Outcome = Answered | GivenUp | Broken

  function TurnOutcome(llm: Llm, tools: Tools): Outcome {
    if !AllExecute(Asked(llm), tools) || Crashes(llm) then Broken
    else if Answers(llm) then Answered
    else GivenUp
  }

  /** The conversation after `r` rounds of tools: behind the history, round `i` is the model's message followed by the
      results of its calls. */
  ghost predicate IsConversation(messages: seq<Message>, history: seq<Message>, llm: Llm, tools: Tools, r: nat)
    requires forall i :: 0 <= i < r ==> WantsTools(llm(i))
  {
    && history <= messages && |messages| == |history| + r + |CallsUpTo(llm, r)|
    && forall i :: 0 <= i < r ==> RoundIn(messages, |history|, llm, tools, i)
  }

  ghost predicate RoundIn(messages: seq<Message>, start: nat, llm: Llm, tools: Tools, i: nat)
    requires forall k :: 0 <= k <= i ==> WantsTools(llm(k))
  {
    assert WantsTools(llm(i));
    var before := |CallsUpTo(llm, i)|;
    var at := start + i + before;
    && ResultsFollow(messages, at, llm(i).calls, |llm(i).calls|, tools, before)
    && messages[at] == Assistant(llm(i).content, llm(i).calls)
  }

  lemma OneMoreRound(before: seq<Message>, messages: seq<Message>, history: seq<Message>, llm: Llm, tools: Tools,
                     r: nat)
    requires forall i :: 0 <= i <= r ==> WantsTools(llm(i))
    requires IsConversation(before, history, llm, tools, r)
    requires WantsTools(llm(r)) && before + [Assistant(llm(r).content, llm(r).calls)] <= messages
    requires |messages| == |before| + 1 + |llm(r).calls|
    requires EndsWithResults(messages, llm(r).calls, |llm(r).calls|, tools, |CallsUpTo(llm, r)|)
    ensures IsConversation(messages, history, llm, tools, r + 1)
  {
    hide RoundIn, CallsUpTo, EndsWithResults;
    CallsStep(llm, r);
    assert messages[|before|] == (before + [Assistant(llm(r).content, llm(r).calls)])[|before|];
    forall i | 0 <= i < r + 1 ensures RoundIn(messages, |history|, llm, tools, i) {
      if i < r {
        RoundStays(before, messages, |history|, llm, tools, i);
      } else {
        LastRound(messages, |history|, llm, tools, r);
      }
    }
  }

  lemma RoundStays(before: seq<Message>, messages: seq<Message>, start: nat, llm: Llm, tools: Tools, i: nat)
    requires forall k :: 0 <= k <= i ==> WantsTools(llm(k))
    requires before <= messages && RoundIn(before, start, llm, tools, i)
    ensures RoundIn(messages, start, llm, tools, i)
  {
    hide CallsUpTo;
  }

  lemma LastRound(messages: seq<Message>, start: nat, llm: Llm, tools: Tools, r: nat)
    requires forall i :: 0 <= i <= r ==> WantsTools(llm(i))
    requires WantsTools(llm(r)) && |messages| == start + r + |CallsUpTo(llm, r)| + 1 + |llm(r).calls|
    requires messages[start + r + |CallsUpTo(llm, r)|] == Assistant(llm(r).content, llm(r).calls)
    requires EndsWithResults(messages, llm(r).calls, |llm(r).calls|, tools, |CallsUpTo(llm, r)|)
    ensures RoundIn(messages, start, llm, tools, r)
  {
    hide CallsUpTo;
  }

  lemma NothingYet(history: seq<Message>, llm: Llm, tools: Tools)
    ensures ToolResultsAnswerCalls(history, |history|) && IsConversation(history, history, llm, tools, 0)
    ensures AllExecute([], tools) && ToolEvents([]) == [] && Record([], tools) == []
  {
  }

  lemma TakeOfAppend<T>(a: seq<T>, b: seq<T>, n: nat)
    requires n <= |b|
    ensures (a + b)[..|a| + n] == a + b[..n]
    ensures n < |b| ==> (a + b)[|a| + n] == b[n]
  {
  }

  lemma RoundsStep(llm: Llm, i: nat)
    requires i < MAX_TOOL_ITERATIONS
    ensures Rounds(llm, i) == if WantsTools(llm(i)) then Rounds(llm, i + 1) else i
  {
  }

  lemma CallsStep(llm: Llm, i: nat)
    requires forall k :: 0 <= k <= i ==> WantsTools(llm(k))
    ensures WantsTools(llm(i)) && CallsUpTo(llm, i + 1) == CallsUpTo(llm, i) + llm(i).calls
  {
  }

  /** What the loop has done when a call of round `i` raises is all it will ever do. */
  lemma RaisedCallEndsTheTurn(llm: Llm, i: nat, n: nat, tools: Tools)
    requires i < Rounds(llm, 0) && WantsTools(llm(i)) && n < |llm(i).calls|
    requires AllExecute(CallsUpTo(llm, i) + llm(i).calls[..n], tools)
    requires tools(|CallsUpTo(llm, i)| + n, llm(i).calls[n]).None?
    ensures TurnOutcome(llm, tools) == Broken
    ensures Announced(Asked(llm), tools) == CallsUpTo(llm, i) + llm(i).calls[..n + 1]
  {
    hide AllExecute, Announced, Rounds, CallsUpTo, Crashes, Answers;
    CallsStep(llm, i);
    var before, more := CallsUpTo(llm, i), llm(i).calls;
    TakeOfAppend(before, more, n);
    TakeOfAppend(before, more, n + 1);
    CallsGrow(llm, i + 1, Rounds(llm, 0));
    AnnouncedUpToFailure(before + more, |before| + n, Asked(llm), tools);
  }

  /** What the last request of a turn decides when every call before it has returned. */
  lemma LastRequestDecides(llm: Llm, i: nat, tools: Tools)
    requires i <= MAX_TOOL_ITERATIONS && Rounds(llm, 0) == i && AllExecute(CallsUpTo(llm, i), tools)
    ensures Asked(llm) == CallsUpTo(llm, i) && Announced(Asked(llm), tools) == Asked(llm)
    ensures i == MAX_TOOL_ITERATIONS ==> TurnOutcome(llm, tools) == GivenUp
    ensures i < MAX_TOOL_ITERATIONS ==>
              match llm(i)
              case Crashed => TurnOutcome(llm, tools) == Broken
              case Unavailable => TurnOutcome(llm, tools) == GivenUp
              case Completion(content, _) =>
                && TurnOutcome(llm, tools) == Answered
                && Answer(llm) == match content { case Some(text) => text case None => "" }
  {
    hide Rounds, CallsUpTo, AllExecute, Announced;
    AnnouncedWhenAllExecute(Asked(llm), tools);
  }

  /** What a round of tools leaves, after all of its calls or up to the first that raises. */
  lemma RoundEnds(before: seq<Message>, messages: seq<Message>, history: seq<Message>, llm: Llm, tools: Tools,
                  i: nat, n: nat)
    requires forall k :: 0 <= k <= i ==> WantsTools(llm(k))
    requires WantsTools(llm(i)) && n <= |llm(i).calls|
    requires history <= before && ToolResultsAnswerCalls(before, |history|)
    requires IsConversation(before, history, llm, tools, i)
    requires before + [Assistant(llm(i).content, llm(i).calls)] <= messages && |messages| == |before| + 1 + n
    requires EndsWithResults(messages, llm(i).calls, n, tools, |CallsUpTo(llm, i)|)
    ensures history <= messages && ToolResultsAnswerCalls(messages, |history|)
    ensures n == |llm(i).calls| ==>
              && IsConversation(messages, history, llm, tools, i + 1)
              && CallsUpTo(llm, i + 1) == CallsUpTo(llm, i) + llm(i).calls
              && CallsUpTo(llm, i + 1) == CallsUpTo(llm, i) + llm(i).calls[..n]
  {
    hide ToolResultsAnswerCalls, IsConversation, EndsWithResults, CallsUpTo;
    CallsStep(llm, i);
    ResultsAnswerCalls(before, messages, llm(i).calls, n, tools, |CallsUpTo(llm, i)|, |history|);
    if n == |llm(i).calls| {
      OneMoreRound(before, messages, history, llm, tools, i);
      assert llm(i).calls[..n] == llm(i).calls;
    }
  }

  /** The bounded loop; an unreachable model and an exhausted bound are given up alike. */
  method RunTurn(history: seq<Message>, llm: Llm, tools: Tools)
      returns (events: seq<AgentEvent>, outcome: Outcome, messages: seq<Message>)
    ensures outcome == TurnOutcome(llm, tools)
    ensures outcome.Answered? ==>
              events == ToolEvents(Asked(llm)) + Deltas(Answer(llm))
                        + [Finished(Answer(llm), Record(Asked(llm), tools))]
    ensures !outcome.Answered? ==> events == ToolEvents(Announced(Asked(llm), tools))
    ensures history <= messages && ToolResultsAnswerCalls(messages, |history|)
    ensures !outcome.Broken? ==> IsConversation(messages, history, llm, tools, Rounds(llm, 0))
  {
    NothingYet(history, llm, tools);
    assert CallsUpTo(llm, 0) == [];
    hide ToolEvents, Record, ToolResultsAnswerCalls, AllExecute, Announced, Deltas, Rounds, CallsUpTo, EndsWithResults;
    hide TurnOutcome, Asked, Answer, IsConversation;
    events, messages := [], history;
    var recorded: seq<Recorded> := [];
    for i := 0 to MAX_TOOL_ITERATIONS
      invariant Rounds(llm, 0) == Rounds(llm, i)
      invariant forall k :: 0 <= k < i ==> WantsTools(llm(k))
      invariant AllExecute(CallsUpTo(llm, i), tools)
      invariant events == ToolEvents(CallsUpTo(llm, i))
      invariant recorded == Record(CallsUpTo(llm, i), tools)
      invariant history <= messages && ToolResultsAnswerCalls(messages, |history|)
      invariant IsConversation(messages, history, llm, tools, i)
    {
      var completion := llm(i);
      RoundsStep(llm, i);
      if !WantsTools(completion) { LastRequestDecides(llm, i, tools); }
      if completion.Crashed? {
        return events, Broken, messages;
      }
      if completion.Unavailable? {
        return events, GivenUp, messages;
      }
      if completion.calls == [] {
        var content := match completion.content { case Some(text) => text case None => "" };
        var deltas := ChunkContent(content);
        return events + deltas + [Finished(content, recorded)], Answered, messages;
      }
      ghost var before := messages;
      messages := messages + [Assistant(completion.content, completion.calls)];
      NoResultYet(messages, completion.calls, tools, |CallsUpTo(llm, i)|);
      var raised;
      ghost var n;
      events, recorded, messages, raised, n :=
        RunCalls(completion.calls, CallsUpTo(llm, i), tools, events, recorded, messages);
      RoundEnds(before, messages, history, llm, tools, i, n);
      if raised {
        RaisedCallEndsTheTurn(llm, i, n, tools);
        return events, Broken, messages;
      }
    }
    LastRequestDecides(llm, MAX_TOOL_ITERATIONS, tools);
    return events, GivenUp, messages;
  }

  // ---- the router ----

  datatype StoredMessage = StoredMessage(content: string, toolCalls: Option<seq<Recorded>>)

  const UNAVAILABLE := StoredMessage(UNAVAILABLE_MESSAGE, None)

  /** What travels on the wire, and what the client hands to its callback. */
  datatype ChatEvent =
    | ToolCall(name: string, arguments: string)
    | Delta(text: string)
    | Error(message: string)
    | Done(stored: StoredMessage)

  function Wire(e: AgentEvent): ChatEvent
    requires !e.Finished?
  {
    if e.ToolCallEvent? then ToolCall(e.name, e.arguments) else Delta(e.text)
  }

  function WireAll(events: seq<AgentEvent>): (w: seq<ChatEvent>)
    requires forall i :: 0 <= i < |events| ==> !events[i].Finished?
    ensures |w| == |events| && forall i :: 0 <= i < |w| ==> w[i] == Wire(events[i])
  {
    seq(|events|, i requires 0 <= i < |events| => Wire(events[i]))
  }

  function Text(events: seq<ChatEvent>): string {
    if events == [] then "" else (if events[0].Delta? then events[0].text else "") + Text(events[1..])
  }

  /** The stream of a turn and the message it stores; `None` is a client that could not be built. */
  function TurnStored(client: Option<Llm>, tools: Tools): Option<StoredMessage> {
    if client.None? then Some(UNAVAILABLE)
    else match TurnOutcome(client.value, tools)
         case Broken => None
         case GivenUp => Some(UNAVAILABLE)
         case Answered =>
           var recorded := Record(Asked(client.value), tools);
           Some(StoredMessage(Answer(client.value), if recorded == [] then None else Some(recorded)))
  }

  function TurnStream(client: Option<Llm>, tools: Tools): seq<ChatEvent> {
    if client.None? then [Error(UNAVAILABLE_MESSAGE), Done(UNAVAILABLE)]
    else
      var calls := ToolEvents(Announced(Asked(client.value), tools));
      match TurnOutcome(client.value, tools)
      case Broken => WireAll(calls)
      case GivenUp => WireAll(calls) + [Error(UNAVAILABLE_MESSAGE), Done(UNAVAILABLE)]
      case Answered => WireAll(calls + Deltas(Answer(client.value))) + [Done(TurnStored(client, tools).value)]
  }

  /** Body of a successful response; `history` already ends with the stored user message, which is sent again. An
      exception other than the router's own ends the stream where it is, and nothing is stored. */
  method MessageStream(history: seq<Message>, userContent: string, client: Option<Llm>, tools: Tools)
      returns (stream: seq<ChatEvent>, stored: Option<StoredMessage>, conversation: seq<Message>)
    ensures stream == TurnStream(client, tools) && stored == TurnStored(client, tools)
    ensures client.Some? ==> history + [User(userContent)] <= conversation
    ensures client.Some? && !TurnOutcome(client.value, tools).Broken? ==>
              IsConversation(conversation, history + [User(userContent)], client.value, tools, Rounds(client.value, 0))
  {
    hide Deltas, ToolEvents, Asked, Answers, Answer, Record, AllExecute, Announced, TurnOutcome, IsConversation;
    if client.None? {
      return [Error(UNAVAILABLE_MESSAGE), Done(UNAVAILABLE)], Some(UNAVAILABLE), history;
    }
    OutcomeMeans(client.value, tools);
    var events, outcome;
    events, outcome, conversation := RunTurn(history + [User(userContent)], client.value, tools);
    match outcome {
      case Answered =>
        var final := events[|events| - 1];
        var body := events[..|events| - 1];
        assert body == ToolEvents(Asked(client.value)) + Deltas(final.content);
        stored := Some(StoredMessage(final.content, if final.recorded == [] then None else Some(final.recorded)));
        stream := WireAll(body) + [Done(stored.value)];
      case GivenUp =>
        stored := Some(UNAVAILABLE);
        stream := WireAll(events) + [Error(UNAVAILABLE_MESSAGE), Done(UNAVAILABLE)];
      case Broken =>
        stored := None;
        stream := WireAll(events);
    }
  }

  lemma OutcomeMeans(llm: Llm, tools: Tools)
    ensures !TurnOutcome(llm, tools).Broken? ==>
              AllExecute(Asked(llm), tools) && Announced(Asked(llm), tools) == Asked(llm)
    ensures TurnOutcome(llm, tools).Answered? ==> Answers(llm)
  {
    AnnouncedWhenAllExecute(Asked(llm), tools);
  }
}
