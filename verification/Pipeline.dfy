/** The inspection pipeline of one image as a transition system: deliveries, redeliveries, crashes, failure
    hooks and on-demand requests, interleaved at every load and every commit.

    A database session works on a snapshot of the row and writes back only the columns it changed; the serial
    inference worker has one slot, while agent tasks, their failure hooks and requests run side by side. */
module Pipeline {
  import opened ImageState
  import opened Wrappers

  datatype Source = KnowledgeBase | Agents

  datatype Analysis = Analysis(source: Source, content: string)

  /** `pass` numbers the inference pass that produced a model detection. */
  datatype StoredDetection = Model(pass: nat) | Manual

  datatype Slot =
    | Idle
    | Loaded(s: Row)                  // read as QUEUED; the move to PROCESSING is not committed yet
    | Working(s: Row, pass: nat)      // committed or found PROCESSING; detection under way
    | Finished(enqueue: bool)         // second commit done; agents may still have to be enqueued
    | Failing(reason: string)         // task failed; the hook has not read the row yet
    | FailingLoaded(s: Row, reason: string)

  datatype Hook = HookWaiting(reason: string) | HookLoaded(s: Row, reason: string)

  datatype Request = RequestLoaded(s: Row) | RequestCommitted

  datatype State = State(
    row: Row,
    analyses: seq<Analysis>,
    detections: seq<StoredDetection>,
    passes: nat,                      // inference passes committed so far
    started: nat,                     // inference passes begun so far
    slot: Slot,
    agents: seq<Row>,                 // running agent tasks, each with the row it read
    hooks: seq<Hook>,                 // failure hooks of agent tasks
    requests: seq<Request>,
    agentMessages: nat,               // in the queue; a running task or hook holds its own message until it ends
    ingesting: bool,                  // the ingesting process has committed the row and still owes the enqueue
    inferenceMessages: nat)           // in the queue; the slot holds its own message until it is idle again

  datatype Event =
    | IngestEnqueues
    | IngestFails
    | DeliverInference
    | InferenceRedelivered
    | InferenceFailsEarly(reason: string)
    | CommitProcessing(now: nat)
    | CommitInference(stored: nat, reported: nat, toAgents: bool, content: string, now: nat)
    | EnqueueAgents
    | InferenceRaises(reason: string)
    | InferenceDies
    | InferenceHookLoads
    | InferenceHookCommits(now: nat)
    | InferenceHookFails
    | DeliverAgents
    | BrokerRedelivers
    | AgentCommits(i: nat, outcome: Option<string>, now: nat)
    | AgentDies(i: nat)
    | AgentRaises(i: nat, reason: string)
    | AgentFailsEarly(reason: string)
    | HookLoads(i: nat)
    | HookCommits(i: nat, now: nat)
    | HookFails(i: nat)
    | HookDies(i: nat)
    | RequestArrives
    | RequestCommits(i: nat, now: nat)
    | RequestEnqueues(i: nat)
    | RequestDies(i: nat)
    | Annotate

  /** A session's write: the columns whose value differs from the snapshot, over whatever the row holds now. */
  function Write(snapshot: Row, wanted: Row, db: Row): Row {
    Row(if wanted.status != snapshot.status then wanted.status else db.status,
        if wanted.failureReason != snapshot.failureReason then wanted.failureReason else db.failureReason,
        if wanted.processedAt != snapshot.processedAt then wanted.processedAt else db.processedAt)
  }

  /** Transition in a session, then commit; a refused transition writes nothing. */
  function CommitTransition(snapshot: Row, to: Status, now: nat, db: Row): Row {
    match Transitioned(snapshot, to, None, now)
    case Ok(wanted) => Write(snapshot, wanted, db)
    case Err(_) => db
  }

  function CommitFailure(snapshot: Row, reason: string, now: nat, db: Row): Row {
    match MarkedFailed(snapshot, reason, now)
    case Ok(wanted) => Write(snapshot, wanted, db)
    case Err(_) => db
  }

  function ModelDetections(n: nat, pass: nat): seq<StoredDetection> { seq(n, _ => Model(pass)) }

  /** Events that are not possible in a state leave it unchanged. */
  function Next(st: State, e: Event): State {
    match e
    case IngestEnqueues =>
      if !st.ingesting then st else st.(ingesting := false, inferenceMessages := st.inferenceMessages + 1)
    case IngestFails => st.(ingesting := false)
    case DeliverInference =>
      if !st.slot.Idle? || st.inferenceMessages == 0 then st
      else
        var taken := st.(inferenceMessages := st.inferenceMessages - 1);
        if st.row.status == Queued then taken.(slot := Loaded(st.row))
        else if st.row.status == Processing then taken.(slot := Working(st.row, st.started), started := st.started + 1)
        else taken
    case InferenceRedelivered =>
      if st.slot.Idle? then st else st.(inferenceMessages := st.inferenceMessages + 1)
    case InferenceFailsEarly(reason) =>
      if !st.slot.Idle? || st.inferenceMessages == 0 then st
      else st.(inferenceMessages := st.inferenceMessages - 1, slot := Failing(reason))
    case CommitProcessing(now) =>
      if !st.slot.Loaded? then st else
      var row := CommitTransition(st.slot.s, Processing, now, st.row);
      st.(row := row, slot := Working(row, st.started), started := st.started + 1)
    case CommitInference(stored, reported, toAgents, content, now) =>
      if !st.slot.Working? || reported > stored then st else
      st.(row := Write(st.slot.s, FinishedRow(reported > 0, toAgents, now), st.row),
          detections := st.detections + ModelDetections(stored, st.slot.pass),
          analyses := st.analyses + if reported > 0 then [Analysis(KnowledgeBase, content)] else [],
          passes := st.passes + 1,
          slot := Finished(reported > 0 && toAgents))
    case EnqueueAgents =>
      if !st.slot.Finished? then st
      else st.(slot := Idle, agentMessages := st.agentMessages + if st.slot.enqueue then 1 else 0)
    case InferenceRaises(reason) =>
      if st.slot.Idle? || st.slot.Failing? || st.slot.FailingLoaded? then st else st.(slot := Failing(reason))
    case InferenceDies =>
      if st.slot.Idle? then st else st.(slot := Idle, inferenceMessages := st.inferenceMessages + 1)
    case InferenceHookLoads =>
      if !st.slot.Failing? then st else st.(slot := FailingLoaded(st.row, st.slot.reason))
    case InferenceHookCommits(now) =>
      if !st.slot.FailingLoaded? then st
      else st.(row := CommitFailure(st.slot.s, st.slot.reason, now, st.row), slot := Idle)
    case InferenceHookFails =>
      if !st.slot.Failing? && !st.slot.FailingLoaded? then st else st.(slot := Idle)
    case DeliverAgents =>
      if st.agentMessages == 0 then st
      else if st.row.status != Analyzing then st.(agentMessages := st.agentMessages - 1)
      else if st.analyses == [] then
        st.(agentMessages := st.agentMessages - 1, row := CommitTransition(st.row, Completed, 0, st.row))
      else st.(agentMessages := st.agentMessages - 1, agents := st.agents + [st.row])
    case BrokerRedelivers => if st.agents == [] then st else st.(agentMessages := st.agentMessages + 1)
    case AgentCommits(i, outcome, now) =>
      if i >= |st.agents| then st else
      st.(row := CommitTransition(st.agents[i], Completed, now, st.row),
          analyses := if outcome.Some? && st.analyses != [] then st.analyses[0 := Analysis(Agents, outcome.value)]
                      else st.analyses,
          agents := Remove(st.agents, i))
    case AgentDies(i) =>
      if i >= |st.agents| then st else st.(agents := Remove(st.agents, i), agentMessages := st.agentMessages + 1)
    case AgentRaises(i, reason) =>
      if i >= |st.agents| then st else st.(agents := Remove(st.agents, i), hooks := st.hooks + [HookWaiting(reason)])
    case AgentFailsEarly(reason) =>
      if st.agentMessages == 0 then st
      else st.(agentMessages := st.agentMessages - 1, hooks := st.hooks + [HookWaiting(reason)])
    case HookLoads(i) =>
      if i >= |st.hooks| then st else st.(hooks := st.hooks[i := HookLoaded(st.row, st.hooks[i].reason)])
    case HookCommits(i, now) =>
      if i >= |st.hooks| || !st.hooks[i].HookLoaded? then st else
      st.(row := CommitFailure(st.hooks[i].s, st.hooks[i].reason, now, st.row), hooks := Remove(st.hooks, i))
    case HookFails(i) => if i >= |st.hooks| then st else st.(hooks := Remove(st.hooks, i))
    case HookDies(i) =>
      if i >= |st.hooks| then st
      else st.(hooks := Remove(st.hooks, i), agentMessages := st.agentMessages + 1)
    case RequestArrives =>
      if st.analyses == [] || st.row.status != Completed then st
      else st.(requests := st.requests + [RequestLoaded(st.row)])
    case RequestCommits(i, now) =>
      if i >= |st.requests| || !st.requests[i].RequestLoaded? then st else
      st.(row := CommitTransition(st.requests[i].s, Analyzing, now, st.row),
          requests := st.requests[i := RequestCommitted])
    case RequestEnqueues(i) =>
      if i >= |st.requests| || !st.requests[i].RequestCommitted? then st else
      st.(agentMessages := st.agentMessages + 1, requests := Remove(st.requests, i))
    case RequestDies(i) => if i >= |st.requests| then st else st.(requests := Remove(st.requests, i))
    case Annotate => st.(detections := st.detections + [Manual])
  }

  function Init(): State {
    State(Row(Queued, None, None), [], [], 0, 0, Idle, [], [], [], 0, true, 0)
  }

  function Run(es: seq<Event>): State {
    if es == [] then Init() else Next(Run(es[..|es| - 1]), es[|es| - 1])
  }

  lemma RunAt(es: seq<Event>, k: nat)
    requires k < |es|
    ensures Run(es[..k + 1]) == Next(Run(es[..k]), es[k])
  {
    hide Next;
    assert es[..k + 1][..k] == es[..k];
  }

  lemma RunStarts(es: seq<Event>)
    ensures Run(es[..0]) == Init()
  {
    assert es[..0] == [];
  }
}
