/** Concrete runs of the pipeline: a reason left behind, and five ways to leave an image unfinished. */
module PipelineRuns {
  import opened ImageOwners
  import opened ImageState
  import opened Pipeline
  import opened Wrappers

  /** Two agent tasks for one image, one failing while the other is about to commit: not calm. */
  const RACE: seq<Event> := [
    IngestEnqueues, DeliverInference, CommitProcessing(1), CommitInference(1, 1, true, "baseline", 2), EnqueueAgents,
    DeliverAgents, BrokerRedelivers, DeliverAgents, AgentRaises(0, "bad policy"), HookLoads(0), HookCommits(0, 3),
    AgentCommits(0, None, 4)]

  function Baseline(slot: Slot, agents: seq<Row>, hooks: seq<Hook>, row: Row, messages: nat): State {
    State(row, [Analysis(KnowledgeBase, "baseline")], [Model(0)], 1, 1, slot, agents, hooks, [], messages, false, 0)
  }

  const FOUND := Row(Analyzing, None, None)
  const BAD := Row(Failed, Some("bad policy"), Some(3))

  const PROCESSING := Row(Processing, None, None)

  function Begun(slot: Slot): State { Init().(row := PROCESSING, started := 1, ingesting := false, slot := slot) }

  function Waits(slot: Slot, messages: nat): State {
    Init().(ingesting := false, slot := slot, inferenceMessages := messages)
  }

  lemma Begins()
    ensures Next(Init(), IngestEnqueues) == Waits(Idle, 1)
    ensures Next(Waits(Idle, 1), DeliverInference) == Waits(Loaded(Init().row), 0)
    ensures Next(Waits(Loaded(Init().row), 0), CommitProcessing(1)) == Begun(Working(PROCESSING, 0))
  {
  }

  lemma Finds()
    ensures Next(Begun(Working(PROCESSING, 0)), CommitInference(1, 1, true, "baseline", 2))
         == Baseline(Finished(true), [], [], FOUND, 0)
    ensures Next(Baseline(Finished(true), [], [], FOUND, 0), EnqueueAgents) == Baseline(Idle, [], [], FOUND, 1)
  {
    assert ModelDetections(1, 0) == [Model(0)];
  }

  /** All runs below begin alike: a defect is found, and the agents are to be enqueued. */
  lemma FindsADefect(es: seq<Event>)
    requires |es| >= 4
    requires es[0] == IngestEnqueues && es[1] == DeliverInference && es[2] == CommitProcessing(1)
    requires es[3] == CommitInference(1, 1, true, "baseline", 2)
    ensures Run(es[..4]) == Baseline(Finished(true), [], [], FOUND, 0)
  {
    hide Run, Next;
    Begins();
    Finds();
    RunStarts(es);
    RunAt(es, 0);
    RunAt(es, 1);
    RunAt(es, 2);
    RunAt(es, 3);
  }

  lemma TaskStarts()
    ensures Next(Baseline(Idle, [], [], FOUND, 1), DeliverAgents) == Baseline(Idle, [FOUND], [], FOUND, 0)
    ensures Next(Baseline(Idle, [FOUND], [], FOUND, 0), BrokerRedelivers) == Baseline(Idle, [FOUND], [], FOUND, 1)
  {
  }

  lemma TaskStartsAgain()
    ensures Next(Baseline(Idle, [FOUND], [], FOUND, 1), DeliverAgents) == Baseline(Idle, [FOUND, FOUND], [], FOUND, 0)
  {
  }

  lemma OneTaskFails()
    ensures Next(Baseline(Idle, [FOUND, FOUND], [], FOUND, 0), AgentRaises(0, "bad policy"))
         == Baseline(Idle, [FOUND], [HookWaiting("bad policy")], FOUND, 0)
  {
    assert Remove([FOUND, FOUND], 0) == [FOUND];
  }

  lemma HookReads()
    ensures Next(Baseline(Idle, [FOUND], [HookWaiting("bad policy")], FOUND, 0), HookLoads(0))
         == Baseline(Idle, [FOUND], [HookLoaded(FOUND, "bad policy")], FOUND, 0)
  {
  }

  lemma HookStores()
    ensures Next(Baseline(Idle, [FOUND], [HookLoaded(FOUND, "bad policy")], FOUND, 0), HookCommits(0, 3))
         == Baseline(Idle, [FOUND], [], BAD, 0)
  {
    assert Remove([HookLoaded(FOUND, "bad policy")], 0) == [];
  }

  lemma OtherTaskCommits()
    ensures Next(Baseline(Idle, [FOUND], [], BAD, 0), AgentCommits(0, None, 4)).row
         == Row(Completed, Some("bad policy"), Some(4))
  {
    assert Remove([FOUND], 0) == [];
  }

  /** The property is false of the code as it stands: this run ends COMPLETED with a failure reason. */
  lemma RaceStoresReasonOnCompleted()
    ensures Run(RACE).row == Row(Completed, Some("bad policy"), Some(4))
    ensures !ReasonOk(Run(RACE).row)
  {
    hide Next, Run;
    Finds();
    FindsADefect(RACE);
    TaskStarts();
    TaskStartsAgain();
    OneTaskFails();
    HookReads();
    HookStores();
    OtherTaskCommits();
    RunAt(RACE, 4);
    RunAt(RACE, 5);
    RunAt(RACE, 6);
    RunAt(RACE, 7);
    RunAt(RACE, 8);
    RunAt(RACE, 9);
    RunAt(RACE, 10);
    RunAt(RACE, 11);
    assert RACE[..12] == RACE;
  }

  /** The inference worker dies between the second commit and the enqueue. */
  const WORKER_DEATH: seq<Event> := [
    IngestEnqueues, DeliverInference, CommitProcessing(1), CommitInference(1, 1, true, "baseline", 2), InferenceDies]

  lemma WorkerDies()
    ensures Next(Baseline(Finished(true), [], [], FOUND, 0), InferenceDies)
         == Baseline(Idle, [], [], FOUND, 0).(inferenceMessages := 1)
  {
  }

  lemma WorkerDeathStrands()
    ensures !Served(Run(WORKER_DEATH))
  {
    hide Run, Next;
    WorkerDies();
    FindsADefect(WORKER_DEATH);
    RunAt(WORKER_DEATH, 4);
    assert WORKER_DEATH[..5] == WORKER_DEATH;
  }

  /** Or, on an image analysed before, the API dies between a request's commit and its enqueue: the earlier message
      is gone, and the image stays ANALYZING. */
  const API_DEATH: seq<Event> := [
    IngestEnqueues, DeliverInference, CommitProcessing(1), CommitInference(1, 1, true, "baseline", 2), EnqueueAgents,
    DeliverAgents, AgentCommits(0, None, 3), RequestArrives, RequestCommits(0, 4), RequestDies(0)]

  const DONE := Row(Completed, None, Some(3))

  lemma AgentsAnswer()
    ensures Next(Baseline(Idle, [], [], FOUND, 1), DeliverAgents) == Baseline(Idle, [FOUND], [], FOUND, 0)
    ensures Next(Baseline(Idle, [FOUND], [], FOUND, 0), AgentCommits(0, None, 3)) == Baseline(Idle, [], [], DONE, 0)
  {
    assert Remove([FOUND], 0) == [];
  }

  lemma RequestCommitsAgain()
    ensures Next(Baseline(Idle, [], [], DONE, 0), RequestArrives)
         == Baseline(Idle, [], [], DONE, 0).(requests := [RequestLoaded(DONE)])
    ensures Next(Baseline(Idle, [], [], DONE, 0).(requests := [RequestLoaded(DONE)]), RequestCommits(0, 4))
         == Baseline(Idle, [], [], FOUND, 0).(requests := [RequestCommitted])
  {
  }

  lemma ApiDies()
    ensures Next(Baseline(Idle, [], [], FOUND, 0).(requests := [RequestCommitted]), RequestDies(0))
         == Baseline(Idle, [], [], FOUND, 0)
  {
    assert Remove([RequestCommitted], 0) == [];
  }

  lemma ApiDeathStrands()
    ensures !Served(Run(API_DEATH))
  {
    hide Run, Next;
    Finds();
    FindsADefect(API_DEATH);
    AgentsAnswer();
    RequestCommitsAgain();
    ApiDies();
    RunAt(API_DEATH, 4);
    RunAt(API_DEATH, 5);
    RunAt(API_DEATH, 6);
    RunAt(API_DEATH, 7);
    RunAt(API_DEATH, 8);
    RunAt(API_DEATH, 9);
    assert API_DEATH[..10] == API_DEATH;
  }

  /** Or the last failure hook ends without storing FAILED, its own database write failing. */
  const HOOK_FAILURE: seq<Event> := [
    IngestEnqueues, DeliverInference, CommitProcessing(1), CommitInference(1, 1, true, "baseline", 2), EnqueueAgents,
    DeliverAgents, AgentRaises(0, "bad policy"), HookFails(0)]

  lemma HookIsLost()
    ensures Next(Baseline(Idle, [FOUND], [], FOUND, 0), AgentRaises(0, "bad policy"))
         == Baseline(Idle, [], [HookWaiting("bad policy")], FOUND, 0)
    ensures Next(Baseline(Idle, [], [HookWaiting("bad policy")], FOUND, 0), HookFails(0))
         == Baseline(Idle, [], [], FOUND, 0)
  {
    assert Remove([FOUND], 0) == [] && Remove([HookWaiting("bad policy")], 0) == [];
  }

  lemma FailedHookStrands()
    ensures !Served(Run(HOOK_FAILURE))
  {
    hide Run, Next;
    Finds();
    FindsADefect(HOOK_FAILURE);
    AgentsAnswer();
    HookIsLost();
    RunAt(HOOK_FAILURE, 4);
    RunAt(HOOK_FAILURE, 5);
    RunAt(HOOK_FAILURE, 6);
    RunAt(HOOK_FAILURE, 7);
    assert HOOK_FAILURE[..8] == HOOK_FAILURE;
  }

  /** Before any analysis: the ingesting process dies, or its enqueue fails, which it only logs. */
  const INGEST_FAILURE: seq<Event> := [IngestFails]

  lemma FailedIngestStrands()
    ensures !Served(Run(INGEST_FAILURE)) && Run(INGEST_FAILURE).row.status == Queued
  {
    RunStarts(INGEST_FAILURE);
    RunAt(INGEST_FAILURE, 0);
    assert INGEST_FAILURE[..1] == INGEST_FAILURE;
  }

  /** Or the inference task fails and its hook's own write fails. */
  const INFERENCE_FAILURE: seq<Event> := [
    IngestEnqueues, DeliverInference, CommitProcessing(1), InferenceRaises("no weights"), InferenceHookFails]

  lemma TaskFails()
    ensures Next(Begun(Working(PROCESSING, 0)), InferenceRaises("no weights")) == Begun(Failing("no weights"))
    ensures Next(Begun(Failing("no weights")), InferenceHookFails) == Begun(Idle)
  {
  }

  lemma FailedInferenceHookStrands()
    ensures !Served(Run(INFERENCE_FAILURE)) && Run(INFERENCE_FAILURE).row.status == Processing
  {
    hide Run, Next;
    TaskFails();
    Begins();
    RunStarts(INFERENCE_FAILURE);
    RunAt(INFERENCE_FAILURE, 0);
    RunAt(INFERENCE_FAILURE, 1);
    RunAt(INFERENCE_FAILURE, 2);
    RunAt(INFERENCE_FAILURE, 3);
    RunAt(INFERENCE_FAILURE, 4);
    assert INFERENCE_FAILURE[..5] == INFERENCE_FAILURE;
  }
}
