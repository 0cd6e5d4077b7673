/** What every committed state of the pipeline satisfies, in every run. */
module PipelineSafety {
  import opened ImageState
  import opened Pipeline

  predicate Waiting(s: Status) { s == Queued || s == Processing }

  ghost predicate OnePass(detections: seq<StoredDetection>) {
    forall i, j :: 0 <= i < |detections| && 0 <= j < |detections| && detections[i].Model? && detections[j].Model?
      ==> detections[i].pass == detections[j].pass
  }

  ghost predicate NoModel(detections: seq<StoredDetection>) {
    forall i :: 0 <= i < |detections| ==> detections[i].Manual?
  }

  /** The promises about what is stored. */
  ghost predicate Safe(st: State) {
    && |st.analyses| <= 1
    && st.passes <= 1 && OnePass(st.detections)
    && st.row.status != Detected
    && (st.row.status == Analyzing ==> st.analyses != [])
    && StampOk(st.row)
  }

  ghost predicate SlotOk(st: State) {
    match st.slot
    case Loaded(s) => s == st.row && s.status == Queued
    case Working(s, _) => s == st.row && s.status == Processing
    case Finished(enqueue) => !Waiting(st.row.status) && (enqueue ==> st.analyses != [])
    case FailingLoaded(s, _) =>
      s.status != Detected && StampOk(s) && (Waiting(s.status) || Waiting(st.row.status) ==> s == st.row)
    case _ => true
  }

  /** Everything outside the inference worker exists only once the image has left the waiting statuses. */
  ghost predicate OthersOk(st: State) {
    && ((st.agentMessages > 0 || st.agents != [] || st.hooks != [] || st.requests != [])
        ==> st.analyses != [] && !Waiting(st.row.status))
    && (forall i :: 0 <= i < |st.agents| ==> st.agents[i].status == Analyzing && StampOk(st.agents[i]))
    && (forall i :: 0 <= i < |st.hooks| && st.hooks[i].HookLoaded?
          ==> st.hooks[i].s.status in {Analyzing, Completed, Failed} && StampOk(st.hooks[i].s))
    && (forall i :: 0 <= i < |st.requests| && st.requests[i].RequestLoaded?
          ==> st.requests[i].s.status == Completed && StampOk(st.requests[i].s))
  }

  ghost predicate Inv(st: State) {
    && Safe(st) && SlotOk(st) && OthersOk(st)
    && (Waiting(st.row.status) ==> st.analyses == [] && st.passes == 0 && NoModel(st.detections))
    && (st.ingesting ==> st.row.status == Queued && st.slot.Idle? && st.inferenceMessages == 0)
  }

  predicate OfInference(e: Event) {
    || e.IngestEnqueues? || e.IngestFails? || e.DeliverInference? || e.InferenceRedelivered? || e.InferenceFailsEarly?
    || e.CommitProcessing? || e.CommitInference? || e.EnqueueAgents? || e.InferenceRaises? || e.InferenceDies?
    || e.InferenceHookLoads? || e.InferenceHookCommits? || e.InferenceHookFails?
  }

  predicate OfAgents(e: Event) {
    || e.DeliverAgents? || e.BrokerRedelivers? || e.AgentCommits? || e.AgentDies?
    || e.AgentRaises? || e.AgentFailsEarly?
  }

  predicate OfHooks(e: Event) { e.HookLoads? || e.HookCommits? || e.HookFails? || e.HookDies? }

  lemma InferenceStep(st: State, e: Event)
    requires Inv(st) && OfInference(e)
    ensures Inv(Next(st, e))
  {
  }

  lemma AgentStep(st: State, e: Event)
    requires Inv(st) && OfAgents(e)
    ensures Inv(Next(st, e))
  {
  }

  lemma HookStep(st: State, e: Event)
    requires Inv(st) && OfHooks(e)
    ensures Inv(Next(st, e))
  {
  }

  lemma RequestStep(st: State, e: Event)
    requires Inv(st) && !OfInference(e) && !OfAgents(e) && !OfHooks(e)
    ensures Inv(Next(st, e))
  {
  }

  lemma {:induction false} StepKeepsInv(st: State, e: Event)
    requires Inv(st)
    ensures Inv(Next(st, e))
  {
    hide Inv, Next;
    if OfInference(e) {
      InferenceStep(st, e);
    } else if OfAgents(e) {
      AgentStep(st, e);
    } else if OfHooks(e) {
      HookStep(st, e);
    } else {
      RequestStep(st, e);
    }
  }

  /** In every run, whatever is redelivered, lost, raised or requested, every committed state is safe. */
  lemma {:induction false} EveryRunIsSafe(es: seq<Event>)
    ensures Inv(Run(es)) && Safe(Run(es))
  {
    hide Next;
    if es != [] {
      EveryRunIsSafe(es[..|es| - 1]);
      StepKeepsInv(Run(es[..|es| - 1]), es[|es| - 1]);
    }
  }

  /** The agent task's branch for a missing analysis is dead: whoever finds ANALYZING finds an analysis. */
  lemma MissingAnalysisBranchIsDead(es: seq<Event>)
    ensures Run(es).row.status == Analyzing ==> |Run(es).analyses| == 1
  {
    EveryRunIsSafe(es);
  }
}
