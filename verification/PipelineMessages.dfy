/** What becomes of the messages, and of the numbers and reasons that tasks carry, over whole runs of the pipeline. */
module PipelineMessages {
  import opened ImageOwners
  import opened ImageState
  import opened Pipeline
  import opened PipelineSafety
  import opened Wrappers

  /** How many events of a run meet a condition where they happen. */
  function Happen(es: seq<Event>, p: (State, Event) -> bool): nat {
    if es == [] then 0
    else
      var n := |es| - 1;
      Happen(es[..n], p) + if p(Run(es[..n]), es[n]) then 1 else 0
  }

  // ---- inference messages ----

  /** Inference messages queued or held, and the one the ingesting process owes. */
  function InferenceWork(st: State): nat {
    st.inferenceMessages + (if st.slot.Idle? then 0 else 1) + if st.ingesting then 1 else 0
  }

  const INFERENCE_REPEATED: (State, Event) -> bool :=
    (st: State, e: Event) => e.InferenceRedelivered? && !st.slot.Idle?

  /** Acknowledged, whether the task ended, its hook ended, or there was nothing to do; or never sent. */
  const INFERENCE_SETTLED: (State, Event) -> bool := (st: State, e: Event) =>
    match e
    case IngestFails => st.ingesting
    case DeliverInference => st.slot.Idle? && st.inferenceMessages > 0 && !Waiting(st.row.status)
    case EnqueueAgents => st.slot.Finished?
    case InferenceHookCommits(_) => st.slot.FailingLoaded?
    case InferenceHookFails => st.slot.Failing? || st.slot.FailingLoaded?
    case _ => false

  lemma InferenceWorkStep(st: State, e: Event)
    ensures InferenceWork(Next(st, e)) + (if INFERENCE_SETTLED(st, e) then 1 else 0)
         == InferenceWork(st) + if INFERENCE_REPEATED(st, e) then 1 else 0
  {
    hide CommitTransition, CommitFailure, Write;
  }

  /** A worker's death or a task's exception loses no inference message: what was sent once, or redelivered, is queued
      or held until it is acknowledged. */
  lemma {:induction false} InferenceMessagesAreConserved(es: seq<Event>)
    ensures InferenceWork(Run(es)) + Happen(es, INFERENCE_SETTLED) == 1 + Happen(es, INFERENCE_REPEATED)
  {
    hide Next, InferenceWork, INFERENCE_SETTLED, INFERENCE_REPEATED;
    if es == [] {
      OneToIngest();
    } else {
      var n := |es| - 1;
      InferenceMessagesAreConserved(es[..n]);
      InferenceWorkStep(Run(es[..n]), es[n]);
    }
  }

  lemma OneToIngest()
    ensures InferenceWork(Init()) == 1
  {
  }

  // ---- agent messages ----

  /** Agent messages queued or held by a task or a hook, and those owed by the inference task or by a request. */
  function AgentWork(st: State): nat {
    st.agentMessages + |st.agents| + |st.hooks| + CommittedRequests(st.requests)
    + if st.slot == Finished(true) then 1 else 0
  }

  const AGENTS_ASKED: (State, Event) -> bool := (st: State, e: Event) =>
    match e
    case CommitInference(stored, reported, toAgents, _, _) =>
      st.slot.Working? && reported <= stored && reported > 0 && toAgents
    case RequestCommits(i, _) => i < |st.requests| && st.requests[i].RequestLoaded?
    case BrokerRedelivers => st.agents != []
    case _ => false

  /** Acknowledged, or lost before it was sent: with the worker, its task or the API between a commit and its
      enqueue. */
  const AGENTS_SETTLED: (State, Event) -> bool := (st: State, e: Event) =>
    match e
    case DeliverAgents => st.agentMessages > 0 && (st.row.status != Analyzing || st.analyses == [])
    case AgentCommits(i, _, _) => i < |st.agents|
    case HookCommits(i, _) => i < |st.hooks| && st.hooks[i].HookLoaded?
    case HookFails(i) => i < |st.hooks|
    case RequestDies(i) => i < |st.requests| && st.requests[i].RequestCommitted?
    case InferenceDies => st.slot == Finished(true)
    case InferenceRaises(_) => st.slot == Finished(true)
    case _ => false

  lemma AgentWorkOfTasks(st: State, e: Event)
    requires OfInference(e) || OfAgents(e) || OfHooks(e)
    ensures AgentWork(Next(st, e)) + (if AGENTS_SETTLED(st, e) then 1 else 0)
         == AgentWork(st) + if AGENTS_ASKED(st, e) then 1 else 0
  {
    hide CommitTransition, CommitFailure, Write, CommittedRequests;
  }

  lemma AgentWorkOfRequests(st: State, e: Event)
    requires !OfInference(e) && !OfAgents(e) && !OfHooks(e)
    ensures AgentWork(Next(st, e)) + (if AGENTS_SETTLED(st, e) then 1 else 0)
         == AgentWork(st) + if AGENTS_ASKED(st, e) then 1 else 0
  {
    hide CommitTransition, CommitFailure, Write, CommittedRequests;
    match e {
      case RequestArrives =>
        CommittedAppend(st.requests, [RequestLoaded(st.row)]);
        CommittedOne(RequestLoaded(st.row));
      case RequestCommits(i, _) =>
        if i < |st.requests| {
          CommittedSplit(st.requests, i);
          CommittedReplaced(st.requests, i, RequestCommitted);
        }
      case RequestEnqueues(i) => if i < |st.requests| { CommittedSplit(st.requests, i); }
      case RequestDies(i) => if i < |st.requests| { CommittedSplit(st.requests, i); }
      case _ =>
    }
  }

  lemma AgentWorkStep(st: State, e: Event)
    ensures AgentWork(Next(st, e)) + (if AGENTS_SETTLED(st, e) then 1 else 0)
         == AgentWork(st) + if AGENTS_ASKED(st, e) then 1 else 0
  {
    hide Next, AgentWork, AGENTS_ASKED, AGENTS_SETTLED;
    if OfInference(e) || OfAgents(e) || OfHooks(e) {
      AgentWorkOfTasks(st, e);
    } else {
      AgentWorkOfRequests(st, e);
    }
  }

  /** Every analysis that is asked for, by the inference task, a request or a redelivery, is queued, running or in a
      hook until it is acknowledged, unless its enqueue is lost. */
  lemma {:induction false} AgentMessagesAreConserved(es: seq<Event>)
    ensures AgentWork(Run(es)) + Happen(es, AGENTS_SETTLED) == Happen(es, AGENTS_ASKED)
  {
    hide Next, AgentWork, AGENTS_SETTLED, AGENTS_ASKED;
    if es == [] {
      NoneAskedYet();
    } else {
      var n := |es| - 1;
      AgentMessagesAreConserved(es[..n]);
      AgentWorkStep(Run(es[..n]), es[n]);
    }
  }

  lemma NoneAskedYet()
    ensures AgentWork(Init()) == 0
  {
  }

  // ---- numbers and reasons ----

  /** Every pass has a number of its own, and what is stored carries the number of a pass that was begun. */
  ghost predicate FreshNumbers(st: State) {
    && (st.slot.Working? ==> st.slot.pass + 1 == st.started)
    && (forall i :: 0 <= i < |st.detections| && st.detections[i].Model? ==> st.detections[i].pass < st.started)
  }

  lemma FreshStep(st: State, e: Event)
    requires FreshNumbers(st)
    ensures FreshNumbers(Next(st, e)) && st.started <= Next(st, e).started
  {
    hide CommitTransition, CommitFailure, Write;
  }

  lemma {:induction false} PassesAreNumbered(es: seq<Event>)
    ensures FreshNumbers(Run(es))
  {
    hide Next, FreshNumbers;
    if es == [] {
      NothingNumbered();
    } else {
      PassesAreNumbered(es[..|es| - 1]);
      FreshStep(Run(es[..|es| - 1]), es[|es| - 1]);
    }
  }

  lemma NothingNumbered()
    ensures FreshNumbers(Init())
  {
  }

  predicate ReasonIn(s: Row, reasons: set<string>) { s.failureReason.Some? ==> s.failureReason.value in reasons }

  /** Nothing but these reasons is stored, read or waiting to be stored. */
  ghost predicate OnlyReasons(st: State, reasons: set<string>) {
    && ReasonIn(st.row, reasons)
    && (match st.slot
        case Loaded(s) => ReasonIn(s, reasons)
        case Working(s, _) => ReasonIn(s, reasons)
        case Failing(reason) => reason in reasons
        case FailingLoaded(s, reason) => ReasonIn(s, reasons) && reason in reasons
        case _ => true)
    && (forall s :: s in st.agents ==> ReasonIn(s, reasons))
    && (forall h :: h in st.hooks ==> h.reason in reasons && (h.HookLoaded? ==> ReasonIn(h.s, reasons)))
    && (forall r :: r in st.requests && r.RequestLoaded? ==> ReasonIn(r.s, reasons))
  }

  /** The reason a task fails with. */
  function ReasonsOf(e: Event): set<string> {
    match e
    case InferenceFailsEarly(r) => {r}
    case InferenceRaises(r) => {r}
    case AgentRaises(_, r) => {r}
    case AgentFailsEarly(r) => {r}
    case _ => {}
  }

  function Raised(es: seq<Event>): set<string> {
    if es == [] then {} else Raised(es[..|es| - 1]) + ReasonsOf(es[|es| - 1])
  }

  lemma TransitionReasonIn(snapshot: Row, to: Status, now: nat, db: Row, reasons: set<string>)
    requires ReasonIn(db, reasons)
    ensures ReasonIn(CommitTransition(snapshot, to, now, db), reasons)
  {
  }

  lemma FailureReasonIn(snapshot: Row, reason: string, now: nat, db: Row, reasons: set<string>)
    requires ReasonIn(db, reasons) && reason in reasons
    ensures ReasonIn(CommitFailure(snapshot, reason, now, db), reasons)
  {
  }

  lemma FinishedReasonIn(snapshot: Row, failed: bool, toAgents: bool, now: nat, db: Row, reasons: set<string>)
    requires ReasonIn(db, reasons)
    ensures ReasonIn(Write(snapshot, FinishedRow(failed, toAgents, now), db), reasons)
  {
  }

  lemma MoreReasons(st: State, reasons: set<string>, more: set<string>)
    requires OnlyReasons(st, reasons)
    ensures OnlyReasons(st, reasons + more)
  {
  }

  lemma InferenceReasons(st: State, e: Event, reasons: set<string>)
    requires OnlyReasons(st, reasons) && ReasonsOf(e) <= reasons && OfInference(e)
    ensures OnlyReasons(Next(st, e), reasons)
  {
    hide CommitTransition, CommitFailure, Write, ReasonIn;
    match e {
      case CommitProcessing(now) =>
        if st.slot.Loaded? { TransitionReasonIn(st.slot.s, Processing, now, st.row, reasons); }
      case CommitInference(_, reported, toAgents, _, now) =>
        if st.slot.Working? { FinishedReasonIn(st.slot.s, reported > 0, toAgents, now, st.row, reasons); }
      case InferenceHookCommits(now) =>
        if st.slot.FailingLoaded? { FailureReasonIn(st.slot.s, st.slot.reason, now, st.row, reasons); }
      case _ =>
    }
  }

  lemma AgentReasons(st: State, e: Event, reasons: set<string>)
    requires OnlyReasons(st, reasons) && ReasonsOf(e) <= reasons && OfAgents(e)
    ensures OnlyReasons(Next(st, e), reasons)
  {
    hide CommitTransition, CommitFailure, Write, ReasonIn;
    match e {
      case DeliverAgents => TransitionReasonIn(st.row, Completed, 0, st.row, reasons);
      case AgentCommits(i, _, now) =>
        if i < |st.agents| { TransitionReasonIn(st.agents[i], Completed, now, st.row, reasons); }
      case _ =>
    }
  }

  lemma HookReasons(st: State, e: Event, reasons: set<string>)
    requires OnlyReasons(st, reasons) && ReasonsOf(e) <= reasons && OfHooks(e)
    ensures OnlyReasons(Next(st, e), reasons)
  {
    hide CommitTransition, CommitFailure, Write, ReasonIn;
    match e {
      case HookCommits(i, now) =>
        if i < |st.hooks| && st.hooks[i].HookLoaded? {
          FailureReasonIn(st.hooks[i].s, st.hooks[i].reason, now, st.row, reasons);
        }
      case _ =>
    }
  }

  lemma RequestReasons(st: State, e: Event, reasons: set<string>)
    requires OnlyReasons(st, reasons) && ReasonsOf(e) <= reasons && !OfInference(e) && !OfAgents(e) && !OfHooks(e)
    ensures OnlyReasons(Next(st, e), reasons)
  {
    hide CommitTransition, CommitFailure, Write, ReasonIn;
    match e {
      case RequestCommits(i, now) =>
        if i < |st.requests| && st.requests[i].RequestLoaded? {
          TransitionReasonIn(st.requests[i].s, Analyzing, now, st.row, reasons);
        }
      case _ =>
    }
  }

  lemma ReasonsStep(st: State, e: Event, reasons: set<string>)
    requires OnlyReasons(st, reasons)
    ensures OnlyReasons(Next(st, e), reasons + ReasonsOf(e))
  {
    hide Next, OnlyReasons, ReasonsOf;
    MoreReasons(st, reasons, ReasonsOf(e));
    if OfInference(e) {
      InferenceReasons(st, e, reasons + ReasonsOf(e));
    } else if OfAgents(e) {
      AgentReasons(st, e, reasons + ReasonsOf(e));
    } else if OfHooks(e) {
      HookReasons(st, e, reasons + ReasonsOf(e));
    } else {
      RequestReasons(st, e, reasons + ReasonsOf(e));
    }
  }

  lemma {:induction false} RaisedTells(es: seq<Event>, reason: string)
    requires reason in Raised(es)
    ensures exists n :: 0 <= n < |es| && reason in ReasonsOf(es[n])
  {
    var n := |es| - 1;
    if reason in ReasonsOf(es[n]) {
      assert reason in ReasonsOf(es[n]);
    } else {
      RaisedTells(es[..n], reason);
      var k :| 0 <= k < n && reason in ReasonsOf(es[..n][k]);
      assert reason in ReasonsOf(es[k]);
    }
  }

  lemma {:induction false} RunHasOnlyRaised(es: seq<Event>)
    ensures OnlyReasons(Run(es), Raised(es))
  {
    hide Next, OnlyReasons, ReasonsOf;
    if es == [] {
      NoReasonAtFirst();
    } else {
      RunHasOnlyRaised(es[..|es| - 1]);
      ReasonsStep(Run(es[..|es| - 1]), es[|es| - 1], Raised(es[..|es| - 1]));
    }
  }

  lemma NoReasonAtFirst()
    ensures OnlyReasons(Init(), {})
  {
  }

  /** A stored failure reason is one that a task of the run failed with. */
  lemma {:induction false} ReasonsAreRaised(es: seq<Event>)
    ensures Run(es).row.failureReason.Some? ==>
              exists n :: 0 <= n < |es| && Run(es).row.failureReason.value in ReasonsOf(es[n])
  {
    RunHasOnlyRaised(es);
    if Run(es).row.failureReason.Some? { RaisedTells(es, Run(es).row.failureReason.value); }
  }

  // ---- a failure that nothing interrupts ----

  lemma StoredByHook(row: Row, reason: string, now: nat)
    requires reason != "" && row.status != Completed && row.status != Failed
    ensures CommitFailure(row, reason, now, row) == Row(Failed, Some(reason), Some(now))
  {
  }

  /** An inference task that fails while nothing else writes leaves its image FAILED with its reason. */
  lemma {:induction false} InferenceFailureIsStored(st: State, reason: string, now: nat)
    requires reason != "" && st.row.status != Completed && st.row.status != Failed
    requires st.slot.Loaded? || st.slot.Working? || st.slot.Finished?
    ensures Next(Next(Next(st, InferenceRaises(reason)), InferenceHookLoads), InferenceHookCommits(now))
         == st.(slot := Idle, row := Row(Failed, Some(reason), Some(now)))
  {
    StoredByHook(st.row, reason, now);
    hide CommitFailure;
    var raised := Next(st, InferenceRaises(reason));
    assert raised == st.(slot := Failing(reason));
    var loaded := Next(raised, InferenceHookLoads);
    assert loaded == st.(slot := FailingLoaded(st.row, reason));
  }

  /** And so does an agent task, whichever of those running it is. */
  lemma {:induction false} AgentFailureIsStored(st: State, i: nat, reason: string, now: nat)
    requires reason != "" && st.row.status != Completed && st.row.status != Failed && i < |st.agents|
    ensures Next(Next(Next(st, AgentRaises(i, reason)), HookLoads(|st.hooks|)), HookCommits(|st.hooks|, now))
         == st.(agents := Remove(st.agents, i), row := Row(Failed, Some(reason), Some(now)))
  {
    StoredByHook(st.row, reason, now);
    hide CommitFailure;
    var k := |st.hooks|;
    var raised := Next(st, AgentRaises(i, reason));
    assert raised == st.(agents := Remove(st.agents, i), hooks := st.hooks + [HookWaiting(reason)]);
    var loaded := Next(raised, HookLoads(k));
    assert loaded == st.(agents := Remove(st.agents, i), hooks := st.hooks + [HookLoaded(st.row, reason)]) by {
      assert raised.hooks[k := HookLoaded(st.row, reason)] == st.hooks + [HookLoaded(st.row, reason)];
    }
    assert Remove(st.hooks + [HookLoaded(st.row, reason)], k) == st.hooks;
  }
}
