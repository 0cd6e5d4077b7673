/** When "a failure reason is stored exactly on FAILED images" holds over whole runs of the pipeline. */
module FailureReasons {
  import opened ImageState
  import opened Pipeline
  import opened PipelineSafety

  /** The event does not commit an agent task's or a request's status over a row that meanwhile FAILED. */
  predicate Calm(st: State, e: Event) {
    match e
    case AgentCommits(i, _, _) => i < |st.agents| ==> st.row.status != Failed
    case RequestCommits(i, _) => i < |st.requests| && st.requests[i].RequestLoaded? ==> st.row.status != Failed
    case _ => true
  }

  /** All snapshots in flight were consistent when they were read, and FAILED is absorbing: whoever read it, it
      still is. */
  ghost predicate SnapshotsOk(st: State) {
    && (st.slot.FailingLoaded? ==> SnapshotOk(st, st.slot.s))
    && (forall i :: 0 <= i < |st.agents| ==> ReasonOk(st.agents[i]))
    && (forall i :: 0 <= i < |st.hooks| && st.hooks[i].HookLoaded? ==> SnapshotOk(st, st.hooks[i].s))
    && (forall i :: 0 <= i < |st.requests| && st.requests[i].RequestLoaded? ==> ReasonOk(st.requests[i].s))
  }

  predicate SnapshotOk(st: State, s: Row) { ReasonOk(s) && (s.status == Failed ==> st.row.status == Failed) }

  lemma InferenceReasonStep(st: State, e: Event)
    requires Inv(st) && ReasonOk(st.row) && SnapshotsOk(st)
    requires e.CommitProcessing? || e.CommitInference? || e.InferenceHookLoads?
             || e.InferenceHookCommits? || e.DeliverAgents?
    ensures ReasonOk(Next(st, e).row) <==> Calm(st, e)
    ensures Calm(st, e) ==> SnapshotsOk(Next(st, e))
  {
  }

  lemma AgentReasonStep(st: State, e: Event)
    requires Inv(st) && ReasonOk(st.row) && SnapshotsOk(st)
    requires e.AgentCommits?
    ensures ReasonOk(Next(st, e).row) <==> Calm(st, e)
    ensures Calm(st, e) ==> SnapshotsOk(Next(st, e))
  {
  }

  lemma HookOrRequestReasonStep(st: State, e: Event)
    requires Inv(st) && ReasonOk(st.row) && SnapshotsOk(st)
    requires e.HookCommits? || e.RequestCommits?
    ensures ReasonOk(Next(st, e).row) <==> Calm(st, e)
    ensures Calm(st, e) ==> SnapshotsOk(Next(st, e))
  {
  }

  predicate WritesRow(e: Event) {
    || e.CommitProcessing? || e.CommitInference? || e.InferenceHookLoads? || e.InferenceHookCommits? || e.DeliverAgents?
    || e.AgentCommits? || e.HookCommits? || e.RequestCommits?
  }

  /** The other events only move messages and snapshots around. */
  lemma OtherReasonStep(st: State, e: Event)
    requires ReasonOk(st.row) && SnapshotsOk(st)
    requires !WritesRow(e)
    ensures ReasonOk(Next(st, e).row) && Calm(st, e) && SnapshotsOk(Next(st, e))
  {
    hide SnapshotsOk, ReasonOk, Next;
    if OfInference(e) {
      OtherInferenceReasonStep(st, e);
    } else if OfAgents(e) || OfHooks(e) {
      OtherAgentReasonStep(st, e);
    } else {
      OtherRequestReasonStep(st, e);
    }
  }

  lemma OtherInferenceReasonStep(st: State, e: Event)
    requires ReasonOk(st.row) && SnapshotsOk(st)
    requires !WritesRow(e) && OfInference(e)
    ensures ReasonOk(Next(st, e).row) && SnapshotsOk(Next(st, e))
  {
    hide ReasonOk, CommitTransition, CommitFailure, Write;
  }

  lemma OtherAgentReasonStep(st: State, e: Event)
    requires ReasonOk(st.row) && SnapshotsOk(st)
    requires !WritesRow(e) && (OfAgents(e) || OfHooks(e))
    ensures ReasonOk(Next(st, e).row) && SnapshotsOk(Next(st, e))
  {
    hide ReasonOk, CommitTransition, CommitFailure, Write;
  }

  lemma OtherRequestReasonStep(st: State, e: Event)
    requires ReasonOk(st.row) && SnapshotsOk(st)
    requires !WritesRow(e) && !OfInference(e) && !OfAgents(e) && !OfHooks(e)
    ensures ReasonOk(Next(st, e).row) && SnapshotsOk(Next(st, e))
  {
    hide ReasonOk, CommitTransition, CommitFailure, Write;
  }

  lemma InitIsConsistent()
    ensures ReasonOk(Init().row) && SnapshotsOk(Init())
  {
  }

  /** From a consistent state, one event keeps the reason consistent exactly when it is calm. */
  lemma {:induction false} ReasonStep(st: State, e: Event)
    requires Inv(st) && ReasonOk(st.row) && SnapshotsOk(st)
    ensures ReasonOk(Next(st, e).row) <==> Calm(st, e)
    ensures Calm(st, e) ==> SnapshotsOk(Next(st, e))
  {
    hide Next, Calm, Inv, SnapshotsOk, ReasonOk;
    match e {
      case AgentCommits(_, _, _) => AgentReasonStep(st, e);
      case HookCommits(_, _) => HookOrRequestReasonStep(st, e);
      case RequestCommits(_, _) => HookOrRequestReasonStep(st, e);
      case CommitProcessing(_) => InferenceReasonStep(st, e);
      case CommitInference(_, _, _, _, _) => InferenceReasonStep(st, e);
      case InferenceHookLoads => InferenceReasonStep(st, e);
      case InferenceHookCommits(_) => InferenceReasonStep(st, e);
      case DeliverAgents => InferenceReasonStep(st, e);
      case _ => OtherReasonStep(st, e);
    }
  }

  ghost predicate ReasonsHold(es: seq<Event>) { forall n :: 0 <= n <= |es| ==> ReasonOk(Run(es[..n]).row) }

  ghost predicate AllCalm(es: seq<Event>) { forall n :: 0 <= n < |es| ==> Calm(Run(es[..n]), es[n]) }

  lemma {:induction false} CalmRunsKeepSnapshots(es: seq<Event>)
    requires AllCalm(es)
    ensures ReasonsHold(es) && SnapshotsOk(Run(es))
  {
    hide Next, Calm, Inv, SnapshotsOk, ReasonOk;
    if es == [] {
      RunStarts(es);
      InitIsConsistent();
      assert es[..0] == es;
    } else {
      var n := |es| - 1;
      var before := es[..n];
      assert forall k :: 0 <= k <= n ==> before[..k] == es[..k];
      assert AllCalm(before);
      CalmRunsKeepSnapshots(before);
      EveryRunIsSafe(before);
      assert before[..n] == before;
      assert ReasonOk(Run(before).row) && Calm(Run(before), es[n]);
      ReasonStep(Run(before), es[n]);
      assert Run(es) == Next(Run(before), es[n]);
      forall k | 0 <= k <= |es| ensures ReasonOk(Run(es[..k]).row) {
        if k == |es| { assert es[..k] == es; } else { assert es[..k] == before[..k]; }
      }
    }
  }

  /** A run stores a reason exactly on FAILED rows, throughout, if and only if every one of its events is calm. */
  lemma {:induction false} ReasonsHoldExactlyInCalmRuns(es: seq<Event>)
    ensures ReasonsHold(es) <==> AllCalm(es)
  {
    hide Next, Calm, Inv, SnapshotsOk, ReasonOk;
    if es != [] {
      var n := |es| - 1;
      var before := es[..n];
      assert forall k :: 0 <= k <= n ==> before[..k] == es[..k];
      ReasonsHoldExactlyInCalmRuns(before);
      if ReasonsHold(es) {
        assert ReasonsHold(before);
        CalmRunsKeepSnapshots(before);
        EveryRunIsSafe(before);
        assert before[..n] == before && es[..|es|] == es;
        assert ReasonOk(Run(before).row) && ReasonOk(Run(es).row);
        ReasonStep(Run(before), es[n]);
        assert Run(es) == Next(Run(before), es[n]);
        assert Calm(Run(es[..n]), es[n]);
        forall k | 0 <= k < |es| ensures Calm(Run(es[..k]), es[k]) {
          if k < n { assert Calm(Run(before[..k]), before[k]); }
        }
      }
    }
    if AllCalm(es) { CalmRunsKeepSnapshots(es); }
  }
}
