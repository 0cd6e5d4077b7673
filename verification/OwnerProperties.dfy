/** When an unfinished image always keeps an owner, over whole runs of the pipeline, and what becomes of it without. */
module OwnerProperties {
  import opened ImageOwners
  import opened ImageState
  import opened Pipeline
  import opened PipelineSafety

  lemma ServedInferenceStep(st: State, e: Event)
    requires Inv(st) && Served(st) && OfInference(e)
    ensures Served(Next(st, e)) <==> !LosesLast(st, e)
  {
    hide CommittedRequests, OnePass, NoModel;
  }

  lemma ServedAgentStep(st: State, e: Event)
    requires Inv(st) && Served(st) && OfAgents(e)
    ensures Served(Next(st, e)) <==> !LosesLast(st, e)
  {
    hide CommittedRequests, OnePass, NoModel;
  }

  lemma ServedHookStep(st: State, e: Event)
    requires Inv(st) && Served(st) && OfHooks(e)
    ensures Served(Next(st, e)) <==> !LosesLast(st, e)
  {
    hide CommittedRequests, OnePass, NoModel;
  }

  lemma ServedRequestStep(st: State, e: Event)
    requires Inv(st) && Served(st) && !OfInference(e) && !OfAgents(e) && !OfHooks(e)
    ensures Served(Next(st, e)) <==> !LosesLast(st, e)
  {
    hide CommittedRequests, OnePass, NoModel;
    match e {
      case RequestArrives =>
        CommittedAppend(st.requests, [RequestLoaded(st.row)]);
        CommittedOne(RequestLoaded(st.row));
      case RequestCommits(i, _) =>
        if i < |st.requests| { CommittedReplaced(st.requests, i, RequestCommitted); }
      case RequestEnqueues(i) => if i < |st.requests| { CommittedSplit(st.requests, i); }
      case RequestDies(i) => if i < |st.requests| { CommittedSplit(st.requests, i); }
      case Annotate =>
    }
  }

  lemma InitIsServed()
    ensures Served(Init())
  {
  }

  /** From a served state, one event leaves the image unserved exactly when it loses its last owner. */
  lemma {:induction false} ServedStep(st: State, e: Event)
    requires Inv(st) && Served(st)
    ensures Served(Next(st, e)) <==> !LosesLast(st, e)
  {
    hide Next, Served, Inv, LosesLast;
    if OfInference(e) {
      ServedInferenceStep(st, e);
    } else if OfAgents(e) {
      ServedAgentStep(st, e);
    } else if OfHooks(e) {
      ServedHookStep(st, e);
    } else {
      ServedRequestStep(st, e);
    }
  }

  ghost predicate ServedThroughout(es: seq<Event>) { forall n :: 0 <= n <= |es| ==> Served(Run(es[..n])) }

  ghost predicate NeverLosesLast(es: seq<Event>) { forall n :: 0 <= n < |es| ==> !LosesLast(Run(es[..n]), es[n]) }

  /** A run keeps the image served throughout if and only if none of its events loses the last owner. */
  lemma {:induction false} ServedExactlyWhenNoLastOwnerIsLost(es: seq<Event>)
    ensures ServedThroughout(es) <==> NeverLosesLast(es)
  {
    hide Next, Served, LosesLast, Inv, Run;
    var n := |es| - 1;
    if es == [] {
      RunStarts(es);
      InitIsServed();
    } else {
      var before := es[..n];
      assert forall k :: 0 <= k <= n ==> before[..k] == es[..k];
      ServedExactlyWhenNoLastOwnerIsLost(before);
      assert es[..|es|] == es && before[..n] == before;
      RunAt(es, n);
      if ServedThroughout(es) || NeverLosesLast(es) {
        assert ServedThroughout(before) by {
          if NeverLosesLast(es) {
            forall k | 0 <= k < |before| ensures !LosesLast(Run(before[..k]), before[k]) {
              assert !LosesLast(Run(es[..k]), es[k]);
            }
          } else {
            forall k | 0 <= k <= |before| ensures Served(Run(before[..k])) { assert Served(Run(es[..k])); }
          }
        }
        assert Served(Run(before)) by { assert Served(Run(before[..n])); }
        EveryRunIsSafe(before);
        ServedStep(Run(before), es[n]);
        assert Served(Run(es[..|es|])) <==> !LosesLast(Run(es[..n]), es[n]);
        forall k | 0 <= k < |es| ensures !LosesLast(Run(es[..k]), es[k]) {
          if k < n { assert !LosesLast(Run(before[..k]), before[k]); }
        }
        forall k | 0 <= k <= |es| ensures Served(Run(es[..k])) {
          if k <= n { assert Served(Run(before[..k])); }
        }
      }
    }
  }

  /** What can still help an image without an owner, which only an ANALYZING one can get: a request that read COMPLETED
      before, or a new failure of the inference task. */
  predicate Rescues(st: State, e: Event) {
    match e
    case RequestCommits(i, _) => i < |st.requests| && st.requests[i].RequestLoaded?
    case InferenceFailsEarly(_) => st.slot.Idle? && st.inferenceMessages > 0
    case InferenceRaises(_) => st.slot.Finished?
    case _ => false
  }

  /** An image without an owner is served again exactly by such an event; deliveries and new requests do nothing. */
  lemma {:induction false} UnservedStep(st: State, e: Event)
    requires Inv(st) && !Served(st)
    ensures Served(Next(st, e)) <==> Rescues(st, e)
    ensures !Rescues(st, e) ==> Next(st, e).row == st.row
    ensures Rescues(st, e) ==> st.row.status == Analyzing
  {
    hide Next, Served, Inv, Rescues;
    if OfInference(e) {
      UnservedInferenceStep(st, e);
    } else if OfAgents(e) || OfHooks(e) {
      UnservedAgentStep(st, e);
    } else {
      UnservedRequestStep(st, e);
    }
  }

  lemma UnservedInferenceStep(st: State, e: Event)
    requires Inv(st) && !Served(st) && OfInference(e)
    ensures Served(Next(st, e)) <==> Rescues(st, e)
    ensures !Rescues(st, e) ==> Next(st, e).row == st.row
    ensures Rescues(st, e) ==> st.row.status == Analyzing
  {
    hide OnePass, NoModel, CommittedRequests;
  }

  lemma UnservedAgentStep(st: State, e: Event)
    requires Inv(st) && !Served(st) && (OfAgents(e) || OfHooks(e))
    ensures !Served(Next(st, e)) && !Rescues(st, e) && Next(st, e).row == st.row
  {
    hide OnePass, NoModel, CommittedRequests;
  }

  lemma UnservedRequestStep(st: State, e: Event)
    requires Inv(st) && !Served(st) && !OfInference(e) && !OfAgents(e) && !OfHooks(e)
    ensures Served(Next(st, e)) <==> Rescues(st, e)
    ensures !Rescues(st, e) ==> Next(st, e).row == st.row
    ensures Rescues(st, e) ==> st.row.status == Analyzing
  {
    hide OnePass, NoModel, CommittedRequests;
    match e {
      case RequestArrives =>
      case RequestCommits(i, _) =>
        if i < |st.requests| { CommittedReplaced(st.requests, i, RequestCommitted); }
      case RequestEnqueues(i) => if i < |st.requests| { CommittedSplit(st.requests, i); }
      case RequestDies(i) => if i < |st.requests| { CommittedSplit(st.requests, i); }
      case Annotate =>
    }
  }

  /** Redelivering what was delivered or asking for agents again does not help: the image stays where it is. */
  lemma {:induction false} StrandedImagesStayStranded(es: seq<Event>, from: nat)
    requires from <= |es| && !Served(Run(es[..from]))
    requires forall n :: from <= n < |es| ==> !Rescues(Run(es[..n]), es[n])
    ensures !Served(Run(es)) && Run(es).row == Run(es[..from]).row
    decreases |es|
  {
    hide Next, Served, Rescues, Run, Inv;
    assert es[..|es|] == es;
    if from < |es| {
      var n := |es| - 1;
      var before := es[..n];
      assert forall k :: 0 <= k <= n ==> before[..k] == es[..k];
      forall k | from <= k < n ensures !Rescues(Run(before[..k]), before[k]) { assert !Rescues(Run(es[..k]), es[k]); }
      StrandedImagesStayStranded(before, from);
      EveryRunIsSafe(before);
      RunAt(es, n);
      assert !Rescues(Run(es[..n]), es[n]);
      UnservedStep(Run(before), es[n]);
    }
  }

  /** An image that loses its last owner while QUEUED or PROCESSING stays so for good, whatever happens. */
  lemma {:induction false} StrandedBeforeAnalysisIsForGood(es: seq<Event>, from: nat)
    requires from <= |es| && !Served(Run(es[..from])) && Waiting(Run(es[..from]).row.status)
    ensures !Served(Run(es)) && Run(es).row == Run(es[..from]).row
    decreases |es|
  {
    hide Next, Served, Rescues, Run, Inv;
    assert es[..|es|] == es;
    if from < |es| {
      var n := |es| - 1;
      assert es[..n][..from] == es[..from];
      StrandedBeforeAnalysisIsForGood(es[..n], from);
      EveryRunIsSafe(es[..n]);
      RunAt(es, n);
      UnservedStep(Run(es[..n]), es[n]);
    }
  }
}
