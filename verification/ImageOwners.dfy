/** Who can still move an unfinished image on, and which events give up such an owner. */
module ImageOwners {
  import opened ImageState
  import opened Pipeline
  import opened PipelineSafety
  import opened Wrappers

  function CommittedRequests(requests: seq<Request>): nat {
    if requests == [] then 0
    else CommittedRequests(requests[..|requests| - 1]) + if requests[|requests| - 1].RequestCommitted? then 1 else 0
  }

  predicate OwnerSlot(slot: Slot) { slot == Finished(true) || slot.Failing? || slot.FailingLoaded? }

  predicate Unfinished(st: State) { !Terminal(st.row.status) }

  /** Whoever may still move the image on: before an analysis the inference messages queued or held and the enqueue the
      ingesting process owes; after it the agent messages, tasks, hooks, and enqueues owed. */
  function Owners(st: State): nat {
    if Waiting(st.row.status) then
      st.inferenceMessages + (if st.slot.Idle? then 0 else 1) + (if st.ingesting then 1 else 0)
    else
      st.agentMessages + |st.agents| + |st.hooks| + CommittedRequests(st.requests)
      + if OwnerSlot(st.slot) then 1 else 0
  }

  predicate Served(st: State) { Unfinished(st) ==> Owners(st) > 0 }

  /** A failure hook that read this row will store FAILED. */
  predicate WillFail(s: Row, reason: string) { s.status != Failed && s.status != Completed && reason != "" }

  /** The event gives up an owner without moving the image on: the ingesting process dies or its enqueue fails, the
      inference worker dies before its own enqueue or in its hook while the image is ANALYZING, the API dies before its
      enqueue, or a hook ends without storing FAILED. */
  predicate Releases(st: State, e: Event) {
    match e
    case IngestFails => st.ingesting
    case InferenceDies => st.row.status == Analyzing && OwnerSlot(st.slot)
    case InferenceHookFails => st.slot.Failing? || st.slot.FailingLoaded?
    case InferenceHookCommits(_) => st.slot.FailingLoaded? && !WillFail(st.slot.s, st.slot.reason)
    case HookCommits(i, _) => i < |st.hooks| && st.hooks[i].HookLoaded? && !WillFail(st.hooks[i].s, st.hooks[i].reason)
    case HookFails(i) => i < |st.hooks|
    case RequestDies(i) => i < |st.requests| && st.requests[i].RequestCommitted?
    case _ => false
  }

  predicate LosesLast(st: State, e: Event) { Unfinished(st) && Owners(st) == 1 && Releases(st, e) }

  lemma {:induction false} CommittedAppend(requests: seq<Request>, more: seq<Request>)
    ensures CommittedRequests(requests + more) == CommittedRequests(requests) + CommittedRequests(more)
  {
    if more == [] {
      assert requests + more == requests;
    } else {
      var n := |more| - 1;
      CommittedAppend(requests, more[..n]);
      assert (requests + more)[..|requests| + n] == requests + more[..n];
    }
  }

  lemma CommittedOne(r: Request)
    ensures CommittedRequests([r]) == if r.RequestCommitted? then 1 else 0
  {
    assert [r][..0] == [];
  }

  lemma CommittedSplit(requests: seq<Request>, i: nat)
    requires i < |requests|
    ensures CommittedRequests(requests)
         == CommittedRequests(Remove(requests, i)) + if requests[i].RequestCommitted? then 1 else 0
  {
    hide CommittedRequests;
    assert requests == (requests[..i] + [requests[i]]) + requests[i + 1..];
    CommittedAppend(requests[..i] + [requests[i]], requests[i + 1..]);
    CommittedAppend(requests[..i], [requests[i]]);
    CommittedOne(requests[i]);
    CommittedAppend(requests[..i], requests[i + 1..]);
  }

  lemma CommittedReplaced(requests: seq<Request>, i: nat, r: Request)
    requires i < |requests|
    ensures CommittedRequests(requests[i := r])
         == CommittedRequests(Remove(requests, i)) + if r.RequestCommitted? then 1 else 0
  {
    CommittedSplit(requests[i := r], i);
    assert Remove(requests[i := r], i) == Remove(requests, i);
  }
}
