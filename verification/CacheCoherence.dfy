/** The inference worker's warm-start cache against the active version, in every run. */
module CacheCoherence {
  import opened ActivationAudit
  import opened ActivationGate
  import opened ModelActivation
  import opened Wrappers

  /** Some reload is still to come: queued, or owed by a committed activation. */
  predicate ReloadPending(st: State) {
    st.reloads > 0 || exists i :: 0 <= i < |st.sessions| && st.sessions[i].Committed?
  }

  predicate UpToDate(st: State, id: nat) { id in Active(st.versions) || ReloadPending(st) }

  predicate Coherent(st: State) {
    && (st.cache.Some? ==> UpToDate(st, st.cache.value))
    && (st.slot.Loading? ==> UpToDate(st, st.slot.id))
    && (st.slot.Selecting? || st.slot.Loading? ==> st.cache.None?)
  }

  /** The API process does not die between an activation's commit and its enqueue. */
  predicate KeepsPromise(st: State, e: Event) {
    e.ApiDies? && e.i < |st.sessions| ==> !st.sessions[e.i].Committed?
  }

  ghost predicate Lossless(es: seq<Event>) { forall n :: 0 <= n < |es| ==> KeepsPromise(Run(es[..n]), es[n]) }

  /** Or the lost reload makes no difference: another one is still to come, or the worker holds and loads nothing
      but the active version. */
  predicate Harmless(st: State, i: nat) {
    || st.reloads > 0
    || (exists k :: 0 <= k < |st.sessions| && k != i && st.sessions[k].Committed?)
    || (&& (st.cache.Some? ==> st.cache.value in Active(st.versions))
        && (st.slot.Loading? ==> st.slot.id in Active(st.versions)))
  }

  predicate Careful(st: State, e: Event) { KeepsPromise(st, e) || Harmless(st, e.i) }

  lemma InitIsCoherent()
    ensures Coherent(Init())
  {
  }

  lemma RemoveKeeps<T>(s: seq<T>, i: nat, k: nat)
    requires i < |s| && k < |s| && k != i
    ensures s[k] in Remove(s, i)
  {
    assert Remove(s, i)[if k < i then k else k - 1] == s[k];
  }

  /** Whatever is owed stays owed, unless a reload starts. */
  lemma PendingStays(st: State, e: Event)
    requires KeepsPromise(st, e) && !e.DeliverReload?
    ensures ReloadPending(st) ==> ReloadPending(Next(st, e))
  {
    if ReloadPending(st) && st.reloads == 0 {
      var k :| 0 <= k < |st.sessions| && st.sessions[k].Committed?;
      var after := Next(st, e);
      if after.sessions != st.sessions && after.reloads == 0 {
        if |after.sessions| < |st.sessions| {
          assert after.sessions == Remove(st.sessions, e.i);
          RemoveKeeps(st.sessions, e.i, k);
        } else {
          assert after.sessions[k].Committed?;
        }
      }
    }
  }

  /** Only an activation commit takes the flag from a version, and then a reload is owed. */
  lemma FlagStaysOrOwed(st: State, e: Event, id: nat)
    requires id in Active(st.versions)
    ensures id in Active(Next(st, e).versions) || ReloadPending(Next(st, e))
  {
    if e.ActivationCommits? && Next(st, e).versions != st.versions {
      assert Next(st, e).sessions[e.i].Committed?;
    }
  }

  lemma KeptPromiseKeepsCoherent(st: State, e: Event)
    requires Coherent(st) && KeepsPromise(st, e)
    ensures Coherent(Next(st, e))
  {
    hide ReloadPending;
    var after := Next(st, e);
    if !e.DeliverReload? { PendingStays(st, e); }
    if after.cache.Some? && after.cache == st.cache && st.cache.value in Active(st.versions) {
      FlagStaysOrOwed(st, e, st.cache.value);
    }
    if after.slot.Loading? && after.slot == st.slot && st.slot.id in Active(st.versions) {
      FlagStaysOrOwed(st, e, st.slot.id);
    }
  }

  lemma PendingAfterDeath(st: State, i: nat)
    requires i < |st.sessions| && st.sessions[i].Committed?
    ensures ReloadPending(Next(st, ApiDies(i))) <==>
              st.reloads > 0 || exists k :: 0 <= k < |st.sessions| && k != i && st.sessions[k].Committed?
  {
    var rest := Next(st, ApiDies(i)).sessions;
    assert rest == Remove(st.sessions, i);
    forall k | 0 <= k < |st.sessions| && k != i ensures rest[if k < i then k else k - 1] == st.sessions[k] {
    }
    forall k | 0 <= k < |rest| ensures rest[k] == st.sessions[if k < i then k else k + 1] {
    }
  }

  /** From a coherent state, one event keeps coherence exactly when it is careful. */
  lemma {:induction false} CoherentStep(st: State, e: Event)
    requires Coherent(st)
    ensures Coherent(Next(st, e)) <==> Careful(st, e)
  {
    hide ReloadPending;
    if KeepsPromise(st, e) { KeptPromiseKeepsCoherent(st, e); } else { PendingAfterDeath(st, e.i); }
  }

  ghost predicate CoherentThroughout(es: seq<Event>) { forall n :: 0 <= n <= |es| ==> Coherent(Run(es[..n])) }

  ghost predicate AllCareful(es: seq<Event>) { forall n :: 0 <= n < |es| ==> Careful(Run(es[..n]), es[n]) }

  /** A run keeps the cached model empty, or the active version's, or with a reload still to come, throughout, if and
      only if each of its events is careful. */
  lemma {:induction false} CoherentExactlyInCarefulRuns(es: seq<Event>)
    ensures CoherentThroughout(es) <==> AllCareful(es)
  {
    hide Next, Coherent, Careful, Run;
    var n := |es| - 1;
    if es == [] {
      RunStarts(es);
      InitIsCoherent();
    } else {
      var before := es[..n];
      assert forall k :: 0 <= k <= n ==> before[..k] == es[..k];
      CoherentExactlyInCarefulRuns(before);
      assert es[..|es|] == es && before[..n] == before;
      RunStep(es, n);
      if CoherentThroughout(es) || AllCareful(es) {
        assert CoherentThroughout(before) by {
          if AllCareful(es) {
            forall k | 0 <= k < |before| ensures Careful(Run(before[..k]), before[k]) {
              assert Careful(Run(es[..k]), es[k]);
            }
          } else {
            forall k | 0 <= k <= |before| ensures Coherent(Run(before[..k])) { assert Coherent(Run(es[..k])); }
          }
        }
        assert Coherent(Run(es[..n])) by { assert Coherent(Run(before[..n])); }
        CoherentStep(Run(es[..n]), es[n]);
        assert Coherent(Run(es[..|es|])) <==> Careful(Run(es[..n]), es[n]);
        forall k | 0 <= k < |es| ensures Careful(Run(es[..k]), es[k]) {
          if k < n { assert Careful(Run(before[..k]), before[k]); }
        }
        forall k | 0 <= k <= |es| ensures Coherent(Run(es[..k])) {
          if k <= n { assert Coherent(Run(before[..k])); }
        }
      }
    }
  }

  /** In particular when no enqueue is lost. */
  lemma {:induction false} CacheIsCoherent(es: seq<Event>)
    requires Lossless(es)
    ensures Coherent(Run(es))
  {
    hide Run, Coherent;
    assert AllCareful(es) by {
      forall n | 0 <= n < |es| ensures Careful(Run(es[..n]), es[n]) { assert KeepsPromise(Run(es[..n]), es[n]); }
    }
    CoherentExactlyInCarefulRuns(es);
    assert es[..|es|] == es;
    assert Coherent(Run(es[..|es|]));
  }

  /** Once the queue has drained, the worker of a careful run detects with the one active version. */
  lemma {:induction false} DrainedWorkerUsesActiveVersion(es: seq<Event>)
    requires AllCareful(es)
    requires !ReloadPending(Run(es)) && Run(es).cache.Some?
    ensures Active(Run(es).versions) == {Run(es).cache.value}
  {
    hide Run, Next, Careful, ReloadPending;
    CoherentExactlyInCarefulRuns(es);
    assert es[..|es|] == es;
    assert Coherent(Run(es[..|es|]));
    EveryActivationIsGated(es);
  }

  // ---- what happens when the enqueue is lost ----

  /** Warm worker on `old`, version `fresh` active, and nothing on its way. */
  predicate Stale(st: State) {
    && st.cache.Some? && st.cache.value in st.versions && st.cache.value !in Active(st.versions)
    && !ReloadPending(st) && (st.slot.Idle? || st.slot.Evaluating?)
  }

  /** From a coherent, drained, warm worker: activating another version and losing its enqueue leaves the cache
      stale. */
  lemma {:induction false} LostEnqueueMakesStale(st: State, i: nat)
    requires Gated(st) && st.cache.Some? && st.slot.Idle? && !ReloadPending(st)
    requires i < |st.sessions| && st.sessions[i].Selected? && st.sessions[i].id in st.versions
    requires st.sessions[i].id != st.cache.value
    requires Active(Next(st, ActivationCommits(i)).versions) == {st.sessions[i].id}
    requires Next(st, ActivationCommits(i)).versions != st.versions
    ensures Stale(Next(Next(st, ActivationCommits(i)), ApiDies(i)))
  {
    var mid := Next(st, ActivationCommits(i));
    assert mid.sessions == st.sessions[i := Committed];
    assert Remove(mid.sessions, i) == Remove(st.sessions, i);
    forall k | 0 <= k < |st.sessions| - 1 ensures !Remove(st.sessions, i)[k].Committed? {
      assert Remove(st.sessions, i)[k] == st.sessions[if k < i then k else k + 1];
    }
  }

  predicate NoRemedy(e: Event) { !e.ActivationCommits? && !e.WorkerDies? }

  /** And only another activation or the worker's death cures it: inference keeps the old model. */
  lemma {:induction false} StaleStep(st: State, e: Event)
    requires Stale(st) && NoRemedy(e)
    ensures Stale(Next(st, e)) && Next(st, e).cache == st.cache
  {
    hide AtMostOneActive, Gate, Flags;
    assert forall v :: v in st.versions ==> (v in Active(Next(st, e).versions) <==> v in Active(st.versions));
    if |Next(st, e).sessions| < |st.sessions| {
      var rest := Next(st, e).sessions;
      assert rest == Remove(st.sessions, e.i);
      forall k | 0 <= k < |rest| ensures !rest[k].Committed? {
        assert rest[k] == st.sessions[if k < e.i then k else k + 1];
      }
    }
  }

  lemma {:induction false} StaleStaysStale(es: seq<Event>, more: seq<Event>)
    requires Stale(Run(es)) && forall k :: 0 <= k < |more| ==> NoRemedy(more[k])
    ensures Stale(Run(es + more)) && Run(es + more).cache == Run(es).cache
    decreases |more|
  {
    hide Next, Stale, NoRemedy;
    if more == [] {
      assert es + more == es;
    } else {
      var n := |more| - 1;
      StaleStaysStale(es, more[..n]);
      assert (es + more)[..|es| + n] == es + more[..n];
      StaleStep(Run(es + more[..n]), more[n]);
    }
  }
}
