/** What every activation ever audited had met, in every run. */
module ActivationAudit {
  import opened ActivationGate
  import opened ModelActivation
  import opened Wrappers

  /** The entry's activation was preceded by an audited evaluation of its version with its mAP. */
  ghost predicate Matched(audit: seq<AuditEntry>, n: nat)
    requires n < |audit| && audit[n].Activated?
  {
    exists k :: 0 <= k < n && audit[k] == Evaluated(audit[n].id, audit[n].map50)
  }

  /** An activation is of the seeded version with the seed's metrics, or of one evaluated before with the audited
      mAP; and it met the floor, or a justified override. */
  ghost predicate EntryOk(st: State, n: nat)
    requires n < |st.audit|
  {
    st.audit[n].Activated? ==>
      var e := st.audit[n];
      && (if st.seeded == Some(e.id) then e.map50 == SEED_MAP50 else Matched(st.audit, n))
      && (e.map50 >= MAP50_FLOOR || (e.overridden && Justified(e.justification)))
  }

  /** Metrics have no other writers than the seed and an audited evaluation, and a completed version has them. */
  ghost predicate MetricsReal(id: nat, v: Version, st: State) {
    && (v.evaluation == Completed ==> v.map50.Some?)
    && (v.map50.Some? ==>
          if st.seeded == Some(id) then v.map50.value == SEED_MAP50 else Evaluated(id, v.map50.value) in st.audit)
  }

  ghost predicate SessionOk(s: Session, st: State) {
    || s.Committed?
    || (s.id in st.versions && MetricsReal(s.id, s.row, st) && Gate(s.row, s.override, s.justification).Ok?)
  }

  /** Evaluations are of registered versions, never of the seeded one; activations are of stored versions. */
  predicate AboutStored(st: State, e: AuditEntry) {
    match e
    case Evaluated(id, _) => id in st.registered
    case EvaluationFailed(_) => true
    case Activated(id, _, _, _, _) => id in st.versions
  }

  ghost predicate Known(st: State) {
    && st.registered <= st.versions.Keys
    && (st.seeded.Some? ==> st.seeded.value in st.versions && st.seeded.value !in st.registered)
    && (st.slot.Evaluating? ==> st.slot.id in st.registered)
    && (forall n :: 0 <= n < |st.audit| ==> AboutStored(st, st.audit[n]))
    && (st.cache.Some? ==> st.cache.value in st.versions)
    && (st.slot.Loading? ==> st.slot.id in st.versions)
  }

  ghost predicate AuditOk(st: State) { forall n :: 0 <= n < |st.audit| ==> EntryOk(st, n) }

  ghost predicate VersionsOk(st: State) { forall v :: v in st.versions ==> MetricsReal(v, st.versions[v], st) }

  ghost predicate SessionsOk(st: State) { forall i :: 0 <= i < |st.sessions| ==> SessionOk(st.sessions[i], st) }

  ghost predicate Gated(st: State) {
    AtMostOneActive(st.versions) && Known(st) && AuditOk(st) && VersionsOk(st) && SessionsOk(st)
  }

  /** Tables only grow, and a version is seeded once, under a fresh id. */
  ghost predicate Grew(st: State, after: State) {
    && st.audit <= after.audit && st.versions.Keys <= after.versions.Keys
    && (after.seeded == st.seeded || (st.seeded.None? && after.seeded.Some? && after.seeded.value !in st.versions))
  }

  lemma AuditStays(st: State, after: State)
    requires Known(st) && AuditOk(st) && Grew(st, after) && |after.audit| <= |st.audit| + 1
    requires |after.audit| > |st.audit| ==> EntryOk(after, |st.audit|)
    ensures AuditOk(after)
  {
    forall n | 0 <= n < |st.audit| ensures EntryOk(after, n) {
      assert EntryOk(st, n) && AboutStored(st, st.audit[n]) && after.audit[n] == st.audit[n];
      if st.audit[n].Activated? && st.seeded != Some(st.audit[n].id) {
        var k :| 0 <= k < n && st.audit[k] == Evaluated(st.audit[n].id, st.audit[n].map50);
        assert after.audit[k] == st.audit[k];
      }
    }
  }

  lemma MetricsStay(id: nat, v: Version, st: State, after: State)
    requires MetricsReal(id, v, st) && Grew(st, after) && id in st.versions
    ensures MetricsReal(id, v, after)
  {
  }

  /** The metrics stored for a version are the ones stored before, unless this is the version just written. */
  lemma VersionsStay(st: State, after: State, changed: Option<nat>)
    requires VersionsOk(st) && Grew(st, after)
    requires changed.Some? ==>
             changed.value in after.versions && MetricsReal(changed.value, after.versions[changed.value], after)
    requires forall v :: v in after.versions && changed != Some(v) ==>
               v in st.versions && after.versions[v] == st.versions[v].(isActive := after.versions[v].isActive)
    ensures VersionsOk(after)
  {
    forall v | v in after.versions ensures MetricsReal(v, after.versions[v], after) {
      if changed != Some(v) { MetricsStay(v, st.versions[v], st, after); }
    }
  }

  /** The same transaction, further on. */
  predicate Continues(s: Session, t: Session) {
    || t.Committed?
    || (&& !s.Committed? && t.id == s.id && t.row == s.row
        && t.override == s.override && t.justification == s.justification)
  }

  /** Every session is new and in order, or continues an earlier one. */
  lemma SessionsStay(st: State, after: State)
    requires SessionsOk(st) && Grew(st, after)
    requires forall t :: t in after.sessions ==>
             SessionOk(t, after) || exists j :: 0 <= j < |st.sessions| && Continues(st.sessions[j], t)
    ensures SessionsOk(after)
  {
    hide MetricsReal, Gate;
    forall k | 0 <= k < |after.sessions| ensures SessionOk(after.sessions[k], after) {
      var t := after.sessions[k];
      assert t in after.sessions;
      if !SessionOk(t, after) {
        var j :| 0 <= j < |st.sessions| && Continues(st.sessions[j], t);
        assert SessionOk(st.sessions[j], st);
        if !t.Committed? { MetricsStay(t.id, t.row, st, after); }
      }
    }
  }

  lemma SameSessions(st: State, after: State)
    requires SessionsOk(st) && Grew(st, after) && after.sessions == st.sessions
    ensures SessionsOk(after)
  {
    hide SessionsOk, SessionOk;
    forall t | t in after.sessions ensures exists j :: 0 <= j < |st.sessions| && Continues(st.sessions[j], t) {
      var j :| 0 <= j < |st.sessions| && st.sessions[j] == t;
      assert Continues(st.sessions[j], t);
    }
    SessionsStay(st, after);
  }

  /** The seed and the registration add a row; an evaluation writes to its own, registered version only. */
  lemma TableStep(st: State, e: Event)
    requires Gated(st)
    requires e.SeedRuns? || e.Register? || e.DeliverEvaluation? || e.EvaluationCompletes? || e.EvaluationFails?
    ensures Gated(Next(st, e))
  {
    hide AuditOk, VersionsOk, SessionsOk;
    var after := Next(st, e);
    if after != st {
      var id := if e.EvaluationCompletes? || e.EvaluationFails? then st.slot.id else e.id;
      if e.SeedRuns? {
        assert Active(after.versions) == {id};
      } else {
        assert Active(after.versions) == Active(st.versions);
        assert st.seeded != Some(id);
      }
      if id in st.versions { OneVersionOk(st, id); }
      if e.EvaluationCompletes? { assert after.audit[|st.audit|] == Evaluated(id, e.map50); }
      AuditStays(st, after);
      VersionsStay(st, after, Some(id));
      SameSessions(st, after);
    }
  }

  lemma OneVersionOk(st: State, id: nat)
    requires VersionsOk(st) && id in st.versions
    ensures MetricsReal(id, st.versions[id], st)
  {
  }

  lemma OneSessionOk(st: State, i: nat)
    requires SessionsOk(st) && i < |st.sessions|
    ensures SessionOk(st.sessions[i], st)
  {
  }

  lemma NewEntryIsOk(st: State, after: State, i: nat)
    requires i < |st.sessions| && st.sessions[i].Selected? && SessionOk(st.sessions[i], st) && after.seeded == st.seeded
    requires var s := st.sessions[i];
             after.audit == st.audit + [ActivationEntry(s.id, s.row, s.override, s.justification, s.previous)]
    ensures EntryOk(after, |st.audit|)
  {
    var s := st.sessions[i];
    if st.seeded != Some(s.id) {
      var k :| 0 <= k < |st.audit| && st.audit[k] == Evaluated(s.id, s.row.map50.value);
      assert after.audit[k] == st.audit[k];
    }
  }

  predicate MovesSessions(e: Event) {
    e.ActivationLoads? || e.ActivationSelects? || e.ActivationCommits? || e.EnqueueReload? || e.ApiDies?
  }

  lemma LoadedSessionOk(st: State, id: nat, override: bool, justification: Option<string>, after: State)
    requires VersionsOk(st) && id in st.versions && Gate(st.versions[id], override, justification).Ok?
             && Grew(st, after)
    ensures SessionOk(Loaded(id, st.versions[id], override, justification), after)
  {
    MetricsStay(id, st.versions[id], st, after);
  }

  /** All a session event does to the tables: flags, and at most one audit entry. */
  lemma SessionTables(st: State, e: Event)
    requires MovesSessions(e) && AtMostOneActive(st.versions) && Known(st)
    ensures var after := Next(st, e);
            && Grew(st, after) && AtMostOneActive(after.versions) && Known(after) && |after.audit| <= |st.audit| + 1
            && forall v :: v in after.versions ==>
                 v in st.versions && after.versions[v] == st.versions[v].(isActive := after.versions[v].isActive)
  {
    hide AtMostOneActive, Gate, Finds, Active, Known;
    KnownStays(st, Next(st, e));
  }

  lemma KnownStays(st: State, after: State)
    requires Known(st) && after.versions.Keys == st.versions.Keys && after.registered == st.registered
             && after.seeded == st.seeded
    requires after.slot == st.slot && after.cache == st.cache
    requires st.audit <= after.audit && |after.audit| <= |st.audit| + 1
    requires |after.audit| > |st.audit| ==> AboutStored(st, after.audit[|st.audit|])
    ensures Known(after)
  {
    forall n | 0 <= n < |after.audit| ensures AboutStored(after, after.audit[n]) {
      if n < |st.audit| { assert AboutStored(st, st.audit[n]); }
    }
  }

  lemma SameOrFurther(s: Session, t: Session)
    requires || t == s || t == Committed
             || (s.Loaded? && t.Selected? && s == Loaded(t.id, t.row, t.override, t.justification))
    ensures Continues(s, t)
  {
  }

  lemma RemovedFrom(sessions: seq<Session>, i: nat, k: nat) returns (j: nat)
    requires i < |sessions| && k < |Remove(sessions, i)|
    ensures j < |sessions| && Continues(sessions[j], Remove(sessions, i)[k])
  {
    j := if k < i then k else k + 1;
    assert Remove(sessions, i)[k] == sessions[j];
  }

  /** A session event adds one session, or continues or drops others. */
  lemma OldSessionContinues(st: State, e: Event, k: nat) returns (j: nat)
    requires MovesSessions(e) && k < |Next(st, e).sessions| && k != |st.sessions|
    ensures j < |st.sessions| && Continues(st.sessions[j], Next(st, e).sessions[k])
  {
    hide AtMostOneActive, Active, Gate, Flags, Finds, ActivationEntry, Continues;
    var after := Next(st, e);
    assert |st.sessions| <= |after.sessions| || (e.i < |st.sessions| && after.sessions == Remove(st.sessions, e.i));
    if |st.sessions| <= |after.sessions| {
      j := k;
      SameOrFurther(st.sessions[k], after.sessions[k]);
    } else {
      j := RemovedFrom(st.sessions, e.i, k);
    }
  }

  lemma SessionsContinue(st: State, e: Event)
    requires Gated(st) && MovesSessions(e)
    ensures SessionsOk(Next(st, e))
  {
    hide Known, AuditOk, VersionsOk, SessionsOk, SessionOk, AtMostOneActive, Flags,
         Finds, ActivationEntry, Grew, Continues;
    var after := Next(st, e);
    SessionTables(st, e);
    forall t | t in after.sessions
      ensures SessionOk(t, after) || exists j :: 0 <= j < |st.sessions| && Continues(st.sessions[j], t)
    {
      var k :| 0 <= k < |after.sessions| && after.sessions[k] == t;
      if k != |st.sessions| {
        var j := OldSessionContinues(st, e, k);
      } else if e.ActivationLoads? {
        LoadedSessionOk(st, e.id, e.override, e.justification, after);
      }
    }
    SessionsStay(st, after);
  }

  lemma SessionStep(st: State, e: Event)
    requires Gated(st) && MovesSessions(e)
    ensures Gated(Next(st, e))
  {
    hide Known, Grew, AuditOk, EntryOk, VersionsOk, SessionsOk, SessionOk, AtMostOneActive, MetricsReal, Flags, Gate;
    SessionsContinue(st, e);
    SessionTables(st, e);
    var after := Next(st, e);
    if after.audit != st.audit {
      OneSessionOk(st, e.i);
      NewEntryIsOk(st, after, e.i);
    }
    AuditStays(st, after);
    VersionsStay(st, after, None);
  }

  lemma WorkerStep(st: State, e: Event)
    requires Gated(st)
    requires e.DeliverInference? || e.DeliverReload? || e.SelectActive? || e.LoadWeights? || e.WorkerDies?
    ensures Gated(Next(st, e))
  {
    hide AuditOk, VersionsOk, SessionsOk, AtMostOneActive;
    AuditStays(st, Next(st, e));
    VersionsStay(st, Next(st, e), None);
    SameSessions(st, Next(st, e));
  }

  lemma InitIsGated()
    ensures Gated(Init())
  {
  }

  lemma {:induction false} GatedStep(st: State, e: Event)
    requires Gated(st)
    ensures Gated(Next(st, e))
  {
    hide Gated, Next;
    match e {
      case SeedRuns(_) => TableStep(st, e);
      case Register(_) => TableStep(st, e);
      case DeliverEvaluation(_) => TableStep(st, e);
      case EvaluationCompletes(_) => TableStep(st, e);
      case EvaluationFails => TableStep(st, e);
      case ActivationLoads(_, _, _) => SessionStep(st, e);
      case ActivationSelects(_, _) => SessionStep(st, e);
      case ActivationCommits(_) => SessionStep(st, e);
      case EnqueueReload(_) => SessionStep(st, e);
      case ApiDies(_) => SessionStep(st, e);
      case _ => WorkerStep(st, e);
    }
  }

  /** In every interleaving, seeded or not, at most one version is active, and every activation ever made met the
      floor or had an audited justified override, with metrics from the seed or from an audited evaluation. */
  lemma {:induction false} EveryActivationIsGated(es: seq<Event>)
    ensures Gated(Run(es))
  {
    hide Gated, Next;
    if es == [] {
      RunStarts(es);
      InitIsGated();
      assert es[..0] == es;
    } else {
      EveryActivationIsGated(es[..|es| - 1]);
      GatedStep(Run(es[..|es| - 1]), es[|es| - 1]);
    }
  }

  /** An audited activation had an mAP of at least 0.95, or an override with a justification that is not blank. It has
      an audited evaluation of that version with that mAP before it, exactly when its version is not the seeded one,
      whose row carries the seed's metrics for good. */
  lemma {:induction false} EvaluatedExactlyWhenNotSeeded(es: seq<Event>, n: nat)
    requires n < |Run(es).audit| && Run(es).audit[n].Activated?
    ensures var e := Run(es).audit[n]; e.map50 >= 0.95 || (e.overridden && Explained(e.justification))
    ensures Matched(Run(es).audit, n) <==> Run(es).seeded != Some(Run(es).audit[n].id)
    ensures Run(es).seeded.Some? ==>
              && Run(es).seeded.value in Run(es).versions
              && Run(es).versions[Run(es).seeded.value].map50 == Some(SEED_MAP50)
    ensures Run(es).seeded == Some(Run(es).audit[n].id) ==> Run(es).audit[n].map50 == SEED_MAP50
  {
    hide Run, Next;
    EveryActivationIsGated(es);
    var st := Run(es);
    assert EntryOk(st, n);
    SeedKeepsMetrics(es);
  }

  /** No evaluation is ever run for the seeded version: its status and metrics never change. */
  lemma {:induction false} SeedKeepsMetrics(es: seq<Event>)
    ensures Run(es).seeded.Some? ==>
              var id := Run(es).seeded.value;
              && id in Run(es).versions && Run(es).versions[id].evaluation == Completed
              && Run(es).versions[id].map50 == Some(0.99)
  {
    if es != [] {
      var st := Run(es[..|es| - 1]);
      EveryActivationIsGated(es[..|es| - 1]);
      SeedKeepsMetrics(es[..|es| - 1]);
      SeedMetricsStep(st, es[|es| - 1]);
    }
  }

  lemma SeedMetricsStep(st: State, e: Event)
    requires Known(st)
    requires st.seeded.Some? ==>
             && st.versions[st.seeded.value].evaluation == Completed
             && st.versions[st.seeded.value].map50 == Some(SEED_MAP50)
    ensures var after := Next(st, e);
            after.seeded.Some? ==>
              && after.seeded.value in after.versions
              && after.versions[after.seeded.value].evaluation == Completed
              && after.versions[after.seeded.value].map50 == Some(SEED_MAP50)
  {
  }

  /** Every commit that is audited was of a row loaded with a COMPLETED evaluation, past the gate. */
  lemma {:induction false} EveryCommitPassedTheGate(es: seq<Event>, n: nat, i: nat)
    requires n < |es| && es[n] == ActivationCommits(i)
    requires |Next(Run(es[..n]), es[n]).audit| > |Run(es[..n]).audit|
    ensures i < |Run(es[..n]).sessions| && Run(es[..n]).sessions[i].Selected?
    ensures var s := Run(es[..n]).sessions[i];
            && s.row.evaluation == Completed && s.row.map50.Some? && Gate(s.row, s.override, s.justification).Ok?
            && Next(Run(es[..n]), es[n]).audit
                 == Run(es[..n]).audit + [ActivationEntry(s.id, s.row, s.override, s.justification, s.previous)]
  {
    EveryActivationIsGated(es[..n]);
    OneSessionOk(Run(es[..n]), i);
  }

  /** A transaction that commits leaves its version active exactly when no third version became active since its
      SELECT, and the version, if it was loaded as active, still is. */
  lemma {:induction false} ActivationWinsExactlyWhen(st: State, i: nat)
    requires Gated(st) && i < |st.sessions| && st.sessions[i].Selected? && st.sessions[i].id in st.versions
    ensures var s := st.sessions[i];
            var now := Active(st.versions);
            (Active(Next(st, ActivationCommits(i)).versions) == {s.id}) ==
            (if now == {} then !s.row.isActive
             else s.id in now || (s.previous.Some? && s.previous.value in now && !s.row.isActive))
  {
    var s := st.sessions[i];
    var now := Active(st.versions);
    var flags := Flags(st.versions, s);
    var gone := if s.previous.Some? && s.previous.value != s.id then {s.previous.value} else {};
    assert Active(flags) == (now - gone) + if s.row.isActive then {} else {s.id};
    if now != {} {
      var a :| a in now;
      assert now == {a};
      if a != s.id && a !in gone && !s.row.isActive {
        assert a in Active(flags) && s.id in Active(flags);
        assert !AtMostOneActive(flags);
      }
    }
  }

  ghost predicate EvaluatingIsRunning(st: State) {
    st.slot.Evaluating? && st.slot.id in st.versions ==> st.versions[st.slot.id].evaluation.Running?
  }

  lemma EvaluatingStep(st: State, e: Event)
    requires Gated(st) && EvaluatingIsRunning(st)
    ensures EvaluatingIsRunning(Next(st, e))
  {
    hide AuditOk, VersionsOk, SessionsOk, AtMostOneActive, Gate, ActivationEntry, Finds;
    if MovesSessions(e) { SessionTables(st, e); }
  }

  /** A version that is being evaluated again cannot be loaded for activation, whatever it was rated before. */
  lemma {:induction false} EvaluatingIsNotActivatable(
      es: seq<Event>, override: bool, justification: Option<string>)
    ensures EvaluatingIsRunning(Run(es))
    ensures Run(es).slot.Evaluating? ==>
              Next(Run(es), ActivationLoads(Run(es).slot.id, override, justification)) == Run(es)
  {
    hide Gated, EvaluatingIsRunning;
    if es == [] {
      assert Run(es) == Init();
      NothingIsEvaluated();
    } else {
      var n := |es| - 1;
      EvaluatingIsNotActivatable(es[..n], override, justification);
      EveryActivationIsGated(es[..n]);
      EvaluatingStep(Run(es[..n]), es[n]);
      assert Run(es) == Next(Run(es[..n]), es[n]);
    }
    RunningIsRefused(Run(es), override, justification);
  }

  lemma NothingIsEvaluated()
    ensures EvaluatingIsRunning(Init())
  {
  }

  lemma RunningIsRefused(st: State, override: bool, justification: Option<string>)
    requires EvaluatingIsRunning(st)
    ensures st.slot.Evaluating? ==> Next(st, ActivationLoads(st.slot.id, override, justification)) == st
  {
  }

  // ---- which versions are marked as running ----

  /** Of the versions stored, the one being evaluated is marked as running, and no other. */
  ghost predicate OnlyEvaluatedRuns(st: State) {
    forall v :: v in st.versions ==>
      (st.versions[v].evaluation.Running? <==> st.slot.Evaluating? && st.slot.id == v)
  }

  lemma OnlyEvaluatedStep(st: State, e: Event)
    requires Known(st) && OnlyEvaluatedRuns(st) && !e.WorkerDies?
    ensures OnlyEvaluatedRuns(Next(st, e))
  {
    hide AtMostOneActive, Gate, ActivationEntry, Finds, Flags;
    if e.ActivationCommits? && e.i < |st.sessions| && st.sessions[e.i].Selected?
       && st.sessions[e.i].id in st.versions {
      FlagsKeepStatus(st.versions, st.sessions[e.i]);
    }
  }

  lemma FlagsKeepStatus(versions: map<nat, Version>, s: Session)
    requires s.Selected? && s.id in versions
    ensures Flags(versions, s).Keys == versions.Keys
    ensures forall v :: v in versions ==> Flags(versions, s)[v].evaluation == versions[v].evaluation
  {
  }

  /** Unless the worker dies, a version is marked as running exactly while it is evaluated; a death leaves it so marked
      until its message is delivered again. */
  lemma {:induction false} RunningExactlyWhileEvaluated(es: seq<Event>)
    requires forall n :: 0 <= n < |es| ==> !es[n].WorkerDies?
    ensures forall v :: v in Run(es).versions ==>
              (Run(es).versions[v].evaluation.Running? <==> Run(es).slot.Evaluating? && Run(es).slot.id == v)
  {
    hide Next, OnlyEvaluatedRuns;
    NoneRunsAtFirst();
    if es == [] {
      assert Run(es) == Init();
    } else {
      var n := |es| - 1;
      RunningExactlyWhileEvaluated(es[..n]);
      EveryActivationIsGated(es[..n]);
      EvaluatedMeans(Run(es[..n]));
      OnlyEvaluatedStep(Run(es[..n]), es[n]);
      assert Run(es) == Next(Run(es[..n]), es[n]);
    }
    EvaluatedMeans(Run(es));
  }

  lemma NoneRunsAtFirst()
    ensures OnlyEvaluatedRuns(Init())
  {
  }

  lemma EvaluatedMeans(st: State)
    ensures OnlyEvaluatedRuns(st) <==>
              forall v :: v in st.versions ==>
                (st.versions[v].evaluation.Running? <==> st.slot.Evaluating? && st.slot.id == v)
  {
  }

  /** A query under the index finds the one active version, or that there is none. */
  lemma FindsTheActive(versions: map<nat, Version>, found: Option<nat>)
    requires AtMostOneActive(versions)
    ensures Finds(versions, found) <==> Active(versions) == match found { case None => {} case Some(v) => {v} }
  {
    if found.Some? && Finds(versions, found) {
      forall v ensures v in Active(versions) <==> v == found.value {}
    }
  }
}
