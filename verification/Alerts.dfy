/** Quality alerts: the re-arm rule read off the latest row of a scope, as the three-state automaton it implements. */
module Alerts {
  import opened Wrappers

  datatype Scope = Batch(id: nat) | Window

  datatype Alert = Alert(scope: Scope, observedRate: real, threshold: real, sampleSize: nat,
                         acknowledgedAt: Option<nat>, acknowledgedBy: Option<nat>, clearedAt: Option<nat>)

  /** Completed images of a scope since the window began, and those among them with a reported defect. */
  datatype Reading = Reading(scope: Scope, total: nat, defects: nat)

  datatype AckError = NotFound | AlreadyAcknowledged

  function Rate(r: Reading): real
    requires r.total > 0
  {
    r.defects as real / r.total as real
  }

  /** Index of the newest row of a scope; rows are in creation order. */
  function Latest(rows: seq<Alert>, scope: Scope): (r: Option<nat>)
    ensures r.Some? ==> r.value < |rows| && rows[r.value].scope == scope
    ensures forall i :: 0 <= i < |rows| && rows[i].scope == scope ==> r.Some? && i <= r.value
  {
    if rows == [] then None
    else if rows[|rows| - 1].scope == scope then Some(|rows| - 1)
    else Latest(rows[..|rows| - 1], scope)
  }

  datatype Event =
    | Poll(scope: Scope, rate: real, threshold: real, sampleSize: nat, now: nat)
    | Acknowledge(id: nat, actor: nat, now: nat)

  function Polled(rows: seq<Alert>, e: Event): seq<Alert>
    requires e.Poll?
  {
    var latest := Latest(rows, e.scope);
    if latest.Some? && rows[latest.value].acknowledgedAt.None? then rows
    else if latest.Some? && rows[latest.value].clearedAt.None? then
      if e.rate > e.threshold then rows else rows[latest.value := rows[latest.value].(clearedAt := Some(e.now))]
    else if e.rate > e.threshold then rows + [Alert(e.scope, e.rate, e.threshold, e.sampleSize, None, None, None)]
    else rows
  }

  function Acknowledged(rows: seq<Alert>, id: nat, actor: nat, now: nat): Result<seq<Alert>, AckError> {
    if id >= |rows| then Err(NotFound)
    else if rows[id].acknowledgedAt.Some? then Err(AlreadyAcknowledged)
    else Ok(rows[id := rows[id].(acknowledgedAt := Some(now), acknowledgedBy := Some(actor))])
  }

  function Step(rows: seq<Alert>, e: Event): seq<Alert> {
    match e
    case Poll(_, _, _, _, _) => Polled(rows, e)
    case Acknowledge(id, actor, now) =>
      match Acknowledged(rows, id, actor, now) { case Ok(after) => after case Err(_) => rows }
  }

  function Steps(rows: seq<Alert>, es: seq<Event>): seq<Alert> {
    if es == [] then rows else Step(Steps(rows, es[..|es| - 1]), es[|es| - 1])
  }

  function Run(es: seq<Event>): seq<Alert> { Steps([], es) }

  function PollOf(r: Reading, threshold: real, now: nat): Event
    requires r.total > 0
  {
    Poll(r.scope, Rate(r), threshold, r.total, now)
  }

  /** One monitoring pass: every batch with recent images, then the time window if it has any. */
  function Pass(batches: seq<Reading>, window: Reading, threshold: real, now: nat): seq<Event>
    requires forall i :: 0 <= i < |batches| ==> batches[i].total > 0
  {
    seq(|batches|, i requires 0 <= i < |batches| => PollOf(batches[i], threshold, now))
    + if window.total > 0 then [PollOf(window, threshold, now)] else []
  }

  lemma StepsSnoc(rows: seq<Alert>, es: seq<Event>, e: Event)
    ensures Steps(rows, es + [e]) == Step(Steps(rows, es), e)
  {
    assert (es + [e])[..|es|] == es;
  }

  lemma StepsOfNone(rows: seq<Alert>)
    ensures Steps(rows, []) == rows
  {
  }

  class AlertTable {
    var rows: seq<Alert>

    method EvaluateScope(scope: Scope, rate: real, threshold: real, sampleSize: nat, now: nat)
          returns (raised: Option<Alert>)
      modifies this
      ensures rows == Polled(old(rows), Poll(scope, rate, threshold, sampleSize, now))
      ensures if raised.Some? then rows == old(rows) + [raised.value] else |rows| == |old(rows)|
    {
      var latest := Latest(rows, scope);
      var over := rate > threshold;
      if latest.Some? && rows[latest.value].acknowledgedAt.None? {
        return None;
      }
      if latest.Some? && rows[latest.value].clearedAt.None? {
        if !over {
          rows := rows[latest.value := rows[latest.value].(clearedAt := Some(now))];
        }
        return None;
      }
      if !over {
        return None;
      }
      var alert := Alert(scope, rate, threshold, sampleSize, None, None, None);
      rows := rows + [alert];
      return Some(alert);
    }

    /** A pass has the effect of its polls in order, and reports exactly the rows it added. */
    method EvaluateThresholds(batches: seq<Reading>, window: Reading, threshold: real, now: nat)
          returns (newAlerts: seq<Alert>)
      requires forall i :: 0 <= i < |batches| ==> batches[i].total > 0 && batches[i].scope.Batch?
      requires forall i, j :: 0 <= i < j < |batches| ==> batches[i].scope != batches[j].scope
      requires window.scope == Window
      modifies this
      ensures rows == Steps(old(rows), Pass(batches, window, threshold, now))
      ensures |old(rows)| <= |rows| && newAlerts == rows[|old(rows)|..]
    {
      hide Polled, Steps, Rate;
      newAlerts := [];
      StepsOfNone(rows);
      ghost var pass := Pass(batches, window, threshold, now);
      assert pass[..0] == [];
      var i := 0;
      while i < |batches|
        invariant 0 <= i <= |batches|
        invariant rows == Steps(old(rows), pass[..i])
        invariant |old(rows)| <= |rows| && newAlerts == rows[|old(rows)|..]
        invariant forall k | |old(rows)| <= k < |rows| :: rows[k].acknowledgedAt.None?
      {
        assert pass[..i + 1] == pass[..i] + [pass[i]];
        StepsSnoc(old(rows), pass[..i], pass[i]);
        ghost var before := rows;
        var alert := EvaluateScope(batches[i].scope, Rate(batches[i]), threshold, batches[i].total, now);
        OpenRowsStay(before, PollOf(batches[i], threshold, now));
        if alert.Some? {
          newAlerts := newAlerts + [alert.value];
        }
        i := i + 1;
      }
      if window.total > 0 {
        assert pass == pass[..|batches|] + [pass[|batches|]];
        StepsSnoc(old(rows), pass[..|batches|], pass[|batches|]);
        ghost var before := rows;
        var alert := EvaluateScope(Window, Rate(window), threshold, window.total, now);
        OpenRowsStay(before, PollOf(window, threshold, now));
        if alert.Some? {
          newAlerts := newAlerts + [alert.value];
        }
      } else {
        assert pass == pass[..|batches|];
      }
    }

    method AcknowledgeAlert(id: nat, actor: nat, now: nat) returns (r: Result<Alert, AckError>)
      modifies this
      ensures match Acknowledged(old(rows), id, actor, now)
              case Ok(after) => rows == after && r == Ok(after[id])
              case Err(e) => rows == old(rows) && r == Err(e)
    {
      if id >= |rows| {
        return Err(NotFound);
      }
      if rows[id].acknowledgedAt.Some? {
        return Err(AlreadyAcknowledged);
      }
      rows := rows[id := rows[id].(acknowledgedBy := Some(actor), acknowledgedAt := Some(now))];
      return Ok(rows[id]);
    }
  }

  /** The rate is the defective images' share: it is 0 without any, 1 if all are, and exceeds a threshold exactly when
      the defective images outnumber that share of the total. */
  lemma {:induction false} RateIsTheShare(r: Reading, threshold: real)
    requires r.total > 0
    ensures Rate(r) > threshold <==> r.defects as real > threshold * r.total as real
    ensures Rate(r) == threshold <==> r.defects as real == threshold * r.total as real
  {
    var rate, n := Rate(r), r.total as real;
    assert rate * n == r.defects as real;
    DifferenceTimes(rate, threshold, n);
  }

  lemma DifferenceTimes(a: real, b: real, n: real)
    requires n > 0.0
    ensures a > b <==> a * n > b * n
    ensures a == b <==> a * n == b * n
  {
    var d := a - b;
    assert d * n == a * n - b * n;
    if d > 0.0 { assert d * n > 0.0; }
    if d < 0.0 { assert d * n < 0.0; }
  }

  /** One monitoring pass polls every batch once, in order, and then the time window if it has images. */
  lemma {:induction false} PassPollsEachReading(batches: seq<Reading>, window: Reading, threshold: real, now: nat)
    requires forall i :: 0 <= i < |batches| ==> batches[i].total > 0
    ensures var pass := Pass(batches, window, threshold, now);
            && |pass| == |batches| + (if window.total > 0 then 1 else 0)
            && forall i :: 0 <= i < |pass| ==>
                 var r := if i < |batches| then batches[i] else window;
                 && pass[i].Poll? && pass[i].scope == r.scope && pass[i].threshold == threshold
                 && pass[i].sampleSize == r.total && pass[i].now == now
                 && pass[i].rate * r.total as real == r.defects as real
  {
    hide Rate;
    forall i | 0 <= i < |batches| ensures RateOf(PollOf(batches[i], threshold, now), batches[i]) {
      RateIsTheShare(batches[i], Rate(batches[i]));
    }
    if window.total > 0 { RateIsTheShare(window, Rate(window)); }
  }

  predicate RateOf(e: Event, r: Reading) { e.Poll? && e.rate * r.total as real == r.defects as real }

  /** An alert is raised with the poll's reading, open; the one other change a poll makes is to note the time at which
      the latest, acknowledged alert was first observed at or below the threshold again. */
  lemma {:induction false} PollWrites(rows: seq<Alert>, e: Event)
    requires e.Poll?
    ensures var after := Polled(rows, e);
            || after == rows
            || (&& e.rate > e.threshold && |after| == |rows| + 1 && after[..|rows|] == rows
                && after[|rows|] == Alert(e.scope, e.rate, e.threshold, e.sampleSize, None, None, None))
            || (&& e.rate <= e.threshold && |after| == |rows| && Latest(rows, e.scope).Some?
                && var i := Latest(rows, e.scope).value;
                   && rows[i].acknowledgedAt.Some? && rows[i].clearedAt.None?
                   && after == rows[i := rows[i].(clearedAt := Some(e.now))])
  {
  }

  /** An acknowledgement notes who made it and when, once, and changes nothing else. */
  lemma {:induction false} AcknowledgementWrites(rows: seq<Alert>, id: nat, actor: nat, now: nat)
    ensures match Acknowledged(rows, id, actor, now)
            case Err(NotFound) => id >= |rows|
            case Err(AlreadyAcknowledged) => id < |rows| && rows[id].acknowledgedAt.Some?
            case Ok(after) =>
              && id < |rows| && |after| == |rows| && (forall i :: 0 <= i < |rows| && i != id ==> after[i] == rows[i])
              && rows[id].acknowledgedAt.None?
              && after[id] == rows[id].(acknowledgedAt := Some(now), acknowledgedBy := Some(actor))
    ensures Step(rows, Acknowledge(id, actor, now))
         == if id < |rows| && rows[id].acknowledgedAt.None? then
              rows[id := rows[id].(acknowledgedAt := Some(now), acknowledgedBy := Some(actor))]
            else rows
  {
  }

  /** A poll touches no row of another scope. */
  lemma OnlyScopeChanges(rows: seq<Alert>, e: Event)
    requires e.Poll?
    ensures |rows| <= |Polled(rows, e)| <= |rows| + 1
    ensures forall i :: 0 <= i < |rows| && rows[i].scope != e.scope ==> Polled(rows, e)[i] == rows[i]
    ensures forall i :: 0 <= i < |rows| ==> Polled(rows, e)[i].scope == rows[i].scope
    ensures |Polled(rows, e)| > |rows| ==> Polled(rows, e)[|rows|].scope == e.scope
  {
  }

  /** A poll leaves open alerts as they are, and raises open ones. */
  lemma OpenRowsStay(rows: seq<Alert>, e: Event)
    requires e.Poll?
    ensures |rows| <= |Polled(rows, e)| <= |rows| + 1
    ensures forall i :: 0 <= i < |rows| && rows[i].acknowledgedAt.None? ==> Polled(rows, e)[i] == rows[i]
    ensures |Polled(rows, e)| > |rows| ==> Polled(rows, e)[|rows|].acknowledgedAt.None?
  {
  }

  // ---- the automaton ----

  datatype Phase = Armed | Raised | Quiet

  /** The phase the latest row stands for. */
  function PhaseOf(rows: seq<Alert>, scope: Scope): Phase {
    var latest := Latest(rows, scope);
    if latest.None? then Armed
    else if rows[latest.value].acknowledgedAt.None? then Raised
    else if rows[latest.value].clearedAt.None? then Quiet
    else Armed
  }

  /** The automaton: armed scopes fire on a rate over the threshold, acknowledging silences, a poll at or below
      re-arms. */
  function PhaseStep(p: Phase, mine: bool, e: Event): Phase {
    match e
    case Poll(_, rate, threshold, _, _) =>
      if !mine then p
      else if p == Armed && rate > threshold then Raised
      else if p == Quiet && rate <= threshold then Armed
      else p
    case Acknowledge(_, _, _) => if mine && p == Raised then Quiet else p
  }

  /** Row i is its scope's latest, or acknowledged and cleared; a cleared row is acknowledged. */
  predicate RowSettled(rows: seq<Alert>, i: nat)
    requires i < |rows|
  {
    && (Latest(rows, rows[i].scope) != Some(i) ==> rows[i].acknowledgedAt.Some? && rows[i].clearedAt.Some?)
    && (rows[i].acknowledgedAt.None? ==> rows[i].clearedAt.None?)
    && rows[i].observedRate > rows[i].threshold
  }

  ghost predicate Settled(rows: seq<Alert>) { forall i :: 0 <= i < |rows| ==> RowSettled(rows, i) }

  predicate Concerns(rows: seq<Alert>, scope: Scope, e: Event) {
    match e
    case Poll(s, _, _, _, _) => s == scope
    case Acknowledge(id, _, _) => id < |rows| && rows[id].scope == scope && rows[id].acknowledgedAt.None?
  }

  lemma LatestSameScopes(a: seq<Alert>, b: seq<Alert>, scope: Scope)
    requires |a| == |b| && forall i :: 0 <= i < |a| ==> a[i].scope == b[i].scope
    ensures Latest(a, scope) == Latest(b, scope)
  {
  }

  lemma LatestSnoc(rows: seq<Alert>, a: Alert, scope: Scope)
    ensures Latest(rows + [a], scope) == if a.scope == scope then Some(|rows|) else Latest(rows, scope)
  {
    assert (rows + [a])[..|rows|] == rows;
  }

  lemma StepKeepsLatest(rows: seq<Alert>, e: Event, scope: Scope)
    ensures |Step(rows, e)| == |rows| ==> Latest(Step(rows, e), scope) == Latest(rows, scope)
    ensures |Step(rows, e)| != |rows| ==>
              e.Poll? && Latest(Step(rows, e), scope) == if e.scope == scope then Some(|rows|) else Latest(rows, scope)
  {
    var after := Step(rows, e);
    if |after| == |rows| {
      LatestSameScopes(after, rows, scope);
    } else {
      LatestSnoc(rows, after[|rows|], scope);
    }
  }

  lemma PollKeepsSettled(rows: seq<Alert>, e: Event, i: nat)
    requires e.Poll? && i < |Polled(rows, e)|
    requires Settled(rows)
    ensures RowSettled(Polled(rows, e), i)
  {
    var after := Polled(rows, e);
    StepKeepsLatest(rows, e, after[i].scope);
    if i < |rows| {
      assert RowSettled(rows, i);
    }
  }

  lemma AckKeepsSettled(rows: seq<Alert>, e: Event, i: nat)
    requires e.Acknowledge? && i < |Step(rows, e)|
    requires Settled(rows)
    ensures RowSettled(Step(rows, e), i)
  {
    var after := Step(rows, e);
    StepKeepsLatest(rows, e, after[i].scope);
    assert RowSettled(rows, i);
  }

  lemma {:induction false} StepKeepsSettled(rows: seq<Alert>, e: Event)
    requires Settled(rows)
    ensures Settled(Step(rows, e))
  {
    assert e.Poll? ==> Step(rows, e) == Polled(rows, e);
    hide Step, RowSettled, Polled;
    var after := Step(rows, e);
    forall i | 0 <= i < |after| ensures RowSettled(after, i) {
      if e.Poll? {
        PollKeepsSettled(rows, e, i);
      } else {
        AckKeepsSettled(rows, e, i);
      }
    }
  }

  /** The rows refine the automaton, scope by scope. */
  lemma {:induction false} RowsRefineAutomaton(rows: seq<Alert>, e: Event, scope: Scope)
    requires Settled(rows)
    ensures PhaseOf(Step(rows, e), scope) == PhaseStep(PhaseOf(rows, scope), Concerns(rows, scope, e), e)
  {
    StepKeepsLatest(rows, e, scope);
    if e.Acknowledge? && e.id < |rows| && rows[e.id].acknowledgedAt.None? {
      assert RowSettled(rows, e.id);
    }
  }

  // ---- whole runs ----

  lemma {:induction false} EveryRunIsSettled(es: seq<Event>)
    ensures Settled(Run(es))
  {
    assert Settled([]);
    hide Settled, Step;
    if es != [] {
      EveryRunIsSettled(es[..|es| - 1]);
      StepKeepsSettled(Run(es[..|es| - 1]), es[|es| - 1]);
    }
  }

  /** After any sequence of polls and acknowledgements, a scope has at most one unacknowledged alert, its latest. */
  lemma {:induction false} AtMostOneOpenAlert(es: seq<Event>, i: nat, j: nat)
    requires i < |Run(es)| && j < |Run(es)| && Run(es)[i].scope == Run(es)[j].scope
    requires Run(es)[i].acknowledgedAt.None? && Run(es)[j].acknowledgedAt.None?
    ensures i == j
  {
    EveryRunIsSettled(es);
    assert RowSettled(Run(es), i) && RowSettled(Run(es), j);
  }

  /** Event n of the run raises an alert for the scope. */
  predicate Raises(es: seq<Event>, n: nat, scope: Scope)
    requires n < |es|
  {
    es[n].Poll? && es[n].scope == scope && |Step(Run(es[..n]), es[n])| > |Run(es[..n])|
  }

  /** Event n acknowledges the scope's open alert. */
  predicate Acks(es: seq<Event>, n: nat, scope: Scope)
    requires n < |es|
  {
    es[n].Acknowledge? && Concerns(Run(es[..n]), scope, es[n])
  }

  predicate Calms(es: seq<Event>, n: nat, scope: Scope)
    requires n < |es|
  {
    es[n].Poll? && es[n].scope == scope && es[n].rate <= es[n].threshold
  }

  lemma PhaseAt(es: seq<Event>, n: nat, scope: Scope)
    requires n < |es|
    ensures PhaseOf(Run(es[..n + 1]), scope)
            == PhaseStep(PhaseOf(Run(es[..n]), scope), Concerns(Run(es[..n]), scope, es[n]), es[n])
    ensures Raises(es, n, scope) <==> es[n].Poll? && es[n].scope == scope && es[n].rate > es[n].threshold
                                      && PhaseOf(Run(es[..n]), scope) == Armed
  {
    EveryRunIsSettled(es[..n]);
    assert es[..n + 1][..n] == es[..n];
    RowsRefineAutomaton(Run(es[..n]), es[n], scope);
  }

  /** A scope that raised at `from` and is silenced by `n` was acknowledged in between. */
  lemma {:induction false} QuietWasAcknowledged(es: seq<Event>, from: nat, n: nat, scope: Scope) returns (k: nat)
    requires from < n <= |es| && Raises(es, from, scope)
    requires forall m :: from < m < n ==> !Raises(es, m, scope)
    requires PhaseOf(Run(es[..n]), scope) == Quiet
    ensures from < k < n && Acks(es, k, scope)
  {
    hide Step, Steps, PhaseOf, Latest;
    PhaseAt(es, n - 1, scope);
    if n - 1 == from {
      assert false;
    } else if PhaseOf(Run(es[..n - 1]), scope) == Quiet {
      k := QuietWasAcknowledged(es, from, n - 1, scope);
    } else {
      k := n - 1;
    }
  }

  /** A scope that raised at `from` and is armed again was acknowledged and then polled at or below the threshold. */
  lemma {:induction false} ArmedWasCalmed(es: seq<Event>, from: nat, n: nat, scope: Scope) returns (k: nat, m: nat)
    requires from < n <= |es| && Raises(es, from, scope)
    requires forall m :: from < m < n ==> !Raises(es, m, scope)
    requires PhaseOf(Run(es[..n]), scope) == Armed
    ensures from < k < m < n && Acks(es, k, scope) && Calms(es, m, scope)
  {
    hide Step, Steps, PhaseOf, Latest;
    PhaseAt(es, n - 1, scope);
    if n - 1 == from {
      assert false;
    } else if PhaseOf(Run(es[..n - 1]), scope) == Armed {
      k, m := ArmedWasCalmed(es, from, n - 1, scope);
    } else {
      m := n - 1;
      k := QuietWasAcknowledged(es, from, n - 1, scope);
    }
  }

  /** No alert storm: between two consecutive alerts of a scope lies an acknowledgement and, after it, a poll at or
      below the threshold. */
  lemma {:induction false} NoAlertStorm(es: seq<Event>, i: nat, j: nat, scope: Scope)
    requires i < j < |es| && Raises(es, i, scope) && Raises(es, j, scope)
    requires forall m :: i < m < j ==> !Raises(es, m, scope)
    ensures exists k, m :: i < k < m < j && Acks(es, k, scope) && Calms(es, m, scope)
  {
    PhaseAt(es, j, scope);
    var k, m := ArmedWasCalmed(es, i, j, scope);
  }
}
