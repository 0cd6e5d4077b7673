/** What becomes of activations, reloads and evaluations over whole runs, and what moves the worker. */
module ActivationAccounts {
  import opened ActivationGate
  import opened Counting
  import opened ModelActivation
  import opened Wrappers

  ghost predicate Commits(st: State, e: Event) {
    && e.ActivationCommits? && e.i < |st.sessions| && st.sessions[e.i].Selected?
    && st.sessions[e.i].id in st.versions && AtMostOneActive(Flags(st.versions, st.sessions[e.i]))
  }

  const ACTIVATED: AuditEntry -> bool := (entry: AuditEntry) => entry.Activated?
  const OWES_RELOAD: Session -> bool := (s: Session) => s.Committed?

  // ---- the audit ----

  /** The audit is appended to by a committed activation and by the end of an evaluation, and by nothing else. */
  lemma {:induction false} AuditGrows(st: State, e: Event)
    ensures Next(st, e).audit
         == st.audit + if Commits(st, e) then
                         var s := st.sessions[e.i];
                         [ActivationEntry(s.id, s.row, s.override, s.justification, s.previous)]
                       else if st.slot.Evaluating? && st.slot.id in st.versions && e.EvaluationCompletes? then
                         [Evaluated(st.slot.id, e.map50)]
                       else if st.slot.Evaluating? && st.slot.id in st.versions && e.EvaluationFails? then
                         [EvaluationFailed(st.slot.id)]
                       else []
  {
    hide AtMostOneActive, Gate, ActivationEntry, Finds, Flags;
  }

  // ---- transactions ----

  /** A transaction begins past the gate, and ends when its reload is sent, when the index refuses it, or with its
      process. */
  lemma {:induction false} TransactionsEnd(st: State, e: Event)
    ensures |Next(st, e).sessions|
         == match e
            case ActivationLoads(id, override, justification) =>
              |st.sessions| + (if id in st.versions && Gate(st.versions[id], override, justification).Ok? then 1 else 0)
            case ActivationCommits(i) =>
              |st.sessions| - (if i < |st.sessions| && st.sessions[i].Selected? && st.sessions[i].id in st.versions
                                  && !Commits(st, e) then 1 else 0)
            case EnqueueReload(i) =>
              |st.sessions| - (if i < |st.sessions| && st.sessions[i].Committed? then 1 else 0)
            case ApiDies(i) => |st.sessions| - (if i < |st.sessions| then 1 else 0)
            case _ => |st.sessions|
  {
    hide AtMostOneActive, Gate, ActivationEntry, Finds, Flags;
  }

  // ---- reloads ----

  /** Reload messages queued, and those that committed activations still owe. */
  function ReloadWork(st: State): nat { st.reloads + Count(st.sessions, OWES_RELOAD) }

  /** How many reloads an event takes from the queue or loses. */
  function ReloadsGone(st: State, e: Event): nat {
    match e
    case DeliverReload => if st.slot.Idle? && st.reloads > 0 then 1 else 0
    case ApiDies(i) => if i < |st.sessions| && st.sessions[i].Committed? then 1 else 0
    case _ => 0
  }

  /** How many reloads the broker queues again when the worker dies. */
  function ReloadsAgain(e: Event): nat { if e.WorkerDies? then e.redelivered else 0 }

  lemma CountReplaced<T>(s: seq<T>, i: nat, x: T, p: T -> bool)
    requires i < |s|
    ensures Count(s, p) == Count(Remove(s, i), p) + if p(s[i]) then 1 else 0
    ensures Count(s[i := x], p) == Count(Remove(s, i), p) + if p(x) then 1 else 0
  {
    CountAround(s[..i], s[i], s[i + 1..], p);
    CountAround(s[..i], x, s[i + 1..], p);
    assert s == s[..i] + [s[i]] + s[i + 1..] && s[i := x] == s[..i] + [x] + s[i + 1..];
  }

  lemma CountAround<T>(a: seq<T>, x: T, b: seq<T>, p: T -> bool)
    ensures Count(a + [x] + b, p) == Count(a + b, p) + if p(x) then 1 else 0
  {
    CountAppend(a + [x], b, p);
    CountSnoc(a, x, p);
    CountAppend(a, b, p);
  }

  lemma ReloadWorkStep(st: State, e: Event)
    ensures ReloadWork(Next(st, e)) + ReloadsGone(st, e)
         == ReloadWork(st) + ReloadsAgain(e) + if Commits(st, e) then 1 else 0
  {
    hide AtMostOneActive, Gate, ActivationEntry, Finds, Flags, Count, Remove;
    match e {
      case ActivationLoads(id, override, justification) =>
        if id in st.versions {
          CountSnoc(st.sessions, Loaded(id, st.versions[id], override, justification), OWES_RELOAD);
        }
      case ActivationSelects(i, found) =>
        if i < |st.sessions| && st.sessions[i].Loaded? {
          var s := st.sessions[i];
          CountReplaced(st.sessions, i, Selected(s.id, s.row, s.override, s.justification, found), OWES_RELOAD);
        }
      case ActivationCommits(i) => if i < |st.sessions| { CountReplaced(st.sessions, i, Committed, OWES_RELOAD); }
      case EnqueueReload(i) => if i < |st.sessions| { CountReplaced(st.sessions, i, Committed, OWES_RELOAD); }
      case ApiDies(i) => if i < |st.sessions| { CountReplaced(st.sessions, i, Committed, OWES_RELOAD); }
      case _ =>
    }
  }

  ghost function AllGone(es: seq<Event>): nat {
    if es == [] then 0
    else
      var n := |es| - 1;
      AllGone(es[..n]) + ReloadsGone(Run(es[..n]), es[n])
  }

  function AllAgain(es: seq<Event>): nat {
    if es == [] then 0 else AllAgain(es[..|es| - 1]) + ReloadsAgain(es[|es| - 1])
  }

  /** In every run each audited activation has exactly one reload: delivered, queued, still owed, or lost with its
      process; the broker alone adds more. */
  lemma {:induction false} ReloadsAreConserved(es: seq<Event>)
    ensures Count(Run(es).audit, ACTIVATED) + AllAgain(es) == ReloadWork(Run(es)) + AllGone(es)
  {
    hide Next, ReloadWork, ReloadsGone, Commits, Count;
    if es == [] {
      NoneOwedYet();
    } else {
      var n := |es| - 1;
      ReloadsAreConserved(es[..n]);
      ReloadWorkStep(Run(es[..n]), es[n]);
      AuditCounts(Run(es[..n]), es[n]);
    }
  }

  lemma AuditCounts(st: State, e: Event)
    ensures Count(Next(st, e).audit, ACTIVATED) == Count(st.audit, ACTIVATED) + if Commits(st, e) then 1 else 0
  {
    AuditGrows(st, e);
    hide Next, Commits, Count;
    var more := Next(st, e).audit[|st.audit|..];
    assert Next(st, e).audit == st.audit + more;
    if more == [] {
      assert st.audit + more == st.audit;
    } else {
      assert more == [more[0]];
      CountSnoc(st.audit, more[0], ACTIVATED);
    }
  }

  lemma NoneOwedYet()
    ensures Count(Init().audit, ACTIVATED) == 0 && ReloadWork(Init()) == 0
  {
  }

  // ---- the worker ----

  /** What moves the worker: a reload empties its cache and selects anew, an inference selects only for an empty cache,
      a load fills or empties the cache, and a death leaves it idle and empty. */
  lemma {:induction false} WorkerMoves(st: State, e: Event)
    ensures var after := Next(st, e);
            match e
            case WorkerDies(_) => after.slot.Idle? && after.cache.None?
            case DeliverReload =>
              if st.slot.Idle? && st.reloads > 0 then after.slot.Selecting? && after.cache.None?
              else after.slot == st.slot && after.cache == st.cache
            case DeliverInference =>
              after.cache == st.cache && after.slot == if st.slot.Idle? && st.cache.None? then Selecting else st.slot
            case LoadWeights(ok) =>
              if st.slot.Loading? then after.slot.Idle? && after.cache == if ok then Some(st.slot.id) else None
              else after.slot == st.slot && after.cache == st.cache
            case SelectActive(found) =>
              && after.cache == st.cache
              && after.slot == (if !st.slot.Selecting? || !Finds(st.versions, found) then st.slot
                                else if found.Some? then Loading(found.value) else Idle)
            case EvaluationCompletes(_) =>
              after.cache == st.cache
              && after.slot == if st.slot.Evaluating? && st.slot.id in st.versions then Idle else st.slot
            case EvaluationFails =>
              after.cache == st.cache
              && after.slot == if st.slot.Evaluating? && st.slot.id in st.versions then Idle else st.slot
            case DeliverEvaluation(id) =>
              after.cache == st.cache
              && after.slot == if st.slot.Idle? && id in st.versions && id in st.registered then Evaluating(id)
                               else st.slot
            case _ => after.slot == st.slot && after.cache == st.cache
  {
    hide AtMostOneActive, Gate, ActivationEntry, Finds, Flags;
  }
}
