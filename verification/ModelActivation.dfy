/** Activation over whole runs: evaluation tasks, activation transactions (load, select, commit), reload enqueues, cache
    loads on the serial inference worker, the seed that every API start runs, and deaths of the API process and of the
    worker, in any interleaving. */
module ModelActivation {
  import opened ActivationGate
  import opened Wrappers

  /** An activation transaction: the row it loaded, the active row it then selected, or committed with its
      reload message still to be sent. */
  datatype Session =
    | Loaded(id: nat, row: Version, override: bool, justification: Option<string>)
    | Selected(id: nat, row: Version, override: bool, justification: Option<string>, previous: Option<nat>)
    | Committed

  /** The serial inference worker, while it fills its cache or evaluates a version. */
  datatype Slot = Idle | Selecting | Loading(id: nat) | Evaluating(id: nat)

  datatype State = State(
    versions: map<nat, Version>,
    seeded: Option<nat>,         // the version the seed inserted
    registered: set<nat>,        // versions whose evaluation message may be delivered, any number of times
    audit: seq<AuditEntry>,
    sessions: seq<Session>,
    reloads: nat,                // reload messages in the queue
    slot: Slot,
    cache: Option<nat>)          // the version behind the worker's loaded model

  datatype Event =
    | SeedRuns(id: nat)
    | Register(id: nat)
    | DeliverEvaluation(id: nat)
    | EvaluationCompletes(map50: real)
    | EvaluationFails
    | ActivationLoads(id: nat, override: bool, justification: Option<string>)
    | ActivationSelects(i: nat, found: Option<nat>)
    | ActivationCommits(i: nat)
    | EnqueueReload(i: nat)
    | ApiDies(i: nat)
    | DeliverInference
    | DeliverReload
    | SelectActive(found: Option<nat>)
    | LoadWeights(ok: bool)
    | WorkerDies(redelivered: nat)

  function Rated(map50: real, isActive: bool): Version { Version(Completed, Some(map50), isActive) }

  /** The seeded version is inserted active, completed and with these metrics, past the gate and the audit. */
  const SEED_MAP50 := 0.99

  predicate Finds(versions: map<nat, Version>, found: Option<nat>) {
    if found.Some? then found.value in Active(versions) else Active(versions) == {}
  }

  /** The flags after the transaction's UPDATEs. The session writes a flag only if it differs from what it loaded. */
  function Flags(versions: map<nat, Version>, s: Session): map<nat, Version>
    requires s.Selected? && s.id in versions
  {
    var deactivated := if s.previous.Some? && s.previous.value != s.id && s.previous.value in versions
                       then SetActive(versions, s.previous.value, false) else versions;
    if s.row.isActive then deactivated else SetActive(deactivated, s.id, true)
  }

  /** Events that are not possible in a state leave it unchanged. */
  ghost function Next(st: State, e: Event): State {
    match e
    case SeedRuns(id) =>
      // nothing to do, or the index refuses
      if id in st.versions || st.seeded.Some? || Active(st.versions) != {} then st
      else st.(versions := st.versions[id := Rated(SEED_MAP50, true)], seeded := Some(id))
    case Register(id) =>
      if id in st.versions then st
      else st.(versions := st.versions[id := Version(Pending, None, false)], registered := st.registered + {id})
    case DeliverEvaluation(id) =>
      if !st.slot.Idle? || id !in st.versions || id !in st.registered then st
      else st.(versions := st.versions[id := st.versions[id].(evaluation := Running)], slot := Evaluating(id))
    case EvaluationCompletes(map50) =>
      if !st.slot.Evaluating? || st.slot.id !in st.versions then st
      else
        var evaluated := st.versions[st.slot.id].(evaluation := Completed, map50 := Some(map50));
        st.(versions := st.versions[st.slot.id := evaluated],
               audit := st.audit + [Evaluated(st.slot.id, map50)], slot := Idle)
    case EvaluationFails =>
      if !st.slot.Evaluating? || st.slot.id !in st.versions then st
      else st.(versions := st.versions[st.slot.id := st.versions[st.slot.id].(evaluation := Failed)],
               audit := st.audit + [EvaluationFailed(st.slot.id)], slot := Idle)
    case ActivationLoads(id, override, justification) =>
      if id !in st.versions || Gate(st.versions[id], override, justification).Err? then st
      else st.(sessions := st.sessions + [Loaded(id, st.versions[id], override, justification)])
    case ActivationSelects(i, found) =>
      if i >= |st.sessions| || !st.sessions[i].Loaded? || !Finds(st.versions, found) then st
      else var s := st.sessions[i];
           st.(sessions := st.sessions[i := Selected(s.id, s.row, s.override, s.justification, found)])
    case ActivationCommits(i) =>
      if i >= |st.sessions| || !st.sessions[i].Selected? || st.sessions[i].id !in st.versions then st
      else var s := st.sessions[i];
           var versions := Flags(st.versions, s);
           if !AtMostOneActive(versions) then st.(sessions := Remove(st.sessions, i))   // the index refuses, rollback
           else st.(versions := versions, sessions := st.sessions[i := Committed],
                    audit := st.audit + [ActivationEntry(s.id, s.row, s.override, s.justification, s.previous)])
    case EnqueueReload(i) =>
      if i >= |st.sessions| || !st.sessions[i].Committed? then st
      else st.(reloads := st.reloads + 1, sessions := Remove(st.sessions, i))
    case ApiDies(i) => if i >= |st.sessions| then st else st.(sessions := Remove(st.sessions, i))
    case DeliverInference => if st.slot.Idle? && st.cache.None? then st.(slot := Selecting) else st
    case DeliverReload =>
      if !st.slot.Idle? || st.reloads == 0 then st else st.(reloads := st.reloads - 1, cache := None, slot := Selecting)
    case SelectActive(found) =>
      if !st.slot.Selecting? || !Finds(st.versions, found) then st
      else st.(slot := if found.Some? then Loading(found.value) else Idle)
    case LoadWeights(ok) =>
      if !st.slot.Loading? then st else st.(cache := if ok then Some(st.slot.id) else None, slot := Idle)
    case WorkerDies(redelivered) => st.(slot := Idle, cache := None, reloads := st.reloads + redelivered)
  }

  function Init(): State { State(map[], None, {}, [], [], 0, Idle, None) }

  ghost function Run(es: seq<Event>): State {
    if es == [] then Init() else Next(Run(es[..|es| - 1]), es[|es| - 1])
  }

  lemma RunStep(es: seq<Event>, k: nat)
    requires k < |es|
    ensures Run(es[..k + 1]) == Next(Run(es[..k]), es[k])
  {
    hide Next;
    assert es[..k + 1][..k] == es[..k];
  }

  lemma RunStarts(es: seq<Event>)
    ensures Run(es[..0]) == Init()
  {
    assert es[..0] == [];
  }
}
