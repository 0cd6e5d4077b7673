/** Three concrete runs: an unevaluated activation, a stale cache, and no active version. */
module ActivationRuns {
  import opened ActivationAudit
  import opened ActivationGate
  import opened CacheCoherence
  import opened ModelActivation
  import opened Wrappers

  /** The seeded version can be activated again through the API, without an audited evaluation of it. */
  const SEEDED_RUN: seq<Event> := [
    SeedRuns(1), ActivationLoads(1, false, None), ActivationSelects(0, Some(1)), ActivationCommits(0)]

  lemma SeededActivationIsUnevaluated()
    ensures Run(SEEDED_RUN).audit == [Activated(1, SEED_MAP50, false, None, None)]
    ensures !Matched(Run(SEEDED_RUN).audit, 0)
  {
    var row := Rated(SEED_MAP50, true);
    assert SEEDED_RUN[..0] == [] && SEEDED_RUN[..4] == SEEDED_RUN;
    var none: set<nat> := {};
    assert Active(Init().versions) == none;
    RunStep(SEEDED_RUN, 0);
    assert Run(SEEDED_RUN[..1]) == Init().(versions := map[1 := row], seeded := Some(1));
    RunStep(SEEDED_RUN, 1);
    assert Run(SEEDED_RUN[..2]).sessions == [Loaded(1, row, false, None)];
    RunStep(SEEDED_RUN, 2);
    assert 1 in Active(map[1 := row]);
    assert Run(SEEDED_RUN[..3]).sessions == [Selected(1, row, false, None, Some(1))];
    RunStep(SEEDED_RUN, 3);
    assert Active(map[1 := row]) == {1};
  }

  /** The seeded version 1 is warm, version 2 evaluated, and an activation of 2 has loaded its row. */
  const OPENING: seq<Event> := [
    SeedRuns(1), Register(2), DeliverEvaluation(2), EvaluationCompletes(0.97),
    DeliverInference, SelectActive(Some(1)), LoadWeights(true), ActivationLoads(2, false, None)]

  const HISTORY: seq<AuditEntry> := [Evaluated(2, 0.97)]

  function Opened(sessions: seq<Session>): State {
    State(map[1 := Rated(SEED_MAP50, true), 2 := Rated(0.97, false)], Some(1), {2}, HISTORY, sessions, 0, Idle, Some(1))
  }

  function SeedPlus(second: Version, audit: seq<AuditEntry>, slot: Slot, cache: Option<nat>): State {
    State(map[1 := Rated(SEED_MAP50, true), 2 := second], Some(1), {2}, audit, [], 0, slot, cache)
  }

  lemma OpeningEvaluates()
    ensures Next(Init(), OPENING[0]) == State(map[1 := Rated(SEED_MAP50, true)], Some(1), {}, [], [], 0, Idle, None)
    ensures Next(State(map[1 := Rated(SEED_MAP50, true)], Some(1), {}, [], [], 0, Idle, None), OPENING[1])
         == SeedPlus(Version(Pending, None, false), [], Idle, None)
    ensures Next(SeedPlus(Version(Pending, None, false), [], Idle, None), OPENING[2])
         == SeedPlus(Version(Running, None, false), [], Evaluating(2), None)
    ensures Next(SeedPlus(Version(Running, None, false), [], Evaluating(2), None), OPENING[3])
         == SeedPlus(Rated(0.97, false), HISTORY, Idle, None)
  {
    var none: set<nat> := {};
    assert Active(Init().versions) == none;
  }

  lemma OpeningWarmsUp()
    ensures Next(SeedPlus(Rated(0.97, false), HISTORY, Idle, None), OPENING[4])
         == SeedPlus(Rated(0.97, false), HISTORY, Selecting, None)
    ensures Next(SeedPlus(Rated(0.97, false), HISTORY, Selecting, None), OPENING[5])
         == SeedPlus(Rated(0.97, false), HISTORY, Loading(1), None)
    ensures Next(SeedPlus(Rated(0.97, false), HISTORY, Loading(1), None), OPENING[6]) == Opened([])
    ensures Next(Opened([]), OPENING[7]) == Opened([Loaded(2, Rated(0.97, false), false, None)])
  {
    assert 1 in Active(Opened([]).versions);
  }

  lemma OpeningRuns()
    ensures Run(OPENING) == Opened([Loaded(2, Rated(0.97, false), false, None)])
  {
    hide Next, Run;
    OpeningEvaluates();
    OpeningWarmsUp();
    RunStarts(OPENING);
    RunStep(OPENING, 0);
    RunStep(OPENING, 1);
    RunStep(OPENING, 2);
    RunStep(OPENING, 3);
    RunStep(OPENING, 4);
    RunStep(OPENING, 5);
    RunStep(OPENING, 6);
    RunStep(OPENING, 7);
    assert OPENING[..8] == OPENING;
  }

  lemma OpeningIsPrefix(es: seq<Event>)
    requires OPENING <= es
    ensures Run(es[..8]) == Opened([Loaded(2, Rated(0.97, false), false, None)])
  {
    hide Run;
    OpeningRuns();
    assert es[..8] == OPENING;
  }

  const LOST: seq<Event> := OPENING + [ActivationSelects(0, Some(1)), ActivationCommits(0), ApiDies(0)]

  /** The API dies between commit and enqueue: the coherence property needs its condition. */
  lemma LostEnqueueIsReachable()
    ensures Stale(Run(LOST))
  {
    hide Run;
    OpeningIsPrefix(LOST);
    RunStep(LOST, 8);
    assert Run(LOST[..9]) == Opened([Selected(2, Rated(0.97, false), false, None, Some(1))]);
    RunStep(LOST, 9);
    assert Active(Flags(Opened([]).versions, Run(LOST[..9]).sessions[0])) == {2};
    RunStep(LOST, 10);
    assert Remove([Committed], 0) == [];
    assert LOST[..11] == LOST;
  }

  const RIVALS: seq<Event> := OPENING + [
    ActivationLoads(1, false, None), ActivationSelects(0, Some(1)), ActivationCommits(0),
    ActivationSelects(1, Some(2)), ActivationCommits(1)]

  function Rivals(oneActive: bool, twoActive: bool, audit: seq<AuditEntry>, sessions: seq<Session>): State {
    State(map[1 := Rated(SEED_MAP50, oneActive), 2 := Rated(0.97, twoActive)], Some(1),
          {2}, audit, sessions, 0, Idle, Some(1))
  }

  const TWO := Loaded(2, Rated(0.97, false), false, None)
  const ONE := Loaded(1, Rated(SEED_MAP50, true), false, None)
  const LATER: seq<AuditEntry> := HISTORY + [Activated(2, 0.97, false, None, Some(1))]

  lemma RivalsLoadAndSelect()
    ensures Next(Opened([TWO]), RIVALS[8]) == Rivals(true, false, HISTORY, [TWO, ONE])
    ensures Next(Rivals(true, false, HISTORY, [TWO, ONE]), RIVALS[9])
         == Rivals(true, false, HISTORY, [Selected(2, Rated(0.97, false), false, None, Some(1)), ONE])
  {
    assert 1 in Active(Opened([]).versions);
  }

  lemma TwoCommits()
    ensures Next(Rivals(true, false, HISTORY, [Selected(2, Rated(0.97, false), false, None, Some(1)), ONE]), RIVALS[10])
         == Rivals(false, true, LATER, [Committed, ONE])
    ensures Next(Rivals(false, true, LATER, [Committed, ONE]), RIVALS[11])
         == Rivals(false, true, LATER, [Committed, Selected(1, Rated(SEED_MAP50, true), false, None, Some(2))])
  {
    var st := Rivals(true, false, HISTORY, [Selected(2, Rated(0.97, false), false, None, Some(1)), ONE]);
    assert Flags(st.versions, st.sessions[0]) == Rivals(false, true, LATER, []).versions;
    assert Active(Flags(st.versions, st.sessions[0])) == {2};
  }

  lemma OneCommits()
    ensures var sessions := [Committed, Selected(1, Rated(SEED_MAP50, true), false, None, Some(2))];
            var after := Next(Rivals(false, true, LATER, sessions), RIVALS[12]);
            Active(after.versions) == {} && |after.audit| == |HISTORY| + 2
  {
    var st := Rivals(false, true, LATER, [Committed, Selected(1, Rated(SEED_MAP50, true), false, None, Some(2))]);
    var none: set<nat> := {};
    assert Active(Flags(st.versions, st.sessions[1])) == none;
  }

  /** Re-activating the active version while another one is activated leaves no version active, although both
      transactions commit: the session writes only the flags that differ from what it loaded. */
  lemma RivalActivationsCanLeaveNone()
    ensures Active(Run(RIVALS).versions) == {}
    ensures |Run(RIVALS).audit| == |HISTORY| + 2
  {
    hide Next, Run;
    OpeningIsPrefix(RIVALS);
    RivalsLoadAndSelect();
    TwoCommits();
    OneCommits();
    RunStep(RIVALS, 8);
    RunStep(RIVALS, 9);
    RunStep(RIVALS, 10);
    RunStep(RIVALS, 11);
    RunStep(RIVALS, 12);
    assert RIVALS[..13] == RIVALS;
  }
}
