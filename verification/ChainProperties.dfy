/** What every conversation of the agent chain looks like, and what its result describes. */
module ChainProperties {
  import opened AgentChain
  import opened ImageState
  import opened Wrappers

  /** The findings describe each of the detections, and nothing else. */
  ghost predicate Covers(findings: seq<AgentFinding>, detections: seq<string>) {
    && (forall d :: d in detections ==> exists i :: 0 <= i < |findings| && findings[i].detectionId == d)
    && forall i :: 0 <= i < |findings| ==> findings[i].detectionId in detections
  }

  lemma CoversExactlyWhenIdsAgree(findings: seq<AgentFinding>, detections: seq<string>)
    ensures Ids(findings) == Expected(detections) <==> Covers(findings, detections)
  {
    if Ids(findings) == Expected(detections) {
      forall d | d in detections ensures exists i :: 0 <= i < |findings| && findings[i].detectionId == d {
        assert d in Ids(findings);
      }
      forall i | 0 <= i < |findings| ensures findings[i].detectionId in detections {
        assert findings[i] in findings && findings[i].detectionId in Ids(findings);
      }
    }
    if Covers(findings, detections) {
      forall d ensures d in Ids(findings) <==> d in Expected(detections) {
        if d in Ids(findings) {
          var i :| 0 <= i < |findings| && findings[i].detectionId == d;
        }
        if d in detections {
          var i :| 0 <= i < |findings| && findings[i].detectionId == d;
          assert findings[i] in findings;
        }
      }
    }
  }

  /** Calls 2j and 2j+1 are the j-th round: a draft asked for with the previous review's corrections, which covers the
      detections, then its review, which rejected it; the final round's review approved. */
  ghost predicate RoundAt(c: Client, detections: seq<string>, log: seq<Call>, j: nat, approved: bool)
    requires 2 * j + 1 < |log|
  {
    && log[2 * j].AnalystCall?
    && (j == 0 ==> log[0].corrections.None?)
    && (j > 0 ==>
          c.reviewer(log[..2 * j]).Ok? && log[2 * j].corrections == Some(c.reviewer(log[..2 * j]).value.corrections))
    && c.analyst(log[..2 * j + 1]).Ok? && Covers(c.analyst(log[..2 * j + 1]).value, detections)
    && log[2 * j + 1] == ReviewerCall(c.analyst(log[..2 * j + 1]).value)
    && c.reviewer(log[..2 * j + 2]).Ok?
    && c.reviewer(log[..2 * j + 2]).value.approved == approved
  }

  lemma RoundAtPrefix(c: Client, detections: seq<string>, log: seq<Call>, longer: seq<Call>, j: nat, approved: bool)
    requires 2 * j + 1 < |log| <= |longer| && longer[..|log|] == log && RoundAt(c, detections, log, j, approved)
    ensures RoundAt(c, detections, longer, j, approved)
  {
    assert longer[..2 * j] == log[..2 * j];
    assert longer[..2 * j + 1] == log[..2 * j + 1];
    assert longer[..2 * j + 2] == log[..2 * j + 2];
    assert longer[2 * j] == log[2 * j] && longer[2 * j + 1] == log[2 * j + 1] && longer[0] == log[0];
  }

  lemma {:induction false} RejectedRoundsShape(c: Client, detections: seq<string>, k: nat)
    requires Rounds(c, detections, k).Rejected?
    ensures var r := Rounds(c, detections, k);
            && |r.log| == 2 * k
            && (forall j :: 0 <= j < k ==> RoundAt(c, detections, r.log, j, false))
            && (if k == 0 then r.corrections.None?
                else c.reviewer(r.log).Ok? && r.corrections == Some(c.reviewer(r.log).value.corrections))
  {
    if k > 0 {
      RejectedRoundsShape(c, detections, k - 1);
      var before, after := Rounds(c, detections, k - 1), Rounds(c, detections, k);
      OneMoreRound(c, detections, before.log, before.corrections, k - 1);
      assert after == NextRound(c, detections, before.log, before.corrections);
      forall j | 0 <= j < k ensures RoundAt(c, detections, after.log, j, false) {
        if j < k - 1 { RoundAtPrefix(c, detections, before.log, after.log, j, false); }
      }
    }
  }

  lemma {:induction false} OneMoreRound(c: Client, detections: seq<string>, log: seq<Call>,
                                        corrections: Option<seq<string>>, j: nat)
    requires |log| == 2 * j
    requires if j == 0 then corrections.None?
             else c.reviewer(log).Ok? && corrections == Some(c.reviewer(log).value.corrections)
    ensures var r := NextRound(c, detections, log, corrections);
            && |r.log| <= 2 * j + 2
            && (!r.Broken? ==>
                  && |r.log| == 2 * j + 2 && r.log[..2 * j] == log && RoundAt(c, detections, r.log, j, r.Approved?)
                  && (r.Approved? ==> r.findings == Final(c.reviewer(r.log).value, c.analyst(r.log[..2 * j + 1]).value))
                  && (r.Rejected? ==>
                        c.reviewer(r.log).Ok? && r.corrections == Some(c.reviewer(r.log).value.corrections)))
  {
    var r := NextRound(c, detections, log, corrections);
    if !r.Broken? {
      CoversExactlyWhenIdsAgree(c.analyst(log + [AnalystCall(corrections)]).value, detections);
      assert r.log[..2 * j] == log;
      assert r.log[..2 * j + 1] == log + [AnalystCall(corrections)];
      assert r.log[..2 * j + 2] == r.log;
    }
  }

  /** What an approving review settles on: its own findings, if it gave any, or else the draft. */
  ghost predicate SettledOn(findings: seq<AgentFinding>, review: Review, draft: seq<AgentFinding>) {
    if review.revised.Some? && review.revised.value != [] then findings == review.revised.value else findings == draft
  }

  /** Each finding is kept with its detection, description, causes, solutions and severity. */
  ghost predicate KeptAs(perDefect: seq<PerDefect>, findings: seq<AgentFinding>) {
    && |perDefect| == |findings|
    && forall i :: 0 <= i < |findings| ==>
         && perDefect[i].detectionId == findings[i].detectionId
         && perDefect[i].description == findings[i].description
         && perDefect[i].causes == findings[i].causes && perDefect[i].solutions == findings[i].solutions
         && perDefect[i].severity == findings[i].severity
  }

  /** A success at the k-th attempt makes exactly 2k+1 calls, with k within the bound: k - 1 rejected rounds, each
      feeding its corrections to the next draft, one approved round, and the summary of exactly the findings that
      round settled on, which cover the detections and are also the ones returned. */
  lemma {:induction false} SuccessShape(c: Client, detections: seq<string>, maxAttempts: int) returns (k: nat)
    requires ChainOutcome(c, detections, maxAttempts).0.Ok?
    ensures var log := ChainOutcome(c, detections, maxAttempts).1;
            && 1 <= k <= maxAttempts && |log| == 2 * k + 1
            && (forall j :: 0 <= j < k - 1 ==> RoundAt(c, detections, log, j, false))
            && RoundAt(c, detections, log, k - 1, true)
            && log[2 * k].SummarizerCall? && Covers(log[2 * k].findings, detections)
            && SettledOn(log[2 * k].findings, c.reviewer(log[..2 * k]).value, c.analyst(log[..2 * k - 1]).value)
    ensures var (result, log) := ChainOutcome(c, detections, maxAttempts);
            && c.summarizer(log).Ok? && result.value.summary == c.summarizer(log).value
            && KeptAs(result.value.perDefect, log[2 * k].findings)
  {
    hide RoundAt, SeverityMax, NextRound, Ids, Expected, Covers;
    var log := ChainOutcome(c, detections, maxAttempts).1;
    k := ApprovedAt(c, detections, maxAttempts);
    var before, round := Rounds(c, detections, k - 1), Rounds(c, detections, k);
    RejectedRoundsShape(c, detections, k - 1);
    OneMoreRound(c, detections, before.log, before.corrections, k - 1);
    assert log[..|round.log|] == round.log && log[..2 * k - 1] == round.log[..2 * k - 1];
    RoundAtPrefix(c, detections, round.log, log, k - 1, true);
    ApprovedCoverDetections(c, detections, k);
    CoversExactlyWhenIdsAgree(round.findings, detections);
    forall j | 0 <= j < k - 1 ensures RoundAt(c, detections, log, j, false) {
      RoundAtPrefix(c, detections, before.log, round.log, j, false);
      RoundAtPrefix(c, detections, round.log, log, j, false);
    }
  }

  /** The attempt at which the conversation was approved. */
  lemma {:induction false} ApprovedAt(c: Client, detections: seq<string>, n: nat) returns (k: nat)
    requires Rounds(c, detections, n).Approved?
    ensures && 1 <= k <= n && Rounds(c, detections, k - 1).Rejected?
            && Rounds(c, detections, k) == Rounds(c, detections, n)
  {
    if Rounds(c, detections, n - 1).Rejected? { k := n; } else { k := ApprovedAt(c, detections, n - 1); }
  }

  /** The last call of a broken round, and what was wrong with its answer. */
  ghost predicate BrokenAt(c: Client, detections: seq<string>, log: seq<Call>, reason: Abort) {
    log != [] &&
    var last := log[|log| - 1];
    match last
    case AnalystCall(_) =>
      (match c.analyst(log)
       case Err(failure) => reason == CallFailed(failure)
       case Ok(draft) => reason == CoverageMismatch && !Covers(draft, detections))
    case ReviewerCall(draft) =>
      (match c.reviewer(log)
       case Err(failure) => reason == CallFailed(failure)
       case Ok(review) =>
         && review.approved && reason == CoverageMismatch
         && forall findings :: SettledOn(findings, review, draft) ==> !Covers(findings, detections))
    case SummarizerCall(_) => false
  }

  lemma BrokenRoundReason(c: Client, detections: seq<string>, log: seq<Call>, corrections: Option<seq<string>>)
    requires NextRound(c, detections, log, corrections).Broken?
    ensures var r := NextRound(c, detections, log, corrections); BrokenAt(c, detections, r.log, r.reason)
  {
    hide Covers, Ids, Expected;
    var asked := log + [AnalystCall(corrections)];
    if c.analyst(asked).Ok? {
      var draft := c.analyst(asked).value;
      CoversExactlyWhenIdsAgree(draft, detections);
      var reviewed := asked + [ReviewerCall(draft)];
      if c.reviewer(reviewed).Ok? { CoversExactlyWhenIdsAgree(Final(c.reviewer(reviewed).value, draft), detections); }
    }
  }

  lemma {:induction false} BrokenRoundsReason(c: Client, detections: seq<string>, k: nat)
    requires Rounds(c, detections, k).Broken?
    ensures BrokenAt(c, detections, Rounds(c, detections, k).log, Rounds(c, detections, k).reason)
  {
    hide BrokenAt, NextRound;
    if k > 0 {
      if Rounds(c, detections, k - 1).Rejected? {
        var before := Rounds(c, detections, k - 1);
        BrokenRoundReason(c, detections, before.log, before.corrections);
      } else {
        BrokenRoundsReason(c, detections, k - 1);
      }
    }
  }

  /** Why a chain aborts: nothing to do, a bound below one, a call that failed or whose findings do not cover the
      detections, a summary that failed, or every allowed attempt rejected, with the last review's corrections. */
  lemma {:induction false} AbortReason(c: Client, detections: seq<string>, maxAttempts: int)
    requires ChainOutcome(c, detections, maxAttempts).0.Err?
    ensures var (result, log) := ChainOutcome(c, detections, maxAttempts);
            match result.error
            case NoDetections => detections == [] && log == []
            case NoAttempts => detections != [] && maxAttempts < 1 && log == []
            case NeverApproved(corrections) =>
              && |log| == 2 * maxAttempts
              && (forall j :: 0 <= j < maxAttempts ==> RoundAt(c, detections, log, j, false))
              && c.reviewer(log).Ok? && corrections == c.reviewer(log).value.corrections
            case reason =>
              || BrokenAt(c, detections, log, reason)
              || (&& log != [] && log[|log| - 1].SummarizerCall? && c.summarizer(log).Err?
                  && reason == CallFailed(c.summarizer(log).error))
  {
    hide RoundAt, BrokenAt, NextRound, Rounds, SeverityMax, StoredAll;
    if detections != [] && maxAttempts >= 1 {
      var round := Rounds(c, detections, maxAttempts);
      if round.Rejected? { RejectedRoundsShape(c, detections, maxAttempts); }
      if round.Broken? {
        BrokenRoundsReason(c, detections, maxAttempts);
        BrokenIsNoOther(c, detections, maxAttempts);
      }
    }
  }

  lemma BrokenIsNoOther(c: Client, detections: seq<string>, k: nat)
    requires Rounds(c, detections, k).Broken?
    ensures Rounds(c, detections, k).reason.CallFailed? || Rounds(c, detections, k).reason.CoverageMismatch?
  {
    BrokenRoundsReason(c, detections, k);
  }

  /** However the model behaves, at most two calls per attempt and one summary are made. */
  lemma {:induction false} CallsAreBounded(c: Client, detections: seq<string>, k: nat)
    ensures |Rounds(c, detections, k).log| <= 2 * k
  {
    if k > 0 {
      CallsAreBounded(c, detections, k - 1);
      if Rounds(c, detections, k - 1).Rejected? {
        var before := Rounds(c, detections, k - 1);
        RejectedRoundsShape(c, detections, k - 1);
        OneMoreRound(c, detections, before.log, before.corrections, k - 1);
      }
    }
  }

  /** The result covers exactly the detections, as a set, and its severity is attained by and bounds every finding. */
  lemma {:induction false} ResultCoversDetections(c: Client, detections: seq<string>, maxAttempts: int)
    requires ChainOutcome(c, detections, maxAttempts).0.Ok?
    ensures var r := ChainOutcome(c, detections, maxAttempts).0.value;
            && (set p | p in r.perDefect :: p.detectionId) == Expected(detections)
            && (exists p :: p in r.perDefect && p.severity == r.severityMax)
            && (forall p :: p in r.perDefect ==> Rank(p.severity) <= Rank(r.severityMax))
  {
    ApprovedCoverDetections(c, detections, maxAttempts);
    var findings := Rounds(c, detections, maxAttempts).findings;
    var r := ChainOutcome(c, detections, maxAttempts).0.value;
    var i := SeverityMaxIsHighest(findings);
    assert r.perDefect[i] in r.perDefect;
    forall id ensures id in Ids(findings) <==> id in (set p | p in r.perDefect :: p.detectionId) {
      if id in Ids(findings) {
        var j :| 0 <= j < |findings| && findings[j].detectionId == id;
        assert r.perDefect[j] in r.perDefect;
      }
    }
  }

  lemma {:induction false} SeverityMaxIsHighest(findings: seq<AgentFinding>) returns (i: nat)
    requires findings != []
    ensures i < |findings| && findings[i].severity == SeverityMax(findings)
    ensures forall j :: 0 <= j < |findings| ==> Rank(findings[j].severity) <= Rank(SeverityMax(findings))
  {
    var last := |findings| - 1;
    if last == 0 {
      i := 0;
    } else {
      i := SeverityMaxIsHighest(findings[..last]);
      if Rank(findings[last].severity) > Rank(findings[i].severity) { i := last; }
    }
  }

  // ---- one description per detection ----

  /** Exactly one of the descriptions is of the detection. */
  ghost predicate Once(perDefect: seq<PerDefect>, d: string) {
    exists i :: 0 <= i < |perDefect| && perDefect[i].detectionId == d && OnlyAt(perDefect, d, i)
  }

  ghost predicate OnlyAt(perDefect: seq<PerDefect>, d: string, i: nat) {
    forall j :: 0 <= j < |perDefect| && j != i ==> perDefect[j].detectionId != d
  }

  function Described(perDefect: seq<PerDefect>): set<string> { set p | p in perDefect :: p.detectionId }

  predicate Distinct(perDefect: seq<PerDefect>) {
    forall i, j :: 0 <= i < j < |perDefect| ==> perDefect[i].detectionId != perDefect[j].detectionId
  }

  lemma DescribedSnoc(perDefect: seq<PerDefect>, p: PerDefect)
    ensures Described(perDefect + [p]) == Described(perDefect) + {p.detectionId}
  {
    var more := perDefect + [p];
    assert more[|perDefect|] == p;
    forall d | d in Described(perDefect) ensures d in Described(more) {
      var i :| 0 <= i < |perDefect| && perDefect[i].detectionId == d;
      assert more[i] in more;
    }
  }

  /** The pigeonhole: never more ids than descriptions, and as many exactly when no id repeats. */
  lemma {:induction false} IdsAtMostDescriptions(perDefect: seq<PerDefect>)
    ensures |Described(perDefect)| <= |perDefect|
    ensures |Described(perDefect)| == |perDefect| <==> Distinct(perDefect)
  {
    assert Distinct([]);
    hide Distinct;
    if perDefect != [] {
      var n := |perDefect| - 1;
      var before := perDefect[..n];
      IdsAtMostDescriptions(before);
      assert perDefect == before + [perDefect[n]];
      DescribedSnoc(before, perDefect[n]);
      DistinctSnoc(before, perDefect[n]);
    }
  }

  lemma DistinctSnoc(perDefect: seq<PerDefect>, p: PerDefect)
    ensures Distinct(perDefect + [p]) <==> Distinct(perDefect) && p.detectionId !in Described(perDefect)
  {
    var more := perDefect + [p];
    assert more[|perDefect|] == p;
    assert forall i :: 0 <= i < |perDefect| ==> more[i] == perDefect[i] && perDefect[i] in perDefect;
    if p.detectionId in Described(perDefect) {
      var i :| 0 <= i < |perDefect| && perDefect[i].detectionId == p.detectionId;
      assert more[i].detectionId == more[|perDefect|].detectionId;
    }
  }

  lemma DistinctIsOnce(perDefect: seq<PerDefect>)
    ensures Distinct(perDefect) <==> forall d :: d in Described(perDefect) ==> Once(perDefect, d)
  {
    if Distinct(perDefect) {
      forall d | d in Described(perDefect) ensures Once(perDefect, d) {
        var i :| 0 <= i < |perDefect| && perDefect[i].detectionId == d;
        assert OnlyAt(perDefect, d, i);
      }
    } else {
      var i, j :| 0 <= i < j < |perDefect| && perDefect[i].detectionId == perDefect[j].detectionId;
      var d := perDefect[i].detectionId;
      assert perDefect[i] in perDefect && d in Described(perDefect);
      assert !Once(perDefect, d);
    }
  }

  /** Whatever the model does, a success describes at least as many findings as there are detections, and exactly as
      many if and only if every detection is described exactly once. */
  lemma {:induction false} EachDescribedOnceExactlyWhen(c: Client, detections: seq<string>, maxAttempts: int)
    requires ChainOutcome(c, detections, maxAttempts).0.Ok?
    ensures var r := ChainOutcome(c, detections, maxAttempts).0.value;
            && |r.perDefect| >= |Expected(detections)|
            && (|r.perDefect| == |Expected(detections)| <==> forall d :: d in detections ==> Once(r.perDefect, d))
  {
    hide ChainOutcome, Once;
    ResultCoversDetections(c, detections, maxAttempts);
    var perDefect := ChainOutcome(c, detections, maxAttempts).0.value.perDefect;
    assert Described(perDefect) == Expected(detections);
    IdsAtMostDescriptions(perDefect);
    DistinctIsOnce(perDefect);
    assert forall d :: d in detections <==> d in Expected(detections);
  }

  /** Detections are rows with distinct ids: comparing the lengths beside the id sets is the missing guard. */
  lemma {:induction false} LengthGuardSuffices(c: Client, detections: seq<string>, maxAttempts: int)
    requires ChainOutcome(c, detections, maxAttempts).0.Ok?
    requires forall i, j :: 0 <= i < j < |detections| ==> detections[i] != detections[j]
    ensures |ChainOutcome(c, detections, maxAttempts).0.value.perDefect| == |detections|
       <==> forall d :: d in detections ==> Once(ChainOutcome(c, detections, maxAttempts).0.value.perDefect, d)
  {
    hide ChainOutcome, Once;
    EachDescribedOnceExactlyWhen(c, detections, maxAttempts);
    DistinctIds(detections);
  }

  lemma {:induction false} DistinctIds(detections: seq<string>)
    requires forall i, j :: 0 <= i < j < |detections| ==> detections[i] != detections[j]
    ensures |Expected(detections)| == |detections|
  {
    if detections != [] {
      var n := |detections| - 1;
      DistinctIds(detections[..n]);
      assert detections == detections[..n] + [detections[n]];
      assert Expected(detections) == Expected(detections[..n]) + {detections[n]};
    }
  }

  /** A model that describes its one detection twice, and approves. */
  function Repeater(f: AgentFinding, s: Summary): Client {
    Client(_ => Ok([f, f]), _ => Ok(Review(true, [], None)), _ => Ok(s))
  }

  /** Coverage compares sets only: a result may describe one detection twice. */
  lemma CoverageAllowsRepeats(f: AgentFinding, s: Summary)
    ensures ChainOutcome(Repeater(f, s), [f.detectionId], 1).0.Ok?
    ensures |ChainOutcome(Repeater(f, s), [f.detectionId], 1).0.value.perDefect| == 2
  {
    assert Ids([f, f]) == {f.detectionId} == Expected([f.detectionId]);
    assert Rounds(Repeater(f, s), [f.detectionId], 0) == Rejected([], None);
    assert Rounds(Repeater(f, s), [f.detectionId], 1).Approved?;
  }
}
