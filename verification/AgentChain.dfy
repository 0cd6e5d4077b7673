/** The Analyst, Reviewer, Summarizer chain for any language-model behaviour, and the agent task around it.

    The model is an arbitrary oracle over the calls made so far: it may answer anything well-formed, or fail. */
module AgentChain {
  import opened ImageState
  import opened Wrappers

  datatype AgentFinding = AgentFinding(detectionId: string, description: string, causes: seq<string>,
                                       solutions: seq<string>, severity: Severity, functionalImpact: string)

  datatype Review = Review(approved: bool, corrections: seq<string>, revised: Option<seq<AgentFinding>>)

  datatype Summary = Summary(text: string, disposition: string)

  datatype Call =
    | AnalystCall(corrections: Option<seq<string>>)
    | ReviewerCall(draft: seq<AgentFinding>)
    | SummarizerCall(findings: seq<AgentFinding>)

  /** `Unexpected` is any exception the client does not promise; the task treats it like the others. */
  datatype CallFailure = Unavailable | Malformed | Unexpected

  /** The language model's answer to the last call of a log. */
  datatype Client = Client(
    analyst: seq<Call> -> Result<seq<AgentFinding>, CallFailure>,
    reviewer: seq<Call> -> Result<Review, CallFailure>,
    summarizer: seq<Call> -> Result<Summary, CallFailure>)

  datatype Abort =
    | NoDetections
    | NoAttempts
    | CallFailed(failure: CallFailure)
    | CoverageMismatch
    | NeverApproved(corrections: seq<string>)

  /** What the stored analysis keeps of a finding. */
  datatype PerDefect = PerDefect(detectionId: string, description: string, causes: seq<string>, solutions: seq<string>,
                                 severity: Severity)

  datatype ChainResult = ChainResult(perDefect: seq<PerDefect>, summary: Summary, severityMax: Severity)

  function Ids(findings: seq<AgentFinding>): set<string> { set f | f in findings :: f.detectionId }

  function Expected(detections: seq<string>): set<string> { set d | d in detections }

  /** An approving review's own findings, unless it gave none. */
  function Final(review: Review, draft: seq<AgentFinding>): seq<AgentFinding> {
    if review.revised.Some? && review.revised.value != [] then review.revised.value else draft
  }

  function Stored(f: AgentFinding): PerDefect {
    PerDefect(f.detectionId, f.description, f.causes, f.solutions, f.severity)
  }

  /** How a draft-and-review round leaves the conversation. */
  datatype Round =
    | Rejected(log: seq<Call>, corrections: Option<seq<string>>)
    | Approved(log: seq<Call>, findings: seq<AgentFinding>)
    | Broken(log: seq<Call>, reason: Abort)

  function NextRound(c: Client, detections: seq<string>, log: seq<Call>, corrections: Option<seq<string>>): Round {
    var asked := log + [AnalystCall(corrections)];
    match c.analyst(asked)
    case Err(failure) => Broken(asked, CallFailed(failure))
    case Ok(draft) =>
      if Ids(draft) != Expected(detections) then Broken(asked, CoverageMismatch) else
      var reviewed := asked + [ReviewerCall(draft)];
      match c.reviewer(reviewed)
      case Err(failure) => Broken(reviewed, CallFailed(failure))
      case Ok(review) =>
        if !review.approved then Rejected(reviewed, Some(review.corrections))
        else if Ids(Final(review, draft)) != Expected(detections) then Broken(reviewed, CoverageMismatch)
        else Approved(reviewed, Final(review, draft))
  }

  /** The conversation after up to k rounds. */
  function Rounds(c: Client, detections: seq<string>, k: nat): Round {
    if k == 0 then Rejected([], None)
    else match Rounds(c, detections, k - 1)
         case Rejected(log, corrections) => NextRound(c, detections, log, corrections)
         case ended => ended
  }

  function SeverityMax(findings: seq<AgentFinding>): Severity
    requires findings != []
  {
    if |findings| == 1 then findings[0].severity
    else var rest := SeverityMax(findings[..|findings| - 1]);
         if Rank(findings[|findings| - 1].severity) > Rank(rest) then findings[|findings| - 1].severity else rest
  }

  class Chain {
    const client: Client
    var log: seq<Call>

    constructor (client: Client)
      ensures this.client == client && log == []
    {
      this.client := client;
      log := [];
    }

    method DraftUntilApproved(detections: seq<string>, maxAttempts: nat) returns (r: Result<seq<AgentFinding>, Abort>)
      requires maxAttempts >= 1 && log == []
      modifies this
      ensures match Rounds(client, detections, maxAttempts)
              case Approved(l, findings) => r == Ok(findings) && log == l
              case Broken(l, reason) => r == Err(reason) && log == l
              case Rejected(l, corrections) =>
                && log == l && corrections.Some?
                && r == Err(NeverApproved(corrections.value))
    {
      var corrections := None;
      var attempt := 1;
      while attempt <= maxAttempts
        invariant 1 <= attempt <= maxAttempts
        invariant Rounds(client, detections, attempt - 1) == Rejected(log, corrections)
        decreases maxAttempts - attempt
      {
        ghost var round := Rounds(client, detections, attempt);
        assert round == NextRound(client, detections, log, corrections);
        log := log + [AnalystCall(corrections)];
        var draft := client.analyst(log);
        if draft.Err? {
          EndedRoundsStay(client, detections, attempt, maxAttempts);
          return Err(CallFailed(draft.error));
        }
        if Ids(draft.value) != Expected(detections) {
          EndedRoundsStay(client, detections, attempt, maxAttempts);
          return Err(CoverageMismatch);
        }
        log := log + [ReviewerCall(draft.value)];
        var review := client.reviewer(log);
        if review.Err? {
          EndedRoundsStay(client, detections, attempt, maxAttempts);
          return Err(CallFailed(review.error));
        }
        if review.value.approved {
          EndedRoundsStay(client, detections, attempt, maxAttempts);
          var revised := review.value.revised;
          var findings := if revised.Some? && revised.value != [] then revised.value
                          else draft.value;
          if Ids(findings) != Expected(detections) {
            return Err(CoverageMismatch);
          }
          return Ok(findings);
        }
        if attempt >= maxAttempts {
          return Err(NeverApproved(review.value.corrections));
        }
        corrections := Some(review.value.corrections);
        attempt := attempt + 1;
      }
      assert false;
    }

    method RunChain(detections: seq<string>, maxAttempts: int) returns (r: Result<ChainResult, Abort>)
      requires log == []
      modifies this
      ensures (r, log) == ChainOutcome(client, detections, maxAttempts)
    {
      hide Rounds, StoredAll, SeverityMax, Ids, Expected;
      if detections == [] {
        return Err(NoDetections);
      }
      if maxAttempts < 1 {
        return Err(NoAttempts);
      }
      var findings := DraftUntilApproved(detections, maxAttempts);
      ApprovedCoverDetections(client, detections, maxAttempts);
      if findings.Err? {
        return Err(findings.error);
      }
      log := log + [SummarizerCall(findings.value)];
      var summary := client.summarizer(log);
      if summary.Err? {
        return Err(CallFailed(summary.error));
      }
      var perDefect, severityMax := Assemble(findings.value);
      return Ok(ChainResult(perDefect, summary.value, severityMax));
    }
  }

  method Assemble(findings: seq<AgentFinding>) returns (perDefect: seq<PerDefect>, severityMax: Severity)
    requires findings != []
    ensures perDefect == StoredAll(findings) && severityMax == SeverityMax(findings)
  {
    severityMax := findings[0].severity;
    perDefect := [Stored(findings[0])];
    assert findings[..1] == [findings[0]];
    for i := 1 to |findings|
      invariant severityMax == SeverityMax(findings[..i])
      invariant perDefect == StoredAll(findings[..i])
    {
      assert findings[..i + 1][..i] == findings[..i];
      perDefect := perDefect + [Stored(findings[i])];
      if Rank(findings[i].severity) > Rank(severityMax) {
        severityMax := findings[i].severity;
      }
    }
    assert findings[..|findings|] == findings;
  }

  function StoredAll(findings: seq<AgentFinding>): (r: seq<PerDefect>)
    ensures |r| == |findings| && forall i :: 0 <= i < |r| ==> r[i] == Stored(findings[i])
  {
    seq(|findings|, i requires 0 <= i < |findings| => Stored(findings[i]))
  }

  /** What a run of the chain returns, and the calls it made. */
  function ChainOutcome(c: Client, detections: seq<string>, maxAttempts: int): (Result<ChainResult, Abort>, seq<Call>) {
    if detections == [] then (Err(NoDetections), [])
    else if maxAttempts < 1 then (Err(NoAttempts), [])
    else
      match Rounds(c, detections, maxAttempts)
      case Rejected(log, corrections) => (Err(NeverApproved(if corrections.Some? then corrections.value else [])), log)
      case Broken(log, reason) => (Err(reason), log)
      case Approved(log, findings) =>
        var asked := log + [SummarizerCall(findings)];
        match c.summarizer(asked)
        case Err(failure) => (Err(CallFailed(failure)), asked)
        case Ok(summary) =>
          ApprovedCoverDetections(c, detections, maxAttempts);
          (Ok(ChainResult(StoredAll(findings), summary, SeverityMax(findings))), asked)
  }

  lemma EndedRoundsStay(c: Client, detections: seq<string>, j: nat, k: nat)
    requires j <= k && !Rounds(c, detections, j).Rejected?
    ensures Rounds(c, detections, k) == Rounds(c, detections, j)
    decreases k
  {
    if j < k { EndedRoundsStay(c, detections, j, k - 1); }
  }

  lemma ApprovedCoverDetections(c: Client, detections: seq<string>, k: nat)
    ensures Rounds(c, detections, k).Approved? ==>
              Ids(Rounds(c, detections, k).findings) == Expected(detections)
    ensures Rounds(c, detections, k).Approved? && detections != [] ==> Rounds(c, detections, k).findings != []
  {
    if k > 0 {
      ApprovedCoverDetections(c, detections, k - 1);
      if Rounds(c, detections, k).Approved? && detections != [] {
        assert detections[0] in Ids(Rounds(c, detections, k).findings);
      }
    }
  }

  // ---- the agent task ----

  datatype AnalysisSource = KnowledgeBase | Agents

  class StoredAnalysis {
    var source: AnalysisSource
    var perDefect: seq<PerDefect>
    var summary: Option<Summary>
    var severityMax: Severity
  }

  /** The agent task on a loaded image: an abort leaves the stored analysis as it was, and the image is completed
      either way. */
  method RunAgentAnalysis(image: InspectionImage, analysis: StoredAnalysis, client: Option<Client>,
                          detections: seq<string>, maxAttempts: int, now: nat)
    modifies image, analysis
    ensures old(image.status) != Analyzing ==> image.Value() == old(image.Value()) && unchanged(analysis)
    ensures old(image.status) == Analyzing ==> image.Value() == Row(Completed, None, Some(now))
    ensures old(image.status) == Analyzing && client.Some?
              && ChainOutcome(client.value, detections, maxAttempts).0.Ok? ==>
                var r := ChainOutcome(client.value, detections, maxAttempts).0.value;
                && analysis.source == Agents && analysis.perDefect == r.perDefect && analysis.summary == Some(r.summary)
                && analysis.severityMax == r.severityMax
    ensures client.None? || ChainOutcome(client.value, detections, maxAttempts).0.Err? ==> unchanged(analysis)
  {
    if image.status != Analyzing {
      return;
    }
    if client.Some? {
      var chain := new Chain(client.value);
      var result := chain.RunChain(detections, maxAttempts);
      if result.Ok? {
        analysis.source := Agents;
        analysis.perDefect := result.value.perDefect;
        analysis.summary := Some(result.value.summary);
        analysis.severityMax := result.value.severityMax;
      }
    }
    var r := image.Transition(Completed, None, now);
  }
}
