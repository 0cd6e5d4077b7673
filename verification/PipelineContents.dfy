/** What an image's analysis says and which detections it has, over whole runs of the pipeline. */
module PipelineContents {
  import opened Counting
  import opened Pipeline
  import opened PipelineSafety

  /** An agent task commits with an outcome of the chain. */
  predicate Enriches(st: State, e: Event) { e.AgentCommits? && e.i < |st.agents| && e.outcome.Some? }

  /** The inference task makes its second commit. */
  predicate Detects(st: State, e: Event) { e.CommitInference? && st.slot.Working? && e.reported <= e.stored }

  /** The inference task commits with detections to report, so it writes the baseline. */
  predicate Finds(st: State, e: Event) { Detects(st, e) && e.reported > 0 }

  lemma ContentStep(st: State, e: Event)
    requires Inv(st)
    ensures Next(st, e).analyses
         == if Enriches(st, e) then [Analysis(Agents, e.outcome.value)]
            else if Finds(st, e) then [Analysis(KnowledgeBase, e.content)]
            else st.analyses
  {
    hide CommitTransition, CommitFailure, Write, OnePass, NoModel;
  }

  ghost predicate EnrichesAt(es: seq<Event>, n: nat)
    requires n < |es|
  {
    Enriches(Run(es[..n]), es[n])
  }

  /** Event `n` is the last to write the analysis, and wrote this one. */
  ghost predicate Wrote(es: seq<Event>, n: nat, a: Analysis) {
    && n < |es| && (forall m :: n < m < |es| ==> !EnrichesAt(es, m))
    && (if EnrichesAt(es, n) then a == Analysis(Agents, es[n].outcome.value)
        else Finds(Run(es[..n]), es[n]) && a == Analysis(KnowledgeBase, es[n].content))
  }

  lemma WroteStays(es: seq<Event>, n: nat, a: Analysis)
    requires es != [] && Wrote(es[..|es| - 1], n, a) && !EnrichesAt(es, |es| - 1)
    ensures Wrote(es, n, a)
  {
    var before := es[..|es| - 1];
    assert forall k :: 0 <= k < |before| ==> before[..k] == es[..k];
    assert forall m :: 0 <= m < |before| ==> EnrichesAt(before, m) == EnrichesAt(es, m);
  }

  /** The stored analysis is the outcome of the last agent task that committed one, or the baseline of the inference
      task while there is none. */
  lemma {:induction false} AnalysisIsTheLastWritten(es: seq<Event>)
    ensures Run(es).analyses != [] ==> exists n :: Wrote(es, n, Run(es).analyses[0])
    ensures forall n :: 0 <= n < |es| && EnrichesAt(es, n) ==>
              |Run(es).analyses| == 1 && Run(es).analyses[0].source == Agents
  {
    hide Next, Inv, Enriches, Finds;
    if es != [] {
      var n := |es| - 1;
      var before := es[..n];
      assert forall k :: 0 <= k < n ==> before[..k] == es[..k];
      AnalysisIsTheLastWritten(before);
      EveryRunIsSafe(before);
      ContentStep(Run(before), es[n]);
      assert Run(es) == Next(Run(before), es[n]);
      assert forall m :: 0 <= m < n ==> EnrichesAt(before, m) == EnrichesAt(es, m);
      if EnrichesAt(es, n) {
        assert Wrote(es, n, Run(es).analyses[0]);
      } else if Finds(Run(before), es[n]) {
        FindsFirst(Run(before), es[n]);
        assert Wrote(es, n, Run(es).analyses[0]);
      } else if Run(es).analyses != [] {
        var k :| Wrote(before, k, Run(before).analyses[0]);
        WroteStays(es, k, Run(es).analyses[0]);
      }
    }
  }

  lemma FindsFirst(st: State, e: Event)
    requires Inv(st) && Finds(st, e)
    ensures st.analyses == []
  {
    DetectsFirst(st, e);
  }

  lemma DetectsFirst(st: State, e: Event)
    requires Inv(st) && Detects(st, e)
    ensures st.analyses == [] && st.passes == 0 && Models(st) == 0 && Next(st, e).passes == 1
    ensures Models(Next(st, e)) == e.stored && Manuals(Next(st, e)) == Manuals(st)
  {
    hide CommitTransition, CommitFailure, Write;
    NoneAreModels(st.detections);
    CountAppend(st.detections, ModelDetections(e.stored, st.slot.pass), IS_MODEL);
    CountAppend(st.detections, ModelDetections(e.stored, st.slot.pass), IS_MANUAL);
    AllModels(e.stored, st.slot.pass);
  }

  // ---- detections ----

  const IS_MODEL: StoredDetection -> bool := (d: StoredDetection) => d.Model?
  const IS_MANUAL: StoredDetection -> bool := (d: StoredDetection) => d.Manual?

  function Models(st: State): nat { Count(st.detections, IS_MODEL) }

  function Manuals(st: State): nat { Count(st.detections, IS_MANUAL) }

  lemma {:induction false} NoneAreModels(ds: seq<StoredDetection>)
    requires NoModel(ds)
    ensures Count(ds, IS_MODEL) == 0
  {
    if ds != [] { NoneAreModels(ds[1..]); }
  }

  lemma {:induction false} AllModels(n: nat, pass: nat)
    ensures Count(ModelDetections(n, pass), IS_MODEL) == n && Count(ModelDetections(n, pass), IS_MANUAL) == 0
  {
    if n > 0 {
      AllModels(n - 1, pass);
      assert ModelDetections(n, pass)[1..] == ModelDetections(n - 1, pass);
    }
  }

  lemma DetectionStep(st: State, e: Event)
    requires Inv(st)
    ensures !Detects(st, e) ==> Models(Next(st, e)) == Models(st) && Next(st, e).passes == st.passes
    ensures Manuals(Next(st, e)) == Manuals(st) + if e.Annotate? then 1 else 0
    ensures Detects(st, e) ==> st.passes == 0 && Next(st, e).passes == 1 && Models(Next(st, e)) == e.stored
  {
    hide CommitTransition, CommitFailure, Write, Inv, Count;
    if Detects(st, e) {
      DetectsFirst(st, e);
    } else if e.Annotate? {
      CountSnoc(st.detections, StoredDetection.Manual, IS_MODEL);
      CountSnoc(st.detections, StoredDetection.Manual, IS_MANUAL);
    } else {
      assert Next(st, e).detections == st.detections;
    }
  }

  function Annotations(es: seq<Event>): nat { Count(es, (e: Event) => e.Annotate?) }

  lemma AnnotationsStep(es: seq<Event>)
    requires es != []
    ensures Annotations(es) == Annotations(es[..|es| - 1]) + if es[|es| - 1].Annotate? then 1 else 0
  {
    assert es == es[..|es| - 1] + [es[|es| - 1]];
    CountSnoc(es[..|es| - 1], es[|es| - 1], (e: Event) => e.Annotate?);
  }

  lemma NothingDetected()
    ensures Models(Init()) == 0 && Manuals(Init()) == 0 && Annotations([]) == 0
  {
  }

  /** However often the task is redelivered, an image has the detections of exactly one inference pass, as many as that
      pass stored, and one more for every annotation. */
  lemma {:induction false} DetectionsAreConserved(es: seq<Event>)
    ensures Manuals(Run(es)) == Annotations(es)
    ensures Run(es).passes == 0 ==> Models(Run(es)) == 0
    ensures forall n :: 0 <= n < |es| && Detects(Run(es[..n]), es[n]) ==>
              Run(es).passes == 1 && Models(Run(es)) == es[n].stored
    decreases |es|
  {
    if es == [] { NothingDetected(); }
    hide Next, Inv, Detects, Models, Manuals, Annotations;
    if es != [] {
      var n := |es| - 1;
      var before := es[..n];
      assert forall k :: 0 <= k < n ==> before[..k] == es[..k] && before[k] == es[k];
      DetectionsAreConserved(before);
      EveryRunIsSafe(before);
      DetectionStep(Run(before), es[n]);
      assert Run(es) == Next(Run(before), es[n]);
      AnnotationsStep(es);
    }
  }
}
