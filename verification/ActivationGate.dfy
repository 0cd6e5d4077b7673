/** Model versions and the activation gate, one UPDATE per flush. */
module ActivationGate {
  import opened WhiteSpace
  import opened Wrappers

  datatype EvaluationStatus = Pending | Running | Completed | Failed

  datatype Version = Version(evaluation: EvaluationStatus, map50: Option<real>, isActive: bool)

  datatype AuditEntry =
    | Evaluated(id: nat, map50: real)
    | EvaluationFailed(id: nat)
    | Activated(id: nat, map50: real, overridden: bool, justification: Option<string>, previous: Option<nat>)

  datatype ActivationError = NotFound | EvaluationIncomplete | BelowFloor | JustificationRequired

  const MAP50_FLOOR := 0.95

  predicate Blank(s: string) { forall i :: 0 <= i < |s| ==> IsBlank(s[i]) }

  predicate Justified(justification: Option<string>) { justification.Some? && !Blank(justification.value) }

  function Map50(v: Version): real { if v.map50.Some? then v.map50.value else 0.0 }

  function Gate(v: Version, override: bool, justification: Option<string>): Result<(), ActivationError> {
    if v.evaluation != Completed then Err(EvaluationIncomplete)
    else if Map50(v) >= MAP50_FLOOR then Ok(())
    else if !override then Err(BelowFloor)
    else if !Justified(justification) then Err(JustificationRequired)
    else Ok(())
  }

  predicate Explained(justification: Option<string>) {
    justification.Some? && exists i :: 0 <= i < |justification.value| && !IsBlank(justification.value[i])
  }

  /** The gate opens exactly for a completed evaluation with an mAP of at least 0.95, or an override with a
      justification that is not blank; otherwise the first of the three conditions that fails is reported. */
  lemma {:induction false} GateOpensExactlyWhen(v: Version, override: bool, justification: Option<string>)
    ensures var good := v.map50.Some? && v.map50.value >= 0.95;
            Gate(v, override, justification)
              == if !v.evaluation.Completed? then Err(EvaluationIncomplete)
                 else if good || (override && Explained(justification)) then Ok(())
                 else if override then Err(JustificationRequired)
                 else Err(BelowFloor)
  {
    assert Explained(justification) <==> Justified(justification);
  }

  /** The audit entry names the version, its mAP, whether and why the floor was overridden, and what it replaced. */
  lemma {:induction false} EntryTells(
      id: nat, v: Version, override: bool, justification: Option<string>, previous: Option<nat>)
    requires Gate(v, override, justification).Ok?
    ensures var e := ActivationEntry(id, v, override, justification, previous);
            && e.Activated? && e.id == id && (v.map50.Some? ==> e.map50 == v.map50.value)
            && (e.overridden <==> e.map50 < 0.95)
            && e.justification == (if e.overridden then justification else None)
            && (e.overridden ==> Explained(e.justification))
            && e.previous == (if previous == Some(id) then None else previous)
  {
    GateOpensExactlyWhen(v, override, justification);
  }

  function Active(versions: map<nat, Version>): set<nat> { set v | v in versions && versions[v].isActive }

  /** The partial unique index on `is_active`. */
  ghost predicate AtMostOneActive(versions: map<nat, Version>) {
    forall a, b :: a in Active(versions) && b in Active(versions) ==> a == b
  }

  function SetActive(versions: map<nat, Version>, id: nat, flag: bool): map<nat, Version>
    requires id in versions
  {
    versions[id := versions[id].(isActive := flag)]
  }

  lemma ActiveAfter(versions: map<nat, Version>, id: nat, flag: bool)
    requires id in versions
    ensures Active(SetActive(versions, id, flag)) == if flag then Active(versions) + {id} else Active(versions) - {id}
  {
  }

  function ActivationEntry(id: nat, v: Version, override: bool, justification: Option<string>,
                           previous: Option<nat>): AuditEntry
  {
    var overridden := override && Map50(v) < MAP50_FLOOR;
    Activated(id, Map50(v), overridden, if overridden then justification else None,
              if previous == Some(id) then None else previous)
  }

  // ---- one activation, flush by flush ----

  class ModelStore {
    var versions: map<nat, Version>
    var audit: seq<AuditEntry>

    /** One flushed UPDATE. The database refuses it unless the index still holds. */
    method Update(id: nat, flag: bool)
      requires id in versions
      requires AtMostOneActive(SetActive(versions, id, flag))
      modifies this`versions
      ensures AtMostOneActive(versions) && versions.Keys == old(versions).Keys
      ensures Active(versions) == if flag then {id} else old(Active(versions)) - {id}
      ensures forall v :: v in versions ==> versions[v] == old(versions)[v].(isActive := v in Active(versions))
    {
      ActiveAfter(versions, id, flag);
      versions := versions[id := versions[id].(isActive := flag)];
      assert versions == SetActive(old(versions), id, flag);
      if flag { assert id in Active(versions); }
    }

    /** The row the SELECT on `is_active` returns. */
    method FindActive() returns (r: Option<nat>)
      requires AtMostOneActive(versions)
      ensures Active(versions) == if r.Some? then {r.value} else {}
    {
      var left := versions.Keys;
      r := None;
      while left != {}
        invariant left <= versions.Keys
        invariant r.None? ==> Active(versions) <= left
        invariant r.Some? ==> r.value in Active(versions)
        decreases left
      {
        var v :| v in left;
        if versions[v].isActive {
          r := Some(v);
        }
        left := left - {v};
      }
    }

    /** Deactivates the old version with its own flush, then activates the new one. */
    method SwapActive(id: nat) returns (previous: Option<nat>)
      requires AtMostOneActive(versions) && id in versions
      modifies this`versions
      ensures AtMostOneActive(versions) && versions.Keys == old(versions).Keys && Active(versions) == {id}
      ensures forall v :: v in versions ==> versions[v] == old(versions)[v].(isActive := v == id)
      ensures Active(old(versions)) == if previous.Some? then {previous.value} else {}
    {
      previous := FindActive();
      if previous.Some? && previous.value != id {
        ActiveAfter(versions, previous.value, false);
        Update(previous.value, false);
      }
      assert Active(versions) <= {id};
      ActiveAfter(versions, id, true);
      Update(id, true);
    }

    /** Refused activations change nothing; a successful one leaves its version as the only active one, with an
        audit entry that names what it overrode. The old version is deactivated by its own flush beforehand. */
    method Activate(id: nat, override: bool, justification: Option<string>) returns (r: Result<(), ActivationError>)
      requires AtMostOneActive(versions)
      modifies this
      ensures AtMostOneActive(versions) && versions.Keys == old(versions).Keys
      ensures r == if id !in old(versions) then Err(NotFound) else Gate(old(versions)[id], override, justification)
      ensures r.Err? ==> versions == old(versions) && audit == old(audit)
      ensures r.Ok? ==>
                && Active(versions) == {id}
                && (forall v :: v in versions ==> versions[v] == old(versions)[v].(isActive := v == id))
                && exists previous: Option<nat> ::
                     && Active(old(versions)) == (if previous.Some? then {previous.value} else {})
                     && audit == old(audit) + [
                          ActivationEntry(id, old(versions)[id], override, justification, previous)]
    {
      if id !in versions {
        return Err(NotFound);
      }
      var v := versions[id];
      if v.evaluation != Completed {
        return Err(EvaluationIncomplete);
      }
      var map50 := if v.map50.Some? then v.map50.value else 0.0;
      var belowFloor := map50 < MAP50_FLOOR;
      if belowFloor && !override {
        return Err(BelowFloor);
      }
      if belowFloor && override && !(justification.Some? && !Blank(justification.value)) {
        return Err(JustificationRequired);
      }
      var previous := SwapActive(id);
      audit := audit
          + [Activated(id, map50, override && belowFloor, if override && belowFloor then justification else None,
                                  if previous.Some? && previous.value != id then previous else None)];
      assert audit == old(audit) + [ActivationEntry(id, old(versions)[id], override, justification, previous)];
      return Ok(());
    }
  }
}
