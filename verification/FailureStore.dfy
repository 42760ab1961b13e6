/** The failure tables as an object whose methods are the source's transactions. */
module FailureStore {
  import opened Common
  import F = FailureEpoch
  import R = FailureEpochRuns
  import C = Confirmation
  import X = FailureOutcomes

  class Store {
    var db: F.Db

    ghost predicate Valid()
      reads this
    {
      R.Inv(db)
    }

    constructor ()
      ensures Valid() && db == R.EMPTY
    {
      db := R.EMPTY;
      new;
      R.EmptyHolds();
    }

    method OpenFailureEpoch(r: F.OpenRequest, placement: Option<F.Placement>, sourceCurrent: bool)
      returns (result: Result<F.EpochId, F.Error>)
      requires Valid()
      modifies this
      ensures Valid()
      ensures match F.Open(old(db), r, placement, sourceCurrent)
              case Ok(o) => result == Ok(o.epoch) && db == o.db
              case Err(e) => result == Err(e) && db == old(db)
    {
      hide R.Inv, F.RequestValid, R.Evolves;
      ghost var before := db;
      if F.Open(db, r, placement, sourceCurrent).Ok? { R.OpenKeeps(db, r, placement, sourceCurrent); }
      OneIncident(db, r);
      if !F.RequestValid(r) { return Err(F.Conflict); }
      if r.requestId in db.requests {
        if db.requests[r.requestId] != r { return Err(F.Conflict); }
        if r.epochId !in db.epochs { return Err(F.NotFound); }
        return Ok(r.epochId);
      }
      if exists id :: id in db.epochs && F.SameIncident(db.epochs[id].request, r) {
        var id :| id in db.epochs && F.SameIncident(db.epochs[id].request, r);
        var known := db.epochs[id].request;
        if known.bindingRevision == r.bindingRevision && known.bindingDigest == r.bindingDigest { return Ok(id); }
        return Err(F.Conflict);
      }
      if placement.None? || placement.value.bindingRevision != r.bindingRevision
         || placement.value.bindingDigest != r.bindingDigest { return Err(F.Stale); }
      if placement.value.host.None? || r.trigger.host != placement.value.host.value { return Err(F.Conflict); }
      if !sourceCurrent { return Err(F.Stale); }
      if r.epochId in db.epochs || (exists k :: k in db.evidence && db.evidence[k].evidenceId == r.trigger.evidenceId)
         || (r.epochId, 1) in db.evidence || (r.epochId, 1) in db.transitions { return Err(F.Constraint); }
      db := db.(requests := db.requests[r.requestId := r]);
      db := db.(epochs := db.epochs[r.epochId := F.Epoch(r, placement.value.host.value, F.Suspected, 1, 1)]);
      db := db.(evidence := db.evidence[(r.epochId, 1) := r.trigger]);
      db := db.(transitions := db.transitions[(r.epochId, 1) := F.Transition(None, F.Suspected,
            F.ByTrigger(r.trigger.evidenceId))]);
      return Ok(r.epochId);
    }

    /** max(evidence_generation) + 1 over one epoch's rows. */
    method NextGeneration(epoch: F.EpochId) returns (g: nat)
      requires Valid() && epoch in db.epochs
      ensures g == F.Newest(db.evidence, epoch) + 1
    {
      hide R.Inv, F.Newest;
      NewestRow(db, epoch);
      var keys, newest := db.evidence.Keys, 0;
      while keys != {}
        invariant keys <= db.evidence.Keys
        invariant newest == 0 || (epoch, newest) in db.evidence
        invariant forall k :: k in db.evidence.Keys - keys && k.0 == epoch ==> k.1 <= newest
        decreases |keys|
      {
        var k :| k in keys;
        if k.0 == epoch && k.1 > newest { newest := k.1; }
        keys := keys - {k};
      }
      assert (epoch, F.Newest(db.evidence, epoch)) in db.evidence.Keys - keys;
      g := newest + 1;
    }

    method AppendFailureObservation(epochId: F.EpochId, o: C.Observation, sourceCurrent: bool)
      returns (result: Result<nat, F.Error>)
      requires Valid()
      modifies this
      ensures Valid()
      ensures match F.Append(old(db), epochId, o, sourceCurrent)
              case Ok(a) => result == Ok(a.generation) && db == a.db
              case Err(e) => result == Err(e) && db == old(db)
    {
      hide R.Inv, R.Evolves, F.Newest;
      ghost var before := db;
      if F.Append(db, epochId, o, sourceCurrent).Ok? { R.AppendKeeps(db, epochId, o, sourceCurrent); }
      OneRow(db, o.evidenceId);
      if epochId == "" || !o.Valid() { return Err(F.Conflict); }
      if exists k :: k in db.evidence && db.evidence[k].evidenceId == o.evidenceId {
        var k :| k in db.evidence && db.evidence[k].evidenceId == o.evidenceId;
        if db.evidence[k] != o { return Err(F.Conflict); }
        return Ok(k.1);
      }
      if epochId !in db.epochs { return Err(F.NotFound); }
      if o.host != db.epochs[epochId].host { return Err(F.Conflict); }
      if !sourceCurrent { return Err(F.Stale); }
      var g := NextGeneration(epochId);
      if (epochId, g) in db.evidence { return Err(F.Constraint); }
      db := db.(evidence := db.evidence[(epochId, g) := o]);
      db := db.(epochs := db.epochs[epochId := db.epochs[epochId].(latestEvidence := g)]);
      return Ok(g);
    }

    method LoadObservations(epoch: F.EpochId, latest: nat) returns (rows: seq<(nat, C.Observation)>)
      ensures rows == F.Load(db.evidence, epoch, latest)
    {
      rows := [];
      for g := 0 to latest
        invariant rows == F.Load(db.evidence, epoch, g)
      {
        if (epoch, g + 1) in db.evidence { rows := rows + [(g + 1, db.evidence[(epoch, g + 1)])]; }
      }
    }

    method EvaluateFailureConfirmation(evaluationId: string, epochId: F.EpochId, evaluator: string,
                                       bound: Option<F.PolicyRef>)
      returns (error: Option<F.Error>)
      requires Valid()
      modifies this
      ensures Valid()
      ensures match F.Evaluate(old(db), evaluationId, epochId, evaluator, bound)
              case Ok(after) => error == None && db == after
              case Err(e) => error == Some(e) && db == old(db)
    {
      hide R.Inv, C.Evaluate, R.Evolves;
      ghost var before := db;
      if F.Evaluate(before, evaluationId, epochId, evaluator, bound).Ok? {
        R.EvaluateKeeps(before, evaluationId, epochId, evaluator, bound);
      }
      if evaluationId == "" || epochId == "" || evaluator == "" { return Some(F.Conflict); }
      if evaluationId in db.evaluations {
        var known := db.evaluations[evaluationId];
        if known.epoch == epochId && known.evaluator == evaluator { return None; }
        return Some(F.Conflict);
      }
      if epochId !in db.epochs { return Some(F.NotFound); }
      var epoch := db.epochs[epochId];
      var inputs := LoadObservations(epochId, epoch.latestEvidence);
      var result: F.ResultState;
      if bound.None? {
        result := F.NoPolicy;
      } else if !(bound.value.0 in db.currentPolicies && db.currentPolicies[bound.value.0] == bound.value.1
                  && bound.value in db.policies && db.policies[bound.value].lifecycle == F.Active) {
        result := F.StalePolicy;
      } else if epoch.state != F.Suspected {
        result := F.StaleEpoch;
      } else if db.policies[bound.value].failureClass != epoch.request.failureClass {
        result := F.ClassMismatch;
      } else {
        var verdict := C.EvaluateRequirements(db.policies[bound.value].policy, F.Observations(inputs));
        result := F.Judged(verdict);
      }
      db := db.(evaluations := db.evaluations[evaluationId := F.Evaluation(epochId, epoch.transitionGeneration, bound,
            epoch.latestEvidence,
                                                              inputs, result, evaluator)]);
      return None;
    }

    /** The count of recorded inputs against the count of those that still match a row. */
    method InputsExact(inputs: seq<(nat, C.Observation)>) returns (exact: bool)
      ensures exact <==> F.InputsExact(db, inputs)
    {
      var i := 0;
      while i < |inputs|
        invariant i <= |inputs| && F.InputsExact(db, inputs[..i])
      {
        var matching := set k | k in db.evidence && k.1 == inputs[i].0 && db.evidence[k] == inputs[i].1;
        MatchingRow(db, inputs[i], matching);
        if matching == {} { return false; }
        assert inputs[..i + 1] == inputs[..i] + [inputs[i]];
        i := i + 1;
      }
      assert inputs[..i] == inputs;
      return true;
    }

    method ConfirmFailureEpoch(decisionId: string, evaluationId: string, decidedBy: string)
      returns (result: Result<F.EpochId, F.Error>)
      requires Valid()
      modifies this
      ensures Valid()
      ensures match F.Confirm(old(db), decisionId, evaluationId, decidedBy)
              case Ok(d) => result == Ok(d.epoch) && db == d.db
              case Err(e) => result == Err(e) && db == old(db)
      ensures decisionId !in old(db).decisions ==>
                (result.Ok? <==> decisionId != "" && evaluationId != "" && decidedBy != ""
                                 && X.Confirmable(old(db), evaluationId))
    {
      hide R.Inv, F.InputsExact, R.Evolves, X.Confirmable;
      ghost var before := db;
      if F.Confirm(before, decisionId, evaluationId, decidedBy).Ok? {
        R.ConfirmKeeps(before, decisionId, evaluationId, decidedBy);
      }
      if decisionId !in before.decisions { X.ConfirmIff(before, decisionId, evaluationId, decidedBy); }
      if decisionId == "" || evaluationId == "" || decidedBy == "" { return Err(F.Conflict); }
      if decisionId in db.decisions {
        var known := db.decisions[decisionId];
        if known.evaluation != evaluationId || known.decidedBy != decidedBy { return Err(F.Conflict); }
        return Ok(known.epoch);
      }
      if evaluationId !in db.evaluations { return Err(F.NotFound); }
      var ev := db.evaluations[evaluationId];
      if ev.result != F.Judged(C.Satisfied) { return Err(F.Blocked); }
      if ev.epoch !in db.epochs { return Err(F.NotFound); }
      var epoch := db.epochs[ev.epoch];
      if epoch.state != F.Suspected || epoch.transitionGeneration != ev.transitionGeneration
         || epoch.latestEvidence != ev.latestEvidence { return Err(F.Stale); }
      if ev.policy.None? { return Err(F.Stale); }
      var p := ev.policy.value;
      if !(p.0 in db.currentPolicies && db.currentPolicies[p.0] == p.1 && p in db.policies
           && db.policies[p].lifecycle == F.Active) {
        return Err(F.Stale);
      }
      var exact := InputsExact(ev.inputs);
      if !exact { return Err(F.Stale); }
      var g := epoch.transitionGeneration + 1;
      if (ev.epoch, g) in db.transitions { return Err(F.Constraint); }
      db := db.(decisions := db.decisions[decisionId := F.Decision(ev.epoch, evaluationId, decidedBy)]);
      db := db.(transitions := db.transitions[(ev.epoch, g) := F.Transition(Some(F.Suspected), F.Confirmed,
            F.ByDecision(decisionId))]);
      db := db.(epochs := db.epochs[ev.epoch := epoch.(state := F.Confirmed, transitionGeneration := g)]);
      return Ok(ev.epoch);
    }

    method RecordSourceExecutionFencingObservation(evidenceId: string, epochId: F.EpochId, reading: F.FenceReading)
      returns (error: Option<F.Error>)
      requires Valid()
      modifies this
      ensures Valid()
      ensures match F.RecordFencing(old(db), evidenceId, epochId, reading)
              case Ok(after) => error == None && db == after
              case Err(e) => error == Some(e) && db == old(db)
    {
      hide R.Inv, R.Evolves;
      ghost var before := db;
      if F.RecordFencing(before, evidenceId, epochId, reading).Ok? {
        R.RecordFencingKeeps(before, evidenceId, epochId, reading);
      }
      OneFence(before, evidenceId);
      if evidenceId == "" || epochId == "" { return Some(F.Conflict); }
      if exists k :: k in db.fencing && db.fencing[k].evidenceId == evidenceId {
        var k :| k in db.fencing && db.fencing[k].evidenceId == evidenceId;
        return if k.0 == epochId then None else Some(F.Conflict);
      }
      if epochId !in db.epochs { return Some(F.NotFound); }
      if db.epochs[epochId].state != F.Confirmed { return Some(F.Stale); }
      var g := (if epochId in db.fencingCurrent then db.fencingCurrent[epochId] else 0) + 1;
      if (epochId, g) in db.fencing { return Some(F.Constraint); }
      db := db.(fencing := db.fencing[(epochId, g) := F.FencingRow(evidenceId, reading.authorityGeneration,
                                                                   reading.eventSequence,
                                                       reading.powerEvidence, reading.shutoff, reading.matched,
                                                       F.FenceStateOf(reading))]);
      db := db.(fencingCurrent := db.fencingCurrent[epochId := g]);
      return None;
    }

    method EvaluateFailureFencing(evaluationId: string, epochId: F.EpochId, evaluator: string,
                                  bound: Option<F.PolicyRef>)
      returns (error: Option<F.Error>)
      requires Valid()
      modifies this
      ensures Valid()
      ensures match F.EvaluateFencing(old(db), evaluationId, epochId, evaluator, bound)
              case Ok(after) => error == None && db == after
              case Err(e) => error == Some(e) && db == old(db)
    {
      hide R.Inv, R.Evolves;
      ghost var before := db;
      if F.EvaluateFencing(before, evaluationId, epochId, evaluator, bound).Ok? {
        R.EvaluateFencingKeeps(before, evaluationId, epochId, evaluator, bound);
      }
      if evaluationId == "" || epochId == "" || evaluator == "" { return Some(F.Conflict); }
      if evaluationId in db.fencingEvaluations {
        var known := db.fencingEvaluations[evaluationId];
        return if known.epoch == epochId && known.evaluator == evaluator then None else Some(F.Conflict);
      }
      if epochId !in db.epochs { return Some(F.NotFound); }
      var epoch := db.epochs[epochId];
      var ev := F.FencingEvaluation(epochId, epoch.transitionGeneration, bound, 0, "", F.FenceNoPolicy, evaluator);
      if bound.Some? {
        if epoch.state != F.Confirmed {
          ev := ev.(result := F.FenceStaleEpoch);
        } else if !(bound.value.0 in db.currentFencingPolicies
                    && db.currentFencingPolicies[bound.value.0] == bound.value.1
                    && bound.value in db.fencingPolicies
                    && db.fencingPolicies[bound.value].lifecycle == F.Active) {
          ev := ev.(result := F.FenceStalePolicy);
        } else if epochId in db.fencingCurrent && (epochId, db.fencingCurrent[epochId]) in db.fencing {
          var row := db.fencing[(epochId, db.fencingCurrent[epochId])];
          ev := ev.(generation := db.fencingCurrent[epochId], evidenceId := row.evidenceId,
                    result := F.FenceVerdict(row.state));
        } else {
          ev := ev.(result := F.FenceVerdict(F.NotProven));
        }
      }
      db := db.(fencingEvaluations := db.fencingEvaluations[evaluationId := ev]);
      return None;
    }

    method MaterializeFailureFencingProof(proofId: string, evaluationId: string, decidedBy: string)
      returns (result: Result<F.EpochId, F.Error>)
      requires Valid()
      modifies this
      ensures Valid()
      ensures match F.Materialize(old(db), proofId, evaluationId, decidedBy)
              case Ok(d) => result == Ok(d.epoch) && db == d.db
              case Err(e) => result == Err(e) && db == old(db)
      ensures proofId !in old(db).proofs ==>
                (result.Ok? <==> proofId != "" && evaluationId != "" && decidedBy != ""
                                 && X.Fenceable(old(db), evaluationId))
    {
      hide R.Inv, R.Evolves, X.Fenceable;
      ghost var before := db;
      if F.Materialize(before, proofId, evaluationId, decidedBy).Ok? {
        R.MaterializeKeeps(before, proofId, evaluationId, decidedBy);
      }
      if proofId !in before.proofs { X.MaterializeIff(before, proofId, evaluationId, decidedBy); }
      if proofId == "" || evaluationId == "" || decidedBy == "" { return Err(F.Conflict); }
      if proofId in db.proofs {
        var known := db.proofs[proofId];
        if known.evaluation != evaluationId || known.decidedBy != decidedBy { return Err(F.Conflict); }
        return Ok(known.epoch);
      }
      if evaluationId !in db.fencingEvaluations { return Err(F.NotFound); }
      var ev := db.fencingEvaluations[evaluationId];
      if ev.result != F.FenceVerdict(F.Proven) { return Err(F.Blocked); }
      if ev.epoch !in db.epochs { return Err(F.NotFound); }
      var epoch := db.epochs[ev.epoch];
      if epoch.state != F.Confirmed || epoch.transitionGeneration != ev.transitionGeneration { return Err(F.Stale); }
      if ev.policy.None? { return Err(F.Stale); }
      var p := ev.policy.value;
      if !(p.0 in db.currentFencingPolicies && db.currentFencingPolicies[p.0] == p.1 && p in db.fencingPolicies
           && db.fencingPolicies[p].lifecycle == F.Active) {
        return Err(F.Stale);
      }
      if !(ev.epoch in db.fencingCurrent && (ev.epoch, db.fencingCurrent[ev.epoch]) in db.fencing) {
        return Err(F.Stale);
      }
      var g := db.fencingCurrent[ev.epoch];
      if g != ev.generation || db.fencing[(ev.epoch, g)].evidenceId != ev.evidenceId { return Err(F.Stale); }
      if exists p :: p in db.proofs && db.proofs[p].epoch == ev.epoch { return Err(F.Stale); }
      var next := epoch.transitionGeneration + 1;
      if (ev.epoch, next) in db.transitions { return Err(F.Constraint); }
      db := db.(proofs := db.proofs[proofId := F.Proof(ev.epoch, evaluationId, ev.evidenceId, decidedBy)]);
      db := db.(transitions := db.transitions[(ev.epoch, next) := F.Transition(Some(F.Confirmed), F.Fenced,
            F.ByProof(proofId))]);
      db := db.(epochs := db.epochs[ev.epoch := epoch.(state := F.Fenced, transitionGeneration := next)]);
      return Ok(ev.epoch);
    }

    method PublishFailureConfirmationPolicy(id: string, revision: nat, b: F.PolicyBody) returns (error: Option<F.Error>)
      requires Valid()
      modifies this
      ensures Valid()
      ensures match F.Publish(old(db), id, revision, b)
              case Ok(after) => error == None && db == after
              case Err(e) => error == Some(e) && db == old(db)
    {
      hide R.Inv, R.Evolves;
      ghost var before := db;
      if F.Publish(before, id, revision, b).Ok? { R.PublishKeeps(before, id, revision, b); }
      var valid := ValidRequirements(b.policy.requirements);
      if id == "" || revision == 0 || b.createdBy == "" || b.approvedBy == "" || !valid { return Some(F.Conflict); }
      if (id, revision) in db.policies {
        return if db.policies[(id, revision)] == b then None else Some(F.Conflict);
      }
      if id in db.currentPolicies && db.currentPolicies[id] >= revision { return Some(F.Conflict); }
      db := db.(policies := db.policies[(id, revision) := b]);
      db := db.(currentPolicies := db.currentPolicies[id := revision]);
      return None;
    }

    method PublishFailureFencingPolicy(id: string, revision: nat, b: F.FencingPolicy) returns (error: Option<F.Error>)
      requires Valid()
      modifies this
      ensures Valid()
      ensures match F.PublishFencing(old(db), id, revision, b)
              case Ok(after) => error == None && db == after
              case Err(e) => error == Some(e) && db == old(db)
    {
      hide R.Inv, R.Evolves;
      ghost var before := db;
      if F.PublishFencing(before, id, revision, b).Ok? { R.PublishFencingKeeps(before, id, revision, b); }
      if id == "" || revision == 0 || !b.supported || b.createdBy == "" || b.approvedBy == "" {
        return Some(F.Conflict);
      }
      if (id, revision) in db.fencingPolicies {
        return if db.fencingPolicies[(id, revision)] == b then None else Some(F.Conflict);
      }
      db := db.(fencingPolicies := db.fencingPolicies[(id, revision) := b]);
      if id !in db.currentFencingPolicies || db.currentFencingPolicies[id] < revision {
        db := db.(currentFencingPolicies := db.currentFencingPolicies[id := revision]);
      }
      return None;
    }
  }

  /** The requirement loop of validFailureConfirmationPolicy. */
  method ValidRequirements(rs: seq<C.Requirement>) returns (valid: bool)
    ensures forall p: C.Policy :: p.requirements == rs ==> (valid <==> C.PolicyValid(p))
  {
    if |rs| == 0 { return false; }
    var seen: set<(C.EvidenceType, C.Observed, C.Freshness, C.SourceType)> := {};
    for i := 0 to |rs|
      invariant seen == set j | 0 <= j < i :: (rs[j].evidenceType, rs[j].observed, rs[j].freshness, rs[j].source)
      invariant forall j :: 0 <= j < i ==>
                  rs[j].ordinal == j + 1 && (rs[j].observed == C.Present || rs[j].observed == C.Absent)
                  && rs[j].freshness == C.Current
      invariant forall j, k :: 0 <= j < k < i ==>
                  (rs[j].evidenceType, rs[j].observed, rs[j].freshness, rs[j].source) !=
                  (rs[k].evidenceType, rs[k].observed, rs[k].freshness, rs[k].source)
    {
      var r := rs[i];
      if r.ordinal != i + 1 || (r.observed != C.Present && r.observed != C.Absent) || r.freshness != C.Current {
        return false;
      }
      var key := (r.evidenceType, r.observed, r.freshness, r.source);
      if key in seen { return false; }
      seen := seen + {key};
    }
    return true;
  }

  lemma MatchingRow(db: F.Db, input: (nat, C.Observation), matching: set<(F.EpochId, nat)>)
    requires matching == set k | k in db.evidence && k.1 == input.0 && db.evidence[k] == input.1
    ensures matching != {} <==> F.HasRow(db, input)
  {
    if k :| k in matching { assert k == (k.0, input.0); }
    if e :| (e, input.0) in db.evidence && db.evidence[(e, input.0)] == input.1 { assert (e, input.0) in matching; }
  }

  lemma NewestRow(db: F.Db, epoch: F.EpochId)
    requires R.Inv(db) && epoch in db.epochs
    ensures var n := F.Newest(db.evidence, epoch);
            n >= 1 && (epoch, n) in db.evidence && forall g :: (epoch, g) in db.evidence ==> g <= n
  {
    hide R.AboutInv, R.TransitionInv, R.DecisionInv, R.ProofInv, R.EvaluationInv, R.FenceInv, R.FenceEvaluationInv,
         R.RequestInv, R.PolicyInv;
    R.NewestIsLatest(db, epoch);
  }

  lemma OneFence(db: F.Db, evidenceId: string)
    requires R.Inv(db)
    ensures forall j, k :: j in db.fencing && k in db.fencing && db.fencing[j].evidenceId == evidenceId
                           && db.fencing[k].evidenceId == evidenceId
                           ==> j == k
  {
    hide R.EvidenceInv, R.AboutInv, R.TransitionInv, R.DecisionInv, R.ProofInv, R.EvaluationInv, R.FenceEvaluationInv,
         R.RequestInv, R.PolicyInv;
  }

  lemma OneIncident(db: F.Db, r: F.OpenRequest)
    requires R.Inv(db)
    ensures forall a, b :: a in db.epochs && b in db.epochs && F.SameIncident(db.epochs[a].request, r)
                           && F.SameIncident(db.epochs[b].request, r)
                           ==> a == b
  {
    hide R.EvidenceInv, R.AboutInv, R.TransitionInv, R.DecisionInv, R.ProofInv, R.EvaluationInv, R.FenceInv,
         R.FenceEvaluationInv, R.PolicyInv;
    forall a, b | a in db.epochs && b in db.epochs && F.SameIncident(db.epochs[a].request, r)
    && F.SameIncident(db.epochs[b].request, r)
      ensures a == b
    {
      assert F.SameIncident(db.epochs[a].request, db.epochs[b].request);
    }
  }

  lemma OneRow(db: F.Db, evidenceId: string)
    requires R.Inv(db)
    ensures forall j, k :: j in db.evidence && k in db.evidence && db.evidence[j].evidenceId == evidenceId
                           && db.evidence[k].evidenceId == evidenceId
                           ==> j == k
  {
    hide R.AboutInv, R.TransitionInv, R.DecisionInv, R.ProofInv, R.EvaluationInv, R.FenceInv, R.FenceEvaluationInv,
         R.RequestInv, R.PolicyInv;
  }
}
