/** Exactly when each transaction on a failure epoch succeeds and what it writes, said of the
    rows alone, and what that means for the two transitions of an epoch over runs. */
module FailureOutcomes {
  import opened Common
  import opened FailureEpoch
  import opened FailureEpochRuns
  import C = Confirmation

  // ----- policies -------------------------------------------------------------------------------

  /** A revision is published exactly when it is complete and either is the one recorded, or is
      new and above the current one, which it replaces. */
  lemma PublishIff(db: Db, id: string, revision: nat, b: PolicyBody)
    ensures var r := Publish(db, id, revision, b);
            && (r.Ok? <==>
                  && id != "" && revision >= 1 && b.createdBy != "" && b.approvedBy != "" && C.PolicyValid(b.policy)
                  && if (id, revision) in db.policies then db.policies[(id, revision)] == b
                     else id in db.currentPolicies ==> db.currentPolicies[id] < revision)
            && (r.Ok? && (id, revision) in db.policies ==> r.value == db)
            && (r.Ok? && (id, revision) !in db.policies ==>
                  r.value == db.(policies := db.policies[(id, revision) := b],
                                 currentPolicies := db.currentPolicies[id := revision]))
  {
    hide C.PolicyValid;
  }

  /** The fencing policies differ: an older revision is recorded as well, and the current one is the
      highest that was ever recorded. */
  lemma PublishFencingIff(db: Db, id: string, revision: nat, b: FencingPolicy)
    ensures var r := PublishFencing(db, id, revision, b);
            && (r.Ok? <==>
                  && id != "" && revision >= 1 && b.supported && b.createdBy != "" && b.approvedBy != ""
                  && ((id, revision) in db.fencingPolicies ==> db.fencingPolicies[(id, revision)] == b))
            && (r.Ok? && (id, revision) in db.fencingPolicies ==> r.value == db)
            && (r.Ok? && (id, revision) !in db.fencingPolicies ==>
                  r.value == db.(fencingPolicies := db.fencingPolicies[(id, revision) := b],
                    currentFencingPolicies :=
                      if id in db.currentFencingPolicies && revision <= db.currentFencingPolicies[id]
                      then db.currentFencingPolicies else db.currentFencingPolicies[id := revision]))
  {
  }

  // ----- opening and evidence ---------------------------------------------------------------------

  /** The trigger that fits each class of failure. */
  ghost predicate TriggerFits(r: OpenRequest) {
    || (r.failureClass == HostConnectivityLoss && r.trigger.evidenceType == C.AgentConnectivityLoss)
    || (r.failureClass == HostAuthorityLoss && r.trigger.evidenceType == C.HostOperationAuthorityState)
    || (r.failureClass == VmRuntimeUnavailable && r.trigger.evidenceType == C.VmRuntimeObservation)
  }

  ghost predicate Complete(r: OpenRequest) {
    "" !in {r.requestId, r.epochId, r.incidentKey, r.workload, r.requestedBy, r.bindingDigest}
    && r.bindingRevision >= 1 && r.trigger.Valid() && TriggerFits(r)
  }

  /** A new incident opens its epoch exactly when its binding is the workload's current one, its
      trigger is about the workload's host, current and never recorded, and the epoch's name is
      free; it is then SUSPECTED on its trigger, and that is all. */
  lemma OpenIff(db: Db, r: OpenRequest, placement: Option<Placement>, sourceCurrent: bool)
    requires Inv(db) && r.requestId !in db.requests
    requires forall id :: id in db.epochs ==> !SameIncident(db.epochs[id].request, r)
    ensures var o := Open(db, r, placement, sourceCurrent);
            && (o.Ok? <==>
                  && Complete(r)
                  && placement == Some(Placement(r.bindingRevision, r.bindingDigest, Some(r.trigger.host)))
                  && sourceCurrent && r.epochId !in db.epochs
                  && forall k :: k in db.evidence ==> db.evidence[k].evidenceId != r.trigger.evidenceId)
            && (o.Ok? ==>
                  && o.value.epoch == r.epochId
                  && o.value.db == db.(requests := db.requests[r.requestId := r],
                       epochs := db.epochs[r.epochId := Epoch(r, r.trigger.host, Suspected, 1, 1)],
                       evidence := db.evidence[(r.epochId, 1) := r.trigger],
                       transitions := db.transitions[(r.epochId, 1) :=
                         Transition(None, Suspected, ByTrigger(r.trigger.evidenceId))]))
  {
    hide AboutInv, DecisionInv, ProofInv, EvaluationInv, FenceInv, FenceEvaluationInv, RequestInv, PolicyInv;
    assert RequestValid(r) <==> Complete(r);
    assert !Correlated(db, r);
  }

  /** A request that is known, or an incident that is, answers with its epoch and writes nothing. */
  lemma OpenReplays(db: Db, r: OpenRequest, placement: Option<Placement>, sourceCurrent: bool, id: EpochId)
    requires Inv(db) && Complete(r)
    requires if r.requestId in db.requests then id == r.epochId
             else id in db.epochs && SameIncident(db.epochs[id].request, r)
    ensures var o := Open(db, r, placement, sourceCurrent);
            && (o.Ok? <==>
                  if r.requestId in db.requests then db.requests[r.requestId] == r
                  else && db.epochs[id].request.bindingRevision == r.bindingRevision
                       && db.epochs[id].request.bindingDigest == r.bindingDigest)
            && (o.Ok? ==> o.value == Opened(db, id))
            && (o.Err? ==> o == Err(Conflict))
  {
    hide EvidenceInv, AboutInv, TransitionInv, DecisionInv, ProofInv, EvaluationInv, FenceInv, FenceEvaluationInv,
         PolicyInv;
    if r.requestId !in db.requests {
      assert Correlated(db, r);
      var known := IncidentOf(db, r);
      assert SameIncident(db.epochs[known].request, db.epochs[id].request);
    }
  }

  /** An observation that was never recorded is appended exactly when it is valid, current and about
      the epoch's host; it becomes the next evidence generation. */
  lemma AppendIff(db: Db, e: EpochId, o: C.Observation, sourceCurrent: bool)
    requires Inv(db) && forall k :: k in db.evidence ==> db.evidence[k].evidenceId != o.evidenceId
    ensures var r := Append(db, e, o, sourceCurrent);
            && (r.Ok? <==> e != "" && o.Valid() && e in db.epochs && o.host == db.epochs[e].host && sourceCurrent)
            && (r.Ok? ==>
                  && r.value.generation == db.epochs[e].latestEvidence + 1
                  && r.value.db == db.(evidence := db.evidence[(e, r.value.generation) := o],
                       epochs := db.epochs[e := db.epochs[e].(latestEvidence := r.value.generation)]))
  {
    hide AboutInv, TransitionInv, DecisionInv, ProofInv, EvaluationInv, FenceInv, FenceEvaluationInv, RequestInv,
         PolicyInv, Newest;
    if e in db.epochs { NewestIsLatest(db, e); }
  }

  // ----- confirmation -----------------------------------------------------------------------------

  /** The recorded revision is the current one and ACTIVE. */
  ghost predicate InForce(db: Db, p: PolicyRef) {
    && p in db.policies && db.policies[p].lifecycle == Active
    && p.0 in db.currentPolicies && db.currentPolicies[p.0] == p.1
  }

  /** A new evaluation of an epoch is always recorded.  It holds all evidence there is, and judges it
      exactly when a policy of the epoch's class is bound and in force while the epoch is still
      SUSPECTED; otherwise it names the first of these that is missing. */
  lemma EvaluateIff(db: Db, id: string, e: EpochId, evaluator: string, bound: Option<PolicyRef>)
    requires Inv(db) && id !in db.evaluations
    ensures var r := Evaluate(db, id, e, evaluator, bound);
            && (r.Ok? <==> id != "" && e != "" && evaluator != "" && e in db.epochs)
            && (r.Ok? ==>
                  && id in r.value.evaluations
                  && var ev, epoch := r.value.evaluations[id], db.epochs[e];
                  && r.value == db.(evaluations := db.evaluations[id := ev])
                  && ev.epoch == e && ev.policy == bound && ev.evaluator == evaluator
                  && ev.latestEvidence == |ev.inputs| == epoch.latestEvidence
                  && ev.transitionGeneration == epoch.transitionGeneration
                  && (forall g :: 1 <= g <= |ev.inputs| ==>
                        (e, g) in db.evidence && ev.inputs[g - 1] == (g, db.evidence[(e, g)]))
                  && (if bound.None? then ev.result == NoPolicy
                      else if !InForce(db, bound.value) then ev.result == StalePolicy
                      else if epoch.state == Confirmed || epoch.state == Fenced then ev.result == StaleEpoch
                      else if db.policies[bound.value].failureClass != epoch.request.failureClass
                      then ev.result == ClassMismatch
                      else ev.result == Judged(C.Evaluate(db.policies[bound.value].policy, Observations(ev.inputs)))))
  {
    hide AboutInv, TransitionInv, DecisionInv, ProofInv, EvaluationInv, FenceInv, FenceEvaluationInv, RequestInv,
         PolicyInv, C.Evaluate, Load;
    if e in db.epochs { LoadIsAll(db.evidence, e, db.epochs[e].latestEvidence); }
  }

  /** Recorded inputs stay exact for ever. */
  lemma InputsStayExact(db: Db, id: string)
    requires Inv(db) && id in db.evaluations
    ensures InputsExact(db, db.evaluations[id].inputs)
  {
    hide AboutInv, TransitionInv, DecisionInv, ProofInv, FenceInv, FenceEvaluationInv, RequestInv, PolicyInv,
         C.Evaluate;
    var ev := db.evaluations[id];
    assert EvaluationOk(db.epochs, db.evidence, db.policies, ev);
    LoadIsAll(db.evidence, ev.epoch, ev.latestEvidence);
    forall i | 0 <= i < |ev.inputs| ensures HasRow(db, ev.inputs[i]) {
      assert (ev.epoch, ev.inputs[i].0) in db.evidence;
    }
  }

  /** A SATISFIED evaluation of an epoch that is still SUSPECTED and has no later evidence, under a
      policy that is still in force. */
  ghost predicate Confirmable(db: Db, evaluation: string) {
    && evaluation in db.evaluations
    && var ev := db.evaluations[evaluation];
    && ev.result == Judged(C.Satisfied) && ev.policy.Some? && InForce(db, ev.policy.value)
    && ev.epoch in db.epochs && db.epochs[ev.epoch].state == Suspected
    && db.epochs[ev.epoch].latestEvidence == ev.latestEvidence
  }

  /** A new decision confirms exactly such an evaluation; it writes the decision, the second
      transition and the state. */
  lemma ConfirmIff(db: Db, id: string, evaluation: string, decidedBy: string)
    requires Inv(db) && id !in db.decisions
    ensures var r := Confirm(db, id, evaluation, decidedBy);
            && (r.Ok? <==>
                  id != "" && evaluation != "" && decidedBy != "" && Confirmable(db, evaluation))
            && (r.Ok? ==>
                  && evaluation in db.evaluations && db.evaluations[evaluation].epoch in db.epochs
                  && var e := db.evaluations[evaluation].epoch;
                  && r.value.epoch == e
                  && r.value.db == db.(decisions := db.decisions[id := Decision(e, evaluation, decidedBy)],
                       transitions := db.transitions[(e, 2) := Transition(Some(Suspected), Confirmed, ByDecision(id))],
                       epochs := db.epochs[e := db.epochs[e].(state := Confirmed, transitionGeneration := 2)]))
  {
    hide Inv, Confirm, InForce;
    ConfirmAccepts(db, id, evaluation, decidedBy);
    if Confirm(db, id, evaluation, decidedBy).Ok? {
      ConfirmForm(db, id, evaluation, decidedBy);
      ConfirmNames(db, id, evaluation, decidedBy);
    }
  }

  lemma ConfirmNames(db: Db, id: string, evaluation: string, decidedBy: string)
    requires Confirm(db, id, evaluation, decidedBy).Ok? && id !in db.decisions
    ensures evaluation in db.evaluations
    ensures Confirm(db, id, evaluation, decidedBy).value.epoch == db.evaluations[evaluation].epoch
  {
    hide InputsExact, PolicyCurrent;
  }

  lemma ConfirmAccepts(db: Db, id: string, evaluation: string, decidedBy: string)
    requires Inv(db) && id !in db.decisions
    ensures Confirm(db, id, evaluation, decidedBy).Ok? <==>
              id != "" && evaluation != "" && decidedBy != "" && Confirmable(db, evaluation)
  {
    hide Inv, C.Evaluate, InputsExact;
    NextTransitionFree(db);
    if evaluation in db.evaluations {
      InputsStayExact(db, evaluation);
      if db.evaluations[evaluation].result == Judged(C.Satisfied) { SatisfiedInSuspicion(db, evaluation); }
    }
  }

  lemma NextTransitionFree(db: Db)
    requires Inv(db)
    ensures forall e :: e in db.epochs ==>
              && db.epochs[e].transitionGeneration == Rank(db.epochs[e].state)
              && (e, Rank(db.epochs[e].state) + 1) !in db.transitions
  {
    hide EvidenceInv, AboutInv, DecisionInv, ProofInv, EvaluationInv, FenceInv, FenceEvaluationInv, RequestInv,
         PolicyInv;
  }

  lemma SatisfiedInSuspicion(db: Db, evaluation: string)
    requires Inv(db) && evaluation in db.evaluations && db.evaluations[evaluation].result == Judged(C.Satisfied)
    ensures db.evaluations[evaluation].transitionGeneration == 1
    ensures db.evaluations[evaluation].epoch in db.epochs && db.evaluations[evaluation].policy.Some?
  {
    hide EvidenceInv, AboutInv, TransitionInv, DecisionInv, ProofInv, FenceInv, FenceEvaluationInv, RequestInv,
         PolicyInv, C.Evaluate, Load;
    assert EvaluationOk(db.epochs, db.evidence, db.policies, db.evaluations[evaluation]);
  }

  /** In every run, an epoch goes from SUSPECTED to CONFIRMED only in a state where the policy of
      the evaluation is for the epoch's class, is the current revision and is ACTIVE. */
  lemma ConfirmedUnderPolicyInForce(states: seq<Db>, steps: seq<Step>, i: nat, e: EpochId) returns (p: PolicyRef)
    requires Run(states, steps) && i < |steps| && e in states[i].epochs && states[i].epochs[e].state == Suspected
    requires e in states[i + 1].epochs && states[i + 1].epochs[e].state == Confirmed
    ensures steps[i].DoConfirm? && steps[i].evaluation in states[i].evaluations
    ensures states[i].evaluations[steps[i].evaluation].policy == Some(p)
    ensures states[i].evaluations[steps[i].evaluation].epoch == e
    ensures p.0 in states[i].currentPolicies && states[i].currentPolicies[p.0] == p.1
    ensures p in states[i].policies && states[i].policies[p].lifecycle == Active
    ensures states[i].policies[p].failureClass == states[i].epochs[e].request.failureClass
  {
    hide Run, Inv, Confirm, Evolves;
    NextOf(states, steps, i);
    EveryRun(states, steps, i, i);
    ConfirmStep(states[i], steps[i], e);
    ConfirmSucceeded(states[i], steps[i], e);
    ConfirmIff(states[i], steps[i].id, steps[i].evaluation, steps[i].decidedBy);
    p := states[i].evaluations[steps[i].evaluation].policy.value;
    SatisfiedClass(states[i], steps[i].evaluation);
  }

  lemma NextOf(states: seq<Db>, steps: seq<Step>, i: nat)
    requires Run(states, steps) && i < |steps|
    ensures |states| == |steps| + 1 && states[i + 1] == Next(states[i], steps[i])
  {
    hide Next;
  }

  lemma ConfirmSucceeded(db: Db, step: Step, e: EpochId)
    requires step.DoConfirm? && e in db.epochs && Next(db, step).epochs != db.epochs
    ensures Confirm(db, step.id, step.evaluation, step.decidedBy).Ok? && step.id !in db.decisions
  {
    hide InputsExact;
  }

  lemma SatisfiedClass(db: Db, evaluation: string)
    requires Inv(db) && evaluation in db.evaluations && db.evaluations[evaluation].result == Judged(C.Satisfied)
    ensures var ev := db.evaluations[evaluation];
            && ev.epoch in db.epochs && ev.policy.Some? && ev.policy.value in db.policies
            && db.policies[ev.policy.value].failureClass == db.epochs[ev.epoch].request.failureClass
  {
    hide EvidenceInv, AboutInv, TransitionInv, DecisionInv, ProofInv, FenceInv, FenceEvaluationInv, RequestInv,
         PolicyInv, C.Evaluate, Load;
    assert EvaluationOk(db.epochs, db.evidence, db.policies, db.evaluations[evaluation]);
  }

  // ----- fencing ------------------------------------------------------------------------------------

  /** What a reading of the host's authority and the machine's power proves. */
  ghost predicate Reads(x: FenceReading, state: FenceState) {
    var known := x.authorityGeneration > 0 && x.eventSequence > 0 && x.powerEvidence != "";
    || (known && x.shutoff && x.matched && state == Proven)
    || (known && !(x.shutoff && x.matched) && state == NotProven)
    || (!known && state == UnknownFence)
  }

  /** A new fencing observation is recorded exactly for a CONFIRMED epoch, as its next generation,
      with the state that its reading proves. */
  lemma RecordFencingIff(db: Db, id: string, e: EpochId, x: FenceReading)
    requires Inv(db) && forall k :: k in db.fencing ==> db.fencing[k].evidenceId != id
    ensures var r := RecordFencing(db, id, e, x);
            && (r.Ok? <==> id != "" && e != "" && e in db.epochs && db.epochs[e].state == Confirmed)
            && (r.Ok? ==>
                  var g := if e in db.fencingCurrent then db.fencingCurrent[e] + 1 else 1;
                  && (e, g) !in db.fencing && (e, g) in r.value.fencing
                  && var row := r.value.fencing[(e, g)];
                  && Reads(x, row.state) && row.evidenceId == id
                  && row == FencingRow(id, x.authorityGeneration, x.eventSequence, x.powerEvidence, x.shutoff,
                                       x.matched, row.state)
                  && r.value == db.(fencing := db.fencing[(e, g) := row],
                                    fencingCurrent := db.fencingCurrent[e := g]))
  {
    hide Inv;
    NextFenceFree(db, e);
  }

  lemma NextFenceFree(db: Db, e: EpochId)
    requires Inv(db)
    ensures (e, FencingLatest(db, e) + 1) !in db.fencing
  {
    hide EvidenceInv, AboutInv, TransitionInv, DecisionInv, ProofInv, EvaluationInv, FenceEvaluationInv, RequestInv,
         PolicyInv;
  }

  ghost predicate FencingInForce(db: Db, p: PolicyRef) {
    && p in db.fencingPolicies && db.fencingPolicies[p].lifecycle == Active
    && p.0 in db.currentFencingPolicies && db.currentFencingPolicies[p.0] == p.1
  }

  /** A new fencing evaluation is always recorded; it carries the state of the epoch's latest
      observation exactly when a fencing policy is bound and in force and the epoch is CONFIRMED. */
  lemma EvaluateFencingIff(db: Db, id: string, e: EpochId, evaluator: string, bound: Option<PolicyRef>)
    requires Inv(db) && id !in db.fencingEvaluations
    ensures var r := EvaluateFencing(db, id, e, evaluator, bound);
            && (r.Ok? <==> id != "" && e != "" && evaluator != "" && e in db.epochs)
            && (r.Ok? ==>
                  && id in r.value.fencingEvaluations
                  && var ev := r.value.fencingEvaluations[id];
                  && r.value == db.(fencingEvaluations := db.fencingEvaluations[id := ev])
                  && ev.epoch == e && ev.policy == bound && ev.evaluator == evaluator
                  && ev.transitionGeneration == db.epochs[e].transitionGeneration
                  && (if bound.None? then ev.result == FenceNoPolicy
                      else if db.epochs[e].state == Suspected || db.epochs[e].state == Fenced
                      then ev.result == FenceStaleEpoch
                      else if !FencingInForce(db, bound.value) then ev.result == FenceStalePolicy
                      else if e !in db.fencingCurrent then ev.result == FenceVerdict(NotProven)
                      else var row := db.fencing[(e, db.fencingCurrent[e])];
                           && ev.result == FenceVerdict(row.state)
                           && ev.generation == db.fencingCurrent[e] && ev.evidenceId == row.evidenceId))
  {
    hide EvidenceInv, AboutInv, TransitionInv, DecisionInv, ProofInv, EvaluationInv, FenceEvaluationInv, RequestInv,
         PolicyInv;
    LatestFenceExists(db);
  }

  lemma LatestFenceExists(db: Db)
    requires Inv(db)
    ensures forall e :: e in db.fencingCurrent ==> (e, db.fencingCurrent[e]) in db.fencing
  {
    hide EvidenceInv, AboutInv, TransitionInv, DecisionInv, ProofInv, EvaluationInv, FenceEvaluationInv, RequestInv,
         PolicyInv;
  }

  /** A PROVEN evaluation of what is still the latest observation of a CONFIRMED epoch, under a
      fencing policy still in force. */
  ghost predicate Fenceable(db: Db, evaluation: string) {
    && evaluation in db.fencingEvaluations
    && var ev := db.fencingEvaluations[evaluation];
    && ev.result == FenceVerdict(Proven) && ev.policy.Some? && FencingInForce(db, ev.policy.value)
    && ev.epoch in db.epochs && db.epochs[ev.epoch].state == Confirmed
    && ev.epoch in db.fencingCurrent && db.fencingCurrent[ev.epoch] == ev.generation
  }

  /** A new proof fences exactly such an epoch. */
  lemma MaterializeIff(db: Db, id: string, evaluation: string, decidedBy: string)
    requires Inv(db) && id !in db.proofs
    ensures var r := Materialize(db, id, evaluation, decidedBy);
            && (r.Ok? <==>
                  id != "" && evaluation != "" && decidedBy != "" && Fenceable(db, evaluation))
            && (r.Ok? ==>
                  && evaluation in db.fencingEvaluations && db.fencingEvaluations[evaluation].epoch in db.epochs
                  && var ev := db.fencingEvaluations[evaluation];
                  var e := ev.epoch;
                  && r.value.epoch == e
                  && r.value.db == db.(proofs := db.proofs[id := Proof(e, evaluation, ev.evidenceId, decidedBy)],
                       transitions := db.transitions[(e, 3) := Transition(Some(Confirmed), Fenced, ByProof(id))],
                       epochs := db.epochs[e := db.epochs[e].(state := Fenced, transitionGeneration := 3)]))
  {
    hide Inv;
    NextTransitionFree(db);
    LatestFenceExists(db);
    if evaluation in db.fencingEvaluations && db.fencingEvaluations[evaluation].result == FenceVerdict(Proven) {
      ProvenEvaluation(db, evaluation);
    }
  }

  /** What a PROVEN evaluation rests on, and that an epoch that is not FENCED has no proof yet. */
  lemma ProvenEvaluation(db: Db, evaluation: string)
    requires Inv(db) && evaluation in db.fencingEvaluations
    requires db.fencingEvaluations[evaluation].result == FenceVerdict(Proven)
    ensures var ev := db.fencingEvaluations[evaluation];
            && ev.policy.Some? && ev.transitionGeneration == 2
            && (ev.epoch, ev.generation) in db.fencing
            && db.fencing[(ev.epoch, ev.generation)].evidenceId == ev.evidenceId
            && (ev.epoch in db.epochs && db.epochs[ev.epoch].state == Confirmed ==>
                  forall p :: p in db.proofs ==> db.proofs[p].epoch != ev.epoch)
  {
    hide EvidenceInv, AboutInv, DecisionInv, EvaluationInv, FenceInv, RequestInv, PolicyInv;
  }

  /** In every run, an epoch becomes FENCED only from CONFIRMED and only in a state where the
      evaluation's fencing policy is the current revision and ACTIVE, and its observation is the
      latest one and PROVEN. */
  lemma FencedUnderPolicyInForce(states: seq<Db>, steps: seq<Step>, i: nat, e: EpochId) returns (p: PolicyRef)
    requires Run(states, steps) && i < |steps| && e in states[i].epochs && states[i].epochs[e].state != Fenced
    requires e in states[i + 1].epochs && states[i + 1].epochs[e].state == Fenced
    ensures states[i].epochs[e].state == Confirmed
    ensures steps[i].DoMaterialize? && steps[i].evaluation in states[i].fencingEvaluations
    ensures states[i].fencingEvaluations[steps[i].evaluation].policy == Some(p)
    ensures states[i].fencingEvaluations[steps[i].evaluation].epoch == e
    ensures p.0 in states[i].currentFencingPolicies && states[i].currentFencingPolicies[p.0] == p.1
    ensures p in states[i].fencingPolicies && states[i].fencingPolicies[p].lifecycle == Active
    ensures e in states[i].fencingCurrent && (e, states[i].fencingCurrent[e]) in states[i].fencing
    ensures states[i].fencing[(e, states[i].fencingCurrent[e])].state == Proven
  {
    hide Run, Inv, Materialize, Evolves;
    NextOf(states, steps, i);
    EveryRun(states, steps, i, i);
    MaterializeStep(states[i], steps[i], e);
    MaterializeIff(states[i], steps[i].id, steps[i].evaluation, steps[i].decidedBy);
    MaterializeForm(states[i], steps[i].id, steps[i].evaluation, steps[i].decidedBy);
    p := states[i].fencingEvaluations[steps[i].evaluation].policy.value;
  }

  /** Only Materialize makes an epoch FENCED. */
  lemma MaterializeStep(db: Db, step: Step, e: EpochId)
    requires Inv(db) && e in db.epochs && db.epochs[e].state != Fenced
    requires e in Next(db, step).epochs && Next(db, step).epochs[e].state == Fenced
    ensures step.DoMaterialize? && step.id !in db.proofs
    ensures Materialize(db, step.id, step.evaluation, step.decidedBy).Ok?
    ensures step.evaluation in db.fencingEvaluations && db.fencingEvaluations[step.evaluation].epoch == e
  {
    hide Inv, Publish, PublishFencing, Open, Append, Evaluate, Confirm, RecordFencing, EvaluateFencing, Materialize;
    match step
    case DoMaterialize(id, ev, who) =>
      if Materialize(db, id, ev, who).Ok? {
        if id in db.proofs { ProofStable(db, id, ev, who); } else { MaterializeForm(db, id, ev, who); }
      }
    case DoConfirm(id, ev, who) =>
      if Confirm(db, id, ev, who).Ok? {
        if id in db.decisions { DecisionStable(db, id, ev, who); } else { ConfirmForm(db, id, ev, who); }
      }
    case DoOpen(q, p, c) => OpenLeaves(db, q, p, c, e);
    case DoAppend(a, o, c) => AppendLeaves(db, a, o, c, e);
    case DoPublish(id, revision, b) => EpochsUntouched(db, step);
    case DoPublishFencing(id, revision, b) => EpochsUntouched(db, step);
    case DoEvaluate(id, a, v, b) => EpochsUntouched(db, step);
    case DoRecordFencing(id, a, x) => EpochsUntouched(db, step);
    case DoEvaluateFencing(id, a, v, b) => EpochsUntouched(db, step);
  }

  // ----- repeated requests ----------------------------------------------------------------------------

  /** A repeated evaluation, decision or proof answers for what was recorded under its
      identifier, only for the same arguments, and writes nothing. */
  lemma RepeatsWriteNothing(db: Db, id: string, of: string, who: string, bound: Option<PolicyRef>)
    requires id != "" && of != "" && who != ""
    ensures id in db.evaluations ==>
              Evaluate(db, id, of, who, bound) ==
                if (db.evaluations[id].epoch, db.evaluations[id].evaluator) == (of, who) then Ok(db) else Err(Conflict)
    ensures id in db.decisions ==>
              Confirm(db, id, of, who) ==
                if (db.decisions[id].evaluation, db.decisions[id].decidedBy) == (of, who)
                then Ok(Decided(db, db.decisions[id].epoch)) else Err(Conflict)
    ensures id in db.fencingEvaluations ==>
              EvaluateFencing(db, id, of, who, bound) ==
                if (db.fencingEvaluations[id].epoch, db.fencingEvaluations[id].evaluator) == (of, who) then Ok(db)
                else Err(Conflict)
    ensures id in db.proofs ==>
              Materialize(db, id, of, who) ==
                if (db.proofs[id].evaluation, db.proofs[id].decidedBy) == (of, who)
                then Ok(Decided(db, db.proofs[id].epoch)) else Err(Conflict)
  {
  }

  /** A fencing observation that is known answers for its own epoch only. */
  lemma FencingRepeats(db: Db, id: string, e: EpochId, x: FenceReading, k: (EpochId, nat))
    requires Inv(db) && k in db.fencing && db.fencing[k].evidenceId == id && id != "" && e != ""
    ensures RecordFencing(db, id, e, x) == if k.0 == e then Ok(db) else Err(Conflict)
  {
    hide EvidenceInv, AboutInv, TransitionInv, DecisionInv, ProofInv, EvaluationInv, FenceEvaluationInv, RequestInv,
         PolicyInv;
    assert FenceRecorded(db, id);
  }
}
