/** What holds of failure epochs in every run. */
module FailureEpochRuns {
  import opened Common
  import opened Tables
  import opened FailureEpoch
  import C = Confirmation
  import Laws = ConfirmationLaws

  // ----- the invariant ---------------------------------------------------------------------------

  function Rank(s: State): nat {
    match s case Suspected => 1 case Confirmed => 2 case Fenced => 3
  }

  type Epochs = map<EpochId, Epoch>
  type EvidenceTable = map<(EpochId, nat), C.Observation>
  type TransitionTable = map<(EpochId, nat), Transition>
  type FencingTable = map<(EpochId, nat), FencingRow>

  /** Evidence generations of an epoch are exactly 1..latest, and an evidence identifier names
      one row. */
  ghost predicate EvidenceInv(epochs: Epochs, evidence: EvidenceTable) {
    && (forall e, g :: (e, g) in evidence <==> e in epochs && 1 <= g <= epochs[e].latestEvidence)
    && (forall e :: e in epochs ==> epochs[e].latestEvidence >= 1)
    && (forall j, k :: j in evidence && k in evidence && evidence[j].evidenceId == evidence[k].evidenceId ==> j == k)
    && (forall k :: k in evidence ==> evidence[k].Valid())
  }

  /** The first evidence of an epoch is its trigger, and all of it is about its host. */
  ghost predicate AboutInv(epochs: Epochs, evidence: EvidenceTable) {
    && (forall k :: k in evidence ==> k.0 in epochs && evidence[k].host == epochs[k.0].host)
    && (forall e :: e in epochs ==> (e, 1) in evidence && evidence[(e, 1)] == epochs[e].request.trigger)
  }

  /** Transition generations are exactly 1 SUSPECTED, 2 CONFIRMED, 3 FENCED, up to the state. */
  ghost predicate TransitionInv(epochs: Epochs, transitions: TransitionTable) {
    && (forall e, g :: (e, g) in transitions <==> e in epochs && 1 <= g <= Rank(epochs[e].state))
    && (forall e :: e in epochs ==>
          && epochs[e].transitionGeneration == Rank(epochs[e].state)
          && transitions[(e, 1)] == Transition(None, Suspected, ByTrigger(epochs[e].request.trigger.evidenceId))
          && (epochs[e].state != Suspected ==>
                transitions[(e, 2)].from == Some(Suspected) && transitions[(e, 2)].to == Confirmed
                && transitions[(e, 2)].cause.ByDecision?)
          && (epochs[e].state == Fenced ==>
                transitions[(e, 3)].from == Some(Confirmed) && transitions[(e, 3)].to == Fenced
                && transitions[(e, 3)].cause.ByProof?))
  }

  /** A CONFIRMED transition rests on a decision for that epoch, and the decision on a SATISFIED
      evaluation of it. */
  ghost predicate DecisionInv(transitions: TransitionTable, decisions: map<string, Decision>,
                              evaluations: map<string, Evaluation>) {
    forall e, g :: (e, g) in transitions && transitions[(e, g)].cause.ByDecision? ==>
      var d := transitions[(e, g)].cause.decisionId;
      && d in decisions && decisions[d].epoch == e
      && decisions[d].evaluation in evaluations
      && evaluations[decisions[d].evaluation].epoch == e
      && evaluations[decisions[d].evaluation].result == Judged(C.Satisfied)
  }

  /** A FENCED transition rests on a proof for that epoch, and the proof on the epoch's latest
      fencing observation, which is PROVEN; and a proof is there only with its transition. */
  ghost predicate ProofInv(transitions: TransitionTable, proofs: map<string, Proof>, fencing: FencingTable,
                           current: map<EpochId, nat>) {
    && (forall p :: p in proofs ==> (proofs[p].epoch, 3) in transitions)
    && forall e, g :: (e, g) in transitions && transitions[(e, g)].cause.ByProof? ==>
         var p := transitions[(e, g)].cause.proofId;
         && p in proofs && proofs[p].epoch == e
         && e in current && (e, current[e]) in fencing
         && fencing[(e, current[e])].state == Proven
         && fencing[(e, current[e])].evidenceId == proofs[p].evidenceId
  }

  /** An evaluation holds the whole evidence of its epoch as of its evidence generation, and a
      SATISFIED one is what the evaluator says about that evidence under the named policy. */
  ghost predicate EvaluationOk(epochs: Epochs, evidence: EvidenceTable, policies: map<PolicyRef, PolicyBody>,
                               ev: Evaluation) {
    && ev.epoch in epochs && 1 <= ev.latestEvidence <= epochs[ev.epoch].latestEvidence
    && ev.inputs == Load(evidence, ev.epoch, ev.latestEvidence)
    && (ev.result == Judged(C.Satisfied) ==>
          && ev.transitionGeneration == 1
          && ev.policy.Some? && ev.policy.value in policies
          && policies[ev.policy.value].failureClass == epochs[ev.epoch].request.failureClass
          && C.Evaluate(policies[ev.policy.value].policy, Observations(ev.inputs)) == C.Satisfied)
  }

  ghost predicate EvaluationInv(epochs: Epochs, evidence: EvidenceTable, policies: map<PolicyRef, PolicyBody>,
                                evaluations: map<string, Evaluation>) {
    forall id :: id in evaluations ==> EvaluationOk(epochs, evidence, policies, evaluations[id])
  }

  ghost predicate PolicyInv(policies: map<PolicyRef, PolicyBody>) {
    forall p :: p in policies ==> BodyValid(policies[p])
  }

  /** Fencing generations are exactly 1..latest, none before confirmation, an evidence identifier
      names one row, and PROVEN names a FENCED authority event and power evidence that says shut
      off and matched. */
  ghost predicate FenceInv(epochs: Epochs, fencing: FencingTable, current: map<EpochId, nat>) {
    && (forall e, g :: (e, g) in fencing <==> e in current && 1 <= g <= current[e])
    && (forall e :: e in current ==> e in epochs && epochs[e].state != Suspected && current[e] >= 1)
    && (forall j, k :: j in fencing && k in fencing && fencing[j].evidenceId == fencing[k].evidenceId ==> j == k)
    && (forall k :: k in fencing ==> Substantiated(fencing[k]))
  }

  ghost predicate Substantiated(row: FencingRow) {
    row.state == Proven ==>
      row.authorityGeneration > 0 && row.eventSequence > 0 && row.powerEvidence != "" && row.shutoff && row.matched
  }

  /** A PROVEN fencing evaluation names a PROVEN observation of its epoch, which was CONFIRMED. */
  ghost predicate FenceEvaluationInv(fencing: FencingTable, evaluations: map<string, FencingEvaluation>) {
    forall id :: id in evaluations && evaluations[id].result == FenceVerdict(Proven) ==>
      var ev := evaluations[id];
      && ev.policy.Some? && ev.transitionGeneration == 2
      && (ev.epoch, ev.generation) in fencing
      && fencing[(ev.epoch, ev.generation)].state == Proven
      && fencing[(ev.epoch, ev.generation)].evidenceId == ev.evidenceId
  }

  /** One epoch per incident, each opened by its own recorded request. */
  ghost predicate RequestInv(epochs: Epochs, requests: map<string, OpenRequest>) {
    && (forall a, b :: a in epochs && b in epochs && SameIncident(epochs[a].request, epochs[b].request) ==> a == b)
    && (forall e :: e in epochs ==>
          epochs[e].request.epochId == e && epochs[e].request.requestId in requests
          && requests[epochs[e].request.requestId] == epochs[e].request)
    && (forall id :: id in requests ==> requests[id].requestId == id && requests[id].epochId in epochs
                                        && epochs[requests[id].epochId].request == requests[id])
  }

  ghost predicate Inv(db: Db) {
    && EvidenceInv(db.epochs, db.evidence) && AboutInv(db.epochs, db.evidence)
    && TransitionInv(db.epochs, db.transitions)
    && DecisionInv(db.transitions, db.decisions, db.evaluations)
    && ProofInv(db.transitions, db.proofs, db.fencing, db.fencingCurrent)
    && EvaluationInv(db.epochs, db.evidence, db.policies, db.evaluations)
    && PolicyInv(db.policies)
    && FenceInv(db.epochs, db.fencing, db.fencingCurrent)
    && FenceEvaluationInv(db.fencing, db.fencingEvaluations)
    && RequestInv(db.epochs, db.requests)
  }

  const EMPTY: Db := Db(map[], map[], map[], map[], map[], map[], map[], map[], map[], map[], map[], map[],
                        map[], map[])

  lemma EmptyHolds()
    ensures Inv(EMPTY)
  {
  }

  // ----- evolution --------------------------------------------------------------------------------

  /** Evidence is append-only, and an epoch keeps its origin and never goes back. */
  ghost predicate Evolves(db: Db, db': Db) {
    && Grows(db.policies, db'.policies) && Grows(db.requests, db'.requests)
    && Grows(db.evidence, db'.evidence) && Grows(db.transitions, db'.transitions)
    && Grows(db.evaluations, db'.evaluations) && Grows(db.decisions, db'.decisions)
    && Grows(db.fencing, db'.fencing) && Grows(db.fencingEvaluations, db'.fencingEvaluations)
    && Grows(db.proofs, db'.proofs) && Grows(db.fencingPolicies, db'.fencingPolicies)
    && EpochsEvolve(db.epochs, db'.epochs)
    && FencesEvolve(db.epochs, db.fencingCurrent, db'.fencingCurrent)
  }

  ghost predicate EpochsEvolve(epochs: Epochs, epochs': Epochs) {
    forall e :: e in epochs ==>
      && e in epochs' && epochs'[e].request == epochs[e].request && epochs'[e].host == epochs[e].host
      && Rank(epochs[e].state) <= Rank(epochs'[e].state)
      && epochs[e].latestEvidence <= epochs'[e].latestEvidence
  }

  /** The fencing observations of a FENCED epoch are closed. */
  ghost predicate FencesEvolve(epochs: Epochs, current: map<EpochId, nat>, current': map<EpochId, nat>) {
    forall e :: e in epochs && epochs[e].state == Fenced && e in current ==> e in current' && current'[e] == current[e]
  }

  // ----- loading evidence ---------------------------------------------------------------------------

  lemma {:induction false} LoadStable(a: map<(EpochId, nat), C.Observation>, b: map<(EpochId, nat), C.Observation>,
                                      e: EpochId, n: nat)
    requires Grows(a, b) && forall g :: 1 <= g <= n ==> (e, g) in a
    ensures Load(a, e, n) == Load(b, e, n)
  {
    if n > 0 { LoadStable(a, b, e, n - 1); }
  }

  /** What is loaded is exactly generations 1..n, in order. */
  lemma {:induction false} LoadIsAll(evidence: map<(EpochId, nat), C.Observation>, e: EpochId, n: nat)
    requires forall g :: 1 <= g <= n ==> (e, g) in evidence
    ensures |Load(evidence, e, n)| == n
    ensures forall i :: 0 <= i < n ==> Load(evidence, e, n)[i] == (i + 1, evidence[(e, i + 1)])
  {
    if n > 0 { LoadIsAll(evidence, e, n - 1); }
  }

  lemma NewestIsLatest(db: Db, e: EpochId)
    requires EvidenceInv(db.epochs, db.evidence) && e in db.epochs
    ensures Newest(db.evidence, e) == db.epochs[e].latestEvidence
  {
    var n := db.epochs[e].latestEvidence;
    assert (e, n) in db.evidence;
    assert forall h :: (e, h) in db.evidence ==> h <= n;
  }

  // ----- each transaction keeps the invariant -----------------------------------------------------

  ghost predicate Good(db: Db, db': Db) { Inv(db') && Evolves(db, db') }

  lemma Unchanged(db: Db)
    requires Inv(db)
    ensures Good(db, db)
  {
  }

  /** Tables that a transaction leaves alone. */
  lemma StillEvolves(db: Db)
    ensures Evolves(db, db)
  {
  }

  /** Evaluations stay right while evidence, policies and epochs only grow. */
  lemma EvaluationsStable(epochs: Epochs, evidence: EvidenceTable, policies: map<PolicyRef, PolicyBody>,
                          epochs': Epochs, evidence': EvidenceTable, policies': map<PolicyRef, PolicyBody>,
                          evaluations: map<string, Evaluation>)
    requires EvidenceInv(epochs, evidence) && EvaluationInv(epochs, evidence, policies, evaluations)
    requires Grows(evidence, evidence') && Grows(policies, policies') && EpochsEvolve(epochs, epochs')
    ensures EvaluationInv(epochs', evidence', policies', evaluations)
  {
    hide C.Evaluate;
    forall id | id in evaluations ensures EvaluationOk(epochs', evidence', policies', evaluations[id]) {
      var ev := evaluations[id];
      assert EvaluationOk(epochs, evidence, policies, ev);
      LoadStable(evidence, evidence', ev.epoch, ev.latestEvidence);
    }
  }

  lemma PublishKeeps(db: Db, id: string, revision: nat, b: PolicyBody)
    requires Inv(db) && Publish(db, id, revision, b).Ok?
    ensures Good(db, Publish(db, id, revision, b).value)
  {
    hide EvidenceInv, AboutInv, TransitionInv, DecisionInv, ProofInv, EvaluationInv, FenceInv, FenceEvaluationInv,
         RequestInv, Grows, EpochsEvolve, FencesEvolve, BodyValid;
    StillEvolves(db);
    var db' := Publish(db, id, revision, b).value;
    if (id, revision) !in db.policies {
      Added(db.policies, (id, revision), b);
      EvaluationsStable(db.epochs, db.evidence, db.policies, db'.epochs, db'.evidence, db'.policies, db.evaluations);
    }
  }

  lemma PublishFencingKeeps(db: Db, id: string, revision: nat, b: FencingPolicy)
    requires Inv(db) && PublishFencing(db, id, revision, b).Ok?
    ensures Good(db, PublishFencing(db, id, revision, b).value)
  {
    hide EvidenceInv, AboutInv, TransitionInv, DecisionInv, ProofInv, EvaluationInv, FenceInv, FenceEvaluationInv,
         RequestInv, Grows, EpochsEvolve, FencesEvolve, PolicyInv;
    StillEvolves(db);
    if (id, revision) !in db.fencingPolicies { Added(db.fencingPolicies, (id, revision), b); }
  }

  lemma OpenEvidence(epochs: Epochs, evidence: EvidenceTable, epoch: Epoch, id: EpochId)
    requires EvidenceInv(epochs, evidence) && id !in epochs && epoch.latestEvidence == 1
             && epoch.request.trigger.Valid()
    requires forall k :: k in evidence ==> evidence[k].evidenceId != epoch.request.trigger.evidenceId
    ensures EvidenceInv(epochs[id := epoch], evidence[(id, 1) := epoch.request.trigger])
  {
  }

  lemma OpenTransitions(epochs: Epochs, transitions: TransitionTable, epoch: Epoch, id: EpochId)
    requires TransitionInv(epochs, transitions) && id !in epochs && epoch.state == Suspected
             && epoch.transitionGeneration == 1
    ensures TransitionInv(epochs[id := epoch],
                          transitions[(id, 1) := Transition(None, Suspected,
                                                            ByTrigger(epoch.request.trigger.evidenceId))])
  {
  }

  lemma OpenRest(db: Db, epoch: Epoch, id: EpochId)
    requires id !in db.epochs && (id, 1) !in db.transitions
    ensures EpochsEvolve(db.epochs, db.epochs[id := epoch])
    ensures var t := db.transitions[(id, 1) := Transition(None, Suspected,
                                                          ByTrigger(epoch.request.trigger.evidenceId))];
            && (DecisionInv(db.transitions, db.decisions, db.evaluations) ==>
                DecisionInv(t, db.decisions, db.evaluations))
            && (ProofInv(db.transitions, db.proofs, db.fencing, db.fencingCurrent) ==>
                ProofInv(t, db.proofs, db.fencing, db.fencingCurrent))
    ensures FenceInv(db.epochs, db.fencing, db.fencingCurrent) ==>
              FenceInv(db.epochs[id := epoch], db.fencing, db.fencingCurrent)
  {
  }

  lemma OpenRequests(epochs: Epochs, requests: map<string, OpenRequest>, epoch: Epoch)
    requires RequestInv(epochs, requests)
    requires epoch.request.epochId !in epochs && epoch.request.requestId !in requests
    requires forall id :: id in epochs ==> !SameIncident(epochs[id].request, epoch.request)
    ensures RequestInv(epochs[epoch.request.epochId := epoch], requests[epoch.request.requestId := epoch.request])
  {
  }

  lemma OpenKeeps(db: Db, r: OpenRequest, placement: Option<Placement>, sourceCurrent: bool)
    requires Inv(db) && Open(db, r, placement, sourceCurrent).Ok?
    ensures Good(db, Open(db, r, placement, sourceCurrent).value.db)
  {
    hide EvidenceInv, AboutInv, TransitionInv, DecisionInv, ProofInv, EvaluationInv, FenceInv, FenceEvaluationInv,
         RequestInv, Grows, EpochsEvolve, FencesEvolve, PolicyInv;
    StillEvolves(db);
    var db' := Open(db, r, placement, sourceCurrent).value.db;
    if r.requestId !in db.requests && !Correlated(db, r) {
      var epoch := db'.epochs[r.epochId];
      OpenEvidence(db.epochs, db.evidence, epoch, r.epochId);
      AboutOpened(db.epochs, db.evidence, r.epochId, epoch);
      OpenTransitions(db.epochs, db.transitions, epoch, r.epochId);
      OpenRest(db, epoch, r.epochId);
      OpenRequests(db.epochs, db.requests, epoch);
      Added(db.requests, r.requestId, r);
      Added(db.evidence, (r.epochId, 1), r.trigger);
      Added(db.transitions, (r.epochId, 1), Transition(None, Suspected, ByTrigger(r.trigger.evidenceId)));
      Same(db.policies);
      EvaluationsStable(db.epochs, db.evidence, db.policies, db'.epochs, db'.evidence, db'.policies, db.evaluations);
    }
  }

  lemma AboutSame(epochs: Epochs, evidence: EvidenceTable, id: EpochId, epoch: Epoch)
    requires AboutInv(epochs, evidence) && id in epochs && epoch.host == epochs[id].host
             && epoch.request == epochs[id].request
    ensures AboutInv(epochs[id := epoch], evidence)
  {
  }

  lemma AboutAdded(epochs: Epochs, evidence: EvidenceTable, k: (EpochId, nat), o: C.Observation)
    requires AboutInv(epochs, evidence) && k.0 in epochs && k !in evidence && o.host == epochs[k.0].host
    ensures AboutInv(epochs, evidence[k := o])
  {
  }

  lemma AboutOpened(epochs: Epochs, evidence: EvidenceTable, id: EpochId, epoch: Epoch)
    requires AboutInv(epochs, evidence) && id !in epochs && epoch.request.trigger.host == epoch.host
    ensures AboutInv(epochs[id := epoch], evidence[(id, 1) := epoch.request.trigger])
  {
  }

  lemma RequestsSame(epochs: Epochs, requests: map<string, OpenRequest>, id: EpochId, epoch: Epoch)
    requires RequestInv(epochs, requests) && id in epochs && epoch.request == epochs[id].request
    ensures RequestInv(epochs[id := epoch], requests)
  {
  }

  lemma FencesSame(epochs: Epochs, fencing: FencingTable, current: map<EpochId, nat>, id: EpochId, epoch: Epoch)
    requires FenceInv(epochs, fencing, current) && id in epochs
             && (epochs[id].state != Suspected ==> epoch.state != Suspected)
    ensures FenceInv(epochs[id := epoch], fencing, current)
  {
  }

  lemma EvidenceSame(epochs: Epochs, evidence: EvidenceTable, id: EpochId, epoch: Epoch)
    requires EvidenceInv(epochs, evidence) && id in epochs && epoch.latestEvidence == epochs[id].latestEvidence
    ensures EvidenceInv(epochs[id := epoch], evidence)
  {
  }

  lemma EvidenceAdded(epochs: Epochs, evidence: EvidenceTable, id: EpochId, o: C.Observation)
    requires EvidenceInv(epochs, evidence) && id in epochs && o.Valid()
    requires forall k :: k in evidence ==> evidence[k].evidenceId != o.evidenceId
    ensures var g := epochs[id].latestEvidence + 1;
            (id, g) !in evidence && EvidenceInv(epochs[id := epochs[id].(latestEvidence := g)], evidence[(id, g) := o])
  {
  }

  lemma TransitionsSame(epochs: Epochs, transitions: TransitionTable, id: EpochId, g: nat)
    requires TransitionInv(epochs, transitions) && id in epochs
    ensures TransitionInv(epochs[id := epochs[id].(latestEvidence := g)], transitions)
  {
  }

  lemma TransitionAdded(epochs: Epochs, transitions: TransitionTable, id: EpochId, to: State, cause: Cause)
    requires TransitionInv(epochs, transitions) && id in epochs && Rank(to) == Rank(epochs[id].state) + 1
    requires if to == Confirmed then cause.ByDecision? else cause.ByProof?
    ensures (id, Rank(to)) !in transitions
    ensures TransitionInv(epochs[id := epochs[id].(state := to, transitionGeneration := Rank(to))],
                          transitions[(id, Rank(to)) := Transition(Some(epochs[id].state), to, cause)])
  {
  }

  lemma EpochEvolves(epochs: Epochs, id: EpochId, epoch: Epoch)
    requires id in epochs && epoch.request == epochs[id].request && epoch.host == epochs[id].host
    requires Rank(epochs[id].state) <= Rank(epoch.state) && epochs[id].latestEvidence <= epoch.latestEvidence
    ensures EpochsEvolve(epochs, epochs[id := epoch])
  {
  }

  lemma DecisionAdded(db: Db, id: EpochId, d: string, decision: Decision)
    requires DecisionInv(db.transitions, db.decisions, db.evaluations)
    requires ProofInv(db.transitions, db.proofs, db.fencing, db.fencingCurrent)
    requires d !in db.decisions && (id, 2) !in db.transitions
    requires decision.epoch == id && decision.evaluation in db.evaluations
             && db.evaluations[decision.evaluation].epoch == id
    requires db.evaluations[decision.evaluation].result == Judged(C.Satisfied)
    ensures var transitions' := db.transitions[(id, 2) := Transition(Some(Suspected), Confirmed, ByDecision(d))];
            && DecisionInv(transitions', db.decisions[d := decision], db.evaluations)
            && ProofInv(transitions', db.proofs, db.fencing, db.fencingCurrent)
  {
  }

  lemma ProofAdded(db: Db, id: EpochId, p: string, proof: Proof)
    requires DecisionInv(db.transitions, db.decisions, db.evaluations)
    requires ProofInv(db.transitions, db.proofs, db.fencing, db.fencingCurrent)
    requires p !in db.proofs && (id, 3) !in db.transitions && proof.epoch == id
    requires CurrentFence(db, id).Some? && CurrentFence(db, id).value.state == Proven
             && CurrentFence(db, id).value.evidenceId == proof.evidenceId
    ensures var transitions' := db.transitions[(id, 3) := Transition(Some(Confirmed), Fenced, ByProof(p))];
            && DecisionInv(transitions', db.decisions, db.evaluations)
            && ProofInv(transitions', db.proofs[p := proof], db.fencing, db.fencingCurrent)
  {
  }

  lemma AppendKeeps(db: Db, epochId: EpochId, o: C.Observation, sourceCurrent: bool)
    requires Inv(db) && Append(db, epochId, o, sourceCurrent).Ok?
    ensures Good(db, Append(db, epochId, o, sourceCurrent).value.db)
  {
    hide EvidenceInv, AboutInv, TransitionInv, DecisionInv, ProofInv, EvaluationInv, FenceInv, FenceEvaluationInv,
         RequestInv, Grows, EpochsEvolve, FencesEvolve, PolicyInv;
    StillEvolves(db);
    var db' := Append(db, epochId, o, sourceCurrent).value.db;
    if !Recorded(db, o.evidenceId) {
      NewestIsLatest(db, epochId);
      var epoch' := db'.epochs[epochId];
      EvidenceAdded(db.epochs, db.evidence, epochId, o);
      AboutSame(db.epochs, db.evidence, epochId, epoch');
      AboutAdded(db'.epochs, db.evidence, (epochId, epoch'.latestEvidence), o);
      TransitionsSame(db.epochs, db.transitions, epochId, epoch'.latestEvidence);
      FencesSame(db.epochs, db.fencing, db.fencingCurrent, epochId, epoch');
      RequestsSame(db.epochs, db.requests, epochId, epoch');
      EpochEvolves(db.epochs, epochId, epoch');
      Added(db.evidence, (epochId, db.epochs[epochId].latestEvidence + 1), o);
      Same(db.policies);
      EvaluationsStable(db.epochs, db.evidence, db.policies, db'.epochs, db'.evidence, db'.policies, db.evaluations);
    }
  }

  lemma EvaluateAdds(db: Db, id: string, ev: Evaluation)
    requires Inv(db) && id !in db.evaluations && EvaluationOk(db.epochs, db.evidence, db.policies, ev)
    ensures EvaluationInv(db.epochs, db.evidence, db.policies, db.evaluations[id := ev])
    ensures DecisionInv(db.transitions, db.decisions, db.evaluations[id := ev])
  {
    hide EvidenceInv, AboutInv, TransitionInv, ProofInv, FenceInv, FenceEvaluationInv, RequestInv, PolicyInv,
         EvaluationOk;
  }

  lemma EvaluateKeeps(db: Db, id: string, epochId: EpochId, evaluator: string, bound: Option<PolicyRef>)
    requires Inv(db) && Evaluate(db, id, epochId, evaluator, bound).Ok?
    ensures Good(db, Evaluate(db, id, epochId, evaluator, bound).value)
  {
    hide AboutInv, TransitionInv, DecisionInv, ProofInv, EvaluationInv, FenceInv, FenceEvaluationInv, RequestInv,
         Grows, EpochsEvolve, FencesEvolve, PolicyInv, C.Evaluate, Load;
    StillEvolves(db);
    Generation(db);
    var db' := Evaluate(db, id, epochId, evaluator, bound).value;
    if id !in db.evaluations {
      EvaluateAdds(db, id, db'.evaluations[id]);
      Added(db.evaluations, id, db'.evaluations[id]);
    }
  }

  /** The whole effect of a new decision. */
  lemma ConfirmForm(db: Db, decisionId: string, evaluationId: string, decidedBy: string)
    requires Inv(db) && Confirm(db, decisionId, evaluationId, decidedBy).Ok? && decisionId !in db.decisions
    ensures evaluationId in db.evaluations && db.evaluations[evaluationId].result == Judged(C.Satisfied)
    ensures var id := db.evaluations[evaluationId].epoch;
            && id in db.epochs && db.epochs[id].state == Suspected
            && db.epochs[id].latestEvidence == db.evaluations[evaluationId].latestEvidence
            && Confirm(db, decisionId, evaluationId, decidedBy).value.db ==
               db.(decisions := db.decisions[decisionId := Decision(id, evaluationId, decidedBy)],
                   transitions := db.transitions[(id, 2) := Transition(Some(Suspected), Confirmed,
                         ByDecision(decisionId))],
                   epochs := db.epochs[id := db.epochs[id].(state := Confirmed, transitionGeneration := 2)])
  {
    Generation(db);
    hide Inv, InputsExact;
  }

  lemma ConfirmKeeps(db: Db, decisionId: string, evaluationId: string, decidedBy: string)
    requires Inv(db) && Confirm(db, decisionId, evaluationId, decidedBy).Ok?
    ensures Good(db, Confirm(db, decisionId, evaluationId, decidedBy).value.db)
  {
    hide EvidenceInv, AboutInv, TransitionInv, DecisionInv, ProofInv, EvaluationInv, FenceInv, FenceEvaluationInv,
         RequestInv, Grows, EpochsEvolve, FencesEvolve, PolicyInv;
    StillEvolves(db);
    if decisionId in db.decisions { return; }
    ConfirmForm(db, decisionId, evaluationId, decidedBy);
    hide Confirm;
    var db' := Confirm(db, decisionId, evaluationId, decidedBy).value.db;
    var id := db.evaluations[evaluationId].epoch;
    TransitionAdded(db.epochs, db.transitions, id, Confirmed, ByDecision(decisionId));
    DecisionAdded(db, id, decisionId, Decision(id, evaluationId, decidedBy));
    EvidenceSame(db.epochs, db.evidence, id, db'.epochs[id]);
    AboutSame(db.epochs, db.evidence, id, db'.epochs[id]);
    FencesSame(db.epochs, db.fencing, db.fencingCurrent, id, db'.epochs[id]);
    RequestsSame(db.epochs, db.requests, id, db'.epochs[id]);
    EpochEvolves(db.epochs, id, db'.epochs[id]);
    Added(db.decisions, decisionId, Decision(id, evaluationId, decidedBy));
    Added(db.transitions, (id, 2), Transition(Some(Suspected), Confirmed, ByDecision(decisionId)));
    Same(db.policies);
    Same(db.evidence);
    EvaluationsStable(db.epochs, db.evidence, db.policies, db'.epochs, db'.evidence, db'.policies, db.evaluations);
  }

  lemma Generation(db: Db)
    requires Inv(db)
    ensures forall e :: e in db.epochs ==> db.epochs[e].transitionGeneration == Rank(db.epochs[e].state)
  {
  }

  lemma FenceAdded(epochs: Epochs, fencing: FencingTable, current: map<EpochId, nat>, id: EpochId, g: nat,
                   row: FencingRow)
    requires FenceInv(epochs, fencing, current) && id in epochs && epochs[id].state == Confirmed
    requires g == (if id in current then current[id] else 0) + 1
    requires Substantiated(row) && forall k :: k in fencing ==> fencing[k].evidenceId != row.evidenceId
    ensures (id, g) !in fencing && FenceInv(epochs, fencing[(id, g) := row], current[id := g])
    ensures FencesEvolve(epochs, current, current[id := g])
  {
  }

  lemma FenceEvaluationsSame(fencing: FencingTable, evaluations: map<string, FencingEvaluation>, k: (EpochId, nat),
                             row: FencingRow)
    requires FenceEvaluationInv(fencing, evaluations) && k !in fencing
    ensures FenceEvaluationInv(fencing[k := row], evaluations)
  {
  }

  lemma ProofsSame(db: Db, id: EpochId, g: nat, row: FencingRow)
    requires TransitionInv(db.epochs, db.transitions)
             && ProofInv(db.transitions, db.proofs, db.fencing, db.fencingCurrent)
    requires id in db.epochs && db.epochs[id].state == Confirmed && (id, g) !in db.fencing
    ensures ProofInv(db.transitions, db.proofs, db.fencing[(id, g) := row], db.fencingCurrent[id := g])
  {
    forall t | (id, t) in db.transitions ensures !db.transitions[(id, t)].cause.ByProof? {
      assert 1 <= t <= 2;
    }
  }

  lemma RecordFencingKeeps(db: Db, evidenceId: string, epochId: EpochId, reading: FenceReading)
    requires Inv(db) && RecordFencing(db, evidenceId, epochId, reading).Ok?
    ensures Good(db, RecordFencing(db, evidenceId, epochId, reading).value)
  {
    hide EvidenceInv, AboutInv, TransitionInv, DecisionInv, ProofInv, EvaluationInv, FenceInv, FenceEvaluationInv,
         RequestInv, Grows, EpochsEvolve, FencesEvolve, PolicyInv;
    StillEvolves(db);
    var db' := RecordFencing(db, evidenceId, epochId, reading).value;
    if !FenceRecorded(db, evidenceId) {
      var g := FencingLatest(db, epochId) + 1;
      var row := db'.fencing[(epochId, g)];
      FenceAdded(db.epochs, db.fencing, db.fencingCurrent, epochId, g, row);
      FenceEvaluationsSame(db.fencing, db.fencingEvaluations, (epochId, g), row);
      ProofsSame(db, epochId, g, row);
      Added(db.fencing, (epochId, g), db'.fencing[(epochId, g)]);
    }
  }

  lemma EvaluateFencingKeeps(db: Db, id: string, epochId: EpochId, evaluator: string, bound: Option<PolicyRef>)
    requires Inv(db) && EvaluateFencing(db, id, epochId, evaluator, bound).Ok?
    ensures Good(db, EvaluateFencing(db, id, epochId, evaluator, bound).value)
  {
    hide EvidenceInv, AboutInv, TransitionInv, DecisionInv, ProofInv, EvaluationInv, FenceInv, RequestInv, Grows,
         EpochsEvolve, FencesEvolve, PolicyInv;
    StillEvolves(db);
    Generation(db);
    var db' := EvaluateFencing(db, id, epochId, evaluator, bound).value;
    if id !in db.fencingEvaluations {
      Added(db.fencingEvaluations, id, db'.fencingEvaluations[id]);
    }
  }

  /** The whole effect of a new proof. */
  lemma MaterializeForm(db: Db, proofId: string, evaluationId: string, decidedBy: string)
    requires Inv(db) && Materialize(db, proofId, evaluationId, decidedBy).Ok? && proofId !in db.proofs
    ensures evaluationId in db.fencingEvaluations
    ensures var ev := db.fencingEvaluations[evaluationId];
            var id := ev.epoch;
            && id in db.epochs && db.epochs[id].state == Confirmed
            && CurrentFence(db, id).Some? && CurrentFence(db, id).value.state == Proven
            && CurrentFence(db, id).value.evidenceId == ev.evidenceId
            && Materialize(db, proofId, evaluationId, decidedBy).value.db ==
               db.(proofs := db.proofs[proofId := Proof(id, evaluationId, ev.evidenceId, decidedBy)],
                   transitions := db.transitions[(id, 3) := Transition(Some(Confirmed), Fenced, ByProof(proofId))],
                   epochs := db.epochs[id := db.epochs[id].(state := Fenced, transitionGeneration := 3)])
  {
    Generation(db);
    hide EvidenceInv, AboutInv, TransitionInv, DecisionInv, ProofInv, EvaluationInv, FenceInv, RequestInv, PolicyInv;
  }

  lemma MaterializeKeeps(db: Db, proofId: string, evaluationId: string, decidedBy: string)
    requires Inv(db) && Materialize(db, proofId, evaluationId, decidedBy).Ok?
    ensures Good(db, Materialize(db, proofId, evaluationId, decidedBy).value.db)
  {
    hide EvidenceInv, AboutInv, TransitionInv, DecisionInv, ProofInv, EvaluationInv, FenceInv, FenceEvaluationInv,
         RequestInv, Grows, EpochsEvolve, FencesEvolve, PolicyInv;
    StillEvolves(db);
    if proofId in db.proofs { return; }
    MaterializeForm(db, proofId, evaluationId, decidedBy);
    hide Materialize;
    var db' := Materialize(db, proofId, evaluationId, decidedBy).value.db;
    var id := db.fencingEvaluations[evaluationId].epoch;
    TransitionAdded(db.epochs, db.transitions, id, Fenced, ByProof(proofId));
    ProofAdded(db, id, proofId, db'.proofs[proofId]);
    EvidenceSame(db.epochs, db.evidence, id, db'.epochs[id]);
    AboutSame(db.epochs, db.evidence, id, db'.epochs[id]);
    FencesSame(db.epochs, db.fencing, db.fencingCurrent, id, db'.epochs[id]);
    RequestsSame(db.epochs, db.requests, id, db'.epochs[id]);
    EpochEvolves(db.epochs, id, db'.epochs[id]);
    Added(db.proofs, proofId, db'.proofs[proofId]);
    Added(db.transitions, (id, 3), Transition(Some(Confirmed), Fenced, ByProof(proofId)));
    Same(db.policies);
    Same(db.evidence);
    EvaluationsStable(db.epochs, db.evidence, db.policies, db'.epochs, db'.evidence, db'.policies, db.evaluations);
  }

  // ----- runs -----------------------------------------------------------------------------------------

  datatype Step =
    | DoPublish(policyId: string, revision: nat, body: PolicyBody)
    | DoPublishFencing(policyId: string, revision: nat, fencing: FencingPolicy)
    | DoOpen(request: OpenRequest, placement: Option<Placement>, sourceCurrent: bool)
    | DoAppend(epoch: EpochId, observation: C.Observation, sourceCurrent: bool)
    | DoEvaluate(id: string, epoch: EpochId, evaluator: string, bound: Option<PolicyRef>)
    | DoConfirm(id: string, evaluation: string, decidedBy: string)
    | DoRecordFencing(id: string, epoch: EpochId, reading: FenceReading)
    | DoEvaluateFencing(id: string, epoch: EpochId, evaluator: string, bound: Option<PolicyRef>)
    | DoMaterialize(id: string, evaluation: string, decidedBy: string)

  /** A transaction that fails leaves everything as it was. */
  ghost function Next(db: Db, step: Step): Db {
    match step
    case DoPublish(id, revision, b) => var r := Publish(db, id, revision, b); if r.Ok? then r.value else db
    case DoPublishFencing(id, revision, b) => var r := PublishFencing(db, id, revision, b); if r.Ok? then r.value
        else db
    case DoOpen(q, p, c) => var r := Open(db, q, p, c); if r.Ok? then r.value.db else db
    case DoAppend(e, o, c) => var r := Append(db, e, o, c); if r.Ok? then r.value.db else db
    case DoEvaluate(id, e, v, b) => var r := Evaluate(db, id, e, v, b); if r.Ok? then r.value else db
    case DoConfirm(id, ev, who) => var r := Confirm(db, id, ev, who); if r.Ok? then r.value.db else db
    case DoRecordFencing(id, e, x) => var r := RecordFencing(db, id, e, x); if r.Ok? then r.value else db
    case DoEvaluateFencing(id, e, v, b) => var r := EvaluateFencing(db, id, e, v, b); if r.Ok? then r.value else db
    case DoMaterialize(id, ev, who) => var r := Materialize(db, id, ev, who); if r.Ok? then r.value.db else db
  }

  lemma StepKeeps(db: Db, step: Step)
    requires Inv(db)
    ensures Good(db, Next(db, step))
  {
    hide Inv, Evolves, Publish, PublishFencing, Open, Append, Evaluate, Confirm, RecordFencing, EvaluateFencing,
         Materialize;
    if Next(db, step) == db {
      Unchanged(db);
    } else {
      match step
      case DoPublish(id, revision, b) => PublishKeeps(db, id, revision, b);
      case DoPublishFencing(id, revision, b) => PublishFencingKeeps(db, id, revision, b);
      case DoOpen(q, p, c) => OpenKeeps(db, q, p, c);
      case DoAppend(e, o, c) => AppendKeeps(db, e, o, c);
      case DoEvaluate(id, e, v, b) => EvaluateKeeps(db, id, e, v, b);
      case DoConfirm(id, ev, who) => ConfirmKeeps(db, id, ev, who);
      case DoRecordFencing(id, e, x) => RecordFencingKeeps(db, id, e, x);
      case DoEvaluateFencing(id, e, v, b) => EvaluateFencingKeeps(db, id, e, v, b);
      case DoMaterialize(id, ev, who) => MaterializeKeeps(db, id, ev, who);
    }
  }

  ghost predicate Run(states: seq<Db>, steps: seq<Step>) {
    && |states| == |steps| + 1 && states[0] == EMPTY
    && forall i :: 0 <= i < |steps| ==> states[i + 1] == Next(states[i], steps[i])
  }

  lemma EvolvesComposes(a: Db, b: Db, c: Db)
    requires Evolves(a, b) && Evolves(b, c)
    ensures Evolves(a, c)
  {
    hide Grows;
    Composes(a.policies, b.policies, c.policies);
    Composes(a.requests, b.requests, c.requests);
    Composes(a.evidence, b.evidence, c.evidence);
    Composes(a.transitions, b.transitions, c.transitions);
    Composes(a.evaluations, b.evaluations, c.evaluations);
    Composes(a.decisions, b.decisions, c.decisions);
    Composes(a.fencing, b.fencing, c.fencing);
    Composes(a.fencingEvaluations, b.fencingEvaluations, c.fencingEvaluations);
    Composes(a.proofs, b.proofs, c.proofs);
    Composes(a.fencingPolicies, b.fencingPolicies, c.fencingPolicies);
  }

  /** In every run, the invariant holds at every point and every later point evolves from every
      earlier one. */
  lemma {:induction false} EveryRun(states: seq<Db>, steps: seq<Step>, i: nat, j: nat)
    requires Run(states, steps) && i <= j < |states|
    ensures Inv(states[j]) && Evolves(states[i], states[j])
    decreases j
  {
    hide Inv, Evolves, Next;
    if j == 0 {
      EmptyHolds();
      Unchanged(EMPTY);
    } else {
      EveryRun(states, steps, if i < j then i else j - 1, j - 1);
      StepKeeps(states[j - 1], steps[j - 1]);
      if i < j {
        EvolvesComposes(states[i], states[j - 1], states[j]);
      } else {
        Unchanged(states[j]);
      }
    }
  }

  /** An epoch becomes CONFIRMED only by a decision on an evaluation whose inputs are all of its
      evidence at that instant, generations 1 to the latest in order; and among them the policy
      has a matching CURRENT observation for every requirement and no CURRENT one against. */
  lemma ConfirmedOnAllEvidence(db: Db, step: Step, e: EpochId)
    returns (ev: Evaluation, p: C.Policy, picks: seq<C.Observation>)
    requires Inv(db) && e in db.epochs && db.epochs[e].state == Suspected
    requires e in Next(db, step).epochs && Next(db, step).epochs[e].state == Confirmed
    ensures step.DoConfirm? && step.evaluation in db.evaluations && ev == db.evaluations[step.evaluation]
    ensures |ev.inputs| == db.epochs[e].latestEvidence
    ensures forall g :: (e, g) in db.evidence <==> 1 <= g <= |ev.inputs|
    ensures forall g :: 1 <= g <= |ev.inputs| ==> (e, g) in db.evidence && ev.inputs[g - 1] == (g, db.evidence[(e, g)])
    ensures ev.policy.Some? && ev.policy.value in db.policies && p == db.policies[ev.policy.value].policy
    ensures Laws.Assignment(p.requirements, Observations(ev.inputs), p.requireDistinct, picks)
    ensures forall i, o :: 0 <= i < |p.requirements| && o in Observations(ev.inputs) && o.freshness == C.Current
                           && o.evidenceType == p.requirements[i].evidenceType && o.source == p.requirements[i].source
                           ==> o.observed == p.requirements[i].observed
  {
    hide Inv, Next, C.Evaluate, C.PolicyValid, Laws.Assignment;
    ConfirmStep(db, step, e);
    ev := db.evaluations[step.evaluation];
    SatisfiedRow(db, step.evaluation);
    p := db.policies[ev.policy.value].policy;
    picks := Laws.SatisfiedIsSound(p, Observations(ev.inputs));
  }

  /** What a recorded SATISFIED evaluation of an epoch's latest evidence says. */
  lemma SatisfiedRow(db: Db, id: string)
    requires Inv(db) && id in db.evaluations && db.evaluations[id].result == Judged(C.Satisfied)
    requires db.evaluations[id].epoch in db.epochs
    requires db.evaluations[id].latestEvidence == db.epochs[db.evaluations[id].epoch].latestEvidence
    ensures var ev := db.evaluations[id];
            && |ev.inputs| == ev.latestEvidence
            && (forall g :: (ev.epoch, g) in db.evidence <==> 1 <= g <= |ev.inputs|)
            && (forall g :: 1 <= g <= |ev.inputs| ==> ev.inputs[g - 1] == (g, db.evidence[(ev.epoch, g)]))
            && ev.policy.Some? && ev.policy.value in db.policies && C.PolicyValid(db.policies[ev.policy.value].policy)
            && C.Evaluate(db.policies[ev.policy.value].policy, Observations(ev.inputs)) == C.Satisfied
  {
    hide AboutInv, TransitionInv, DecisionInv, ProofInv, FenceInv, FenceEvaluationInv, RequestInv, C.Evaluate,
         C.PolicyValid;
    var ev := db.evaluations[id];
    assert EvaluationOk(db.epochs, db.evidence, db.policies, ev);
    LoadIsAll(db.evidence, ev.epoch, ev.latestEvidence);
    assert BodyValid(db.policies[ev.policy.value]);
  }

  /** Only Confirm moves an epoch from SUSPECTED to CONFIRMED. */
  lemma ConfirmStep(db: Db, step: Step, e: EpochId)
    requires Inv(db) && e in db.epochs && db.epochs[e].state == Suspected
    requires e in Next(db, step).epochs && Next(db, step).epochs[e].state == Confirmed
    ensures step.DoConfirm? && step.evaluation in db.evaluations
    ensures var ev := db.evaluations[step.evaluation];
            ev.epoch == e && ev.latestEvidence == db.epochs[e].latestEvidence && ev.result == Judged(C.Satisfied)
  {
    hide Inv, Publish, PublishFencing, Open, Append, Evaluate, Confirm, RecordFencing, EvaluateFencing, Materialize;
    match step
    case DoConfirm(id, ev, who) =>
      if Confirm(db, id, ev, who).Ok? {
        if id in db.decisions { DecisionStable(db, id, ev, who); } else { ConfirmForm(db, id, ev, who); }
      }
    case DoPublish(id, revision, b) => EpochsUntouched(db, step);
    case DoPublishFencing(id, revision, b) => EpochsUntouched(db, step);
    case DoOpen(q, p, c) => OpenLeaves(db, q, p, c, e);
    case DoAppend(a, o, c) => AppendLeaves(db, a, o, c, e);
    case DoEvaluate(id, a, v, b) => EpochsUntouched(db, step);
    case DoRecordFencing(id, a, x) => EpochsUntouched(db, step);
    case DoEvaluateFencing(id, a, v, b) => EpochsUntouched(db, step);
    case DoMaterialize(id, ev, who) =>
      if Materialize(db, id, ev, who).Ok? {
        if id in db.proofs { ProofStable(db, id, ev, who); } else { MaterializeForm(db, id, ev, who); }
      }
  }

  lemma EpochsUntouched(db: Db, step: Step)
    requires || step.DoPublish? || step.DoPublishFencing? || step.DoEvaluate? || step.DoRecordFencing?
             || step.DoEvaluateFencing?
    ensures Next(db, step).epochs == db.epochs
  {
  }

  lemma DecisionStable(db: Db, id: string, ev: string, who: string)
    requires id in db.decisions && Confirm(db, id, ev, who).Ok?
    ensures Confirm(db, id, ev, who).value.db == db
  {
  }

  lemma ProofStable(db: Db, id: string, ev: string, who: string)
    requires id in db.proofs && Materialize(db, id, ev, who).Ok?
    ensures Materialize(db, id, ev, who).value.db == db
  {
  }

  lemma OpenLeaves(db: Db, r: OpenRequest, p: Option<Placement>, c: bool, e: EpochId)
    requires e in db.epochs
    ensures Open(db, r, p, c).Ok? ==>
              e in Open(db, r, p, c).value.db.epochs && Open(db, r, p, c).value.db.epochs[e] == db.epochs[e]
  {
  }

  lemma AppendLeaves(db: Db, a: EpochId, o: C.Observation, c: bool, e: EpochId)
    requires e in db.epochs
    ensures Append(db, a, o, c).Ok? ==>
              e in Append(db, a, o, c).value.db.epochs
              && Append(db, a, o, c).value.db.epochs[e].state == db.epochs[e].state
  {
  }

  /** A FENCED epoch rests, in every later state too, on its latest fencing observation, which is
      PROVEN: the host's authority was fenced and the machine read back as shut off. */
  lemma FencedOnLatestProven(states: seq<Db>, steps: seq<Step>, i: nat, j: nat, e: EpochId)
    requires Run(states, steps) && i <= j < |states| && e in states[i].epochs && states[i].epochs[e].state == Fenced
    ensures e in states[j].epochs && states[j].epochs[e].state == Fenced
    ensures e in states[i].fencingCurrent && e in states[j].fencingCurrent
            && states[j].fencingCurrent[e] == states[i].fencingCurrent[e]
    ensures var g := states[i].fencingCurrent[e];
            && (e, g) in states[i].fencing && states[i].fencing[(e, g)].state == Proven
            && Substantiated(states[i].fencing[(e, g)])
            && (e, g) in states[j].fencing && states[j].fencing[(e, g)] == states[i].fencing[(e, g)]
            && forall h :: (e, h) in states[j].fencing ==> h <= g
  {
    hide Run, Inv, Grows;
    EveryRun(states, steps, 0, i);
    EveryRun(states, steps, i, j);
    FencedProof(states[i], e);
    FencedProof(states[j], e);
    GrowsAt(states[i].fencing, states[j].fencing, (e, states[i].fencingCurrent[e]));
  }

  lemma FencedProof(db: Db, e: EpochId)
    requires Inv(db) && e in db.epochs && db.epochs[e].state == Fenced
    ensures e in db.fencingCurrent && (e, db.fencingCurrent[e]) in db.fencing
    ensures db.fencing[(e, db.fencingCurrent[e])].state == Proven
            && Substantiated(db.fencing[(e, db.fencingCurrent[e])])
    ensures forall h :: (e, h) in db.fencing ==> h <= db.fencingCurrent[e]
  {
    hide EvidenceInv, AboutInv, DecisionInv, EvaluationInv, PolicyInv, FenceEvaluationInv, RequestInv;
    assert (e, 3) in db.transitions && db.transitions[(e, 3)].cause.ByProof?;
  }

  /** Appending answers success without recording when the identifier is already recorded, with
      the same content, under another epoch; and that is the only such case. */
  lemma AppendRecordsIff(db: Db, epochId: EpochId, o: C.Observation, sourceCurrent: bool)
    requires Inv(db) && Append(db, epochId, o, sourceCurrent).Ok?
    ensures var a := Append(db, epochId, o, sourceCurrent).value;
            ((epochId, a.generation) in a.db.evidence && a.db.evidence[(epochId, a.generation)] == o) <==>
            !exists k :: k in db.evidence && db.evidence[k].evidenceId == o.evidenceId && k.0 != epochId
  {
    hide AboutInv, TransitionInv, DecisionInv, ProofInv, EvaluationInv, FenceInv, FenceEvaluationInv, RequestInv,
         PolicyInv;
    if Recorded(db, o.evidenceId) {
      var k := RowOf(db, o.evidenceId);
      forall j | j in db.evidence && db.evidence[j].evidenceId == o.evidenceId ensures j == k {}
      if k.0 != epochId && (epochId, k.1) in db.evidence {
        assert db.evidence[(epochId, k.1)].evidenceId != o.evidenceId;
      }
    }
  }

  /** Such a case: evidence of one epoch offered to another is accepted and not recorded there. */
  lemma AppendElsewhere(db: Db, e: EpochId, other: EpochId, g: nat, sourceCurrent: bool)
    requires Inv(db) && (e, g) in db.evidence && other != e && other != ""
    ensures Append(db, other, db.evidence[(e, g)], sourceCurrent) == Ok(Appended(db, g))
    ensures forall h :: (other, h) in db.evidence ==> db.evidence[(other, h)] != db.evidence[(e, g)]
  {
    hide AboutInv, TransitionInv, DecisionInv, ProofInv, EvaluationInv, FenceInv, FenceEvaluationInv, RequestInv,
         PolicyInv;
    var o := db.evidence[(e, g)];
    assert Recorded(db, o.evidenceId);
    assert RowOf(db, o.evidenceId) == (e, g);
  }
}
