/** A failure epoch from suspicion through confirmation to fencing
    (internal/persistence/postgres/failure_epoch.go, failure_confirmation.go and
    failure_safety.go).  Each function is one transaction. */
module FailureEpoch {
  import opened Common
  import C = Confirmation

  type EpochId = string
  /** A policy revision; its digest is a function of the revision's immutable row. */
  type PolicyRef = (string, nat)

  datatype FailureClass = HostConnectivityLoss | HostAuthorityLoss | VmRuntimeUnavailable
  datatype Lifecycle = Draft | Active | Deprecated | Retired
  datatype PolicyBody = PolicyBody(failureClass: FailureClass, policy: C.Policy, lifecycle: Lifecycle,
                                   createdBy: string, approvedBy: string)
  /** `supported` is whether the fencing mode is the one mode there is. */
  datatype FencingPolicy = FencingPolicy(supported: bool, lifecycle: Lifecycle, createdBy: string, approvedBy: string)

  datatype OpenRequest = OpenRequest(
    requestId: string, epochId: EpochId, incidentKey: string, workload: string, failureClass: FailureClass,
    requestedBy: string, bindingRevision: nat, bindingDigest: string, trigger: C.Observation)

  datatype State = Suspected | Confirmed | Fenced

  /** failure_epoch_evidence joined with failure_epochs_current. */
  datatype Epoch = Epoch(
    request: OpenRequest, host: HostId,
    state: State, transitionGeneration: nat, latestEvidence: nat)

  datatype Cause = ByTrigger(evidenceId: string) | ByDecision(decisionId: string) | ByProof(proofId: string)
  datatype Transition = Transition(from: Option<State>, to: State, cause: Cause)

  datatype ResultState =
    | Judged(verdict: C.Verdict) | StalePolicy | StaleEpoch | NoPolicy | ClassMismatch

  datatype Evaluation = Evaluation(
    epoch: EpochId, transitionGeneration: nat, policy: Option<PolicyRef>, latestEvidence: nat,
    inputs: seq<(nat, C.Observation)>, result: ResultState, evaluator: string)

  datatype Decision = Decision(epoch: EpochId, evaluation: string, decidedBy: string)

  datatype FenceState = Proven | NotProven | UnknownFence | ConflictingFence

  /** One fencing observation; `shutoff` and `matched` are what its power evidence says. */
  datatype FencingRow = FencingRow(evidenceId: string, authorityGeneration: nat, eventSequence: nat,
                                   powerEvidence: string,
                                   shutoff: bool, matched: bool, state: FenceState)

  datatype FenceResult = FenceVerdict(state: FenceState) | FenceStalePolicy | FenceStaleEpoch | FenceNoPolicy

  datatype FencingEvaluation = FencingEvaluation(
    epoch: EpochId, transitionGeneration: nat, policy: Option<PolicyRef>, generation: nat, evidenceId: string,
    result: FenceResult, evaluator: string)

  datatype Proof = Proof(epoch: EpochId, evaluation: string, evidenceId: string, decidedBy: string)

  datatype Db = Db(
    policies: map<PolicyRef, PolicyBody>, currentPolicies: map<string, nat>,
    requests: map<string, OpenRequest>,
    epochs: map<EpochId, Epoch>,
    evidence: map<(EpochId, nat), C.Observation>,
    transitions: map<(EpochId, nat), Transition>,
    evaluations: map<string, Evaluation>,
    decisions: map<string, Decision>,
    fencing: map<(EpochId, nat), FencingRow>,
    fencingCurrent: map<EpochId, nat>,
    fencingEvaluations: map<string, FencingEvaluation>,
    proofs: map<string, Proof>,
    fencingPolicies: map<PolicyRef, FencingPolicy>, currentFencingPolicies: map<string, nat>)

  datatype Error = Conflict | Stale | Blocked | NotFound | Constraint

  // ----- policies ------------------------------------------------------------------------------

  ghost predicate BodyValid(b: PolicyBody) {
    b.createdBy != "" && b.approvedBy != "" && C.PolicyValid(b.policy)
  }

  /** PublishFailureConfirmationPolicy. */
  ghost function Publish(db: Db, id: string, revision: nat, b: PolicyBody): Result<Db, Error> {
    if id == "" || revision == 0 || !BodyValid(b) then Err(Conflict)
    else if (id, revision) in db.policies then
      if db.policies[(id, revision)] == b then Ok(db) else Err(Conflict)
    else if id in db.currentPolicies && db.currentPolicies[id] >= revision then Err(Conflict)
    else Ok(db.(policies := db.policies[(id, revision) := b], currentPolicies := db.currentPolicies[id := revision]))
  }

  predicate PolicyCurrent(db: Db, p: PolicyRef) {
    && p.0 in db.currentPolicies && db.currentPolicies[p.0] == p.1
    && p in db.policies && db.policies[p].lifecycle == Active
  }

  /** PublishFailureFencingPolicy: an older revision is recorded too, but does not become current. */
  ghost function PublishFencing(db: Db, id: string, revision: nat, b: FencingPolicy): Result<Db, Error> {
    if id == "" || revision == 0 || !b.supported || b.createdBy == "" || b.approvedBy == "" then Err(Conflict)
    else if (id, revision) in db.fencingPolicies then
      if db.fencingPolicies[(id, revision)] == b then Ok(db) else Err(Conflict)
    else
      var newest := id !in db.currentFencingPolicies || db.currentFencingPolicies[id] < revision;
      Ok(db.(fencingPolicies := db.fencingPolicies[(id, revision) := b],
             currentFencingPolicies := if newest then db.currentFencingPolicies[id := revision]
                                       else db.currentFencingPolicies))
  }

  predicate FencingPolicyCurrent(db: Db, p: PolicyRef) {
    && p.0 in db.currentFencingPolicies && db.currentFencingPolicies[p.0] == p.1
    && p in db.fencingPolicies && db.fencingPolicies[p].lifecycle == Active
  }

  // ----- evidence --------------------------------------------------------------------------------

  function TriggerType(c: FailureClass): C.EvidenceType {
    match c
    case HostConnectivityLoss => C.AgentConnectivityLoss
    case HostAuthorityLoss => C.HostOperationAuthorityState
    case VmRuntimeUnavailable => C.VmRuntimeObservation
  }

  predicate RequestValid(r: OpenRequest) {
    && r.requestId != "" && r.epochId != "" && r.incidentKey != "" && r.workload != "" && r.requestedBy != ""
    && r.bindingRevision != 0 && r.bindingDigest != "" && r.trigger.Valid()
    && r.trigger.evidenceType == TriggerType(r.failureClass)
  }

  /** The row that holds an evidence identifier, the table's primary key. */
  predicate Holds(evidence: map<(EpochId, nat), C.Observation>, k: (EpochId, nat), evidenceId: string) {
    k in evidence && evidence[k].evidenceId == evidenceId
  }

  predicate Recorded(db: Db, evidenceId: string) {
    exists k :: k in db.evidence && db.evidence[k].evidenceId == evidenceId
  }

  ghost function RowOf(db: Db, evidenceId: string): (k: (EpochId, nat))
    requires Recorded(db, evidenceId)
    ensures k in db.evidence && db.evidence[k].evidenceId == evidenceId
  {
    var k :| k in db.evidence && db.evidence[k].evidenceId == evidenceId;
    k
  }

  predicate SameIncident(a: OpenRequest, b: OpenRequest) {
    a.workload == b.workload && a.failureClass == b.failureClass && a.incidentKey == b.incidentKey
  }

  predicate Correlated(db: Db, r: OpenRequest) {
    exists id :: id in db.epochs && SameIncident(db.epochs[id].request, r)
  }

  ghost function IncidentOf(db: Db, r: OpenRequest): (id: EpochId)
    requires Correlated(db, r)
    ensures id in db.epochs && SameIncident(db.epochs[id].request, r)
  {
    var id :| id in db.epochs && SameIncident(db.epochs[id].request, r);
    id
  }

  /** What the transaction reads about the workload: its current availability binding, and the
      host of its admission. */
  datatype Placement = Placement(bindingRevision: nat, bindingDigest: string, host: Option<HostId>)

  datatype Opened = Opened(db: Db, epoch: EpochId)

  /** OpenFailureEpoch; `sourceCurrent` is whether the trigger's source generations are current. */
  ghost function Open(db: Db, r: OpenRequest, placement: Option<Placement>, sourceCurrent: bool): Result<Opened,
        Error> {
    if !RequestValid(r) then Err(Conflict)
    else if r.requestId in db.requests then
      if db.requests[r.requestId] != r then Err(Conflict)
      else if r.epochId !in db.epochs then Err(NotFound)
      else Ok(Opened(db, r.epochId))
    else if Correlated(db, r) then
      var id := IncidentOf(db, r);
      var known := db.epochs[id].request;
      if known.bindingRevision == r.bindingRevision && known.bindingDigest == r.bindingDigest then Ok(Opened(db, id))
      else Err(Conflict)
    else if placement.None? || placement.value.bindingRevision != r.bindingRevision
            || placement.value.bindingDigest != r.bindingDigest then Err(Stale)
    else if placement.value.host.None? || r.trigger.host != placement.value.host.value then Err(Conflict)
    else if !sourceCurrent then Err(Stale)
    else if r.epochId in db.epochs || Recorded(db, r.trigger.evidenceId)
            || (r.epochId, 1) in db.evidence || (r.epochId, 1) in db.transitions then Err(Constraint)
    else
      var epoch := Epoch(r, placement.value.host.value, Suspected, 1, 1);
      Ok(Opened(db.(requests := db.requests[r.requestId := r],
                    epochs := db.epochs[r.epochId := epoch],
                    evidence := db.evidence[(r.epochId, 1) := r.trigger],
                    transitions := db.transitions[(r.epochId, 1) := Transition(None, Suspected,
                          ByTrigger(r.trigger.evidenceId))]),
                r.epochId))
  }

  /** max(evidence_generation) over the rows of one epoch, 0 when there is none. */
  ghost function Newest(evidence: map<(EpochId, nat), C.Observation>, epoch: EpochId): (n: nat) {
    if g :| (epoch, g) in evidence && forall h :: (epoch, h) in evidence ==> h <= g then g else 0
  }

  datatype Appended = Appended(db: Db, generation: nat)

  /** AppendFailureObservation.  An evidence identifier that is already recorded is answered
      from its row, whichever epoch that row belongs to. */
  ghost function Append(db: Db, epochId: EpochId, o: C.Observation, sourceCurrent: bool): Result<Appended, Error> {
    if epochId == "" || !o.Valid() then Err(Conflict)
    else if Recorded(db, o.evidenceId) then
      var k := RowOf(db, o.evidenceId);
      if db.evidence[k] == o then Ok(Appended(db, k.1)) else Err(Conflict)
    else if epochId !in db.epochs then Err(NotFound)
    else if o.host != db.epochs[epochId].host then Err(Conflict)
    else if !sourceCurrent then Err(Stale)
    else
      var g := Newest(db.evidence, epochId) + 1;
      if (epochId, g) in db.evidence then Err(Constraint)
      else
        Ok(Appended(db.(evidence := db.evidence[(epochId, g) := o],
                        epochs := db.epochs[epochId := db.epochs[epochId].(latestEvidence := g)]), g))
  }

  // ----- confirmation ----------------------------------------------------------------------------

  /** loadConfirmationObservationsTx: the rows up to a generation, in order. */
  function Load(evidence: map<(EpochId, nat), C.Observation>, epoch: EpochId, latest: nat): seq<(nat, C.Observation)> {
    if latest == 0 then []
    else Load(evidence, epoch, latest - 1) + if (epoch, latest) in evidence then [(latest, evidence[(epoch, latest)])]
        else []
  }

  function Observations(inputs: seq<(nat, C.Observation)>): seq<C.Observation> {
    seq(|inputs|, i requires 0 <= i < |inputs| => inputs[i].1)
  }

  ghost function ResultFor(db: Db, epoch: Epoch, bound: Option<PolicyRef>,
                           inputs: seq<(nat, C.Observation)>): ResultState {
    if bound.None? then NoPolicy
    else if !PolicyCurrent(db, bound.value) then StalePolicy
    else if epoch.state != Suspected then StaleEpoch
    else if db.policies[bound.value].failureClass != epoch.request.failureClass then ClassMismatch
    else Judged(C.Evaluate(db.policies[bound.value].policy, Observations(inputs)))
  }

  /** EvaluateFailureConfirmation; `bound` is the confirmation policy that the epoch's
      availability policy refers to. */
  ghost function Evaluate(db: Db, evaluationId: string, epochId: EpochId, evaluator: string,
                          bound: Option<PolicyRef>): Result<Db, Error> {
    if evaluationId == "" || epochId == "" || evaluator == "" then Err(Conflict)
    else if evaluationId in db.evaluations then
      var known := db.evaluations[evaluationId];
      if known.epoch == epochId && known.evaluator == evaluator then Ok(db) else Err(Conflict)
    else if epochId !in db.epochs then Err(NotFound)
    else
      var epoch := db.epochs[epochId];
      var inputs := Load(db.evidence, epochId, epoch.latestEvidence);
      var row := Evaluation(epochId, epoch.transitionGeneration, bound, epoch.latestEvidence, inputs,
                            ResultFor(db, epoch, bound, inputs), evaluator);
      Ok(db.(evaluations := db.evaluations[evaluationId := row]))
  }

  /** Every recorded input still has its exact evidence row. */
  ghost predicate InputsExact(db: Db, inputs: seq<(nat, C.Observation)>) {
    forall i :: 0 <= i < |inputs| ==> HasRow(db, inputs[i])
  }

  ghost predicate HasRow(db: Db, input: (nat, C.Observation)) {
    exists e :: (e, input.0) in db.evidence && db.evidence[(e, input.0)] == input.1
  }

  datatype Decided = Decided(db: Db, epoch: EpochId)

  /** ConfirmFailureEpoch: compare-and-set on state, transition and evidence generation. */
  ghost function Confirm(db: Db, decisionId: string, evaluationId: string, decidedBy: string): Result<Decided, Error> {
    if decisionId == "" || evaluationId == "" || decidedBy == "" then Err(Conflict)
    else if decisionId in db.decisions then
      var known := db.decisions[decisionId];
      if known.evaluation == evaluationId && known.decidedBy == decidedBy then Ok(Decided(db, known.epoch))
          else Err(Conflict)
    else if evaluationId !in db.evaluations then Err(NotFound)
    else
      var ev := db.evaluations[evaluationId];
      if ev.result != Judged(C.Satisfied) then Err(Blocked)
      else if ev.epoch !in db.epochs then Err(NotFound)
      else
        var epoch := db.epochs[ev.epoch];
        if epoch.state != Suspected || epoch.transitionGeneration != ev.transitionGeneration
           || epoch.latestEvidence != ev.latestEvidence then Err(Stale)
        else if ev.policy.None? || !PolicyCurrent(db, ev.policy.value) then Err(Stale)
        else if !InputsExact(db, ev.inputs) then Err(Stale)
        else
          var g := epoch.transitionGeneration + 1;
          if (ev.epoch, g) in db.transitions then Err(Constraint)
          else
            Ok(Decided(db.(decisions := db.decisions[decisionId := Decision(ev.epoch, evaluationId, decidedBy)],
                           transitions := db.transitions[(ev.epoch, g) := Transition(Some(Suspected), Confirmed,
                                 ByDecision(decisionId))],
                           epochs := db.epochs[ev.epoch := epoch.(state := Confirmed, transitionGeneration := g)]),
                           ev.epoch))
  }

  // ----- fencing ------------------------------------------------------------------------------------

  /** What is read about the source host and the machine: the generation and last FENCED event
      of a FENCED host authority, and the machine's power evidence. */
  datatype FenceReading = FenceReading(authorityGeneration: nat, eventSequence: nat, powerEvidence: string,
                                       shutoff: bool, matched: bool)

  function FenceStateOf(x: FenceReading): FenceState {
    if x.authorityGeneration > 0 && x.eventSequence > 0 && x.powerEvidence != "" then
      if x.shutoff && x.matched then Proven else NotProven
    else UnknownFence
  }

  predicate FenceRecorded(db: Db, evidenceId: string) {
    exists k :: k in db.fencing && db.fencing[k].evidenceId == evidenceId
  }

  ghost function FenceRowOf(db: Db, evidenceId: string): (k: (EpochId, nat))
    requires FenceRecorded(db, evidenceId)
    ensures k in db.fencing && db.fencing[k].evidenceId == evidenceId
  {
    var k :| k in db.fencing && db.fencing[k].evidenceId == evidenceId;
    k
  }

  function FencingLatest(db: Db, epoch: EpochId): nat {
    if epoch in db.fencingCurrent then db.fencingCurrent[epoch] else 0
  }

  /** RecordSourceExecutionFencingObservation. */
  ghost function RecordFencing(db: Db, evidenceId: string, epochId: EpochId, reading: FenceReading): Result<Db, Error> {
    if evidenceId == "" || epochId == "" then Err(Conflict)
    else if FenceRecorded(db, evidenceId) then
      if FenceRowOf(db, evidenceId).0 == epochId then Ok(db) else Err(Conflict)
    else if epochId !in db.epochs then Err(NotFound)
    else if db.epochs[epochId].state != Confirmed then Err(Stale)
    else
      var g := FencingLatest(db, epochId) + 1;
      if (epochId, g) in db.fencing then Err(Constraint)
      else
        var row := FencingRow(evidenceId, reading.authorityGeneration, reading.eventSequence, reading.powerEvidence,
                              reading.shutoff, reading.matched, FenceStateOf(reading));
        Ok(db.(fencing := db.fencing[(epochId, g) := row], fencingCurrent := db.fencingCurrent[epochId := g]))
  }

  /** The row the current-observation projection of an epoch points at. */
  function CurrentFence(db: Db, epochId: EpochId): Option<FencingRow> {
    if epochId in db.fencingCurrent && (epochId, db.fencingCurrent[epochId]) in db.fencing
    then Some(db.fencing[(epochId, db.fencingCurrent[epochId])]) else None
  }

  /** EvaluateFailureFencing; `bound` is the fencing policy the availability policy refers to. */
  ghost function EvaluateFencing(db: Db, evaluationId: string, epochId: EpochId, evaluator: string,
                                 bound: Option<PolicyRef>): Result<Db, Error>
  {
    if evaluationId == "" || epochId == "" || evaluator == "" then Err(Conflict)
    else if evaluationId in db.fencingEvaluations then
      var known := db.fencingEvaluations[evaluationId];
      if known.epoch == epochId && known.evaluator == evaluator then Ok(db) else Err(Conflict)
    else if epochId !in db.epochs then Err(NotFound)
    else
      var epoch := db.epochs[epochId];
      var row := CurrentFence(db, epochId);
      var looked := bound.Some? && epoch.state == Confirmed && FencingPolicyCurrent(db, bound.value) && row.Some?;
      var result :=
        if bound.None? then FenceNoPolicy
        else if epoch.state != Confirmed then FenceStaleEpoch
        else if !FencingPolicyCurrent(db, bound.value) then FenceStalePolicy
        else if row.None? then FenceVerdict(NotProven)
        else FenceVerdict(row.value.state);
      var ev := FencingEvaluation(epochId, epoch.transitionGeneration, bound,
                                  if looked then FencingLatest(db, epochId) else 0,
                                  if looked then row.value.evidenceId else "", result, evaluator);
      Ok(db.(fencingEvaluations := db.fencingEvaluations[evaluationId := ev]))
  }

  /** MaterializeFailureFencingProof: compare-and-set on the transition and on the current
      fencing observation. */
  ghost function Materialize(db: Db, proofId: string, evaluationId: string,
                             decidedBy: string): Result<Decided, Error> {
    if proofId == "" || evaluationId == "" || decidedBy == "" then Err(Conflict)
    else if proofId in db.proofs then
      var known := db.proofs[proofId];
      if known.evaluation == evaluationId && known.decidedBy == decidedBy then Ok(Decided(db, known.epoch))
          else Err(Conflict)
    else if evaluationId !in db.fencingEvaluations then Err(NotFound)
    else
      var ev := db.fencingEvaluations[evaluationId];
      if ev.result != FenceVerdict(Proven) then Err(Blocked)
      else if ev.epoch !in db.epochs then Err(NotFound)
      else
        var epoch := db.epochs[ev.epoch];
        var row := CurrentFence(db, ev.epoch);
        if epoch.state != Confirmed || epoch.transitionGeneration != ev.transitionGeneration then Err(Stale)
        else if ev.policy.None? || !FencingPolicyCurrent(db, ev.policy.value) then Err(Stale)
        else if row.None? || FencingLatest(db, ev.epoch) != ev.generation
        || row.value.evidenceId != ev.evidenceId then Err(Stale)
        else if exists p :: p in db.proofs && db.proofs[p].epoch == ev.epoch then Err(Stale)
        else
          var g := epoch.transitionGeneration + 1;
          if (ev.epoch, g) in db.transitions then Err(Constraint)
          else
            Ok(Decided(db.(proofs := db.proofs[proofId := Proof(ev.epoch, evaluationId, ev.evidenceId, decidedBy)],
                           transitions := db.transitions[(ev.epoch, g) := Transition(Some(Confirmed), Fenced,
                                 ByProof(proofId))],
                           epochs := db.epochs[ev.epoch := epoch.(state := Fenced, transitionGeneration := g)]),
                           ev.epoch))
  }
}
