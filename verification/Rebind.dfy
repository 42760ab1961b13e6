/** The chain of availability bindings of a workload
    (internal/persistence/postgres/availability_rebind.go, and recordVMAvailabilityBindingTx of
    internal/persistence/postgres/availability_policy.go). */
module Rebind {
  import opened Common

  type Workload = string
  type Policy = (string, nat, string)

  datatype Responsibility = InfrastructureManaged | WorkloadManaged | Manual | OtherResponsibility(name: string)
  datatype Action = RestartOnOtherHost | Evacuate | NoAutomaticAction | OtherAction(name: string)

  /** One immutable binding revision.  Its digest covers all of it, including the digest of the
      revision it replaces. */
  datatype Binding = Binding(
    workload: Workload, revision: nat, admission: string, allocation: string, policy: Policy,
    responsibility: Responsibility, action: Action, origin: Origin)
  datatype Origin =
    | FinalAdmission(resolution: string, inputDigest: string)
    | ExplicitRebind(sourceRevision: nat, sourceDigest: BindingDigest, rebind: string)
  /** The digest of a binding, or any other text in a digest column. */
  datatype BindingDigest = DigestOf(binding: Binding) | OtherText(text: string)

  datatype Request = Request(
    rebind: string, workload: Workload, expectedRevision: nat, sourceDigest: BindingDigest, target: Policy,
    requestedBy: string, authorizedBy: string, reference: string, reason: string)

  datatype Decision = Decision(workload: Workload, sourceRevision: nat, sourceDigest: BindingDigest,
                               targetRevision: nat,
                               target: Policy, decidedBy: string)

  datatype Head = Head(revision: nat, digest: BindingDigest)

  datatype Db = Db(
    bindings: map<(Workload, nat), Binding>, current: map<Workload, Head>,
    requests: map<string, Request>, decisions: map<string, Decision>)

  datatype Error =
    | Conflict | StaleSource | StaleTarget | NotActive | InvalidTarget | Unauthorized | NotFound | Constraint

  /** A policy revision that is its policy's current one. */
  datatype PolicyRow = PolicyRow(active: bool, responsibility: Responsibility, action: Action)

  /** recordVMAvailabilityBindingTx for a resolved policy: revision 1, or an exact replay of it. */
  function Bind(db: Db, w: Workload, admission: string, allocation: string, resolution: string, inputDigest: string,
                policy: Policy, row: Option<PolicyRow>): Result<Db, Error>
  {
    if row.None? then Err(NotFound)
    else
      var b := Binding(w, 1, admission, allocation, policy, row.value.responsibility, row.value.action,
                       FinalAdmission(resolution, inputDigest));
      if (w, 1) in db.bindings && db.bindings[(w, 1)] != b then Err(Conflict)
      else
        Ok(db.(bindings := if (w, 1) in db.bindings then db.bindings else db.bindings[(w, 1) := b],
               current := if w in db.current then db.current else db.current[w := Head(1, DigestOf(b))]))
  }

  predicate RequestComplete(r: Request) {
    && r.rebind != "" && r.workload != "" && r.expectedRevision != 0 && r.sourceDigest != OtherText("")
    && r.target.0 != ""
    && r.target.1 != 0 && r.target.2 != "" && r.requestedBy != "" && r.authorizedBy != "" && r.reference != ""
    && r.reason != ""
  }

  /** RecordVMAvailabilityRebindRequest; `row` is the target policy if it is current. */
  function Record(db: Db, r: Request, row: Option<PolicyRow>): Result<Db, Error> {
    if !RequestComplete(r) then Err(Unauthorized)
    else if r.rebind in db.requests then
      if db.requests[r.rebind] == r then Ok(db) else Err(Conflict)
    else if r.workload !in db.current
    || db.current[r.workload] != Head(r.expectedRevision, r.sourceDigest) then Err(StaleSource)
    else if row.None? then Err(StaleTarget)
    else if !row.value.active then Err(NotActive)
    else Ok(db.(requests := db.requests[r.rebind := r]))
  }

  predicate Allowed(r: Responsibility, a: Action) {
    || (r == InfrastructureManaged && (a == RestartOnOtherHost || a == Evacuate))
    || ((r == WorkloadManaged || r == Manual) && a == NoAutomaticAction)
  }

  datatype Decided = Decided(db: Db, decision: Decision, binding: Binding)

  /** DecideVMAvailabilityRebind; `placed` is whether the source's admission and allocation
      belong to the workload. */
  function Decide(db: Db, rebind: string, decidedBy: string, row: Option<PolicyRow>, placed: bool): Result<Decided,
        Error> {
    if rebind == "" || decidedBy == "" then Err(Unauthorized)
    else if rebind in db.decisions then
      var d := db.decisions[rebind];
      if (d.workload, d.targetRevision) in db.bindings
          then Ok(Decided(db, d, db.bindings[(d.workload, d.targetRevision)])) else Err(NotFound)
    else if rebind !in db.requests then Err(NotFound)
    else
      var r := db.requests[rebind];
      var w := r.workload;
      if w !in db.current || db.current[w] != Head(r.expectedRevision, r.sourceDigest) then Err(StaleSource)
      else if row.None? then Err(StaleTarget)
      else if !row.value.active then Err(NotActive)
      else if !Allowed(row.value.responsibility, row.value.action) then Err(InvalidTarget)
      else
        var n := db.current[w].revision;
        if (w, n) !in db.bindings || DigestOf(db.bindings[(w, n)]) != db.current[w].digest then Err(StaleSource)
        else if !placed then Err(Conflict)
        else if (w, n + 1) in db.bindings then Err(Constraint)
        else
          var source := db.bindings[(w, n)];
          var d := Decision(w, n, db.current[w].digest, n + 1, r.target, decidedBy);
          var b := Binding(w, n + 1, source.admission, source.allocation, r.target, row.value.responsibility,
                           row.value.action,
                           ExplicitRebind(n, db.current[w].digest, rebind));
          Ok(Decided(db.(decisions := db.decisions[rebind := d], bindings := db.bindings[(w, n + 1) := b],
                         current := db.current[w := Head(n + 1, DigestOf(b))]), d, b))
  }
}
