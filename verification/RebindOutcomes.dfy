/** Exactly when a binding is recorded, rebinding is asked for and decided, and what the new revision
    holds. */
module RebindOutcomes {
  import opened Common
  import opened Rebind
  import opened RebindRuns

  /** The first binding of a workload takes responsibility and action from its policy; recording it
      again succeeds exactly for the very same content, and nothing later is touched. */
  lemma BindIff(db: Db, w: Workload, admission: string, allocation: string, resolution: string, inputDigest: string,
                policy: Policy, row: Option<PolicyRow>)
    requires Inv(db)
    ensures var r := Bind(db, w, admission, allocation, resolution, inputDigest, policy, row);
            && (r.Ok? <==>
                  && row.Some?
                  && (w in db.current ==>
                        db.bindings[(w, 1)] == Binding(w, 1, admission, allocation, policy, row.value.responsibility,
                                                       row.value.action, FinalAdmission(resolution, inputDigest))))
            && (r.Ok? && w in db.current ==> r.value == db)
            && (r.Ok? && w !in db.current ==>
                  var b := Binding(w, 1, admission, allocation, policy, row.value.responsibility, row.value.action,
                                   FinalAdmission(resolution, inputDigest));
                  r.value == db.(bindings := db.bindings[(w, 1) := b],
                                 current := db.current[w := Head(1, DigestOf(b))]))
  {
    FirstIffCurrent(db, w);
    hide Inv;
  }

  /** A new request is recorded exactly when it is complete, names the workload's current binding, and
      its target is a current and active policy. */
  lemma RecordIff(db: Db, r: Request, row: Option<PolicyRow>)
    requires r.rebind !in db.requests
    ensures var o := Record(db, r, row);
            && (o.Ok? <==>
                  && "" !in {r.rebind, r.workload, r.target.0, r.target.2, r.requestedBy, r.authorizedBy, r.reference,
                             r.reason}
                  && r.expectedRevision >= 1 && r.target.1 >= 1 && r.sourceDigest != OtherText("")
                  && r.workload in db.current
                  && db.current[r.workload].revision == r.expectedRevision
                  && db.current[r.workload].digest == r.sourceDigest
                  && row.Some? && row.value.active)
            && (o.Ok? ==> o.value == db.(requests := db.requests[r.rebind := r]))
  {
  }

  /** A recorded request answers only for itself, whatever happened since, and writes nothing. */
  lemma RecordReplays(db: Db, r: Request, row: Option<PolicyRow>)
    requires r.rebind in db.requests
    ensures Record(db, r, row).Ok? ==> Record(db, r, row).value == db && db.requests[r.rebind] == r
    ensures db.requests[r.rebind] == r && RequestComplete(r) ==> Record(db, r, row) == Ok(db)
  {
  }

  /** The policies a workload may be rebound to. */
  ghost predicate Automatic(row: PolicyRow) {
    || (row.responsibility == InfrastructureManaged && row.action in {RestartOnOtherHost, Evacuate})
    || (row.responsibility in {WorkloadManaged, Manual} && row.action == NoAutomaticAction)
  }

  /** A new decision is made exactly for a recorded request whose source is still the current binding,
      for a target policy that is current, active and of an allowed kind, and a workload that is still
      placed.  It makes the next revision: the placement of the source, and policy, responsibility and
      action of the target. */
  lemma DecideIff(db: Db, rebind: string, decidedBy: string, row: Option<PolicyRow>, placed: bool)
    requires Inv(db) && rebind !in db.decisions
    ensures var o := Decide(db, rebind, decidedBy, row, placed);
            && (o.Ok? <==>
                  && rebind != "" && decidedBy != "" && rebind in db.requests
                  && var r := db.requests[rebind];
                     && r.workload in db.current
                     && db.current[r.workload] == Head(r.expectedRevision, r.sourceDigest)
                     && row.Some? && row.value.active && Automatic(row.value) && placed)
            && (o.Ok? ==>
                  && rebind in db.requests
                  && var r := db.requests[rebind];
                  && (r.workload, r.expectedRevision) in db.bindings
                  && var w, n, source := r.workload, r.expectedRevision, db.bindings[(r.workload, r.expectedRevision)];
                  var b := Binding(w, n + 1, source.admission, source.allocation, r.target, row.value.responsibility,
                                   row.value.action, ExplicitRebind(n, DigestOf(source), rebind));
                  && o.value.binding == b
                  && o.value.decision == Decision(w, n, DigestOf(source), n + 1, r.target, decidedBy)
                  && o.value.db == db.(decisions := db.decisions[rebind := o.value.decision],
                                       bindings := db.bindings[(w, n + 1) := b],
                                       current := db.current[w := Head(n + 1, DigestOf(b))]))
  {
    if rebind in db.requests { HeadHasBinding(db, db.requests[rebind].workload); }
    hide Inv;
  }

  lemma HeadHasBinding(db: Db, w: Workload)
    requires Inv(db)
    ensures w in db.current ==>
              var n := db.current[w].revision;
              && (w, n) in db.bindings && DigestOf(db.bindings[(w, n)]) == db.current[w].digest
              && (w, n + 1) !in db.bindings
  {
    hide LinkInv, DecisionInv, OriginInv;
  }

  /** A decision that was made answers with itself and its binding, whoever asks again. */
  lemma DecideReplays(db: Db, rebind: string, decidedBy: string, row: Option<PolicyRow>, placed: bool)
    requires Inv(db) && rebind in db.decisions && rebind != "" && decidedBy != ""
    ensures var d := db.decisions[rebind];
            && (d.workload, d.targetRevision) in db.bindings
            && Decide(db, rebind, decidedBy, row, placed) ==
                 Ok(Decided(db, d, db.bindings[(d.workload, d.targetRevision)]))
  {
    hide ChainInv, OriginInv;
  }

  /** A step adds a revision above the first only as a decision on its request, and the revision holds
      the responsibility and the action of the target policy as it was read then. */
  lemma BoundAsTarget(db: Db, step: Step, w: Workload, n: nat)
    requires Inv(db) && n > 1 && (w, n) !in db.bindings && (w, n) in Next(db, step).bindings
    ensures step.DoDecide? && step.row.Some? && step.row.value.active && Automatic(step.row.value)
    ensures step.rebind in db.requests && db.requests[step.rebind].workload == w
    ensures var b := Next(db, step).bindings[(w, n)];
            && b.policy == db.requests[step.rebind].target
            && b.responsibility == step.row.value.responsibility && b.action == step.row.value.action
  {
    hide Inv;
    if step.DoDecide? && step.rebind !in db.decisions {
      DecideIff(db, step.rebind, step.decidedBy, step.row, step.placed);
    }
  }
}
