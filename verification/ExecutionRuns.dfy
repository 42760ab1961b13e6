/** Safety of the Command protocol over whole runs: any interleaving of dispatch, journaling,
    results, read-back, expiry, host fencing, plain messages and host authority changes. */
module ExecutionRuns {
  import opened Common
  import opened Envelopes
  import Receipts
  import opened Execution
  import opened ExecutionInvariant
  import opened ExecutionSteps

  datatype Step =
    | CreateCommand(create: CreateRequest)
    | AcquireLease(lease: LeaseRequest, token: string, now: int)
    | Journal(start: AttemptStart, now: int)
    | SubmitResult(submission: Submission, validatedAt: int, expiredAt: int)
    | ReceiveResult(envelope: Envelope, max: int, result: ResultMessage, projected: bool,
                    startedAt: int, validatedAt: int, expiredAt: int)
    | ReceiveObservation(envelope: Envelope, max: int, observation: ObservationMessage, projected: bool)
    | ReceiveMessage(envelope: Envelope, max: int)
    | ExpireLease(id: CommandId, now: int)
    | FenceLeases(host: HostId, reason: string)
    | ChangeHost(host: HostId, row: Host)

  function Next(db: Db, step: Step): Db {
    match step
    case CreateCommand(request) => Create(db, request).db
    case AcquireLease(request, token, now) => Acquire(db, request, token, now).db
    case Journal(start, now) => MarkJournaled(db, start, now).db
    case SubmitResult(s, validatedAt, expiredAt) => AcceptResult(db, s, validatedAt, expiredAt).db
    case ReceiveResult(e, max, m, projected, t1, t2, t3) => AgentResult(db, e, max, DecideResult(m), projected, t1, t2,
          t3).db
    case ReceiveObservation(e, max, m, projected) => AgentObservation(db, e, max, DecideObservation(m), projected).db
    case ReceiveMessage(e, max) => Plain(db, e, max).db
    case ExpireLease(id, now) => Expire(db, id, now).db
    case FenceLeases(host, reason) => FenceHost(db, host, reason).db
    case ChangeHost(host, row) => db.(hosts := db.hosts[host := row])
  }

  /** AcceptAgentMessage on the shared receipt table. */
  function Plain(db: Db, e: Envelope, max: int): Outcome<Receipt> {
    CommitReceipt(db, db, Receipts.AcceptMessage(db.receipts, SessionOf(db, e.host), e, max))
  }

  ghost predicate Run(states: seq<Db>, steps: seq<Step>) {
    && |states| == |steps| + 1
    && states[0].commands == map[] && states[0].evidence == map[] && states[0].receipts == map[]
    && (forall i :: 0 <= i < |steps| ==> states[i + 1] == Next(states[i], steps[i]))
  }

  // ----- one step -------------------------------------------------------------------------------

  lemma PlainKeeps(db: Db, e: Envelope, max: int)
    requires DbInv(db)
    ensures AnswersSender(db, e, Plain(db, e, max))
  {
    hide DbInv, Good, Receipts.AcceptMessage, Receipts.Answers;
    Unchanged(db);
    ReceiptsOf(db);
    Receipts.AcceptAnswers(db.receipts, SessionOf(db, e.host), e, max);
    ReceiptKeeps(db, db, e, Receipts.AcceptMessage(db.receipts, SessionOf(db, e.host), e, max));
  }

  lemma StepKeeps(db: Db, step: Step)
    requires DbInv(db)
    ensures Good(db, Next(db, step))
  {
    hide DbInv, Good, Create, Acquire, MarkJournaled, AcceptResult, AgentResult, AgentObservation, Plain, Expire,
         FenceHost;
    match step
    case CreateCommand(request) => CreateKeeps(db, request);
    case AcquireLease(request, token, now) => AcquireKeeps(db, request, token, now);
    case Journal(start, now) => JournalKeeps(db, start, now);
    case SubmitResult(s, validatedAt, expiredAt) => SubmitKeeps(db, s, validatedAt, expiredAt);
    case ReceiveResult(e, max, m, projected, t1, t2, t3) => AgentResultKeeps(db, e, max, DecideResult(m), projected,
          t1, t2, t3);
    case ReceiveObservation(e, max, m, projected) => AgentObservationKeeps(db, e, max, DecideObservation(m), projected);
    case ReceiveMessage(e, max) => PlainKeeps(db, e, max);
    case ExpireLease(id, now) => ExpireKeeps(db, id, now);
    case FenceLeases(host, reason) => FenceKeeps(db, host, reason);
    case ChangeHost(host, row) =>
      Unchanged(db);
      ReindexKeeps(db, db, db.resultIds, db.hosts[host := row]);
  }

  // ----- runs ---------------------------------------------------------------------------------------

  lemma EmptyDb(db: Db)
    requires db.commands == map[] && db.evidence == map[] && db.receipts == map[]
    ensures DbInv(db)
  {
  }

  /** The invariant holds in every state of every run, and later states only add to
      earlier ones: evidence, grants, log entries, results and receipts are immutable, and
      SUCCEEDED and FAILED are absorbing. */
  lemma {:induction false} EveryRun(states: seq<Db>, steps: seq<Step>, i: nat, j: nat)
    requires Run(states, steps) && i <= j <= |steps|
    ensures DbInv(states[j]) && Evolves(states[i], states[j])
    decreases j
  {
    hide DbInv, Evolves, Next;
    if j == 0 {
      EmptyDb(states[0]);
      UnchangedEvolves(states[0]);
    } else if i == j {
      EveryRun(states, steps, j - 1, j - 1);
      StepKeeps(states[j - 1], steps[j - 1]);
      UnchangedEvolves(states[j]);
    } else {
      EveryRun(states, steps, i, j - 1);
      StepKeeps(states[j - 1], steps[j - 1]);
      EvolvesTransitive(states[i], states[j - 1], states[j]);
    }
  }

  lemma UnchangedEvolves(db: Db)
    ensures Evolves(db, db)
  {
  }

  /** A lease is active exactly while its command is LEASED or EXECUTING.  It is then the
      newest grant, and generation, attempt index and number of grants are one number. */
  lemma ActiveLeaseLaw(states: seq<Db>, steps: seq<Step>, i: nat, id: CommandId)
    requires Run(states, steps) && i <= |steps| && id in states[i].commands
    ensures var c := states[i].commands[id];
            && ((c.lease.Some? && c.lease.value.state == Active) <==> c.state == Leased || c.state == Executing)
            && |c.grants| == c.attempt == MaxGeneration(c.grants)
            && (c.lease.Some? ==>
                  && c.lease.value.grant in c.grants
                  && c.lease.value.grant.generation == c.lease.value.grant.attempt == c.attempt
                  && forall g :: g in c.grants ==> g.generation <= c.lease.value.grant.generation)
  {
    EveryRun(states, steps, i, i);
    MaxOfNumberedGrants(states[i].commands[id].grants);
  }

  /** Every granted generation's log is gap free from 1 and reads GRANTED, then optionally
      STARTED, then at most one of CONSUMED, EXPIRED and FENCED; all generations but the
      newest are closed, and the mutable lease state is the fold of the newest log. */
  lemma LeaseLogLaw(states: seq<Db>, steps: seq<Step>, i: nat, id: CommandId, g: nat)
    requires Run(states, steps) && i <= |steps| && id in states[i].commands && 1 <= g <= states[i].commands[id].attempt
    ensures var c := states[i].commands[id];
            && g in c.leaseLogs && LeaseLogShape(c.leaseLogs[g])
            && (g < c.attempt ==> FoldLease(c.leaseLogs[g]).Ended?)
            && (g == c.attempt ==> c.lease.Some? && c.lease.value.state == FoldLease(c.leaseLogs[g]))
  {
    EveryRun(states, steps, i, i);
    assert LogsAgree(states[i].commands[id], g);
  }

  /** SUCCEEDED is exactly MATCHED evidence for the current attempt. */
  lemma SucceededIffMatched(states: seq<Db>, steps: seq<Step>, i: nat, id: CommandId)
    requires Run(states, steps) && i <= |steps| && id in states[i].commands
    ensures var c := states[i].commands[id];
            c.state == Succeeded <==> HasEvidence(states[i].evidence, id, c.attempt, Matched)
  {
    hide CommandInv;
    EveryRun(states, steps, i, i);
    CommandOf(states[i], id);
  }

  /** SUCCEEDED and FAILED are absorbing over runs of the Agent entry points. */
  lemma TerminalIsForever(states: seq<Db>, steps: seq<Step>, i: nat, j: nat, id: CommandId)
    requires Run(states, steps) && i <= j <= |steps|
    requires id in states[i].commands && Terminal(states[i].commands[id].state)
    ensures id in states[j].commands
    ensures states[j].commands[id].state == states[i].commands[id].state
    ensures states[j].commands[id].attempt == states[i].commands[id].attempt
  {
    hide DbInv;
    EveryRun(states, steps, i, j);
  }

  // ----- redispatch ---------------------------------------------------------------------------------

  /** A message that reports a read-back of this attempt as NOT_APPLIED. */
  ghost predicate ReportsNotApplied(step: Step, id: CommandId, attempt: nat) {
    || (step.ReceiveResult? && step.result.id == id && step.result.attempt == attempt
        && step.result.outcome != OutcomeFailed && step.result.observation.state == ObservedNotApplied)
    || (step.ReceiveObservation? && step.observation.id == id && step.observation.attempt == attempt
        && step.observation.observation.state == ObservedNotApplied)
  }

  /** NOT_APPLIED evidence enters the database only through such a message. */
  lemma OnlyReadBackAdds(db: Db, step: Step, id: CommandId, n: nat)
    requires !HasEvidence(db.evidence, id, n, NotApplied) && HasEvidence(Next(db, step).evidence, id, n, NotApplied)
    ensures ReportsNotApplied(step, id, n)
  {
    hide Acquire, MarkJournaled, AcceptResult, AgentResult, AgentObservation, Expire, FenceHost, Receipts.AcceptMessage;
    var w :| w in Next(db, step).evidence && About(Next(db, step).evidence[w], id, n, NotApplied);
    assert w !in db.evidence || db.evidence[w] != Next(db, step).evidence[w];
  }

  /** Somewhere before state j a message reported the attempt NOT_APPLIED, if the evidence is
      there at j and was not there at i. */
  lemma {:induction false} EvidenceHasOrigin(states: seq<Db>, steps: seq<Step>, i: nat, j: nat, id: CommandId, n: nat)
    returns (k: nat)
    requires Run(states, steps) && i <= j <= |steps|
    requires !HasEvidence(states[i].evidence, id, n, NotApplied) && HasEvidence(states[j].evidence, id, n, NotApplied)
    ensures i <= k < j && ReportsNotApplied(steps[k], id, n)
    decreases j
  {
    hide HasEvidence, Next;
    if HasEvidence(states[j - 1].evidence, id, n, NotApplied) {
      k := EvidenceHasOrigin(states, steps, i, j - 1, id, n);
    } else {
      OnlyReadBackAdds(states[j - 1], steps[j - 1], id, n);
      k := j - 1;
    }
  }

  /** The number of attempts changes only by a grant, and a second or later grant is made only
      in a state that holds NOT_APPLIED evidence for exactly the attempt before. */
  lemma GrantNeedsProof(db: Db, step: Step, id: CommandId)
    requires DbInv(db) && id in db.commands
    requires id in Next(db, step).commands && Next(db, step).commands[id].attempt != db.commands[id].attempt
    ensures step.AcquireLease? && step.lease.id == id
    ensures Next(db, step).commands[id].attempt == db.commands[id].attempt + 1
    ensures db.commands[id].attempt > 0 ==> HasEvidence(db.evidence, id, db.commands[id].attempt, NotApplied)
  {
    hide DbInv, HasEvidence, Acquire, MarkJournaled, AcceptResult, AgentResult, AgentObservation, Expire, FenceHost,
         Receipts.AcceptMessage;
    if step.AcquireLease? { AcquireKeeps(db, step.lease, step.token, step.now); }
  }

  /** Every grant after the first, in every run: NOT_APPLIED evidence for exactly the attempt
      before is already recorded, and an earlier step of the run is the read-back message
      that reported it. */
  lemma RedispatchFollowsReadBack(states: seq<Db>, steps: seq<Step>, i: nat, id: CommandId) returns (k: nat)
    requires Run(states, steps) && i < |steps| && id in states[i].commands && id in states[i + 1].commands
    requires 1 <= states[i].commands[id].attempt < states[i + 1].commands[id].attempt
    ensures HasEvidence(states[i].evidence, id, states[i].commands[id].attempt, NotApplied)
    ensures states[i + 1].commands[id].attempt == states[i].commands[id].attempt + 1
    ensures k < i && ReportsNotApplied(steps[k], id, states[i].commands[id].attempt)
  {
    hide DbInv, Next, HasEvidence;
    EveryRun(states, steps, i, i);
    GrantNeedsProof(states[i], steps[i], id);
    NothingRecordedAtFirst(states, steps, id, states[i].commands[id].attempt);
    k := EvidenceHasOrigin(states, steps, 0, i, id, states[i].commands[id].attempt);
  }

  lemma NothingRecordedAtFirst(states: seq<Db>, steps: seq<Step>, id: CommandId, n: nat)
    requires Run(states, steps)
    ensures !HasEvidence(states[0].evidence, id, n, NotApplied)
  {
  }

  /** Expiry, fencing, UNKNOWN results, stale results and authority changes alone never lead to
      another dispatch: if a dispatched command that is not REDISPATCHABLE at i has a higher
      attempt at j, some step in between is a read-back message reporting the attempt it had
      at i as NOT_APPLIED. */
  lemma {:induction false} OnlyReadBackRedispatches(states: seq<Db>, steps: seq<Step>, i: nat, j: nat, id: CommandId)
    returns (k: nat)
    requires Run(states, steps) && i <= j <= |steps| && id in states[i].commands && id in states[j].commands
    requires 1 <= states[i].commands[id].attempt < states[j].commands[id].attempt
    requires states[i].commands[id].state != Redispatchable
    ensures i <= k < j && ReportsNotApplied(steps[k], id, states[i].commands[id].attempt)
    decreases j
  {
    hide CommandInv, Next, HasEvidence, Evolves;
    EveryRun(states, steps, i, i);
    CommandOf(states[i], id);
    Present(states, steps, i, j - 1, id);
    var before := states[j - 1].commands[id].attempt;
    if before > states[i].commands[id].attempt {
      k := OnlyReadBackRedispatches(states, steps, i, j - 1, id);
    } else {
      EveryRun(states, steps, j - 1, j - 1);
      GrantNeedsProof(states[j - 1], steps[j - 1], id);
      k := EvidenceHasOrigin(states, steps, i, j - 1, id, before);
    }
  }

  lemma Present(states: seq<Db>, steps: seq<Step>, i: nat, j: nat, id: CommandId)
    requires Run(states, steps) && i <= j <= |steps| && id in states[i].commands
    ensures id in states[j].commands && states[i].commands[id].attempt <= states[j].commands[id].attempt
  {
    hide DbInv, Next;
    EveryRun(states, steps, i, j);
  }

  // ----- submissions that lost their lease -----------------------------------------------------------

  /** The ways a submission's lease can be gone: there is none for the attempt, it ended, it is
      outside its validity window, the token is another one, or the host's transport session
      is no longer the one the lease was granted under. */
  ghost predicate LeaseLost(db: Db, s: Submission, now: int)
    requires s.id in db.commands
  {
    var c := db.commands[s.id];
    || !CoversAttempt(c, s.attempt)
    || c.lease.value.state != Active
    || now < c.lease.value.grant.notBefore || c.lease.value.grant.expiresAt <= now
    || c.lease.value.grant.token != Sha256(s.token)
    || SessionOf(db, c.lease.value.grant.host) != Some(Receipts.Session(c.lease.value.grant.sessionGeneration, true))
  }

  lemma LostIsUnusable(db: Db, s: Submission, now: int)
    requires s.id in db.commands && LeaseLost(db, s, now)
    ensures !LeaseUsable(db, s.id, s.attempt, s.token, now)
  {
  }

  /** The named lease is still active although its time is over. */
  ghost predicate Elapsed(c: Command, attempt: nat, now: int) {
    CoversAttempt(c, attempt) && c.lease.value.state == Active && c.lease.value.grant.expiresAt <= now
  }

  /** A refused submission adds no result, touches no other command, evidence or receipt, and
      changes its own command's state only from LEASED or EXECUTING to UNKNOWN, exactly when
      its rejection was recorded and the lease it names is active and elapsed. */
  ghost predicate Inert(db: Db, s: Submission, now: int, r: Outcome<ResultRow>)
    requires s.id in db.commands
  {
    && r.result.Err?
    && r.db == db.(commands := r.db.commands) && r.db.commands.Keys == db.commands.Keys
    && (forall id :: id in db.commands && id != s.id ==> r.db.commands[id] == db.commands[id])
    && var c, c' := db.commands[s.id], r.db.commands[s.id];
    && c'.results == c.results && c'.attempt == c.attempt && c'.grants == c.grants
    && (c'.state != c.state <==> r.result.error == StaleResult && Elapsed(c, s.attempt, now))
    && (c'.state != c.state ==> InFlight(c.state) && c'.state == Unknown)
  }

  lemma RejectionIsInert(db: Db, s: Submission, now: int)
    requires DbInv(db) && s.id in db.commands
    ensures Inert(db, s, now, RejectStale(db, s, now))
  {
    hide DbInv, AppendAttemptEvent, EndUnknown, CommandInv, Effect, AfterEnd, EvidenceDecides, SameAttempts;
    CommandOf(db, s.id);
    var c := db.commands[s.id];
    if Elapsed(c, s.attempt, now) {
      EndEffect(c, Expired, "lease_expired");
      EndedState(c, Expired, "lease_expired");
    }
    var c1 := if Elapsed(c, s.attempt, now) then AfterEnd(c, Expired, "lease_expired") else c;
    assert ExpireElapsed(c, s.attempt, now) == Ok(c1);
    RejectionError(c1, s);
  }

  lemma RejectionError(c: Command, s: Submission)
    ensures var r := AppendAttemptEvent(c, s.attempt, StaleResultRejected, "lease_or_authority_not_current",
                                        StaleFacts(s.resultId, Sha256(s.payload)));
            r.Err? ==> r.error == ConstraintViolation
  {
  }

  /** The only thing a submission without a usable lease may move: the state of its own command,
      from LEASED or EXECUTING to UNKNOWN, when the lease it names is active and elapsed. */
  ghost predicate OnlyExpires(db: Db, s: Submission, now: int, db': Db) {
    && db' == db.(commands := db'.commands) && db'.commands.Keys == db.commands.Keys
    && forall id :: id in db.commands ==>
         var c, c' := db.commands[id], db'.commands[id];
         && c'.results == c.results && c'.attempt == c.attempt && c'.grants == c.grants
         && (c'.state != c.state ==>
               id == s.id && InFlight(c.state) && c'.state == Unknown && Elapsed(c, s.attempt, now))
  }

  /** Whatever took the lease away, the submission adds no result and at most lets an elapsed lease
      expire.  An attempt that already has its result, as every consumed lease has, answers from
      it and writes nothing; any other submission is refused, and an unknown command gets no
      trace of it. */
  lemma StaleSubmissionIsInert(db: Db, s: Submission, validatedAt: int, expiredAt: int)
    requires DbInv(db) && (s.id in db.commands ==> LeaseLost(db, s, validatedAt))
    ensures var r := AcceptResult(db, s, validatedAt, expiredAt);
            && OnlyExpires(db, s, expiredAt, r.db)
            && (s.id !in db.commands ==> r.db == db && r.result.Err?)
            && (s.id in db.commands ==>
                  if s.attempt in db.commands[s.id].results
                  then r.db == db && (r.result.Ok? ==>
                                      r.result.value == s.Row() == db.commands[s.id].results[s.attempt])
                  else Inert(db, s, expiredAt, r))
  {
    hide DbInv, LeaseUsable, RejectStale;
    if s.id in db.commands {
      LostIsUnusable(db, s, validatedAt);
      RejectionIsInert(db, s, expiredAt);
    } else {
      UnknownIsRefused(db, s, validatedAt, expiredAt);
    }
  }

  lemma UnknownIsRefused(db: Db, s: Submission, validatedAt: int, expiredAt: int)
    requires s.id !in db.commands
    ensures !LeaseUsable(db, s.id, s.attempt, s.token, validatedAt)
    ensures RejectStale(db, s, expiredAt).db == db && RejectStale(db, s, expiredAt).result.Err?
  {
  }

  /** A lease is consumed exactly when its attempt has its result. */
  lemma ConsumedIffResult(db: Db, id: CommandId)
    requires DbInv(db) && id in db.commands && db.commands[id].lease.Some?
    ensures var c := db.commands[id];
            && c.lease.value.grant.attempt == c.attempt
            && (c.lease.value.state == Ended(Consumed) <==> c.attempt in c.results)
  {
    hide DbInv;
    CommandOf(db, id);
    assert LogsAgree(db.commands[id], db.commands[id].attempt);
  }

  /** So a submission under a consumed lease changes nothing at all, and succeeds only as a replay of
      the result that consumed it. */
  lemma ConsumedOnlyReplays(db: Db, s: Submission, validatedAt: int, expiredAt: int)
    requires DbInv(db) && s.id in db.commands && CoversAttempt(db.commands[s.id], s.attempt)
    requires db.commands[s.id].lease.value.state == Ended(Consumed)
    ensures var r := AcceptResult(db, s, validatedAt, expiredAt);
            && s.attempt in db.commands[s.id].results && r.db == db
            && (r.result.Ok? ==> r.result.value == s.Row() == db.commands[s.id].results[s.attempt])
  {
    hide DbInv, AcceptResult;
    ConsumedIffResult(db, s.id);
    StaleSubmissionIsInert(db, s, validatedAt, expiredAt);
  }

  lemma EndedState(c: Command, end: LeaseEnd, reason: string)
    requires c.lease.Some? && EndUnknown(c, end, reason).Ok?
    ensures EndUnknown(c, end, reason).value.state == Unknown
  {
  }

  // ----- the unguarded inner function ----------------------------------------------------------------

  /** RecordCommandVerification alone does not keep a terminal state: a complete CONFLICTING or
      UNKNOWN verification of the current attempt under a new identity overwrites it, and
      nothing else does. */
  lemma RawVerificationOverwrites(db: Db, id: CommandId, v: VerificationRequest, projected: bool)
    requires DbInv(db) && id in db.commands && Terminal(db.commands[id].state)
    ensures RecordVerification(db, v, projected).db.commands[id].state != db.commands[id].state
       <==> && VerificationComplete(v) && v.row.commandId == id && v.row.attempt == db.commands[id].attempt
            && v.verificationId !in db.evidence && (v.row.state == Conflicting || v.row.state == Unresolved)
  {
    hide DbInv, CommandInv, EvidenceDecides, SameAttempts;
    CommandOf(db, id);
    TerminalHasAttempt(db.commands[id]);
  }

  lemma TerminalHasAttempt(c: Command)
    requires CommandInv(c) && Terminal(c.state)
    ensures c.attempt in c.attempts
  {
    assert LogsAgree(c, c.attempt);
  }

  // ----- authority of a lease ---------------------------------------------------------------------

  /** A lease just granted can be used with its own token, and no other, until it expires. */
  lemma GrantedLeaseIsUsable(db: Db, request: LeaseRequest, token: string, now: int, presented: string, later: int)
    requires DbInv(db) && Acquire(db, request, token, now).result.Ok?
    ensures var r := Acquire(db, request, token, now);
            LeaseUsable(r.db, request.id, r.result.value.attempt, presented, later) <==>
              presented == token && now <= later < r.result.value.expiresAt
  {
    hide DbInv, Good, GrantLease, HasEvidence;
    AcquireKeeps(db, request, token, now);
    var r := Acquire(db, request, token, now);
    var c := db.commands[request.id];
    assert c.identity.(host := c.identity.host) == c.identity;
    assert AfterGrant(c, r.result.value).lease == Some(Lease(r.result.value, Active));
  }

  /** A usable lease is bound to the host's one current session and to its current authority
      generation, under which a mutation also needs an armed authority with every gate open. */
  lemma UsableMeansCurrent(db: Db, id: CommandId, attempt: nat, token: string, now: int)
    requires LeaseUsable(db, id, attempt, token, now)
    ensures var g := db.commands[id].lease.value.grant;
            && g.host in db.hosts
            && var h := db.hosts[g.host];
               && h.authorityGeneration == g.authorityGeneration
               && h.session == Some(Receipts.Session(g.sessionGeneration, true))
               && h.authorizedSession == Some(g.sessionGeneration) && h.authority != Disarmed
               && (g.scope == Mutation ==> h.authority == Armed && h.gatesOpen)
  {
  }

  /** So when the host's session or authority generation moves on, or its authority is disarmed, or
      fenced for a mutation, no lease bound to the old one is usable any more. */
  lemma MovedOnIsUnusable(db: Db, host: HostId, row: Host, id: CommandId, attempt: nat, token: string, now: int)
    requires id in db.commands && db.commands[id].lease.Some? && db.commands[id].lease.value.grant.host == host
    requires var g := db.commands[id].lease.value.grant;
             || row.session != Some(Receipts.Session(g.sessionGeneration, true))
             || row.authorityGeneration != g.authorityGeneration
             || row.authority == Disarmed || (g.scope == Mutation && row.authority == HostFenced)
    ensures !LeaseUsable(Next(db, ChangeHost(host, row)), id, attempt, token, now)
  {
    var db' := Next(db, ChangeHost(host, row));
    if LeaseUsable(db', id, attempt, token, now) { UsableMeansCurrent(db', id, attempt, token, now); }
  }
}
