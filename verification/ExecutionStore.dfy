/** The Command protocol as the source writes it: an object whose tables are updated in place
    by transactions that may fail half way and are then rolled back.  Each method is proved
    against its transaction function, and keeps the protocol invariant. */
module ExecutionStore {
  import opened Common
  import opened Envelopes
  import Receipts
  import opened Execution
  import opened ExecutionInvariant
  import opened ExecutionSteps
  import X = ExecutionOutcomes

  class Store {
    var commands: map<CommandId, Command>
    var resultIds: set<string>
    var evidence: map<string, Verification>
    var receipts: Receipts.Table
    var hosts: map<HostId, Host>

    ghost function View(): Db
      reads this
    {
      Db(commands, resultIds, evidence, receipts, hosts)
    }

    ghost predicate Valid()
      reads this
    {
      DbInv(View())
    }

    constructor (hosts: map<HostId, Host>)
      ensures View() == Db(map[], {}, map[], map[], hosts)
      ensures Valid()
    {
      commands, resultIds, evidence, receipts := map[], {}, map[], map[];
      this.hosts := hosts;
    }

    method CreateExecutionCommand(request: CreateRequest) returns (r: Result<(), Error>)
      modifies this`commands
      ensures Outcome(View(), r) == Create(old(View()), request)
      ensures old(Valid()) ==> Valid()
    {
      hide DbInv, Evolves;
      if old(Valid()) { CreateKeeps(View(), request); }
      var identity := request.identity;
      if request.id == "" || identity.jobId == "" || identity.host == "" || identity.commandType == ""
         || identity.schemaVersion == "" || identity.target == "" { return Err(Incomplete); }
      if request.id in commands {
        if commands[request.id].identity != identity { return Err(EvidenceConflict); }
        return Ok(());
      }
      if identity.host !in hosts { return Err(ConstraintViolation); }
      commands := commands[request.id := Command(identity, Pending, 0, None, [], map[], map[], map[], map[])];
      return Ok(());
    }

    method AcquireCommandLease(request: LeaseRequest, token: string, now: int) returns (r: Result<Grant, Error>)
      modifies this`commands
      ensures Outcome(View(), r) == Acquire(old(View()), request, token, now)
      ensures old(Valid()) ==> Valid()
      ensures old(Valid()) && r.Ok? ==>
                && r.value.notBefore == now && 0 < r.value.expiresAt - now <= 3_600_000_000
                && 1000 * (r.value.expiresAt - now) <= request.duration < 1000 * (r.value.expiresAt - now + 1)
                && r.value.authorityGeneration == request.authorityGeneration
    {
      hide DbInv, Evolves, HasEvidence, GrantLease, AuthorityFor, AfterGrant;
      ghost var before := View();
      if old(Valid()) {
        AcquireKeeps(before, request, token, now);
        if Acquire(before, request, token, now).result.Ok? { X.GrantIsBounded(before, request, token, now); }
      }
      if !LeaseRequestComplete(request) { return Err(Incomplete); }
      if request.id !in commands { return Err(NotDispatchable); }
      var c := commands[request.id];
      if c.state != Pending && c.state != Redispatchable {
        return Err(if c.state == Leased || c.state == Executing then ActiveLease else NotDispatchable);
      }
      var scope := ScopeOrDefault(request.scope);
      var authority := AuthorityOf(c.identity, scope, request.authorityGeneration);
      if authority.Err? { return Err(authority.error); }
      var grant := Grant(MaxGeneration(c.grants) + 1, c.attempt + 1, c.identity.host,
        request.authorityGeneration, authority.value, Sha256(token),
        now, now + request.duration / 1000, scope);
      var leased := GrantLease(c, grant);
      if leased.Err? { return Err(leased.error); }
      commands := commands[request.id := leased.value];
      return Ok(grant);
    }

    method AuthorityOf(identity: Identity, scope: Scope, generation: int) returns (r: Result<nat, Error>)
      ensures r == AuthorityFor(View(), identity, scope, generation)
      ensures r.Ok? ==>
                && identity.host in hosts && hosts[identity.host].authorityGeneration == generation
                && hosts[identity.host].session == Some(Receipts.Session(r.value, true))
                && hosts[identity.host].authorizedSession == Some(r.value)
    {
      if scope.UnsupportedScope? { return Err(UnsupportedAuthorityScope); }
      if scope == ReadOnlyVerification && !identity.readOnlyType { return Err(NotDispatchable); }
      if identity.host !in hosts { return Err(AuthorityNotArmed); }
      var session := if scope == Mutation then MutationAuthority(hosts[identity.host], generation)
                     else ReadOnlyAuthority(hosts[identity.host], generation);
      return if session.None? then Err(AuthorityNotArmed) else Ok(session.value);
    }

    method ValidateActiveLease(id: CommandId, attempt: nat, token: string, now: int) returns (usable: bool)
      ensures usable <==> LeaseUsable(View(), id, attempt, token, now)
      ensures usable ==> id in commands && CoversAttempt(commands[id], attempt)
    {
      if id !in commands || !CoversAttempt(commands[id], attempt) { return false; }
      var lease := commands[id].lease.value;
      if lease.state != Active || now < lease.grant.notBefore || lease.grant.expiresAt <= now
         || lease.grant.token != Sha256(token) {
        return false;
      }
      var authority := AuthorityOf(commands[id].identity.(host := lease.grant.host), lease.grant.scope,
                                   lease.grant.authorityGeneration);
      return authority == Ok(lease.grant.sessionGeneration);
    }

    method MarkCommandAttemptJournaled(start: AttemptStart, now: int) returns (r: Result<(), Error>)
      modifies this`commands
      ensures Outcome(View(), r) == MarkJournaled(old(View()), start, now)
      ensures old(Valid()) ==> Valid()
    {
      hide DbInv, Evolves, LeaseUsable, StartAttempt, SameAttempts;
      ghost var before := View();
      if old(Valid()) { JournalKeeps(before, start, now); }
      if start.id == "" || start.attempt < 1 || start.token == "" || !start.journalDigest.Has64Characters() {
        return Err(Incomplete);
      }
      var usable := ValidateActiveLease(start.id, start.attempt, start.token, now);
      if !usable { return Err(StaleLease); }
      var started := StartAttempt(commands[start.id], start.attempt, start.journalDigest);
      if started.Err? { return Err(started.error); }
      commands := commands[start.id := started.value];
      return Ok(());
    }

    method AcceptCommandResult(s: Submission, validatedAt: int, expiredAt: int) returns (r: Result<ResultRow, Error>)
      modifies this`commands, this`resultIds
      ensures Outcome(View(), r) == AcceptResult(old(View()), s, validatedAt, expiredAt)
      ensures old(Valid()) ==> Valid()
      ensures old(Valid()) && r.Ok? ==>
                && s.id in old(commands) && s.id in commands
                && (s.attempt !in old(commands)[s.id].results ==>
                      && (s.outcome == OutcomeSucceeded ==> commands[s.id].state == Verifying)
                      && (s.outcome == OutcomeFailed ==> commands[s.id].state == Failed)
                      && (s.outcome == OutcomeUnknown ==> commands[s.id].state == Unknown))
    {
      hide DbInv, Evolves, LeaseUsable, ConsumeLease, AppendAttemptEvent, ExpireElapsed, SameAttempts;
      ghost var before := View();
      if old(Valid()) {
        SubmitKeeps(before, s, validatedAt, expiredAt);
        if AcceptResult(before, s, validatedAt, expiredAt).result.Ok? {
          X.AcceptedOutcome(before, s, validatedAt, expiredAt);
        }
      }
      if s.id == "" || s.attempt < 1 || s.token == "" || s.resultId == "" || s.outcome.UnsupportedOutcome? {
        return Err(Incomplete);
      }
      if s.id in commands && s.attempt in commands[s.id].results {
        var row := commands[s.id].results[s.attempt];
        return if row == s.Row() then Ok(row) else Err(ResultConflict);
      }
      var usable := ValidateActiveLease(s.id, s.attempt, s.token, validatedAt);
      if !usable {
        if s.id !in commands { return Err(ConstraintViolation); }
        var expired := ExpireElapsed(commands[s.id], s.attempt, expiredAt);
        if expired.Err? { return Err(expired.error); }
        var rejected := AppendAttemptEvent(expired.value, s.attempt, StaleResultRejected,
          "lease_or_authority_not_current", StaleFacts(s.resultId, Sha256(s.payload)));
        if rejected.Err? { return Err(rejected.error); }
        commands := commands[s.id := rejected.value];
        return Err(StaleResult);
      }
      if s.resultId in resultIds { return Err(ConstraintViolation); }
      var consumed := ConsumeLease(commands[s.id], s.attempt, s.Row());
      if consumed.Err? { return Err(consumed.error); }
      commands := commands[s.id := consumed.value];
      resultIds := resultIds + {s.resultId};
      return Ok(s.Row());
    }

    /** Writes the evidence row first; a verdict the command's state does not admit then rolls
        the row back. */
    method RecordCommandVerification(v: VerificationRequest, projected: bool) returns (r: Result<(), Error>)
      modifies this`commands, this`evidence
      ensures Outcome(View(), r) == RecordVerification(old(View()), v, projected)
    {
      if !VerificationComplete(v) { return Err(Incomplete); }
      if v.row.commandId !in commands || commands[v.row.commandId].attempt != v.row.attempt {
        return Err(VerificationConflict);
      }
      if v.verificationId in evidence {
        return if evidence[v.verificationId] == v.row then Ok(()) else Err(VerificationConflict);
      }
      if v.row.attempt !in commands[v.row.commandId].attempts { return Err(ConstraintViolation); }
      var savepoint := evidence;
      evidence := evidence[v.verificationId := v.row];
      if v.row.state == Matched && !projected {
        evidence := savepoint;
        return Err(ProjectionFailed);
      }
      var c := commands[v.row.commandId];
      var next := Unknown;
      match v.row.state {
        case Matched =>
          if c.state != Verifying && c.state != Unknown {
            evidence := savepoint;
            return Err(VerificationConflict);
          }
          next := Succeeded;
        case NotApplied =>
          if c.state != Unknown {
            evidence := savepoint;
            return Err(VerificationConflict);
          }
          next := Redispatchable;
        case _ =>
      }
      commands := commands[v.row.commandId := c.(state := next)];
      return Ok(());
    }

    /** Three nested savepoints: journal evidence, result, verification. */
    method ApplyAgentDecision(d: ResultDecision, projected: bool, startedAt: int, validatedAt: int, expiredAt: int)
      returns (r: Result<(), Error>)
      modifies this`commands, this`resultIds, this`evidence
      ensures Outcome(View(), r) == ApplyDecision(old(View()), d, projected, startedAt, validatedAt, expiredAt)
    {
      hide DbInv, MarkJournaled, AcceptResult, RecordVerification, SameAttempts;
      var savedCommands, savedResultIds, savedEvidence := commands, resultIds, evidence;
      var started := MarkCommandAttemptJournaled(d.start, startedAt);
      if started.Err? { return Err(started.error); }
      var accepted := AcceptCommandResult(d.result, validatedAt, expiredAt);
      if accepted.Err? {
        commands, resultIds := savedCommands, savedResultIds;
        return Err(accepted.error);
      }
      if d.verification.None? { return Ok(()); }
      var verified := RecordCommandVerification(d.verification.value, projected);
      if verified.Err? { commands, resultIds, evidence := savedCommands, savedResultIds, savedEvidence; }
      return verified;
    }

    /** Journal evidence, result, verification and receipt are committed together: a failure of
        any of them, the receipt included, leaves no trace of the others. */
    method AcceptAgentCommandResult(e: Envelope, max: int, d: ResultDecision, projected: bool,
                                    startedAt: int, validatedAt: int, expiredAt: int)
                                      returns (r: Result<Receipt, Error>)
      modifies this`commands, this`resultIds, this`evidence, this`receipts
      ensures Outcome(View(), r) == AgentResult(old(View()), e, max, d, projected, startedAt, validatedAt, expiredAt)
      ensures old(Valid()) && Coherent(d) ==> Valid()
    {
      hide DbInv, Evolves, ApplyDecision, AppendAttemptEvent, Receipts.Record, SameAttempts, Receipts.Answers, Coherent;
      ghost var before := View();
      if old(Valid()) && Coherent(d) {
        AgentResultKeeps(before, e, max, d, projected, startedAt, validatedAt, expiredAt);
      }
      if !e.Valid(max) { return Err(MessageError(Receipts.InvalidEnvelope)); }
      if d.start.id == "" || d.start.id != d.result.id || e.correlationKey != d.result.id
         || e.sequence != d.result.attempt {
        return Err(EvidenceConflict);
      }
      if Receipts.Key(e) in receipts {
        var existing := receipts[Receipts.Key(e)];
        return if existing.Acknowledges(e) then Ok(existing) else Err(MessageError(Receipts.EvidenceConflict));
      }
      if d.result.id !in commands { return Err(EvidenceConflict); }
      var c := commands[d.result.id];
      if c.identity.host !in hosts || hosts[c.identity.host].session.None? { return Err(EvidenceConflict); }
      var session := hosts[c.identity.host].session.value;
      if c.identity.host != e.host || session != Receipts.Session(e.sessionGeneration, true) {
        return Err(StaleResult);
      }
      if c.state != Leased && c.state != Executing {
        r := RecordLateResult(e, d.result, session);
      } else {
        r := RecordDecision(e, d, session, projected, startedAt, validatedAt, expiredAt);
      }
    }

    /** A result for a command that is no longer in flight: a rejection and a STALE receipt, or
        neither. */
    method RecordLateResult(e: Envelope, s: Submission, session: Receipts.Session) returns (r: Result<Receipt, Error>)
      requires s.id in commands
      modifies this`commands, this`receipts
      ensures var late := AppendAttemptEvent(old(commands)[s.id], s.attempt, StaleResultRejected,
                                             "command_authority_not_current",
                                             LateFacts(s.resultId, e.sessionGeneration));
              Outcome(View(), r) ==
                if late.Err? then Rollback(old(View()), late.error)
                else CommitReceipt(old(View()), Put(old(View()), s.id, late.value),
                                   Receipts.Record(old(receipts), e, session.generation, Stale))
    {
      hide AppendAttemptEvent, Receipts.Record;
      var saved := commands;
      var late := AppendAttemptEvent(commands[s.id], s.attempt, StaleResultRejected, "command_authority_not_current",
        LateFacts(s.resultId, e.sessionGeneration));
      if late.Err? { return Err(late.error); }
      commands := commands[s.id := late.value];
      r := CommitReceiptRow(Receipts.Record(receipts, e, session.generation, Stale));
      if r.Err? { commands := saved; }
    }

    /** The decision and its receipt, or neither. */
    method RecordDecision(e: Envelope, d: ResultDecision, session: Receipts.Session, projected: bool,
                          startedAt: int, validatedAt: int, expiredAt: int) returns (r: Result<Receipt, Error>)
      modifies this`commands, this`resultIds, this`evidence, this`receipts
      ensures var applied := ApplyDecision(old(View()), d, projected, startedAt, validatedAt, expiredAt);
              Outcome(View(), r) ==
                if applied.result.Err? then Rollback(old(View()), applied.result.error)
                else CommitReceipt(old(View()), applied.db, Receipts.Accept(old(receipts), Some(session), e))
    {
      hide ApplyDecision, Receipts.Accept, SameAttempts;
      var savedCommands, savedResultIds, savedEvidence := commands, resultIds, evidence;
      var applied := ApplyAgentDecision(d, projected, startedAt, validatedAt, expiredAt);
      if applied.Err? { return Err(applied.error); }
      r := CommitReceiptRow(Receipts.Accept(receipts, Some(session), e));
      if r.Err? { commands, resultIds, evidence := savedCommands, savedResultIds, savedEvidence; }
    }

    method AcceptAgentVerificationObservation(e: Envelope, max: int, d: ObservationDecision, projected: bool)
      returns (r: Result<Receipt, Error>)
      modifies this`commands, this`evidence, this`receipts
      ensures Outcome(View(), r) == AgentObservation(old(View()), e, max, d, projected)
      ensures old(Valid()) ==> Valid()
    {
      hide DbInv, Evolves, RecordVerification, SameAttempts, Receipts.Answers;
      ghost var before := View();
      if old(Valid()) { AgentObservationKeeps(before, e, max, d, projected); }
      var v := d.verification.row;
      if !e.Valid(max) { return Err(MessageError(Receipts.InvalidEnvelope)); }
      if v.commandId == "" || e.correlationKey != v.commandId || e.sequence != v.attempt {
        return Err(VerificationConflict);
      }
      if Receipts.Key(e) in receipts {
        var existing := receipts[Receipts.Key(e)];
        return if existing.Acknowledges(e) then Ok(existing) else Err(MessageError(Receipts.EvidenceConflict));
      }
      if v.commandId !in commands { return Err(VerificationConflict); }
      var c := commands[v.commandId];
      if c.identity.host !in hosts || hosts[c.identity.host].session.None? { return Err(VerificationConflict); }
      var host := hosts[c.identity.host];
      if || c.identity.host != e.host || host.session.value != Receipts.Session(e.sessionGeneration, true)
         || host.authorizedSession != Some(e.sessionGeneration) || c.state != Unknown || c.attempt != v.attempt
         || c.identity.target != d.target || c.identity.payloadDigest != d.payloadDigest
      {
        return Err(VerificationConflict);
      }
      var savedCommands, savedEvidence := commands, evidence;
      var verified := RecordCommandVerification(d.verification, projected);
      if verified.Err? {
        commands, evidence := savedCommands, savedEvidence;
        return Err(verified.error);
      }
      r := CommitReceiptRow(Receipts.Accept(receipts, host.session, e));
      if r.Err? { commands, evidence := savedCommands, savedEvidence; }
    }

    method CommitReceiptRow(answer: Result<Receipts.Answer, Receipts.Error>) returns (r: Result<Receipt, Error>)
      modifies this`receipts
      ensures answer.Ok? ==> receipts == answer.value.table && r == Ok(answer.value.receipt)
      ensures answer.Err? ==> receipts == old(receipts) && r == Err(MessageError(answer.error))
    {
      if answer.Err? { return Err(MessageError(answer.error)); }
      receipts := answer.value.table;
      return Ok(answer.value.receipt);
    }

    method ExpireCommandLease(id: CommandId, now: int) returns (r: Result<(), Error>)
      modifies this`commands
      ensures Outcome(View(), r) == Expire(old(View()), id, now)
      ensures old(Valid()) ==> Valid()
    {
      hide DbInv, Evolves, EndUnknown, SameAttempts;
      ghost var before := View();
      if old(Valid()) { ExpireKeeps(before, id, now); }
      if id !in commands || commands[id].lease.None? { return Err(StaleLease); }
      var lease := commands[id].lease.value;
      if now < lease.grant.expiresAt || lease.state != Active { return Err(StaleLease); }
      var expired := EndUnknown(commands[id], Expired, "lease_expired");
      if expired.Err? { return Err(expired.error); }
      commands := commands[id := expired.value];
      return Ok(());
    }

    /** One lease after another, in whatever order the rows come; the result is the
        simultaneous update FenceHost, so the order does not matter. */
    method FenceHostCommandLeases(host: HostId, reason: string)
      requires Valid()
      modifies this`commands
      ensures View() == FenceHost(old(View()), host, reason).db
      ensures Valid()
    {
      hide DbInv, Good, EndUnknown, FenceHost, SameAttempts, ActiveOn;
      ghost var before, target := View(), FenceHost(View(), host, reason).db.commands;
      FenceTargets(before, host, reason);
      FenceKeeps(before, host, reason);
      GoodInv(before, FenceHost(before, host, reason).db);
      var leases := set id | id in commands && ActiveOn(commands[id], host);
      while leases != {}
        invariant leases <= commands.Keys == target.Keys
        invariant forall id :: id in leases ==>
                    commands[id].lease.Some? && EndUnknown(commands[id], Fenced, reason) == Ok(target[id])
        invariant forall id :: id in commands && id !in leases ==> commands[id] == target[id]
      {
        var id :| id in leases;
        var fenced := EndUnknown(commands[id], Fenced, reason);
        commands := commands[id := fenced.value];
        leases := leases - {id};
      }
      assert commands == target;
    }
  }

  /** What one iteration writes is what the simultaneous update holds for that command. */
  lemma FenceTargets(db: Db, host: HostId, reason: string)
    requires DbInv(db)
    ensures var target := FenceHost(db, host, reason).db.commands;
            && target.Keys == db.commands.Keys
            && forall id :: id in db.commands ==>
                 if ActiveOn(db.commands[id], host) then db.commands[id].lease.Some?
                    && EndUnknown(db.commands[id], Fenced, reason) == Ok(target[id])
                 else target[id] == db.commands[id]
  {
    hide CommandInv, Effect, EvidenceDecides, EndUnknown, AfterEnd, SameAttempts;
    FenceAll(db, host, reason);
    forall id | id in db.commands && ActiveOn(db.commands[id], host)
      ensures EndUnknown(db.commands[id], Fenced, reason) == Ok(AfterEnd(db.commands[id], Fenced, reason))
    {
      CommandOf(db, id);
      EndEffect(db.commands[id], Fenced, reason);
    }
  }
}
