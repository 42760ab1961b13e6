/** The Command lease / attempt / result / verification protocol
    (internal/persistence/postgres/execution.go), one function per transaction.

    The rows of every table keyed by command_id are grouped in one `Command` value; tables
    with a wider key (verification evidence, receipts, the unique result identity) stay
    global.  Timestamps are inputs of each transaction, one per statement that reads the
    clock, so nothing here depends on clocks being monotone. */
module Execution {
  import opened Common
  import opened Envelopes
  import Receipts

  // ----- rows ---------------------------------------------------------------------------

  datatype CommandState =
    | Pending | Leased | Executing | Verifying | Succeeded | Failed | Unknown | Redispatchable

  datatype LeaseEnd = Consumed | Expired | Fenced
  datatype LeaseState = Active | Ended(end: LeaseEnd)

  datatype Scope = Mutation | ReadOnlyVerification | UnsupportedScope(text: string)

  /** A row of kim.command_lease_grants. */
  datatype Grant = Grant(
    generation: nat, attempt: nat, host: HostId,
    authorityGeneration: nat, sessionGeneration: nat, token: Digest,
    notBefore: int, expiresAt: int, scope: Scope)

  /** The row of kim.command_leases_current: a copy of a grant and a mutable state. */
  datatype Lease = Lease(grant: Grant, state: LeaseState)

  datatype LeaseEventKind = Granted | Started | End(end: LeaseEnd)
  datatype LeaseFacts =
    | GrantFacts(attempt: nat, authorityGeneration: nat, sessionGeneration: nat, expiresAt: int)
    | StartFacts(attempt: nat)
    | ResultFacts(resultId: string)
    | ReasonFacts(reason: string)
  datatype LeaseEvent = LeaseEvent(sequence: nat, kind: LeaseEventKind, facts: LeaseFacts)
  type LeaseLog = seq<LeaseEvent>

  datatype AttemptEventKind = AttemptLeased | Journaled | ResultAccepted | AttemptUnknown | StaleResultRejected
  datatype AttemptFacts =
    | LeaseGenerationFacts(generation: nat)
    | JournalFacts(digest: Digest)
    | AcceptedFacts(resultId: string, digest: Digest, outcome: ExecutionOutcome)
    | StaleFacts(resultId: string, digest: Digest)
    | LateFacts(resultId: string, transportGeneration: nat)
  datatype AttemptEvent = AttemptEvent(sequence: nat, kind: AttemptEventKind, reason: string, facts: AttemptFacts)
  type AttemptLog = seq<AttemptEvent>

  datatype Attempt = Attempt(leaseGeneration: nat, authorityGeneration: nat, sessionGeneration: nat)

  datatype ExecutionOutcome = OutcomeSucceeded | OutcomeFailed | OutcomeUnknown | UnsupportedOutcome(text: string)
  datatype ResultRow = ResultRow(resultId: string, digest: Digest, outcome: ExecutionOutcome)

  datatype Identity = Identity(
    jobId: string, host: HostId, commandType: string, schemaVersion: string,
    target: string, payloadDigest: Digest, readOnlyType: bool)

  datatype Command = Command(
    identity: Identity,
    state: CommandState,
    attempt: nat,
    lease: Option<Lease>,
    grants: seq<Grant>,
    leaseLogs: map<nat, LeaseLog>,
    attempts: map<nat, Attempt>,
    attemptLogs: map<nat, AttemptLog>,
    results: map<nat, ResultRow>)

  datatype VerificationState = Matched | NotApplied | Conflicting | Unresolved | UnsupportedVerification(text: string)

  datatype Evidence = ReadBack(text: string) | JournaledReadBack(journal: Digest, text: string)

  /** A row of kim.command_verification_evidence. */
  datatype Verification = Verification(
    commandId: CommandId, attempt: nat, observationGeneration: nat, observationDigest: Digest,
    state: VerificationState, verifierDigest: Digest, evidence: Evidence)

  datatype AuthorityState = Armed | Disarmed | HostFenced

  /** What the authority queries read about one host.  `gatesOpen` stands for the credential,
      enrollment, capability and readiness joins of readHostMutationAuthorityTx. */
  datatype Host = Host(
    authorityGeneration: nat, identityGeneration: nat, authority: AuthorityState,
    authoritySession: nat, gatesOpen: bool,
    session: Option<Receipts.Session>, authorizedSession: Option<nat>)

  datatype Db = Db(
    commands: map<CommandId, Command>,
    resultIds: set<string>,
    evidence: map<string, Verification>,
    receipts: Receipts.Table,
    hosts: map<HostId, Host>)

  datatype Error =
    | Incomplete | EvidenceConflict | NotDispatchable | ActiveLease | StaleLease
    | ResultConflict | StaleResult | VerificationConflict | AuthorityNotArmed
    | UnsupportedAuthorityScope | ConstraintViolation | ProjectionFailed
    | MessageError(error: Receipts.Error)

  /** A finished transaction: the committed state and what the caller got. */
  datatype Outcome<+T> = Outcome(db: Db, result: Result<T, Error>)

  /** The same commands, each at the same attempt: true of every transaction but a grant. */
  ghost predicate SameAttempts(db: Db, db': Db) {
    && db'.commands.Keys == db.commands.Keys
    && forall id :: id in db.commands ==> db'.commands[id].attempt == db.commands[id].attempt
  }

  function Rollback<T>(db: Db, error: Error): Outcome<T> { Outcome(db, Err(error)) }

  // ----- append-only logs ---------------------------------------------------------------

  function MaxSequence(log: LeaseLog): nat {
    if |log| == 0 then 0
    else
      var earlier := MaxSequence(log[..|log| - 1]);
      var last := log[|log| - 1].sequence;
      if last > earlier then last else earlier
  }

  function MaxAttemptSequence(log: AttemptLog): nat {
    if |log| == 0 then 0
    else
      var earlier := MaxAttemptSequence(log[..|log| - 1]);
      var last := log[|log| - 1].sequence;
      if last > earlier then last else earlier
  }

  function LeaseLogOf(c: Command, generation: nat): LeaseLog {
    if generation in c.leaseLogs then c.leaseLogs[generation] else []
  }

  function AttemptLogOf(c: Command, attempt: nat): AttemptLog {
    if attempt in c.attemptLogs then c.attemptLogs[attempt] else []
  }

  /** appendLeaseEventTx: one row per event type, idempotent only for identical facts. */
  function AppendLeaseEvent(c: Command, generation: nat, kind: LeaseEventKind, facts: LeaseFacts)
    : (r: Result<Command, Error>)
    ensures r.Ok? ==> r.value == c.(leaseLogs := r.value.leaseLogs)
  {
    var log := LeaseLogOf(c, generation);
    if exists i :: 0 <= i < |log| && log[i].kind == kind then
      if exists i :: 0 <= i < |log| && log[i].kind == kind && log[i].facts == facts then Ok(c)
      else Err(EvidenceConflict)
    else
      Ok(c.(leaseLogs := c.leaseLogs[generation := log + [LeaseEvent(MaxSequence(log) + 1, kind, facts)]]))
  }

  /** appendAttemptEventTx: a row needs its attempt; every type but a rejection is a singleton. */
  function AppendAttemptEvent(c: Command, attempt: nat, kind: AttemptEventKind, reason: string, facts: AttemptFacts)
    : (r: Result<Command, Error>)
    ensures r.Ok? ==> r.value == c.(attemptLogs := r.value.attemptLogs)
  {
    var log := AttemptLogOf(c, attempt);
    if attempt !in c.attempts then
      Err(ConstraintViolation)
    else if kind != StaleResultRejected && exists i :: 0 <= i < |log| && log[i].kind == kind then
      if exists i :: 0 <= i < |log| && log[i].kind == kind && log[i].reason == reason
                     && log[i].facts == facts then Ok(c)
      else Err(EvidenceConflict)
    else
      Ok(c.(attemptLogs :=
              c.attemptLogs[attempt := log + [AttemptEvent(MaxAttemptSequence(log) + 1, kind, reason, facts)]]))
  }

  // ----- authority ----------------------------------------------------------------------

  /** readHostMutationAuthorityTx: the session of a fully current, armed authority. */
  function MutationAuthority(h: Host, generation: int): Option<nat> {
    if && h.authorityGeneration == generation && h.identityGeneration == h.authorityGeneration
       && h.authority == Armed && h.gatesOpen
       && h.session == Some(Receipts.Session(h.authoritySession, true))
       && h.authorizedSession == Some(h.authoritySession)
    then Some(h.authoritySession) else None
  }

  /** readHostReadOnlyVerificationAuthorityTx: a fenced host may still be observed. */
  function ReadOnlyAuthority(h: Host, generation: int): Option<nat> {
    if && h.authorityGeneration == generation && h.identityGeneration == h.authorityGeneration
       && h.authority != Disarmed
       && h.session.Some? && h.session.value.current
       && h.authorizedSession == Some(h.session.value.generation)
    then Some(h.session.value.generation) else None
  }

  function AuthorityFor(db: Db, identity: Identity, scope: Scope, generation: int): Result<nat, Error> {
    if scope.UnsupportedScope? then
      Err(UnsupportedAuthorityScope)
    else if scope == ReadOnlyVerification && !identity.readOnlyType then
      Err(NotDispatchable)
    else if identity.host !in db.hosts then
      Err(AuthorityNotArmed)
    else
      var session := if scope == Mutation then MutationAuthority(db.hosts[identity.host], generation)
                     else ReadOnlyAuthority(db.hosts[identity.host], generation);
      if session.None? then Err(AuthorityNotArmed) else Ok(session.value)
  }

  /** The lease row an operation is about, if there is one for that attempt. */
  predicate CoversAttempt(c: Command, attempt: nat) {
    c.lease.Some? && c.lease.value.grant.attempt == attempt
  }

  /** validateActiveLeaseTx. */
  predicate LeaseUsable(db: Db, id: CommandId, attempt: nat, token: string, now: int) {
    && id in db.commands
    && var c := db.commands[id];
    && CoversAttempt(c, attempt)
    && var lease := c.lease.value;
    && lease.state == Active
    && lease.grant.notBefore <= now < lease.grant.expiresAt
    && lease.grant.token == Sha256(token)
    && AuthorityFor(db, c.identity.(host := lease.grant.host), lease.grant.scope, lease.grant.authorityGeneration)
         == Ok(lease.grant.sessionGeneration)
  }

  // ----- command-level effects ----------------------------------------------------------

  function MaxGeneration(grants: seq<Grant>): nat {
    if |grants| == 0 then 0
    else
      var earlier := MaxGeneration(grants[..|grants| - 1]);
      var last := grants[|grants| - 1].generation;
      if last > earlier then last else earlier
  }

  /** The rows written by a successful AcquireCommandLease. */
  function GrantLease(c: Command, grant: Grant): Result<Command, Error> {
    if grant.attempt in c.attempts || grant.sessionGeneration == 0 || grant.expiresAt <= grant.notBefore then
      Err(ConstraintViolation)
    else
      var leased := c.(
        state := Leased,
        attempt := grant.attempt,
        lease := Some(Lease(grant, Active)),
        grants := c.grants + [grant],
        attempts := c.attempts[grant.attempt := Attempt(grant.generation, grant.authorityGeneration,
                                                        grant.sessionGeneration)]);
      var logged := AppendLeaseEvent(leased, grant.generation, Granted,
        GrantFacts(grant.attempt, grant.authorityGeneration, grant.sessionGeneration, grant.expiresAt));
      if logged.Err? then logged
      else AppendAttemptEvent(logged.value, grant.attempt, AttemptLeased, "lease_granted",
                              LeaseGenerationFacts(grant.generation))
  }

  /** The rows written by MarkCommandAttemptJournaled under a usable lease. */
  function StartAttempt(c: Command, attempt: nat, journalDigest: Digest): (r: Result<Command, Error>)
    requires c.lease.Some?
    ensures r.Ok? ==> r.value == c.(state := Executing, leaseLogs := r.value.leaseLogs,
                                    attemptLogs := r.value.attemptLogs)
  {
    var journaled := AppendAttemptEvent(c, attempt, Journaled, "write_before_execute", JournalFacts(journalDigest));
    if journaled.Err? then journaled
    else
      var started := AppendLeaseEvent(journaled.value, c.lease.value.grant.generation, Started, StartFacts(attempt));
      if started.Err? then started else Ok(started.value.(state := Executing))
  }

  function StateAfter(outcome: ExecutionOutcome): CommandState {
    match outcome
    case OutcomeFailed => Failed
    case OutcomeUnknown => Unknown
    case _ => Verifying
  }

  /** The rows written by AcceptCommandResult under a usable lease. */
  function ConsumeLease(c: Command, attempt: nat, row: ResultRow): (r: Result<Command, Error>)
    requires c.lease.Some?
    ensures r.Ok? ==> r.value.attempt == c.attempt && r.value.grants == c.grants && r.value.identity == c.identity
  {
    var accepted := AppendAttemptEvent(c.(results := c.results[attempt := row]), attempt, ResultAccepted,
      "result_durably_accepted", AcceptedFacts(row.resultId, row.digest, row.outcome));
    if accepted.Err? then accepted
    else
      var consumed := AppendLeaseEvent(accepted.value, c.lease.value.grant.generation, End(Consumed),
                                       ResultFacts(row.resultId));
      if consumed.Err? then consumed
      else Ok(consumed.value.(lease := Some(c.lease.value.(state := Ended(Consumed))),
                              state := StateAfter(row.outcome)))
  }

  /** markLeaseUnknownTx: an active lease ends without a result, and the outcome is UNKNOWN. */
  function EndUnknown(c: Command, end: LeaseEnd, reason: string): (r: Result<Command, Error>)
    requires c.lease.Some?
    ensures r.Ok? ==> r.value.attempt == c.attempt && r.value.grants == c.grants && r.value.results == c.results
  {
    var lease := c.lease.value;
    var ended := if lease.state == Active then c.(lease := Some(lease.(state := Ended(end)))) else c;
    var logged := AppendLeaseEvent(ended, lease.grant.generation, End(end), ReasonFacts(reason));
    if logged.Err? then logged
    else
      var noted := AppendAttemptEvent(logged.value, lease.grant.attempt, AttemptUnknown, reason,
        LeaseGenerationFacts(lease.grant.generation));
      if noted.Err? then noted else Ok(noted.value.(state := Unknown))
  }

  /** expireElapsedLeaseTx. */
  function ExpireElapsed(c: Command, attempt: nat, now: int): Result<Command, Error> {
    if CoversAttempt(c, attempt) && c.lease.value.grant.expiresAt <= now && c.lease.value.state == Active
    then EndUnknown(c, Expired, "lease_expired") else Ok(c)
  }

  // ----- transactions -------------------------------------------------------------------

  datatype CreateRequest = CreateRequest(id: CommandId, identity: Identity)

  /** CreateExecutionCommand, without the job row. */
  function Create(db: Db, request: CreateRequest): Outcome<()> {
    var identity := request.identity;
    if request.id == "" || identity.jobId == "" || identity.host == "" || identity.commandType == ""
       || identity.schemaVersion == "" || identity.target == "" then
      Rollback(db, Incomplete)
    else if request.id in db.commands then
      if db.commands[request.id].identity == identity then Outcome(db, Ok(())) else Rollback(db, EvidenceConflict)
    else if identity.host !in db.hosts then
      Rollback(db, ConstraintViolation)
    else
      var command := Command(identity, Pending, 0, None, [], map[], map[], map[], map[]);
      Outcome(db.(commands := db.commands[request.id := command]), Ok(()))
  }

  const ONE_HOUR: int := 3_600_000_000_000

  /** Durations are in nanoseconds, timestamps in microseconds. */
  datatype LeaseRequest = LeaseRequest(
    id: CommandId, authorityGeneration: int, duration: int,
    protectedDelivery: bool, executionTimeout: int, scope: Scope)

  predicate LeaseRequestComplete(request: LeaseRequest) {
    && request.id != "" && request.authorityGeneration >= 1 && 0 < request.duration <= ONE_HOUR
    && (request.protectedDelivery ==>
          0 < request.executionTimeout < request.duration && request.executionTimeout <= ONE_HOUR)
  }

  function ScopeOrDefault(scope: Scope): Scope {
    if scope == UnsupportedScope("") then Mutation else scope
  }

  /** AcquireCommandLease.  `token` is the freshly drawn capability. */
  function Acquire(db: Db, request: LeaseRequest, token: string, now: int): (r: Outcome<Grant>)
    ensures r.db == db.(commands := r.db.commands)
    ensures r.result.Ok? ==> request.id in db.commands && r.result.value.token == Sha256(token)
  {
    if !LeaseRequestComplete(request) then
      Rollback(db, Incomplete)
    else if request.id !in db.commands then
      Rollback(db, NotDispatchable)
    else
      var c := db.commands[request.id];
      if c.state == Leased || c.state == Executing then
        Rollback(db, ActiveLease)
      else if c.state != Pending && c.state != Redispatchable then
        Rollback(db, NotDispatchable)
      else
        var scope := ScopeOrDefault(request.scope);
        var authority := AuthorityFor(db, c.identity, scope, request.authorityGeneration);
        if authority.Err? then
          Rollback(db, authority.error)
        else
          var grant := Grant(MaxGeneration(c.grants) + 1, c.attempt + 1, c.identity.host,
            request.authorityGeneration, authority.value, Sha256(token),
            now, now + request.duration / 1000, scope);
          var leased := GrantLease(c, grant);
          if leased.Err? then Rollback(db, leased.error)
          else Outcome(db.(commands := db.commands[request.id := leased.value]), Ok(grant))
  }

  datatype AttemptStart = AttemptStart(id: CommandId, attempt: nat, token: string, journalDigest: Digest)

  /** MarkCommandAttemptJournaled. */
  function MarkJournaled(db: Db, start: AttemptStart, now: int): (r: Outcome<()>)
    ensures SameAttempts(db, r.db) && r.db.evidence == db.evidence
    ensures r.result.Err? ==> r.db == db
  {
    if start.id == "" || start.attempt < 1 || start.token == "" || !start.journalDigest.Has64Characters() then
      Rollback(db, Incomplete)
    else if !LeaseUsable(db, start.id, start.attempt, start.token, now) then
      Rollback(db, StaleLease)
    else
      var started := StartAttempt(db.commands[start.id], start.attempt, start.journalDigest);
      if started.Err? then Rollback(db, started.error)
      else Outcome(db.(commands := db.commands[start.id := started.value]), Ok(()))
  }

  datatype Submission = Submission(
    id: CommandId, attempt: nat, token: string, resultId: string, outcome: ExecutionOutcome, payload: string)
  {
    function Row(): ResultRow { ResultRow(resultId, Sha256(payload), outcome) }
  }

  /** AcceptCommandResult.  The stale path commits its rejection (and an elapsed lease's
      expiry) although the caller gets an error. */
  function AcceptResult(db: Db, s: Submission, validatedAt: int, expiredAt: int): (r: Outcome<ResultRow>)
    ensures SameAttempts(db, r.db) && r.db.evidence == db.evidence
  {
    if s.id == "" || s.attempt < 1 || s.token == "" || s.resultId == "" || s.outcome.UnsupportedOutcome? then
      Rollback(db, Incomplete)
    else if s.id in db.commands && s.attempt in db.commands[s.id].results then
      var row := db.commands[s.id].results[s.attempt];
      if row == s.Row() then Outcome(db, Ok(row)) else Rollback(db, ResultConflict)
    else if !LeaseUsable(db, s.id, s.attempt, s.token, validatedAt) then
      RejectStale(db, s, expiredAt)
    else if s.resultId in db.resultIds then
      Rollback(db, ConstraintViolation)
    else
      var consumed := ConsumeLease(db.commands[s.id], s.attempt, s.Row());
      if consumed.Err? then Rollback(db, consumed.error)
      else Outcome(db.(commands := db.commands[s.id := consumed.value], resultIds := db.resultIds + {s.resultId}),
                   Ok(s.Row()))
  }

  function RejectStale(db: Db, s: Submission, now: int): (r: Outcome<ResultRow>)
    ensures r.result.Err? && SameAttempts(db, r.db) && r.db == db.(commands := r.db.commands)
  {
    if s.id !in db.commands then
      Rollback(db, ConstraintViolation)
    else
      var expired := ExpireElapsed(db.commands[s.id], s.attempt, now);
      if expired.Err? then Rollback(db, expired.error)
      else
        var rejected := AppendAttemptEvent(expired.value, s.attempt, StaleResultRejected,
          "lease_or_authority_not_current", StaleFacts(s.resultId, Sha256(s.payload)));
        if rejected.Err? then Rollback(db, rejected.error)
        else Outcome(db.(commands := db.commands[s.id := rejected.value]), Err(StaleResult))
  }

  datatype VerificationRequest = VerificationRequest(verificationId: string, row: Verification)

  predicate VerificationComplete(v: VerificationRequest) {
    && v.verificationId != "" && v.row.commandId != "" && v.row.attempt >= 1 && v.row.observationGeneration >= 1
    && v.row.observationDigest.Has64Characters() && v.row.verifierDigest.Has64Characters()
    && !v.row.state.UnsupportedVerification?
  }

  /** RecordCommandVerification.  `projected` is whether the power projection of a MATCHED
      observation, which is outside this model, went through. */
  function RecordVerification(db: Db, v: VerificationRequest, projected: bool): (r: Outcome<()>)
    ensures SameAttempts(db, r.db) && r.db.receipts == db.receipts
    ensures r.db.evidence == db.evidence || r.db.evidence == db.evidence[v.verificationId := v.row]
  {
    if !VerificationComplete(v) then
      Rollback(db, Incomplete)
    else if v.row.commandId !in db.commands || db.commands[v.row.commandId].attempt != v.row.attempt then
      Rollback(db, VerificationConflict)
    else if v.verificationId in db.evidence then
      if db.evidence[v.verificationId] == v.row then Outcome(db, Ok(())) else Rollback(db, VerificationConflict)
    else if v.row.attempt !in db.commands[v.row.commandId].attempts then
      Rollback(db, ConstraintViolation)
    else if v.row.state == Matched && !projected then
      Rollback(db, ProjectionFailed)
    else
      var c := db.commands[v.row.commandId];
      if v.row.state == Matched && c.state != Verifying && c.state != Unknown then
        Rollback(db, VerificationConflict)
      else if v.row.state == NotApplied && c.state != Unknown then
        Rollback(db, VerificationConflict)
      else
        var next := match v.row.state
                    case Matched => Succeeded
                    case NotApplied => Redispatchable
                    case _ => Unknown;
        Outcome(db.(commands := db.commands[v.row.commandId := c.(state := next)],
                    evidence := db.evidence[v.verificationId := v.row]), Ok(()))
  }

  datatype ResultDecision = ResultDecision(
    start: AttemptStart, result: Submission, verification: Option<VerificationRequest>)

  function SessionOf(db: Db, host: HostId): Option<Receipts.Session> {
    if host in db.hosts then db.hosts[host].session else None
  }

  /** Commits a receipt on top of the rows written so far, or rolls everything back. */
  function CommitReceipt(before: Db, after: Db, answer: Result<Receipts.Answer, Receipts.Error>): (r: Outcome<Receipt>)
    ensures r.db == if r.result.Ok? then after.(receipts := r.db.receipts) else before
  {
    if answer.Err? then Rollback(before, MessageError(answer.error))
    else Outcome(after.(receipts := answer.value.table), Ok(answer.value.receipt))
  }

  /** The three nested steps of AcceptAgentCommandResult: journal, result, verification.  The
      first failure undoes the ones before it. */
  function ApplyDecision(db: Db, d: ResultDecision, projected: bool, startedAt: int, validatedAt: int, expiredAt: int)
    : (r: Outcome<()>)
    ensures SameAttempts(db, r.db) && (r.result.Err? ==> r.db == db)
    ensures r.db.evidence != db.evidence ==>
              && d.verification.Some?
              && r.db.evidence == db.evidence[d.verification.value.verificationId := d.verification.value.row]
  {
    var started := MarkJournaled(db, d.start, startedAt);
    if started.result.Err? then Rollback(db, started.result.error)
    else
      var accepted := AcceptResult(started.db, d.result, validatedAt, expiredAt);
      if accepted.result.Err? then Rollback(db, accepted.result.error)
      else if d.verification.None? then Outcome(accepted.db, Ok(()))
      else
        var verified := RecordVerification(accepted.db, d.verification.value, projected);
        if verified.result.Err? then Rollback(db, verified.result.error) else verified
  }

  /** AcceptAgentCommandResult. */
  function AgentResult(db: Db, e: Envelope, max: int, d: ResultDecision, projected: bool,
                       startedAt: int, validatedAt: int, expiredAt: int): (r: Outcome<Receipt>)
    ensures SameAttempts(db, r.db)
    ensures r.db.evidence != db.evidence ==>
              && d.verification.Some?
              && r.db.evidence == db.evidence[d.verification.value.verificationId := d.verification.value.row]
  {
    if !e.Valid(max) then
      Rollback(db, MessageError(Receipts.InvalidEnvelope))
    else if d.start.id == "" || d.start.id != d.result.id || e.correlationKey != d.result.id
    || e.sequence != d.result.attempt then
      Rollback(db, EvidenceConflict)
    else if Receipts.Key(e) in db.receipts then
      CommitReceipt(db, db, Receipts.Accept(db.receipts, None, e))
    else if d.result.id !in db.commands || SessionOf(db, db.commands[d.result.id].identity.host).None? then
      Rollback(db, EvidenceConflict)
    else
      var c := db.commands[d.result.id];
      var session := SessionOf(db, c.identity.host).value;
      if c.identity.host != e.host || session != Receipts.Session(e.sessionGeneration, true) then
        Rollback(db, StaleResult)
      else if c.state != Leased && c.state != Executing then
        var late := AppendAttemptEvent(c, d.result.attempt, StaleResultRejected, "command_authority_not_current",
          LateFacts(d.result.resultId, e.sessionGeneration));
        if late.Err? then Rollback(db, late.error)
        else CommitReceipt(db, db.(commands := db.commands[d.result.id := late.value]),
               Receipts.Record(db.receipts, e, session.generation, Stale))
      else
        var applied := ApplyDecision(db, d, projected, startedAt, validatedAt, expiredAt);
        if applied.result.Err? then Rollback(db, applied.result.error)
        else CommitReceipt(db, applied.db, Receipts.Accept(db.receipts, Some(session), e))
  }

  datatype ObservationDecision = ObservationDecision(target: string, payloadDigest: Digest,
                                                     verification: VerificationRequest)

  /** AcceptAgentVerificationObservation. */
  function AgentObservation(db: Db, e: Envelope, max: int, d: ObservationDecision,
                            projected: bool): (r: Outcome<Receipt>)
    ensures SameAttempts(db, r.db)
    ensures r.db.evidence != db.evidence ==>
              r.db.evidence == db.evidence[d.verification.verificationId := d.verification.row]
  {
    var v := d.verification.row;
    if !e.Valid(max) then
      Rollback(db, MessageError(Receipts.InvalidEnvelope))
    else if v.commandId == "" || e.correlationKey != v.commandId || e.sequence != v.attempt then
      Rollback(db, VerificationConflict)
    else if Receipts.Key(e) in db.receipts then
      CommitReceipt(db, db, Receipts.Accept(db.receipts, None, e))
    else if v.commandId !in db.commands || SessionOf(db, db.commands[v.commandId].identity.host).None? then
      Rollback(db, VerificationConflict)
    else
      var c := db.commands[v.commandId];
      var host := db.hosts[c.identity.host];
      if || c.identity.host != e.host || host.session.value != Receipts.Session(e.sessionGeneration, true)
         || host.authorizedSession != Some(e.sessionGeneration) || c.state != Unknown || c.attempt != v.attempt
         || c.identity.target != d.target || c.identity.payloadDigest != d.payloadDigest
      then
        Rollback(db, VerificationConflict)
      else
        var verified := RecordVerification(db, d.verification, projected);
        if verified.result.Err? then Rollback(db, verified.result.error)
        else CommitReceipt(db, verified.db, Receipts.Accept(db.receipts, host.session, e))
  }

  /** ExpireCommandLease. */
  function Expire(db: Db, id: CommandId, now: int): (r: Outcome<()>)
    ensures SameAttempts(db, r.db) && r.db == db.(commands := r.db.commands)
  {
    if || id !in db.commands || db.commands[id].lease.None?
       || now < db.commands[id].lease.value.grant.expiresAt || db.commands[id].lease.value.state != Active
    then
      Rollback(db, StaleLease)
    else
      var expired := EndUnknown(db.commands[id], Expired, "lease_expired");
      if expired.Err? then Rollback(db, expired.error)
      else Outcome(db.(commands := db.commands[id := expired.value]), Ok(()))
  }

  predicate ActiveOn(c: Command, host: HostId) {
    c.lease.Some? && c.lease.value.grant.host == host && c.lease.value.state == Active
  }

  function FenceCommand(c: Command, host: HostId, reason: string): (r: Command)
    ensures r.attempt == c.attempt && r.results == c.results && r.grants == c.grants
  {
    if ActiveOn(c, host) && EndUnknown(c, Fenced, reason).Ok? then EndUnknown(c, Fenced, reason).value else c
  }

  /** fenceHostCommandLeasesTx, as one simultaneous update: every active lease on the host
      ends, or nothing happens. */
  function FenceHost(db: Db, host: HostId, reason: string): (r: Outcome<()>)
    ensures SameAttempts(db, r.db) && r.db == db.(commands := r.db.commands)
  {
    if exists id :: id in db.commands && ActiveOn(db.commands[id], host)
                    && EndUnknown(db.commands[id], Fenced, reason).Err? then
      Rollback(db, EvidenceConflict)
    else
      Outcome(db.(commands := map id | id in db.commands :: FenceCommand(db.commands[id], host, reason)), Ok(()))
  }

  // ----- the Gateway's mapping from messages to decisions ---------------------------------

  datatype ObservedState = ObservedMatched | ObservedNotApplied | ObservedConflicting | ObservedOther(text: string)

  datatype Observation = Observation(state: ObservedState, generation: nat, digest: Digest, evidence: string)

  /** A decoded contract.CommandResult. */
  datatype ResultMessage = ResultMessage(
    id: CommandId, attempt: nat, token: string, journalDigest: Digest, resultId: string,
    outcome: ExecutionOutcome, payload: string, observation: Observation, verifierDigest: Digest)

  /** A decoded contract.VerificationObservation. */
  datatype ObservationMessage = ObservationMessage(
    id: CommandId, attempt: nat, target: string, payloadDigest: Digest,
    observation: Observation, verifierDigest: Digest, journalDigest: Digest)

  function VerdictOf(state: ObservedState): VerificationState {
    match state
    case ObservedMatched => Matched
    case ObservedNotApplied => NotApplied
    case ObservedConflicting => Conflicting
    case ObservedOther(_) => Unresolved
  }

  /** PostgresMessageReceiver.Receive, RESULT_RECEIPT stream: a FAILED result carries no
      verification. */
  function DecideResult(m: ResultMessage): ResultDecision {
    ResultDecision(
      AttemptStart(m.id, m.attempt, m.token, m.journalDigest),
      Submission(m.id, m.attempt, m.token, m.resultId, m.outcome, m.payload),
      if m.outcome == OutcomeFailed then None
      else Some(VerificationRequest(m.id + "-verification-" + Decimal(m.attempt),
             Verification(m.id, m.attempt, m.observation.generation, m.observation.digest,
                          VerdictOf(m.observation.state), m.verifierDigest, ReadBack(m.observation.evidence)))))
  }

  /** PostgresMessageReceiver.Receive, RESYNC stream. */
  function DecideObservation(m: ObservationMessage): ObservationDecision {
    ObservationDecision(m.target, m.payloadDigest,
      VerificationRequest(m.id + "-resync-verification-" + Decimal(m.attempt),
        Verification(m.id, m.attempt, m.observation.generation, m.observation.digest,
                     VerdictOf(m.observation.state), m.verifierDigest,
                     JournaledReadBack(m.journalDigest, m.observation.evidence))))
  }
}
