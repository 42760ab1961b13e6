/** What each transaction of the Command protocol answers and leaves behind, said of the rows
    alone: exactly when it succeeds, and the states, windows and identities it writes. */
module ExecutionOutcomes {
  import opened Common
  import opened Envelopes
  import Receipts
  import opened Execution
  import opened ExecutionInvariant
  import opened ExecutionSteps

  // ----- authority --------------------------------------------------------------------------

  /** The host row supports a lease of this scope under this authority generation and session. */
  ghost predicate Permits(hosts: map<HostId, Host>, i: Identity, scope: Scope, generation: int, session: nat) {
    && i.host in hosts
    && var h := hosts[i.host];
    && h.authorityGeneration == h.identityGeneration == generation
    && h.session == Some(Receipts.Session(session, true)) && h.authorizedSession == Some(session)
    && match scope
       case Mutation => h.authority == Armed && h.gatesOpen && h.authoritySession == session
       case ReadOnlyVerification => i.readOnlyType && (h.authority == Armed || h.authority == HostFenced)
       case UnsupportedScope(_) => false
  }

  lemma AuthorityReadsHosts(db: Db, db': Db, i: Identity, scope: Scope, generation: int)
    requires db'.hosts == db.hosts
    ensures AuthorityFor(db', i, scope, generation) == AuthorityFor(db, i, scope, generation)
  {
  }

  lemma AuthorityIff(db: Db, i: Identity, scope: Scope, generation: int, session: nat)
    ensures AuthorityFor(db, i, scope, generation) == Ok(session) <==> Permits(db.hosts, i, scope, generation, session)
  {
  }

  /** A lease is usable exactly while it is the active lease of that attempt, inside its window,
      presented with its token, and its host row still permits it. */
  lemma UsableIff(db: Db, id: CommandId, attempt: nat, token: string, now: int)
    ensures LeaseUsable(db, id, attempt, token, now) <==>
              && id in db.commands && db.commands[id].lease.Some?
              && var c := db.commands[id];
                 var g := c.lease.value.grant;
                 && c.lease == Some(Lease(g, Active)) && g.attempt == attempt
                 && g.notBefore <= now && now < g.expiresAt && g.token == Sha256(token)
                 && Permits(db.hosts, c.identity.(host := g.host), g.scope, g.authorityGeneration, g.sessionGeneration)
  {
  }

  // ----- creation and dispatch ----------------------------------------------------------------

  /** Creation is complete requests for known hosts, or an exact replay; a new command is PENDING
      and was never dispatched, and nothing else changes. */
  lemma CreateIff(db: Db, request: CreateRequest)
    ensures var r := Create(db, request);
            var id, i := request.id, request.identity;
            && (r.result.Ok? <==>
                  && "" !in {id, i.jobId, i.host, i.commandType, i.schemaVersion, i.target}
                  && (i.host in db.hosts || id in db.commands)
                  && (id in db.commands ==> db.commands[id].identity == i))
            && (r.result.Err? || id in db.commands ==> r.db == db)
            && (r.result.Ok? ==> id in r.db.commands && r.db.commands[id].identity == i)
            && (r.result.Ok? && id !in db.commands ==>
                  && r.db.commands[id].state == Pending && r.db.commands[id].attempt == 0
                  && r.db.commands[id].lease == None && r.db == Put(db, id, r.db.commands[id]))
  {
  }

  /** A lease is granted exactly for a complete request of at least a microsecond, on a command
      that is PENDING or REDISPATCHABLE, under a permitting host row with a positive session. */
  lemma AcquireIff(db: Db, request: LeaseRequest, token: string, now: int)
    requires DbInv(db)
    ensures var scope := if request.scope == UnsupportedScope("") then Mutation else request.scope;
            Acquire(db, request, token, now).result.Ok? <==>
              && request.id != "" && request.authorityGeneration >= 1
              && 1000 <= request.duration <= 3_600_000_000_000
              && (request.protectedDelivery ==> 0 < request.executionTimeout < request.duration)
              && request.id in db.commands
              && (db.commands[request.id].state == Pending || db.commands[request.id].state == Redispatchable)
              && exists session :: session > 0 && Permits(db.hosts, db.commands[request.id].identity, scope,
                                                          request.authorityGeneration, session)
  {
    hide DbInv, CommandInv, GrantLease, AfterGrant, Permits, AuthorityFor;
    if LeaseRequestComplete(request) && request.id in db.commands {
      var c := db.commands[request.id];
      CommandOf(db, request.id);
      var scope := ScopeOrDefault(request.scope);
      var authority := AuthorityFor(db, c.identity, scope, request.authorityGeneration);
      forall session: nat
        ensures authority == Ok(session) <==>
                  Permits(db.hosts, c.identity, scope, request.authorityGeneration, session)
      {
        AuthorityIff(db, c.identity, scope, request.authorityGeneration, session);
      }
      if authority.Ok? {
        GrantForm(c, Grant(MaxGeneration(c.grants) + 1, c.attempt + 1, c.identity.host,
          request.authorityGeneration, authority.value, Sha256(token), now, now + request.duration / 1000, scope));
      }
    }
  }

  /** The window of a grant starts now and is the requested duration cut to whole microseconds, so
      at most an hour; the grant carries what was asked for, the next number, and a session that
      the host row permits. */
  lemma GrantIsBounded(db: Db, request: LeaseRequest, token: string, now: int)
    requires DbInv(db) && Acquire(db, request, token, now).result.Ok?
    ensures var g, c := Acquire(db, request, token, now).result.value, db.commands[request.id];
            && g.notBefore == now
            && 1000 * (g.expiresAt - now) <= request.duration < 1000 * (g.expiresAt - now + 1)
            && 0 < g.expiresAt - now <= 3_600_000_000
            && (request.scope != UnsupportedScope("") ==> g.scope == request.scope)
            && (request.scope == UnsupportedScope("") ==> g.scope == Mutation)
            && g.authorityGeneration == request.authorityGeneration && g.sessionGeneration > 0
            && Permits(db.hosts, c.identity, g.scope, g.authorityGeneration, g.sessionGeneration)
            && g.host == c.identity.host && g.token == Sha256(token)
            && g.generation == g.attempt == c.attempt + 1
  {
    hide DbInv, Good, CommandInv, AfterGrant, HasEvidence, AuthorityFor, Permits;
    AcquireKeeps(db, request, token, now);
    var g, c := Acquire(db, request, token, now).result.value, db.commands[request.id];
    AuthorityIff(db, c.identity, g.scope, g.authorityGeneration, g.sessionGeneration);
  }

  /** A grant leaves its command LEASED at the next attempt, with the grant as its active lease and
      fresh logs that open with it; a refusal leaves everything as it was. */
  lemma GrantIsRecorded(db: Db, request: LeaseRequest, token: string, now: int)
    requires DbInv(db)
    ensures var r := Acquire(db, request, token, now);
            && (r.result.Err? ==> r.db == db)
            && (r.result.Ok? ==>
                  && request.id in db.commands && request.id in r.db.commands
                  && var g, c, c' := r.result.value, db.commands[request.id], r.db.commands[request.id];
                     var facts := GrantFacts(g.attempt, g.authorityGeneration, g.sessionGeneration, g.expiresAt);
                     && r.db == Put(db, request.id, c') && c'.state == Leased && c'.attempt == c.attempt + 1
                     && c'.lease == Some(Lease(g, Active)) && c'.grants == c.grants + [g]
                     && c'.identity == c.identity && c'.results == c.results
                     && LeaseLogOf(c', g.generation) == [LeaseEvent(1, Granted, facts)]
                     && AttemptLogOf(c', g.attempt)
                          == [AttemptEvent(1, AttemptLeased, "lease_granted", LeaseGenerationFacts(g.generation))])
  {
    hide DbInv, Good, HasEvidence, GrantLease, AuthorityFor, Acquire;
    AcquireKeeps(db, request, token, now);
  }

  // ----- journaling -----------------------------------------------------------------------------

  /** A LEASED attempt is started by every complete request under a usable lease; then it is
      EXECUTING, both logs say so, and the lease, its token and its window are untouched. */
  lemma StartIsRecorded(db: Db, start: AttemptStart, now: int)
    requires DbInv(db) && start.id in db.commands && db.commands[start.id].state == Leased
    ensures var r, c := MarkJournaled(db, start, now), db.commands[start.id];
            var lease, log := LeaseLogOf(c, start.attempt), AttemptLogOf(c, start.attempt);
            && (r.result.Ok? <==>
                  && start.id != "" && start.attempt >= 1 && start.token != "" && start.journalDigest.Has64Characters()
                  && LeaseUsable(db, start.id, start.attempt, start.token, now))
            && (r.result.Err? ==> r.db == db)
            && (r.result.Ok? ==>
                  r.db == Put(db, start.id, c.(state := Executing,
                    leaseLogs := c.leaseLogs[start.attempt :=
                      lease + [LeaseEvent(2, Started, StartFacts(start.attempt))]],
                    attemptLogs := c.attemptLogs[start.attempt :=
                      log + [AttemptEvent(|log| + 1, Journaled, "write_before_execute",
                                          JournalFacts(start.journalDigest))]])))
  {
    hide DbInv, CommandInv, StartAttempt, AuthorityFor, Permits;
    CommandOf(db, start.id);
    if LeaseUsable(db, start.id, start.attempt, start.token, now) {
      StartForm(db.commands[start.id], start.attempt, start.journalDigest);
    }
  }

  lemma StartAgain(c: Command, digest: Digest, other: Digest)
    requires CommandInv(c) && c.state == Leased
    ensures var c' := AfterStart(c, digest);
            && c'.lease.Some?
            && StartAttempt(c', c.attempt, other) == if other == digest then Ok(c') else Err(EvidenceConflict)
  {
    var c', n := AfterStart(c, digest), c.attempt;
    assert LogsAgree(c, n);
    FoldShaped(c.leaseLogs[n]);
    var log, lease := AttemptLogOf(c', n), LeaseLogOf(c', n);
    assert log[|log| - 1].kind == Journaled && log[|log| - 1].facts == JournalFacts(digest);
    assert lease[1].kind == Started && lease[1].facts == StartFacts(n);
    forall i | 0 <= i < |log| && log[i].kind == Journaled ensures i == |log| - 1 {
      assert Has(AttemptLogOf(c, n), Journaled) || i == |log| - 1;
    }
  }

  /** Journaling is idempotent for one digest while the lease lives, and refuses another. */
  lemma StartReplays(db: Db, start: AttemptStart, now: int, digest: Digest, later: int)
    requires DbInv(db) && start.id in db.commands && db.commands[start.id].state == Leased
    requires MarkJournaled(db, start, now).result.Ok? && digest.Has64Characters()
    requires LeaseUsable(db, start.id, start.attempt, start.token, later)
    ensures var db' := MarkJournaled(db, start, now).db;
            MarkJournaled(db', start.(journalDigest := digest), later)
              == Outcome(db', if digest == start.journalDigest then Ok(()) else Err(EvidenceConflict))
  {
    hide DbInv, CommandInv, StartAttempt, AuthorityFor, Permits;
    CommandOf(db, start.id);
    var c := db.commands[start.id];
    StartForm(c, start.attempt, start.journalDigest);
    StartAgain(c, start.journalDigest, digest);
    var db' := MarkJournaled(db, start, now).db;
    assert db' == Put(db, start.id, AfterStart(c, start.journalDigest));
    assert db'.commands[start.id := db'.commands[start.id]] == db'.commands;
    assert AuthorityFor(db', c.identity.(host := c.lease.value.grant.host), c.lease.value.grant.scope,
                        c.lease.value.grant.authorityGeneration)
        == AuthorityFor(db, c.identity.(host := c.lease.value.grant.host), c.lease.value.grant.scope,
                        c.lease.value.grant.authorityGeneration) by {
      AuthorityReadsHosts(db, db', c.identity.(host := c.lease.value.grant.host), c.lease.value.grant.scope,
                          c.lease.value.grant.authorityGeneration);
    }
  }

  // ----- results ----------------------------------------------------------------------------------

  /** A result is accepted exactly when it replays the recorded one, or its lease is usable and
      its identity was never used. */
  lemma AcceptIff(db: Db, s: Submission, validatedAt: int, expiredAt: int)
    requires DbInv(db)
    ensures AcceptResult(db, s, validatedAt, expiredAt).result.Ok? <==>
              && s.id != "" && s.attempt >= 1 && s.token != "" && s.resultId != ""
              && (s.outcome == OutcomeSucceeded || s.outcome == OutcomeFailed || s.outcome == OutcomeUnknown)
              && s.id in db.commands
              && if s.attempt in db.commands[s.id].results
                 then db.commands[s.id].results[s.attempt] == ResultRow(s.resultId, Sha256(s.payload), s.outcome)
                 else LeaseUsable(db, s.id, s.attempt, s.token, validatedAt) && s.resultId !in db.resultIds
  {
    hide DbInv, CommandInv, Effect, ConsumeLease, AuthorityFor, RejectStale;
    if LeaseUsable(db, s.id, s.attempt, s.token, validatedAt) && !s.outcome.UnsupportedOutcome? {
      CommandOf(db, s.id);
      ConsumeEffect(db.commands[s.id], s.attempt, s.Row());
    }
  }

  /** The state a reported outcome leads to. */
  ghost predicate LeadsTo(outcome: ExecutionOutcome, state: CommandState) {
    || (outcome == OutcomeSucceeded && state == Verifying)
    || (outcome == OutcomeFailed && state == Failed)
    || (outcome == OutcomeUnknown && state == Unknown)
  }

  /** A first result consumes its lease: SUCCEEDED has to be verified, FAILED is final, UNKNOWN
      has to be read back.  A replay writes nothing. */
  lemma AcceptedOutcome(db: Db, s: Submission, validatedAt: int, expiredAt: int)
    requires DbInv(db) && AcceptResult(db, s, validatedAt, expiredAt).result.Ok?
    ensures var r := AcceptResult(db, s, validatedAt, expiredAt);
            && s.id in db.commands && s.id in r.db.commands
            && var c, c' := db.commands[s.id], r.db.commands[s.id];
            && r.result.value == ResultRow(s.resultId, Sha256(s.payload), s.outcome)
            && (s.attempt in c.results ==> r.db == db)
            && (s.attempt !in c.results ==>
                  && r.db == Put(db, s.id, c').(resultIds := db.resultIds + {s.resultId})
                  && LeadsTo(s.outcome, c'.state)
                  && c'.results == c.results[s.attempt := r.result.value] && c'.attempt == c.attempt == s.attempt
                  && c.lease.Some? && c'.lease == Some(Lease(c.lease.value.grant, Ended(Consumed))))
  {
    hide DbInv, CommandInv, ConsumeLease, AuthorityFor;
    if s.attempt !in db.commands[s.id].results {
      CommandOf(db, s.id);
      ConsumeForm(db.commands[s.id], s.attempt, s.Row());
    }
  }

  // ----- verification -----------------------------------------------------------------------------

  /** The state a verified read-back leads to. */
  ghost predicate Settles(verdict: VerificationState, state: CommandState) {
    || (verdict == Matched && state == Succeeded)
    || (verdict == NotApplied && state == Redispatchable)
    || ((verdict == Conflicting || verdict == Unresolved) && state == Unknown)
  }

  /** A verification is taken for the current attempt only: MATCHED from VERIFYING or UNKNOWN
      once its projection went through, NOT_APPLIED from UNKNOWN only. */
  lemma VerificationIff(db: Db, v: VerificationRequest, projected: bool)
    requires DbInv(db)
    ensures RecordVerification(db, v, projected).result.Ok? <==>
              && v.verificationId != "" && v.row.commandId != "" && v.row.observationGeneration >= 1
              && v.row.observationDigest.Has64Characters() && v.row.verifierDigest.Has64Characters()
              && v.row.state in {Matched, NotApplied, Conflicting, Unresolved}
              && v.row.commandId in db.commands
              && var c := db.commands[v.row.commandId];
                 && 1 <= v.row.attempt == c.attempt
                 && if v.verificationId in db.evidence then db.evidence[v.verificationId] == v.row
                    else && (v.row.state == Matched ==> projected && (c.state == Verifying || c.state == Unknown))
                         && (v.row.state == NotApplied ==> c.state == Unknown)
  {
    hide DbInv, CommandInv, EvidenceDecides;
    if VerificationComplete(v) && v.row.commandId in db.commands {
      CommandOf(db, v.row.commandId);
      var c := db.commands[v.row.commandId];
      if c.attempt == v.row.attempt { AttemptExists(c); }
    }
  }

  lemma AttemptExists(c: Command)
    requires CommandInv(c) && c.attempt >= 1
    ensures c.attempt in c.attempts
  {
    assert LogsAgree(c, c.attempt);
  }

  lemma VerifiedOutcome(db: Db, v: VerificationRequest, projected: bool)
    requires RecordVerification(db, v, projected).result.Ok?
    ensures var r := RecordVerification(db, v, projected);
            && v.row.commandId in db.commands && v.row.commandId in r.db.commands
            && (v.verificationId in db.evidence ==> r.db == db)
            && (v.verificationId !in db.evidence ==>
                  var c, c' := db.commands[v.row.commandId], r.db.commands[v.row.commandId];
                  && Settles(v.row.state, c'.state) && c' == c.(state := c'.state)
                  && r.db == Put(db, v.row.commandId, c').(evidence := db.evidence[v.verificationId := v.row]))
  {
  }

  // ----- one decision -----------------------------------------------------------------------------

  /** Journaling leaves the lease as usable as it was, and takes no result. */
  lemma StartedStillUsable(db: Db, start: AttemptStart, now: int, validatedAt: int)
    requires DbInv(db) && MarkJournaled(db, start, now).result.Ok?
    ensures var db1 := MarkJournaled(db, start, now).db;
            && DbInv(db1) && start.id in db.commands && db1.commands.Keys == db.commands.Keys
            && db1 == db.(commands := db1.commands)
            && var c, c' := db.commands[start.id], db1.commands[start.id];
            && InFlight(c.state) && c'.state == Executing && start.attempt == c.attempt == c'.attempt
            && start.attempt !in c'.results && c'.results == c.results
            && forall token :: LeaseUsable(db1, start.id, start.attempt, token, validatedAt)
                          <==> LeaseUsable(db, start.id, start.attempt, token, validatedAt)
  {
    hide DbInv, CommandInv, EvidenceDecides, StartAttempt, AuthorityFor, Evolves;
    JournalKeeps(db, start, now);
    CommandOf(db, start.id);
    var c := db.commands[start.id];
    StartForm(c, start.attempt, start.journalDigest);
    var db1 := MarkJournaled(db, start, now).db;
    AuthorityReadsHosts(db, db1, c.identity.(host := c.lease.value.grant.host), c.lease.value.grant.scope,
                        c.lease.value.grant.authorityGeneration);
  }

  /** A command reported as executed is never handed out again by the same message: SUCCEEDED
      with a new NOT_APPLIED read-back is refused as a whole. */
  lemma SucceededIsNotRedispatched(db: Db, d: ResultDecision, projected: bool,
                                   startedAt: int, validatedAt: int, expiredAt: int)
    requires DbInv(db) && Coherent(d)
    requires d.result.outcome == OutcomeSucceeded
    requires && d.verification.Some? && d.verification.value.row.state == NotApplied
             && d.verification.value.verificationId !in db.evidence
    ensures var r := ApplyDecision(db, d, projected, startedAt, validatedAt, expiredAt);
            r.result.Err? && r.db == db
  {
    hide DbInv, CommandInv, MarkJournaled, AcceptResult, LeaseUsable, Evolves, SameAttempts;
    if MarkJournaled(db, d.start, startedAt).result.Ok? {
      StartedStillUsable(db, d.start, startedAt, validatedAt);
      var db1 := MarkJournaled(db, d.start, startedAt).db;
      if AcceptResult(db1, d.result, validatedAt, expiredAt).result.Ok? {
        AcceptedOutcome(db1, d.result, validatedAt, expiredAt);
      }
    }
  }

  /** The state a whole result message leads to. */
  ghost predicate Concludes(outcome: ExecutionOutcome, observed: ObservedState, state: CommandState) {
    || (outcome == OutcomeFailed && state == Failed)
    || (outcome in {OutcomeSucceeded, OutcomeUnknown} && observed == ObservedMatched && state == Succeeded)
    || (outcome == OutcomeUnknown && observed == ObservedNotApplied && state == Redispatchable)
    || (outcome in {OutcomeSucceeded, OutcomeUnknown} && observed != ObservedMatched
        && observed != ObservedNotApplied && state == Unknown)
  }

  /** The row holds what the message observed of this attempt, and the verdict that goes with it. */
  ghost predicate Witnesses(row: Verification, id: CommandId, attempt: nat, o: Observation, verifier: Digest) {
    && row.commandId == id && row.attempt == attempt
    && row.observationGeneration == o.generation && row.observationDigest == o.digest && row.verifierDigest == verifier
    && row.evidence.text == o.evidence
    && (row.state == Matched <==> o.state == ObservedMatched)
    && (row.state == NotApplied <==> o.state == ObservedNotApplied)
    && (row.state == Conflicting <==> o.state == ObservedConflicting)
    && (row.state == Unresolved <==> o.state.ObservedOther?)
  }

  /** What a result message must carry besides its lease. */
  ghost predicate Reportable(db: Db, m: ResultMessage, projected: bool) {
    && m.resultId != "" && m.resultId !in db.resultIds
    && m.outcome in {OutcomeSucceeded, OutcomeFailed, OutcomeUnknown}
    && (m.outcome != OutcomeFailed ==>
          && m.id + "-verification-" + Decimal(m.attempt) !in db.evidence
          && m.observation.generation >= 1 && m.observation.digest.Has64Characters()
          && m.verifierDigest.Has64Characters()
          && (m.observation.state == ObservedMatched ==> projected)
          && (m.observation.state == ObservedNotApplied ==> m.outcome == OutcomeUnknown))
  }

  /** A result message is applied as a whole exactly when its journaling goes through, its lease is
      usable at the validation, and what it carries is reportable; the state is then the one its
      outcome and read-back conclude.  Otherwise nothing changes. */
  lemma DecisionIff(db: Db, m: ResultMessage, projected: bool, startedAt: int, validatedAt: int, expiredAt: int)
    requires DbInv(db)
    ensures var d := DecideResult(m);
            var r := ApplyDecision(db, d, projected, startedAt, validatedAt, expiredAt);
            && (r.result.Ok? <==>
                  && MarkJournaled(db, d.start, startedAt).result.Ok?
                  && LeaseUsable(db, m.id, m.attempt, m.token, validatedAt) && Reportable(db, m, projected))
            && (r.result.Err? ==> r.db == db)
            && (r.result.Ok? ==>
                  && m.id in db.commands && m.id in r.db.commands
                  && var c, c' := db.commands[m.id], r.db.commands[m.id];
                  && m.attempt == c'.attempt == c.attempt && Concludes(m.outcome, m.observation.state, c'.state)
                  && c'.results == c.results[m.attempt := ResultRow(m.resultId, Sha256(m.payload), m.outcome)]
                  && (m.outcome == OutcomeFailed ==> r.db.evidence == db.evidence)
                  && (m.outcome != OutcomeFailed ==>
                        exists id, row :: r.db.evidence == db.evidence[id := row] && id !in db.evidence
                                          && Witnesses(row, m.id, m.attempt, m.observation, m.verifierDigest)))
  {
    hide DbInv, CommandInv, MarkJournaled, AcceptResult, RecordVerification, LeaseUsable, Evolves, SameAttempts;
    var d := DecideResult(m);
    if MarkJournaled(db, d.start, startedAt).result.Ok? {
      StartComplete(db, d.start, startedAt);
      StartedStillUsable(db, d.start, startedAt, validatedAt);
      var db1 := MarkJournaled(db, d.start, startedAt).db;
      AcceptIff(db1, d.result, validatedAt, expiredAt);
      SubmitKeeps(db1, d.result, validatedAt, expiredAt);
      var accepted := AcceptResult(db1, d.result, validatedAt, expiredAt);
      if accepted.result.Ok? {
        AcceptedOutcome(db1, d.result, validatedAt, expiredAt);
        if d.verification.Some? {
          var v := d.verification.value;
          GoodInv(db1, accepted.db);
          VerificationIff(accepted.db, v, projected);
          NoEvidenceOfThisAttempt(db, v);
          if RecordVerification(accepted.db, v, projected).result.Ok? {
            VerifiedOutcome(accepted.db, v, projected);
            assert Witnesses(v.row, m.id, m.attempt, m.observation, m.verifierDigest);
          }
        }
      }
    }
  }

  lemma StartComplete(db: Db, start: AttemptStart, now: int)
    requires MarkJournaled(db, start, now).result.Ok?
    ensures start.id != "" && start.attempt >= 1 && start.token != ""
  {
    hide LeaseUsable, StartAttempt, SameAttempts;
  }

  lemma NoEvidenceOfThisAttempt(db: Db, v: VerificationRequest)
    requires DbInv(db) && v.row.commandId in db.commands && InFlight(db.commands[v.row.commandId].state)
    requires v.row.attempt == db.commands[v.row.commandId].attempt
    ensures v.verificationId in db.evidence ==> db.evidence[v.verificationId] != v.row
  {
    hide CommandInv, EvidenceDecides;
    if v.verificationId in db.evidence { assert Anchored(db, db.evidence[v.verificationId]); }
  }

  // ----- the Agent entry points -----------------------------------------------------------------------

  /** A valid message about this attempt, sent by the command's host under its current session. */
  ghost predicate FromHost(db: Db, e: Envelope, max: int, id: CommandId, attempt: nat) {
    && e.Valid(max) && id != "" && e.correlationKey == id && e.sequence == attempt
    && id in db.commands && e.host == db.commands[id].identity.host
    && e.host in db.hosts && db.hosts[e.host].session == Some(Receipts.Session(e.sessionGeneration, true))
  }

  /** A first result message is answered exactly when it comes from the host, its sequence slot is
      free, and either its command is in flight and the decision applies, or it is late and
      names an attempt that was made.  The first gets an ACCEPTED receipt; the late one gets a
      STALE receipt and leaves a rejection behind, but moves no state, result or evidence. */
  lemma ResultMessageIff(db: Db, e: Envelope, max: int, m: ResultMessage, projected: bool,
                         startedAt: int, validatedAt: int, expiredAt: int)
    requires DbInv(db) && Receipts.Key(e) !in db.receipts
    ensures var r := AgentResult(db, e, max, DecideResult(m), projected, startedAt, validatedAt, expiredAt);
            var applied := ApplyDecision(db, DecideResult(m), projected, startedAt, validatedAt, expiredAt);
            && (r.result.Ok? <==>
                  && FromHost(db, e, max, m.id, m.attempt) && !Receipts.SlotTaken(db.receipts, e)
                  && if InFlight(db.commands[m.id].state) then applied.result.Ok?
                     else 1 <= m.attempt <= db.commands[m.id].attempt)
            && (r.result.Err? ==> r.db == db)
            && (r.result.Ok? ==>
                  && m.id in db.commands
                  && var c, receipt := db.commands[m.id], r.result.value;
                     var after := db.receipts[Receipts.Key(e) := receipt];
                     if InFlight(c.state) then receipt.disposition == Accepted && r.db == applied.db.(receipts := after)
                     else && receipt.disposition == Stale
                          && r.db == Put(db, m.id, AfterRejection(c, m.attempt, "command_authority_not_current",
                               LateFacts(m.resultId, e.sessionGeneration))).(receipts := after))
  {
    hide DbInv, CommandInv, ApplyDecision, AppendAttemptEvent, AfterRejection, SameAttempts, Decimal;
    if m.id in db.commands {
      CommandOf(db, m.id);
      RejectionForm(db.commands[m.id], m.attempt, "command_authority_not_current",
                    LateFacts(m.resultId, e.sessionGeneration));
    }
    DecisionReceipts(db, DecideResult(m), projected, startedAt, validatedAt, expiredAt);
  }

  lemma DecisionReceipts(db: Db, d: ResultDecision, projected: bool, startedAt: int, validatedAt: int, expiredAt: int)
    requires DbInv(db) && Coherent(d)
    ensures ApplyDecision(db, d, projected, startedAt, validatedAt, expiredAt).db.receipts == db.receipts
  {
    hide DbInv, ApplyDecision;
    DecisionKeeps(db, d, projected, startedAt, validatedAt, expiredAt);
  }

  /** A first read-back message is accepted exactly when it comes from the host under the session
      that is also authorised, is about the current attempt of an UNKNOWN command and about
      exactly its target and payload, and carries a complete verification. */
  lemma ObservationMessageIff(db: Db, e: Envelope, max: int, m: ObservationMessage, projected: bool)
    requires DbInv(db) && Receipts.Key(e) !in db.receipts
    ensures var v := DecideObservation(m).verification;
            AgentObservation(db, e, max, DecideObservation(m), projected).result.Ok? <==>
              && FromHost(db, e, max, m.id, m.attempt) && !Receipts.SlotTaken(db.receipts, e)
              && db.hosts[e.host].authorizedSession == Some(e.sessionGeneration)
              && var c := db.commands[m.id];
                 && c.state == Unknown && c.attempt == m.attempt
                 && c.identity.target == m.target && c.identity.payloadDigest == m.payloadDigest
                 && m.observation.generation >= 1 && m.observation.digest.Has64Characters()
                 && m.verifierDigest.Has64Characters()
                 && if v.verificationId in db.evidence then db.evidence[v.verificationId] == v.row
                    else m.observation.state == ObservedMatched ==> projected
  {
    hide DbInv, CommandInv, RecordVerification, SameAttempts, Decimal, Receipts.SlotTaken;
    VerificationIff(db, DecideObservation(m).verification, projected);
    if m.id in db.commands {
      CommandOf(db, m.id);
      PendingMeansNever(db.commands[m.id]);
    }
  }

  /** Then its command moves to the state that its verdict concludes for an UNKNOWN outcome, its
      verification is recorded, and its receipt is ACCEPTED; refused, it leaves no trace. */
  lemma ObservedOutcome(db: Db, e: Envelope, max: int, m: ObservationMessage, projected: bool)
    requires Receipts.Key(e) !in db.receipts
    ensures var v := DecideObservation(m).verification;
            var r := AgentObservation(db, e, max, DecideObservation(m), projected);
            && (r.result.Err? ==> r.db == db)
            && (r.result.Ok? ==>
                  && m.id in db.commands && m.id in r.db.commands && r.result.value.disposition == Accepted
                  && r.db.receipts == db.receipts[Receipts.Key(e) := r.result.value]
                  && var c, c' := db.commands[m.id], r.db.commands[m.id];
                  && c' == c.(state := c'.state) && r.db.commands == db.commands[m.id := c']
                  && r.db.evidence == db.evidence[v.verificationId := v.row]
                  && Witnesses(v.row, m.id, m.attempt, m.observation, m.verifierDigest)
                  && (v.verificationId in db.evidence ==> c'.state == Unknown)
                  && (v.verificationId !in db.evidence ==>
                        Concludes(OutcomeUnknown, m.observation.state, c'.state)))
  {
    hide RecordVerification, SameAttempts, Decimal, Receipts.SlotTaken;
    var v := DecideObservation(m).verification;
    if RecordVerification(db, v, projected).result.Ok? {
      VerifiedOutcome(db, v, projected);
      RecordedRow(db, v, projected);
    }
  }

  lemma RecordedRow(db: Db, v: VerificationRequest, projected: bool)
    requires RecordVerification(db, v, projected).result.Ok?
    ensures var r := RecordVerification(db, v, projected);
            && r.db.evidence == db.evidence[v.verificationId := v.row] && r.db.receipts == db.receipts
            && (v.verificationId in db.evidence ==> r.db.commands == db.commands[v.row.commandId :=
                                                                       db.commands[v.row.commandId]])
  {
    if v.verificationId in db.evidence {
      assert db.evidence[v.verificationId := db.evidence[v.verificationId]] == db.evidence;
      assert db.commands[v.row.commandId := db.commands[v.row.commandId]] == db.commands;
    }
  }

  // ----- expiry -------------------------------------------------------------------------------------

  /** An active lease expires exactly when its time is over; its command is then UNKNOWN and the
      lease EXPIRED, and nothing but the two logs of that attempt changes besides. */
  lemma ExpireIff(db: Db, id: CommandId, now: int)
    requires DbInv(db)
    ensures var r := Expire(db, id, now);
            && (r.result.Ok? <==>
                  && id in db.commands && db.commands[id].lease.Some?
                  && db.commands[id].lease.value.state == Active && db.commands[id].lease.value.grant.expiresAt <= now)
            && (r.result.Err? ==> r.db == db)
            && (r.result.Ok? ==>
                  && id in r.db.commands && r.db == Put(db, id, r.db.commands[id])
                  && var c, c' := db.commands[id], r.db.commands[id];
                  c' == c.(state := Unknown, lease := Some(Lease(c.lease.value.grant, Ended(Expired))),
                           leaseLogs := c'.leaseLogs, attemptLogs := c'.attemptLogs))
  {
    hide DbInv, CommandInv, EvidenceDecides, EndUnknown, SameAttempts;
    if id in db.commands && db.commands[id].lease.Some? && db.commands[id].lease.value.state == Active {
      CommandOf(db, id);
      EndForm(db.commands[id], Expired, "lease_expired");
    }
  }
}
