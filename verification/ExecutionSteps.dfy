/** Every transaction of the Command protocol keeps the invariant and only adds evidence. */
module ExecutionSteps {
  import opened Common
  import opened Envelopes
  import Receipts
  import opened Execution
  import opened ExecutionInvariant

  // ----- the database invariant -----------------------------------------------------------

  ghost predicate About(v: Verification, id: CommandId, attempt: nat, state: VerificationState) {
    v.commandId == id && v.attempt == attempt && v.state == state
  }

  ghost predicate HasEvidence(evidence: map<string, Verification>, id: CommandId, attempt: nat,
                              state: VerificationState) {
    exists v :: v in evidence && About(evidence[v], id, attempt, state)
  }

  /** Verification evidence names an attempt that was granted, and decides the state of the
      attempt it names: MATCHED is success, NOT_APPLIED is what allows another attempt. */
  ghost predicate EvidenceDecides(db: Db, id: CommandId)
    requires id in db.commands
  {
    var c := db.commands[id];
    && (c.state == Succeeded <==> HasEvidence(db.evidence, id, c.attempt, Matched))
    && (c.state == Redispatchable <==> HasEvidence(db.evidence, id, c.attempt, NotApplied))
    && (forall n :: 1 <= n < c.attempt ==>
          HasEvidence(db.evidence, id, n, NotApplied) && !HasEvidence(db.evidence, id, n, Matched))
  }

  ghost predicate Anchored(db: Db, v: Verification) {
    && v.commandId in db.commands
    && var c := db.commands[v.commandId];
    && 1 <= v.attempt <= c.attempt
    && (v.attempt == c.attempt ==> c.state == Succeeded || c.state == Redispatchable || c.state == Unknown)
  }

  ghost predicate DbInv(db: Db) {
    && (forall id :: id in db.commands ==> CommandInv(db.commands[id]) && EvidenceDecides(db, id))
    && (forall v :: v in db.evidence ==> Anchored(db, db.evidence[v]))
    && Receipts.Consistent(db.receipts)
  }

  // ----- what a step may do to history ------------------------------------------------------

  /** Nothing recorded is ever changed or lost, and SUCCEEDED and FAILED are never left. */
  ghost predicate Evolves(db: Db, db': Db) {
    && (forall id :: id in db.commands ==> id in db'.commands && CommandEvolves(db.commands[id], db'.commands[id]))
    && (forall v :: v in db.evidence ==> v in db'.evidence && db'.evidence[v] == db.evidence[v])
    && Receipts.Extends(db.receipts, db'.receipts)
  }

  lemma EvolvesTransitive(a: Db, b: Db, c: Db)
    requires Evolves(a, b) && Evolves(b, c)
    ensures Evolves(a, c)
  {
    hide CommandEvolves;
    forall id | id in a.commands ensures id in c.commands && CommandEvolves(a.commands[id], c.commands[id]) {
      CommandEvolvesTransitive(a.commands[id], b.commands[id], c.commands[id]);
    }
  }

  lemma CommandEvolvesTransitive(a: Command, b: Command, c: Command)
    requires CommandEvolves(a, b) && CommandEvolves(b, c)
    ensures CommandEvolves(a, c)
  {
  }

  ghost predicate Good(db: Db, db': Db) { DbInv(db') && Evolves(db, db') }

  // ----- replacing one command ------------------------------------------------------------

  ghost function Put(db: Db, id: CommandId, c: Command): Db {
    db.(commands := db.commands[id := c])
  }

  /** Evidence about a command's current attempt exists only once its lease is over. */
  lemma NoEvidenceInFlight(db: Db, id: CommandId, state: VerificationState)
    requires DbInv(db) && id in db.commands
    requires !(db.commands[id].state in {Succeeded, Redispatchable, Unknown})
    ensures !HasEvidence(db.evidence, id, db.commands[id].attempt, state)
  {
  }

  lemma NoEvidenceYet(db: Db, id: CommandId, attempt: nat, state: VerificationState)
    requires DbInv(db) && id in db.commands && attempt > db.commands[id].attempt
    ensures !HasEvidence(db.evidence, id, attempt, state)
  {
  }

  lemma PutDecides(db: Db, id: CommandId, c: Command)
    requires DbInv(db) && id in db.commands && VerdictUntouched(db.commands[id], c)
    ensures forall i :: i in Put(db, id, c).commands ==> EvidenceDecides(Put(db, id, c), i)
    ensures forall v :: v in db.evidence ==> Anchored(Put(db, id, c), db.evidence[v])
  {
    hide CommandInv;
    var db' := Put(db, id, c);
    if c.state != db.commands[id].state {
      NoEvidenceInFlight(db, id, Matched);
      NoEvidenceInFlight(db, id, NotApplied);
    }
    forall i | i in db'.commands ensures EvidenceDecides(db', i) { assert EvidenceDecides(db, i); }
    forall v | v in db'.evidence ensures Anchored(db', db'.evidence[v]) { assert Anchored(db, db.evidence[v]); }
  }

  lemma SelfEvolves(c: Command)
    ensures CommandEvolves(c, c)
  {
  }

  lemma PutEvolves(db: Db, id: CommandId, c: Command)
    requires id in db.commands ==> CommandEvolves(db.commands[id], c)
    ensures Evolves(db, Put(db, id, c))
  {
    hide CommandEvolves;
    forall i | i in db.commands ensures CommandEvolves(db.commands[i], Put(db, id, c).commands[i]) {
      SelfEvolves(db.commands[i]);
    }
  }

  /** An effect on one command that does not touch verdicts. */
  lemma PutKeeps(db: Db, id: CommandId, c: Command)
    requires DbInv(db) && id in db.commands && Effect(db.commands[id], c)
    ensures Good(db, Put(db, id, c))
  {
    hide CommandInv, Anchored, EvidenceDecides, Evolves, Receipts.Consistent, CommandEvolves, VerdictUntouched;
    PutDecides(db, id, c);
    PutEvolves(db, id, c);
  }

  lemma Unchanged(db: Db)
    requires DbInv(db)
    ensures Good(db, db)
  {
    hide CommandInv;
  }

  lemma CommandOf(db: Db, id: CommandId)
    requires DbInv(db) && id in db.commands
    ensures CommandInv(db.commands[id]) && EvidenceDecides(db, id)
  {
  }

  // ----- the transactions -------------------------------------------------------------------

  lemma FreshInv(identity: Identity)
    ensures CommandInv(Command(identity, Pending, 0, None, [], map[], map[], map[], map[]))
  {
  }

  lemma FreshKeeps(db: Db, id: CommandId, identity: Identity)
    requires DbInv(db) && id !in db.commands
    ensures Good(db, Put(db, id, Command(identity, Pending, 0, None, [], map[], map[], map[], map[])))
  {
    hide CommandInv, Receipts.Consistent, Evolves;
    var c := Command(identity, Pending, 0, None, [], map[], map[], map[], map[]);
    var db' := Put(db, id, c);
    FreshInv(identity);
    PutEvolves(db, id, c);
    forall i | i in db'.commands ensures EvidenceDecides(db', i) {
      if i != id { assert EvidenceDecides(db, i); }
    }
    forall v | v in db'.evidence ensures Anchored(db', db'.evidence[v]) { assert Anchored(db, db.evidence[v]); }
  }

  lemma CreateKeeps(db: Db, request: CreateRequest)
    requires DbInv(db)
    ensures Good(db, Create(db, request).db)
  {
    hide DbInv, Good;
    Unchanged(db);
    if request.id !in db.commands { FreshKeeps(db, request.id, request.identity); }
  }

  lemma GrantedDecides(db: Db, id: CommandId, c: Command)
    requires DbInv(db) && id in db.commands
    requires db.commands[id].attempt > 0 ==> db.commands[id].state == Redispatchable
    requires c.attempt == db.commands[id].attempt + 1 && c.state == Leased
    ensures forall i :: i in Put(db, id, c).commands ==> EvidenceDecides(Put(db, id, c), i)
    ensures forall v :: v in db.evidence ==> Anchored(Put(db, id, c), db.evidence[v])
  {
    hide CommandInv;
    var db' := Put(db, id, c);
    NoEvidenceYet(db, id, c.attempt, Matched);
    NoEvidenceYet(db, id, c.attempt, NotApplied);
    forall i | i in db'.commands ensures EvidenceDecides(db', i) { assert EvidenceDecides(db, i); }
    forall v | v in db'.evidence ensures Anchored(db', db'.evidence[v]) { assert Anchored(db, db.evidence[v]); }
  }

  lemma GrantedDb(db: Db, id: CommandId, g: Grant)
    requires DbInv(db) && id in db.commands && NextGrant(db.commands[id], g)
    requires db.commands[id].state == Pending || db.commands[id].state == Redispatchable
    requires var c' := AfterGrant(db.commands[id], g); CommandInv(c') && CommandEvolves(db.commands[id], c')
    ensures Good(db, Put(db, id, AfterGrant(db.commands[id], g)))
    ensures db.commands[id].attempt > 0 ==> HasEvidence(db.evidence, id, db.commands[id].attempt, NotApplied)
  {
    hide CommandInv, CommandEvolves, Anchored, Receipts.Consistent, Evolves;
    var c' := AfterGrant(db.commands[id], g);
    CommandOf(db, id);
    PendingMeansNever(db.commands[id]);
    GrantedDecides(db, id, c');
    PutEvolves(db, id, c');
  }

  lemma PendingMeansNever(c: Command)
    requires CommandInv(c)
    ensures c.state == Pending <==> c.attempt == 0
  {
  }

  /** A grant, when it happens, is the next attempt of a command that was never dispatched or
      whose last attempt is proved not applied. */
  lemma AcquireKeeps(db: Db, request: LeaseRequest, token: string, now: int)
    requires DbInv(db)
    ensures var r := Acquire(db, request, token, now);
            && Good(db, r.db)
            && (r.result.Err? ==> r.db == db)
            && (r.result.Ok? ==>
                  && request.id in db.commands
                  && var c := db.commands[request.id];
                  && r.result.value.generation == c.attempt + 1 && r.result.value.attempt == c.attempt + 1
                  && r.db == Put(db, request.id, AfterGrant(c, r.result.value))
                  && (c.attempt > 0 ==> HasEvidence(db.evidence, request.id, c.attempt, NotApplied)))
  {
    hide DbInv, Good, CommandInv, GrantLease, CommandEvolves, AuthorityFor, AfterGrant;
    var r := Acquire(db, request, token, now);
    Unchanged(db);
    if r.result.Ok? {
      var c, g := db.commands[request.id], r.result.value;
      CommandOf(db, request.id);
      GrantForm(c, g);
      GrantEvolves(c, g);
      GrantedDb(db, request.id, g);
    }
  }

  lemma JournalKeeps(db: Db, start: AttemptStart, now: int)
    requires DbInv(db)
    ensures var r := MarkJournaled(db, start, now);
            && Good(db, r.db) && (r.result.Err? ==> r.db == db)
            && (r.result.Ok? ==>
                  && start.id in db.commands && start.id in r.db.commands
                  && r.db == Put(db, start.id, r.db.commands[start.id]) && r.db.commands[start.id].state == Executing
                  && start.attempt !in r.db.commands[start.id].results)
  {
    hide DbInv, Good, CommandInv, Effect, EvidenceDecides, StartAttempt, AuthorityFor;
    Unchanged(db);
    if LeaseUsable(db, start.id, start.attempt, start.token, now) {
      CommandOf(db, start.id);
      StartEffect(db.commands[start.id], start.attempt, start.journalDigest);
      var started := StartAttempt(db.commands[start.id], start.attempt, start.journalDigest);
      if started.Ok? { PutKeeps(db, start.id, started.value); }
    }
  }

  lemma RejectKeeps(db: Db, s: Submission, now: int)
    requires DbInv(db)
    ensures Good(db, RejectStale(db, s, now).db)
  {
    hide DbInv, Good, CommandInv, Effect, EvidenceDecides, EndUnknown, AfterEnd, AppendAttemptEvent;
    Unchanged(db);
    if s.id in db.commands {
      CommandOf(db, s.id);
      var c := db.commands[s.id];
      var expires := CoversAttempt(c, s.attempt) && c.lease.value.grant.expiresAt <= now
          && c.lease.value.state == Active;
      if expires { EndEffect(c, Expired, "lease_expired"); } else { SelfEffect(c); }
      var c1 := if expires then AfterEnd(c, Expired, "lease_expired") else c;
      EffectInv(c, c1);
      var facts := StaleFacts(s.resultId, Sha256(s.payload));
      RejectionEffect(c1, s.attempt, "lease_or_authority_not_current", facts);
      var rejected := AppendAttemptEvent(c1, s.attempt, StaleResultRejected, "lease_or_authority_not_current", facts);
      if rejected.Ok? {
        EffectTransitive(c, c1, rejected.value);
        PutKeeps(db, s.id, rejected.value);
      }
    }
  }

  lemma SelfEffect(c: Command)
    requires CommandInv(c)
    ensures Effect(c, c)
  {
    hide CommandInv;
  }

  lemma EffectInv(c: Command, c': Command)
    requires Effect(c, c')
    ensures CommandInv(c')
  {
    hide CommandInv;
  }

  lemma SubmitKeeps(db: Db, s: Submission, validatedAt: int, expiredAt: int)
    requires DbInv(db)
    ensures var r := AcceptResult(db, s, validatedAt, expiredAt);
            && Good(db, r.db)
            && (r.result.Ok? ==>
                  && r.db.receipts == db.receipts && s.id in db.commands && s.id in r.db.commands
                  && (s.attempt !in db.commands[s.id].results ==> r.db.commands[s.id].state == StateAfter(s.outcome)))
  {
    hide DbInv, Good, CommandInv, Effect, EvidenceDecides, ConsumeLease, AuthorityFor, RejectStale;
    Unchanged(db);
    RejectKeeps(db, s, expiredAt);
    if LeaseUsable(db, s.id, s.attempt, s.token, validatedAt) && !s.outcome.UnsupportedOutcome? {
      CommandOf(db, s.id);
      ConsumeEffect(db.commands[s.id], s.attempt, s.Row());
      var c := ConsumeLease(db.commands[s.id], s.attempt, s.Row()).value;
      PutKeeps(db, s.id, c);
      ReindexKeeps(db, Put(db, s.id, c), db.resultIds + {s.resultId}, db.hosts);
    }
  }

  /** The unique result index and the host rows take no part in the invariant. */
  lemma ReindexKeeps(db: Db, db1: Db, resultIds: set<string>, hosts: map<HostId, Host>)
    requires Good(db, db1)
    ensures Good(db, db1.(resultIds := resultIds, hosts := hosts))
  {
    hide CommandInv, CommandEvolves, Receipts.Consistent, Receipts.Extends;
    var db2 := db1.(resultIds := resultIds, hosts := hosts);
    forall i | i in db2.commands ensures EvidenceDecides(db2, i) { assert EvidenceDecides(db1, i); }
    forall v | v in db2.evidence ensures Anchored(db2, db2.evidence[v]) { assert Anchored(db1, db1.evidence[v]); }
  }

  /** Verification of a command that is VERIFYING or UNKNOWN. */
  lemma VerificationKeeps(db: Db, v: VerificationRequest, projected: bool)
    requires DbInv(db)
    requires v.row.commandId in db.commands ==> db.commands[v.row.commandId].state in {Verifying, Unknown}
    ensures var r := RecordVerification(db, v, projected);
            Good(db, r.db) && (r.result.Err? ==> r.db == db) && r.db.receipts == db.receipts
  {
    hide DbInv, Good;
    Unchanged(db);
    var db' := RecordVerification(db, v, projected).db;
    if db' != db { VerdictDb(db, v, db'.commands[v.row.commandId].state); }
  }

  ghost predicate VerdictFits(state: VerificationState, next: CommandState) {
    next == match state case Matched => Succeeded case NotApplied => Redispatchable case _ => Unknown
  }

  lemma VerdictDecides(db: Db, v: VerificationRequest, next: CommandState)
    requires DbInv(db) && v.verificationId !in db.evidence && v.row.commandId in db.commands
    requires db.commands[v.row.commandId].state in {Verifying, Unknown}
             && db.commands[v.row.commandId].attempt == v.row.attempt >= 1
    requires VerdictFits(v.row.state, next)
    ensures var c' := db.commands[v.row.commandId].(state := next);
            var db' := Put(db, v.row.commandId, c').(evidence := db.evidence[v.verificationId := v.row]);
            && (forall i :: i in db'.commands ==> EvidenceDecides(db', i))
            && (forall w :: w in db'.evidence ==> Anchored(db', db'.evidence[w]))
  {
    hide CommandInv, HasEvidence, Receipts.Consistent, Anchored;
    var id := v.row.commandId;
    var c' := db.commands[id].(state := next);
    var db' := Put(db, id, c').(evidence := db.evidence[v.verificationId := v.row]);
    if db.commands[id].state == Verifying {
      NoEvidenceInFlight(db, id, Matched);
      NoEvidenceInFlight(db, id, NotApplied);
    }
    forall i | i in db'.commands ensures EvidenceDecides(db', i) {
      assert EvidenceDecides(db, i) && EvidenceDecides(db, id);
      forall n, s ensures HasEvidence(db'.evidence, i, n, s) <==>
          HasEvidence(db.evidence, i, n, s) || About(v.row, i, n, s) {
        NewRow(db.evidence, v, i, n, s);
      }
    }
    VerdictAnchors(db, v, next);
  }

  lemma VerdictAnchors(db: Db, v: VerificationRequest, next: CommandState)
    requires DbInv(db) && v.verificationId !in db.evidence && v.row.commandId in db.commands
    requires db.commands[v.row.commandId].state in {Verifying, Unknown}
    requires db.commands[v.row.commandId].attempt == v.row.attempt >= 1 && VerdictFits(v.row.state, next)
    ensures var c' := db.commands[v.row.commandId].(state := next);
            var db' := Put(db, v.row.commandId, c').(evidence := db.evidence[v.verificationId := v.row]);
            forall w :: w in db'.evidence ==> Anchored(db', db'.evidence[w])
  {
    hide CommandInv, HasEvidence, EvidenceDecides, Receipts.Consistent;
    var c' := db.commands[v.row.commandId].(state := next);
    var db' := Put(db, v.row.commandId, c').(evidence := db.evidence[v.verificationId := v.row]);
    forall w | w in db'.evidence ensures Anchored(db', db'.evidence[w]) {
      if w != v.verificationId { assert Anchored(db, db.evidence[w]); }
    }
  }

  lemma NewRow(evidence: map<string, Verification>, v: VerificationRequest, id: CommandId, n: nat, s: VerificationState)
    requires v.verificationId !in evidence
    ensures HasEvidence(evidence[v.verificationId := v.row], id, n, s) <==>
              HasEvidence(evidence, id, n, s) || About(v.row, id, n, s)
  {
    var later := evidence[v.verificationId := v.row];
    if HasEvidence(evidence, id, n, s) {
      var w :| w in evidence && About(evidence[w], id, n, s);
      assert w in later && About(later[w], id, n, s);
    }
    if About(v.row, id, n, s) {
      assert v.verificationId in later && About(later[v.verificationId], id, n, s);
    }
  }

  lemma VerdictDb(db: Db, v: VerificationRequest, next: CommandState)
    requires DbInv(db) && v.verificationId !in db.evidence && v.row.commandId in db.commands
    requires db.commands[v.row.commandId].state in {Verifying, Unknown}
             && db.commands[v.row.commandId].attempt == v.row.attempt >= 1
    requires VerdictFits(v.row.state, next)
    ensures var c' := db.commands[v.row.commandId].(state := next);
            Good(db, Put(db, v.row.commandId, c').(evidence := db.evidence[v.verificationId := v.row]))
  {
    hide CommandInv, Receipts.Consistent, EvidenceDecides, Anchored, CommandEvolves;
    var c := db.commands[v.row.commandId];
    VerdictDecides(db, v, next);
    VerdictKeeps(c, next);
    VerdictEvolves(c, next);
    PutEvolves(db, v.row.commandId, c.(state := next));
  }

  lemma VerdictEvolves(c: Command, next: CommandState)
    requires !Terminal(c.state)
    ensures CommandEvolves(c, c.(state := next))
  {
  }

  lemma ExpireKeeps(db: Db, id: CommandId, now: int)
    requires DbInv(db)
    ensures Good(db, Expire(db, id, now).db)
  {
    hide DbInv, Good, CommandInv, Effect, EvidenceDecides, EndUnknown, AfterEnd;
    Unchanged(db);
    if id in db.commands && db.commands[id].lease.Some? && db.commands[id].lease.value.state == Active {
      CommandOf(db, id);
      EndEffect(db.commands[id], Expired, "lease_expired");
      PutKeeps(db, id, AfterEnd(db.commands[id], Expired, "lease_expired"));
    }
  }

  // ----- fencing a host -----------------------------------------------------------------------

  /** Under the invariant every active lease can be fenced, so the whole host is. */
  lemma FenceAll(db: Db, host: HostId, reason: string)
    requires DbInv(db)
    ensures FenceHost(db, host, reason).result == Ok(())
    ensures forall id :: id in db.commands && ActiveOn(db.commands[id], host) ==>
              FenceCommand(db.commands[id], host, reason) == AfterEnd(db.commands[id], Fenced, reason)
    ensures forall id :: id in db.commands ==> Effect(db.commands[id], FenceCommand(db.commands[id], host, reason))
  {
    hide CommandInv, Effect, EvidenceDecides, EndUnknown, AfterEnd;
    forall id | id in db.commands
      ensures ActiveOn(db.commands[id], host) ==>
                EndUnknown(db.commands[id], Fenced, reason) == Ok(AfterEnd(db.commands[id], Fenced, reason))
      ensures Effect(db.commands[id], FenceCommand(db.commands[id], host, reason))
    {
      CommandOf(db, id);
      if ActiveOn(db.commands[id], host) {
        EndEffect(db.commands[id], Fenced, reason);
      } else {
        SelfEffect(db.commands[id]);
      }
    }
  }

  lemma FenceDecides(db: Db, db': Db)
    requires DbInv(db) && db' == db.(commands := db'.commands) && db'.commands.Keys == db.commands.Keys
    requires forall id :: id in db.commands ==> VerdictUntouched(db.commands[id], db'.commands[id])
    ensures forall i :: i in db'.commands ==> EvidenceDecides(db', i)
    ensures forall v :: v in db'.evidence ==> Anchored(db', db'.evidence[v])
  {
    hide CommandInv;
    forall i | i in db'.commands ensures EvidenceDecides(db', i) {
      assert VerdictUntouched(db.commands[i], db'.commands[i]);
      assert EvidenceDecides(db, i);
      if db'.commands[i].state != db.commands[i].state {
        NoEvidenceInFlight(db, i, Matched);
        NoEvidenceInFlight(db, i, NotApplied);
      }
    }
    forall v | v in db'.evidence ensures Anchored(db', db'.evidence[v]) {
      assert Anchored(db, db.evidence[v]);
      assert VerdictUntouched(db.commands[db.evidence[v].commandId], db'.commands[db.evidence[v].commandId]);
    }
  }

  lemma FenceKeeps(db: Db, host: HostId, reason: string)
    requires DbInv(db)
    ensures Good(db, FenceHost(db, host, reason).db)
  {
    hide CommandInv, CommandEvolves, VerdictUntouched, EvidenceDecides, Anchored, Receipts.Consistent, FenceCommand,
         AfterEnd, EndUnknown;
    FenceAll(db, host, reason);
    var db' := FenceHost(db, host, reason).db;
    forall id | id in db.commands ensures Effect(db.commands[id], db'.commands[id]) {}
    FenceDecides(db, db');
  }

  /** No active lease is left on the host; a command that had one there is UNKNOWN with the
      same attempt and results; any other command is unchanged. */
  ghost predicate FencedAs(c: Command, c': Command, host: HostId) {
    && !ActiveOn(c', host)
    && (if ActiveOn(c, host) then
          && c'.state == Unknown && c'.lease == Some(c.lease.value.(state := Ended(Fenced)))
          && c'.attempt == c.attempt && c'.results == c.results && c'.grants == c.grants
        else c' == c)
  }

  lemma FenceOne(c: Command, host: HostId, reason: string)
    requires CommandInv(c)
    ensures FencedAs(c, FenceCommand(c, host, reason), host)
  {
    if ActiveOn(c, host) { EndForm(c, Fenced, reason); }
  }

  /** After a host fence no active lease is left on the host, exactly the commands that had
      one there are UNKNOWN through it, and no other command changes at all. */
  lemma FenceIsExact(db: Db, host: HostId, reason: string)
    requires DbInv(db)
    ensures var db' := FenceHost(db, host, reason).db;
            && db'.commands.Keys == db.commands.Keys
            && db' == db.(commands := db'.commands)
            && (forall id :: id in db.commands ==> FencedAs(db.commands[id], db'.commands[id], host))
  {
    hide DbInv, Effect, FenceCommand, ActiveOn;
    FenceAll(db, host, reason);
    forall id | id in db.commands ensures FencedAs(db.commands[id], FenceCommand(db.commands[id], host, reason), host) {
      CommandOf(db, id);
      FenceOne(db.commands[id], host, reason);
    }
  }

  // ----- the Agent entry points -------------------------------------------------------------------

  lemma ReceiptKeeps(db: Db, after: Db, e: Envelope, answer: Result<Receipts.Answer, Receipts.Error>)
    requires DbInv(db) && Good(db, after) && after.receipts == db.receipts
    requires answer.Ok? ==> Receipts.Answers(db.receipts, e, answer.value)
    ensures Good(db, CommitReceipt(db, after, answer).db)
    ensures CommitReceipt(db, after, answer).result.Ok? ==>
              Receipts.Answers(db.receipts, e,
                               Receipts.Answer(CommitReceipt(db, after, answer).db.receipts,
                                               CommitReceipt(db, after, answer).result.value))
  {
    hide CommandInv, CommandEvolves, Receipts.Consistent, Receipts.Extends;
    Unchanged(db);
    if answer.Ok? {
      var db2 := after.(receipts := answer.value.table);
      forall i | i in db2.commands ensures EvidenceDecides(db2, i) { assert EvidenceDecides(after, i); }
      forall v | v in db2.evidence ensures Anchored(db2, db2.evidence[v]) { assert Anchored(after, after.evidence[v]); }
    }
  }

  /** What the Gateway's mapping guarantees about a decision: everything in it is about one
      attempt of one command, and a FAILED result carries no verification. */
  ghost predicate Coherent(d: ResultDecision) {
    && d.start.id == d.result.id && d.start.attempt == d.result.attempt
    && (d.verification.Some? ==> d.verification.value.row.commandId == d.result.id && d.result.outcome != OutcomeFailed)
  }

  lemma GoodTransitive(a: Db, b: Db, c: Db)
    requires Good(a, b) && Good(b, c)
    ensures Good(a, c)
  {
    hide CommandInv, EvidenceDecides, Anchored, Receipts.Consistent, Evolves;
    EvolvesTransitive(a, b, c);
  }

  /** Journaling, result and verification in sequence. */
  lemma DecisionKeeps(db: Db, d: ResultDecision, projected: bool, startedAt: int, validatedAt: int, expiredAt: int)
    requires DbInv(db) && Coherent(d)
    ensures var r := ApplyDecision(db, d, projected, startedAt, validatedAt, expiredAt);
            Good(db, r.db) && r.db.receipts == db.receipts
  {
    hide DbInv, Good, SameAttempts, MarkJournaled, AcceptResult, RecordVerification;
    Unchanged(db);
    var started := MarkJournaled(db, d.start, startedAt).db;
    JournalKeeps(db, d.start, startedAt);
    GoodInv(db, started);
    SubmitKeeps(started, d.result, validatedAt, expiredAt);
    var accepted := AcceptResult(started, d.result, validatedAt, expiredAt).db;
    GoodTransitive(db, started, accepted);
    if ApplyDecision(db, d, projected, startedAt, validatedAt, expiredAt).result.Ok? && d.verification.Some? {
      GoodInv(started, accepted);
      VerificationKeeps(accepted, d.verification.value, projected);
      GoodTransitive(db, accepted, RecordVerification(accepted, d.verification.value, projected).db);
    }
  }

  lemma GoodInv(db: Db, db': Db)
    requires Good(db, db')
    ensures DbInv(db')
  {
    hide DbInv, Evolves;
  }

  lemma ReceiptsOf(db: Db)
    requires DbInv(db)
    ensures Receipts.Consistent(db.receipts)
  {
    hide CommandInv, Receipts.Consistent;
  }

  /** A transaction that ends in a receipt keeps the invariant and answers its sender. */
  ghost predicate AnswersSender(db: Db, e: Envelope, r: Outcome<Receipt>) {
    && Good(db, r.db)
    && (r.result.Ok? ==> Receipts.Answers(db.receipts, e, Receipts.Answer(r.db.receipts, r.result.value)))
    && (r.result.Err? ==> r.db == db)
  }

  lemma LateResultKeeps(db: Db, id: CommandId, attempt: nat, facts: AttemptFacts)
    requires DbInv(db) && id in db.commands
    ensures var late := AppendAttemptEvent(db.commands[id], attempt, StaleResultRejected,
                                           "command_authority_not_current", facts);
            late.Ok? ==> Good(db, Put(db, id, late.value))
  {
    hide DbInv, Good, CommandInv, Effect, EvidenceDecides, AppendAttemptEvent;
    CommandOf(db, id);
    RejectionEffect(db.commands[id], attempt, "command_authority_not_current", facts);
    var late := AppendAttemptEvent(db.commands[id], attempt, StaleResultRejected, "command_authority_not_current",
                                   facts);
    if late.Ok? { PutKeeps(db, id, late.value); }
  }

  lemma AgentResultKeeps(db: Db, e: Envelope, max: int, d: ResultDecision, projected: bool,
                         startedAt: int, validatedAt: int, expiredAt: int)
    requires DbInv(db) && Coherent(d)
    ensures AnswersSender(db, e, AgentResult(db, e, max, d, projected, startedAt, validatedAt, expiredAt))
  {
    hide DbInv, Good, Coherent, SameAttempts, ApplyDecision, AppendAttemptEvent, Receipts.Accept, Receipts.Record,
         Receipts.Answers;
    Unchanged(db);
    ReceiptsOf(db);
    if !e.Valid(max) || d.start.id == "" || d.start.id != d.result.id || e.correlationKey != d.result.id
       || e.sequence != d.result.attempt {
    } else if Receipts.Key(e) in db.receipts {
      Receipts.AcceptAnswers(db.receipts, None, e, max);
      ReceiptKeeps(db, db, e, Receipts.Accept(db.receipts, None, e));
    } else if d.result.id in db.commands && SessionOf(db, db.commands[d.result.id].identity.host).Some? {
      var c := db.commands[d.result.id];
      var session := SessionOf(db, c.identity.host).value;
      if c.state != Leased && c.state != Executing {
        var facts := LateFacts(d.result.resultId, e.sessionGeneration);
        LateResultKeeps(db, d.result.id, d.result.attempt, facts);
        var late := AppendAttemptEvent(c, d.result.attempt, StaleResultRejected, "command_authority_not_current",
                                       facts);
        if late.Ok? {
          Receipts.RecordAnswers(db.receipts, e, session.generation, Stale);
          ReceiptKeeps(db, Put(db, d.result.id, late.value), e,
                       Receipts.Record(db.receipts, e, session.generation, Stale));
        }
      } else {
        DecisionKeeps(db, d, projected, startedAt, validatedAt, expiredAt);
        Receipts.AcceptAnswers(db.receipts, Some(session), e, max);
        var after := ApplyDecision(db, d, projected, startedAt, validatedAt, expiredAt).db;
        ReceiptKeeps(db, after, e, Receipts.Accept(db.receipts, Some(session), e));
      }
    }
  }

  lemma AgentObservationKeeps(db: Db, e: Envelope, max: int, d: ObservationDecision, projected: bool)
    requires DbInv(db)
    ensures AnswersSender(db, e, AgentObservation(db, e, max, d, projected))
  {
    hide DbInv, Good, SameAttempts, RecordVerification, Receipts.Accept, Receipts.Answers;
    Unchanged(db);
    ReceiptsOf(db);
    var v := d.verification.row;
    if !e.Valid(max) {
    } else if Receipts.Key(e) in db.receipts {
      Receipts.AcceptAnswers(db.receipts, None, e, max);
      ReceiptKeeps(db, db, e, Receipts.Accept(db.receipts, None, e));
    } else if v.commandId in db.commands && SessionOf(db, db.commands[v.commandId].identity.host).Some?
    && db.commands[v.commandId].state == Unknown {
      var session := db.hosts[db.commands[v.commandId].identity.host].session;
      VerificationKeeps(db, d.verification, projected);
      Receipts.AcceptAnswers(db.receipts, session, e, max);
      ReceiptKeeps(db, RecordVerification(db, d.verification, projected).db, e,
                   Receipts.Accept(db.receipts, session, e));
    }
  }
}
