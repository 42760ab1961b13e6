/** The inductive invariant of the Command protocol and its preservation by every effect on
    one command. */
module ExecutionInvariant {
  import opened Common
  import opened Envelopes
  import opened Execution

  // ----- shape of one lease generation's log ----------------------------------------------

  /** Gap free from 1; GRANTED, optional STARTED, at most one end. */
  ghost predicate LeaseLogShape(log: LeaseLog) {
    && 1 <= |log| <= 3
    && log[0].kind == Granted
    && (forall i :: 0 <= i < |log| ==> log[i].sequence == i + 1)
    && (|log| == 2 ==> log[1].kind != Granted)
    && (|log| == 3 ==> log[1].kind == Started && log[2].kind.End?)
  }

  /** The lease state a reader of the append-only log would compute. */
  ghost function FoldLease(log: LeaseLog): LeaseState {
    if |log| == 0 then Active
    else match log[|log| - 1].kind
         case End(end) => Ended(end)
         case _ => FoldLease(log[..|log| - 1])
  }

  ghost predicate WasStarted(log: LeaseLog) {
    |log| >= 2 && log[1].kind == Started
  }

  ghost predicate Has(log: AttemptLog, kind: AttemptEventKind) {
    exists i :: 0 <= i < |log| && log[i].kind == kind
  }

  /** Gap free, with singleton facts, and saying the same story as the lease log. */
  ghost predicate AttemptLogShape(log: AttemptLog, lease: LeaseLog) {
    && |log| >= 1 && log[0].kind == AttemptLeased
    && (forall i :: 0 <= i < |log| ==> log[i].sequence == i + 1)
    && (forall i, j :: 0 <= i < j < |log| && log[i].kind == log[j].kind ==> log[i].kind == StaleResultRejected)
    && (Has(log, Journaled) <==> WasStarted(lease))
    && (Has(log, ResultAccepted) <==> FoldLease(lease) == Ended(Consumed))
    && (Has(log, AttemptUnknown) <==> FoldLease(lease) == Ended(Expired) || FoldLease(lease) == Ended(Fenced))
  }

  // ----- one command ------------------------------------------------------------------------

  ghost predicate InFlight(state: CommandState) { state == Leased || state == Executing }

  ghost predicate GrantsNumbered(c: Command) {
    && |c.grants| == c.attempt
    && (forall i :: 0 <= i < |c.grants| ==>
          c.grants[i].generation == i + 1 && c.grants[i].attempt == i + 1 && c.grants[i].host == c.identity.host)
  }

  ghost predicate LogsAgree(c: Command, n: nat) {
    && n in c.leaseLogs && n in c.attemptLogs && n in c.attempts
    && LeaseLogShape(c.leaseLogs[n])
    && AttemptLogShape(c.attemptLogs[n], c.leaseLogs[n])
    && c.attempts[n].leaseGeneration == n
    && (n in c.results <==> FoldLease(c.leaseLogs[n]) == Ended(Consumed))
    && (n < c.attempt ==> FoldLease(c.leaseLogs[n]) != Active)
  }

  ghost predicate RowsNumbered(c: Command) {
    && (forall n :: n in c.leaseLogs ==> 1 <= n <= c.attempt)
    && (forall n :: n in c.attemptLogs ==> 1 <= n <= c.attempt)
    && (forall n :: n in c.attempts ==> 1 <= n <= c.attempt)
    && (forall n :: n in c.results ==> 1 <= n <= c.attempt)
    && (forall n :: 1 <= n <= c.attempt ==> LogsAgree(c, n))
  }

  ghost predicate LeaseCurrent(c: Command)
    requires GrantsNumbered(c) && RowsNumbered(c)
  {
    && (c.lease.None? <==> c.attempt == 0)
    && (c.lease.Some? && c.attempt > 0 ==>
          && LogsAgree(c, c.attempt)
          && c.lease.value.grant == c.grants[|c.grants| - 1]
          && c.lease.value.state == FoldLease(c.leaseLogs[c.attempt])
          && (c.lease.value.state == Active <==> InFlight(c.state))
          && (c.lease.value.state == Active ==> (WasStarted(c.leaseLogs[c.attempt]) <==> c.state == Executing)))
  }

  ghost predicate StateSupported(c: Command) {
    && (c.state == Pending <==> c.attempt == 0)
    && (c.state == Verifying ==> c.attempt in c.results && c.results[c.attempt].outcome == OutcomeSucceeded)
    && (c.state == Failed <==> c.attempt in c.results && c.results[c.attempt].outcome == OutcomeFailed)
    && (forall n :: n in c.results ==> !c.results[n].outcome.UnsupportedOutcome?)
    && (forall n :: n in c.results && n < c.attempt ==> c.results[n].outcome != OutcomeFailed)
  }

  ghost predicate CommandInv(c: Command) {
    GrantsNumbered(c) && RowsNumbered(c) && LeaseCurrent(c) && StateSupported(c)
  }

  // ----- appending to numbered logs -----------------------------------------------------------

  lemma {:induction false} MaxOfNumbered(log: LeaseLog)
    requires forall i :: 0 <= i < |log| ==> log[i].sequence == i + 1
    ensures MaxSequence(log) == |log|
  {
    if |log| > 0 { MaxOfNumbered(log[..|log| - 1]); }
  }

  lemma {:induction false} MaxOfNumberedAttempt(log: AttemptLog)
    requires forall i :: 0 <= i < |log| ==> log[i].sequence == i + 1
    ensures MaxAttemptSequence(log) == |log|
  {
    if |log| > 0 { MaxOfNumberedAttempt(log[..|log| - 1]); }
  }

  lemma {:induction false} MaxOfNumberedGrants(grants: seq<Grant>)
    requires forall i :: 0 <= i < |grants| ==> grants[i].generation == i + 1
    ensures MaxGeneration(grants) == |grants|
  {
    if |grants| > 0 { MaxOfNumberedGrants(grants[..|grants| - 1]); }
  }

  lemma FoldShaped(log: LeaseLog)
    requires LeaseLogShape(log)
    ensures FoldLease(log) == match log[|log| - 1].kind case End(end) => Ended(end) case _ => Active
  {
    if |log| == 2 && log[1].kind == Started { assert log[..1][0] == log[0]; }
  }

  /** Ending an active lease keeps the shape of its log. */
  lemma EndLog(log: LeaseLog, event: LeaseEvent, end: LeaseEnd)
    requires LeaseLogShape(log) && FoldLease(log) == Active && event.sequence == |log| + 1 && event.kind == End(end)
    ensures LeaseLogShape(log + [event]) && FoldLease(log + [event]) == Ended(end)
    ensures WasStarted(log + [event]) <==> WasStarted(log)
  {
    FoldShaped(log);
    FoldShaped(log + [event]);
  }

  ghost predicate Numbered(log: AttemptLog) {
    forall i :: 0 <= i < |log| ==> log[i].sequence == i + 1
  }

  lemma HasAfterAppend(log: AttemptLog, event: AttemptEvent)
    ensures forall k :: Has(log + [event], k) <==> Has(log, k) || k == event.kind
  {
    var later := log + [event];
    assert later[|log|] == event;
    forall k | Has(log, k) ensures Has(later, k) {
      var i :| 0 <= i < |log| && log[i].kind == k;
      assert later[i].kind == k;
    }
  }

  /** A rejection changes nothing that the shape of an attempt's log depends on. */
  lemma RejectionShape(log: AttemptLog, lease: LeaseLog, event: AttemptEvent)
    requires AttemptLogShape(log, lease) && event.sequence == |log| + 1 && event.kind == StaleResultRejected
    ensures AttemptLogShape(log + [event], lease)
  {
    HasAfterAppend(log, event);
    hide Has, FoldLease, WasStarted;
  }

  /** The fact that a lease ended is appended once, after the lease log says so. */
  lemma EndShape(log: AttemptLog, lease: LeaseLog, lease': LeaseLog, event: AttemptEvent, end: LeaseEnd)
    requires AttemptLogShape(log, lease) && FoldLease(lease) == Active && FoldLease(lease') == Ended(end)
    requires WasStarted(lease) <==> WasStarted(lease')
    requires event.sequence == |log| + 1 && event.kind == if end == Consumed then ResultAccepted else AttemptUnknown
    ensures AttemptLogShape(log + [event], lease')
  {
    HasAfterAppend(log, event);
    assert !Has(log, event.kind);
  }

  /** A first event of its type is appended under the next sequence number. */
  lemma AppendLeaseFresh(c: Command, n: nat, kind: LeaseEventKind, facts: LeaseFacts)
    requires forall i :: 0 <= i < |LeaseLogOf(c, n)| ==>
               LeaseLogOf(c, n)[i].sequence == i + 1 && LeaseLogOf(c, n)[i].kind != kind
    ensures AppendLeaseEvent(c, n, kind, facts)
         == Ok(c.(leaseLogs := c.leaseLogs[n := LeaseLogOf(c, n) + [LeaseEvent(|LeaseLogOf(c, n)| + 1, kind, facts)]]))
  {
    MaxOfNumbered(LeaseLogOf(c, n));
  }

  lemma AppendAttemptFresh(c: Command, n: nat, kind: AttemptEventKind, reason: string, facts: AttemptFacts)
    requires n in c.attempts && Numbered(AttemptLogOf(c, n))
    requires kind == StaleResultRejected || !Has(AttemptLogOf(c, n), kind)
    ensures AppendAttemptEvent(c, n, kind, reason, facts)
         == Ok(c.(attemptLogs :=
                    c.attemptLogs[n := AttemptLogOf(c,
                                                    n) + [AttemptEvent(|AttemptLogOf(c, n)| + 1, kind, reason,
                                                          facts)]]))
  {
    MaxOfNumberedAttempt(AttemptLogOf(c, n));
  }

  /** Rewriting the rows of one attempt only needs that attempt checked again. */
  lemma RowsAfter(c: Command, c': Command, n: nat)
    requires RowsNumbered(c) && 1 <= n <= c.attempt
    requires c'.attempt == c.attempt && c'.attempts == c.attempts
    requires c'.leaseLogs == c.leaseLogs[n := LeaseLogOf(c', n)]
    requires c'.attemptLogs == c.attemptLogs[n := AttemptLogOf(c', n)]
    requires c'.results == c.results || (n in c'.results && c'.results == c.results[n := c'.results[n]])
    requires LogsAgree(c', n)
    ensures RowsNumbered(c')
  {
    forall m | 1 <= m <= c.attempt ensures LogsAgree(c', m) {
      if m != n { assert LogsAgree(c, m); }
    }
  }

  // ----- effects on one command ----------------------------------------------------------------

  ghost function AfterGrant(c: Command, g: Grant): Command {
    c.(state := Leased, attempt := g.attempt, lease := Some(Lease(g, Active)), grants := c.grants + [g],
       attempts := c.attempts[g.attempt := Attempt(g.generation, g.authorityGeneration, g.sessionGeneration)],
       leaseLogs := c.leaseLogs[g.generation :=
         [LeaseEvent(1, Granted, GrantFacts(g.attempt, g.authorityGeneration, g.sessionGeneration, g.expiresAt))]],
       attemptLogs := c.attemptLogs[g.attempt :=
         [AttemptEvent(1, AttemptLeased, "lease_granted", LeaseGenerationFacts(g.generation))]])
  }

  ghost predicate NextGrant(c: Command, g: Grant) {
    g.generation == MaxGeneration(c.grants) + 1 && g.attempt == c.attempt + 1 && g.host == c.identity.host
  }

  /** A new grant numbers itself one past everything granted before. */
  lemma GrantForm(c: Command, g: Grant)
    requires CommandInv(c) && NextGrant(c, g)
    ensures MaxGeneration(c.grants) == c.attempt
    ensures GrantLease(c, g) ==
              if g.sessionGeneration > 0 && g.expiresAt > g.notBefore then Ok(AfterGrant(c, g))
                  else Err(ConstraintViolation)
  {
    MaxOfNumberedGrants(c.grants);
    var n := g.attempt;
    if g.sessionGeneration > 0 && g.expiresAt > g.notBefore {
      assert n !in c.leaseLogs && n !in c.attemptLogs && n !in c.attempts;
      var leased := c.(
        state := Leased, attempt := n, lease := Some(Lease(g, Active)), grants := c.grants + [g],
        attempts := c.attempts[n := Attempt(n, g.authorityGeneration, g.sessionGeneration)]);
      var facts := GrantFacts(n, g.authorityGeneration, g.sessionGeneration, g.expiresAt);
      AppendLeaseFresh(leased, n, Granted, facts);
      assert [] + [LeaseEvent(1, Granted, facts)] == [LeaseEvent(1, Granted, facts)];
      var logged := AppendLeaseEvent(leased, n, Granted, facts).value;
      AppendAttemptFresh(logged, n, AttemptLeased, "lease_granted", LeaseGenerationFacts(n));
      var event := AttemptEvent(1, AttemptLeased, "lease_granted", LeaseGenerationFacts(n));
      assert [] + [event] == [event];
    }
  }

  lemma GrantRows(c: Command, g: Grant)
    requires CommandInv(c) && g.generation == g.attempt == c.attempt + 1 && !InFlight(c.state)
    ensures RowsNumbered(AfterGrant(c, g)) && FoldLease(LeaseLogOf(AfterGrant(c, g), g.attempt)) == Active
  {
    var c', n := AfterGrant(c, g), g.attempt;
    assert LogsAgree(c', n) by { FoldShaped(c'.leaseLogs[n]); }
    forall m | 1 <= m < n ensures LogsAgree(c', m) { assert LogsAgree(c, m); }
  }

  lemma GrantKeeps(c: Command, g: Grant)
    requires CommandInv(c) && NextGrant(c, g) && (c.state == Pending || c.state == Redispatchable)
    ensures CommandInv(AfterGrant(c, g))
  {
    MaxOfNumberedGrants(c.grants);
    GrantRows(c, g);
    hide RowsNumbered, AttemptLogShape;
  }

  ghost function AfterStart(c: Command, digest: Digest): Command {
    var n := c.attempt;
    var log := AttemptLogOf(c, n);
    c.(state := Executing,
       leaseLogs := c.leaseLogs[n := LeaseLogOf(c, n) + [LeaseEvent(2, Started, StartFacts(n))]],
       attemptLogs := c.attemptLogs[n := log + [AttemptEvent(|log| + 1, Journaled, "write_before_execute",
                                                             JournalFacts(digest))]])
  }

  /** Journaling starts a LEASED attempt; on an EXECUTING one it changes nothing. */
  lemma StartForm(c: Command, attempt: nat, digest: Digest)
    requires CommandInv(c) && CoversAttempt(c, attempt) && c.lease.value.state == Active
    ensures attempt == c.attempt && attempt !in c.results && InFlight(c.state)
    ensures c.state == Leased ==> StartAttempt(c, attempt, digest) == Ok(AfterStart(c, digest))
    ensures c.state == Executing && StartAttempt(c, attempt, digest).Ok? ==> StartAttempt(c, attempt, digest).value == c
  {
    assert LogsAgree(c, attempt);
    var lease := c.leaseLogs[attempt];
    FoldShaped(lease);
    if c.state == Leased {
      AppendAttemptFresh(c, attempt, Journaled, "write_before_execute", JournalFacts(digest));
      var journaled := AppendAttemptEvent(c, attempt, Journaled, "write_before_execute", JournalFacts(digest)).value;
      AppendLeaseFresh(journaled, attempt, Started, StartFacts(attempt));
    } else {
      assert lease[1].kind == Started;
      var log := c.attemptLogs[attempt];
      assert Has(log, Journaled);
    }
  }

  lemma StartKeeps(c: Command, digest: Digest)
    requires CommandInv(c) && c.state == Leased
    ensures CommandInv(AfterStart(c, digest))
  {
    var c', n := AfterStart(c, digest), c.attempt;
    assert LogsAgree(c, n);
    assert LogsAgree(c', n) && FoldLease(c'.leaseLogs[n]) == Active by {
      FoldShaped(c.leaseLogs[n]);
      FoldShaped(c'.leaseLogs[n]);
      HasAfterAppend(c.attemptLogs[n], c'.attemptLogs[n][|c.attemptLogs[n]|]);
    }
    RowsAfter(c, c', n);
  }

  ghost function AfterConsume(c: Command, row: ResultRow): Command
    requires c.lease.Some?
  {
    var n := c.attempt;
    var lease, log := LeaseLogOf(c, n), AttemptLogOf(c, n);
    c.(state := StateAfter(row.outcome),
       results := c.results[n := row],
       lease := Some(c.lease.value.(state := Ended(Consumed))),
       leaseLogs := c.leaseLogs[n := lease + [LeaseEvent(|lease| + 1, End(Consumed), ResultFacts(row.resultId))]],
       attemptLogs := c.attemptLogs[n := log + [AttemptEvent(|log| + 1, ResultAccepted, "result_durably_accepted",
         AcceptedFacts(row.resultId, row.digest, row.outcome))]])
  }

  /** What an active lease says about the rows of its attempt. */
  lemma ActiveFacts(c: Command)
    requires CommandInv(c) && c.lease.Some? && c.lease.value.state == Active
    ensures var n := c.attempt;
            && InFlight(c.state) && c.lease.value.grant.generation == n && c.lease.value.grant.attempt == n
            && n in c.attempts && n !in c.results && Numbered(AttemptLogOf(c, n))
            && !Has(AttemptLogOf(c, n), ResultAccepted) && !Has(AttemptLogOf(c, n), AttemptUnknown)
            && forall i :: 0 <= i < |LeaseLogOf(c, n)| ==>
                LeaseLogOf(c, n)[i].sequence == i + 1 && !LeaseLogOf(c, n)[i].kind.End?
  {
    assert LogsAgree(c, c.attempt);
    FoldShaped(c.leaseLogs[c.attempt]);
    hide Has;
  }

  /** Under an active lease a result is always recordable. */
  lemma ConsumeForm(c: Command, attempt: nat, row: ResultRow)
    requires CommandInv(c) && CoversAttempt(c, attempt) && c.lease.value.state == Active
    ensures attempt == c.attempt && attempt !in c.results && InFlight(c.state)
    ensures ConsumeLease(c, attempt, row) == Ok(AfterConsume(c, row))
  {
    hide CommandInv, Has, AppendAttemptEvent, AppendLeaseEvent;
    ActiveFacts(c);
    var stored := c.(results := c.results[attempt := row]);
    var facts := AcceptedFacts(row.resultId, row.digest, row.outcome);
    AppendAttemptFresh(stored, attempt, ResultAccepted, "result_durably_accepted", facts);
    var accepted := AppendAttemptEvent(stored, attempt, ResultAccepted, "result_durably_accepted", facts).value;
    assert LeaseLogOf(accepted, attempt) == LeaseLogOf(c, attempt);
    AppendLeaseFresh(accepted, attempt, End(Consumed), ResultFacts(row.resultId));
  }

  lemma ConsumeKeeps(c: Command, row: ResultRow)
    requires CommandInv(c) && InFlight(c.state) && !row.outcome.UnsupportedOutcome?
    ensures CommandInv(AfterConsume(c, row))
  {
    hide AttemptLogShape, LeaseLogShape, FoldLease, WasStarted;
    var c', n := AfterConsume(c, row), c.attempt;
    assert LogsAgree(c, n);
    EndLog(c.leaseLogs[n], c'.leaseLogs[n][|c.leaseLogs[n]|], Consumed);
    EndShape(c.attemptLogs[n], c.leaseLogs[n], c'.leaseLogs[n], c'.attemptLogs[n][|c.attemptLogs[n]|], Consumed);
    assert LogsAgree(c', n);
    RowsAfter(c, c', n);
  }

  ghost function AfterEnd(c: Command, end: LeaseEnd, reason: string): Command
    requires c.lease.Some?
  {
    var n := c.attempt;
    var lease, log := LeaseLogOf(c, n), AttemptLogOf(c, n);
    c.(state := Unknown,
       lease := Some(c.lease.value.(state := Ended(end))),
       leaseLogs := c.leaseLogs[n := lease + [LeaseEvent(|lease| + 1, End(end), ReasonFacts(reason))]],
       attemptLogs := c.attemptLogs[n := log + [AttemptEvent(|log| + 1, AttemptUnknown, reason,
                                                             LeaseGenerationFacts(n))]])
  }

  /** An active lease can always be expired or fenced. */
  lemma EndForm(c: Command, end: LeaseEnd, reason: string)
    requires CommandInv(c) && c.lease.Some? && c.lease.value.state == Active
    ensures EndUnknown(c, end, reason) == Ok(AfterEnd(c, end, reason)) && InFlight(c.state)
  {
    hide CommandInv, Has, AppendAttemptEvent, AppendLeaseEvent;
    ActiveFacts(c);
    var n := c.attempt;
    var ended := c.(lease := Some(c.lease.value.(state := Ended(end))));
    assert LeaseLogOf(ended, n) == LeaseLogOf(c, n);
    AppendLeaseFresh(ended, n, End(end), ReasonFacts(reason));
    var logged := AppendLeaseEvent(ended, n, End(end), ReasonFacts(reason)).value;
    AppendAttemptFresh(logged, n, AttemptUnknown, reason, LeaseGenerationFacts(n));
  }

  lemma EndKeeps(c: Command, end: LeaseEnd, reason: string)
    requires CommandInv(c) && InFlight(c.state) && end != Consumed
    ensures CommandInv(AfterEnd(c, end, reason))
  {
    hide AttemptLogShape, LeaseLogShape, FoldLease, WasStarted;
    var c', n := AfterEnd(c, end, reason), c.attempt;
    assert LogsAgree(c, n);
    EndLog(c.leaseLogs[n], c'.leaseLogs[n][|c.leaseLogs[n]|], end);
    EndShape(c.attemptLogs[n], c.leaseLogs[n], c'.leaseLogs[n], c'.attemptLogs[n][|c.attemptLogs[n]|], end);
    assert LogsAgree(c', n);
    RowsAfter(c, c', n);
  }

  ghost function AfterRejection(c: Command, attempt: nat, reason: string, facts: AttemptFacts): Command {
    var log := AttemptLogOf(c, attempt);
    c.(attemptLogs := c.attemptLogs[attempt := log + [AttemptEvent(|log| + 1, StaleResultRejected, reason, facts)]])
  }

  /** A rejection is recorded against any attempt that exists, and against no other. */
  lemma RejectionForm(c: Command, attempt: nat, reason: string, facts: AttemptFacts)
    requires CommandInv(c)
    ensures AppendAttemptEvent(c, attempt, StaleResultRejected, reason, facts) ==
              if 1 <= attempt <= c.attempt then Ok(AfterRejection(c, attempt, reason, facts))
                  else Err(ConstraintViolation)
  {
    if 1 <= attempt <= c.attempt {
      assert LogsAgree(c, attempt);
      AppendAttemptFresh(c, attempt, StaleResultRejected, reason, facts);
    }
  }

  lemma RejectionKeeps(c: Command, attempt: nat, reason: string, facts: AttemptFacts)
    requires CommandInv(c) && 1 <= attempt <= c.attempt
    ensures CommandInv(AfterRejection(c, attempt, reason, facts))
  {
    hide AttemptLogShape, LeaseLogShape, FoldLease, WasStarted;
    var c' := AfterRejection(c, attempt, reason, facts);
    assert LogsAgree(c, attempt);
    var log := c.attemptLogs[attempt];
    RejectionShape(log, c.leaseLogs[attempt], c'.attemptLogs[attempt][|log|]);
    assert LogsAgree(c', attempt);
    RowsAfter(c, c', attempt);
    assert LogsAgree(c', c.attempt);
  }

  /** Verification moves a command only among the states that no lease supports. */
  lemma VerdictKeeps(c: Command, next: CommandState)
    requires CommandInv(c) && (c.state == Verifying || c.state == Unknown)
    requires next == Succeeded || next == Redispatchable || next == Unknown
    ensures CommandInv(c.(state := next))
  {
    var c' := c.(state := next);
    forall m | 1 <= m <= c.attempt ensures LogsAgree(c', m) { assert LogsAgree(c, m); }
  }

  // ----- effects, summarised --------------------------------------------------------------------

  ghost predicate Terminal(state: CommandState) { state == Succeeded || state == Failed }

  /** Nothing recorded about a command is changed or lost, and SUCCEEDED and FAILED stay. */
  ghost predicate CommandEvolves(c: Command, c': Command) {
    && c'.identity == c.identity
    && c.grants <= c'.grants
    && (forall n :: n in c.leaseLogs ==> n in c'.leaseLogs && c.leaseLogs[n] <= c'.leaseLogs[n])
    && (forall n :: n in c.attemptLogs ==> n in c'.attemptLogs && c.attemptLogs[n] <= c'.attemptLogs[n])
    && (forall n :: n in c.results ==> n in c'.results && c'.results[n] == c.results[n])
    && c.attempt <= c'.attempt
    && (Terminal(c.state) ==> c'.state == c.state && c'.attempt == c.attempt)
  }

  /** The attempt is the same, and no verdict about it was given or withdrawn. */
  ghost predicate VerdictUntouched(c: Command, c': Command) {
    && c'.attempt == c.attempt
    && (c'.state == c.state || (InFlight(c.state) && c'.state != Succeeded && c'.state != Redispatchable))
  }

  ghost predicate Effect(c: Command, c': Command) {
    CommandInv(c') && CommandEvolves(c, c') && VerdictUntouched(c, c')
  }

  lemma GrantEvolves(c: Command, g: Grant)
    requires CommandInv(c) && NextGrant(c, g) && (c.state == Pending || c.state == Redispatchable)
    ensures CommandInv(AfterGrant(c, g)) && CommandEvolves(c, AfterGrant(c, g))
  {
    MaxOfNumberedGrants(c.grants);
    GrantKeeps(c, g);
  }

  lemma StartEffect(c: Command, attempt: nat, digest: Digest)
    requires CommandInv(c) && CoversAttempt(c, attempt) && c.lease.value.state == Active
    ensures var r := StartAttempt(c, attempt, digest); r.Ok? ==>
              Effect(c, r.value) && r.value.state == Executing && attempt !in r.value.results
  {
    hide CommandInv, StartAttempt, LeaseUsable;
    StartForm(c, attempt, digest);
    if c.state == Leased { StartKeeps(c, digest); }
  }

  lemma ConsumeEffect(c: Command, attempt: nat, row: ResultRow)
    requires CommandInv(c) && CoversAttempt(c, attempt) && c.lease.value.state == Active
    requires !row.outcome.UnsupportedOutcome?
    ensures var r := ConsumeLease(c, attempt, row);
            && r.Ok? && Effect(c, r.value) && r.value.state == StateAfter(row.outcome)
            && r.value.results == c.results[attempt := row] && attempt == c.attempt && attempt !in c.results
  {
    hide CommandInv, ConsumeLease;
    ConsumeForm(c, attempt, row);
    ConsumeKeeps(c, row);
  }

  lemma EndEffect(c: Command, end: LeaseEnd, reason: string)
    requires CommandInv(c) && c.lease.Some? && c.lease.value.state == Active && end != Consumed
    ensures var r := EndUnknown(c, end, reason); r == Ok(AfterEnd(c, end, reason)) && Effect(c, r.value)
    ensures InFlight(c.state)
  {
    hide CommandInv;
    EndForm(c, end, reason);
    EndKeeps(c, end, reason);
  }

  lemma RejectionEffect(c: Command, attempt: nat, reason: string, facts: AttemptFacts)
    requires CommandInv(c)
    ensures var r := AppendAttemptEvent(c, attempt, StaleResultRejected, reason, facts);
            && (r.Ok? <==> 1 <= attempt <= c.attempt)
            && (r.Ok? ==> Effect(c, r.value) && r.value == c.(attemptLogs := r.value.attemptLogs))
  {
    RejectionForm(c, attempt, reason, facts);
    if 1 <= attempt <= c.attempt { RejectionKeeps(c, attempt, reason, facts); }
  }

  lemma EffectTransitive(a: Command, b: Command, c: Command)
    requires Effect(a, b) && Effect(b, c)
    requires b.state == c.state
    ensures Effect(a, c)
  {
  }
}
