/** Exactly when a cleanup claim is granted and used, and what a completed observation makes of its
    operation. */
module CleanupOutcomes {
  import opened Common
  import opened Cleanup
  import opened CleanupRuns

  /** A domain operation is registered exactly once per key and incarnation.  It starts PENDING and never
      claimed, and the machine's first projection waits for what it has: the domain, the storage, any
      network and any device. */
  lemma RegisterDomainIff(db: Db, key: OpKey, i: Identity, networks: nat, devices: nat)
    ensures var r := RegisterDomain(db, key, i, networks, devices);
            var vm := (i.vm, i.materialization);
            && (r.Ok? <==>
                  && key.0 != "" && key.1 > 0 && i.resource == LibvirtDomain
                  && (key in db.ops ==> db.ops[key].identity == i))
            && (r.Ok? ==>
                  && r.value == db.(ops := r.value.ops, projections := r.value.projections)
                  && (key in db.ops ==> r.value.ops == db.ops)
                  && (key !in db.ops ==> r.value.ops == db.ops[key := Op(i, Pending, None, 0)])
                  && (vm in db.projections ==> r.value.projections == db.projections)
                  && (vm !in db.projections ==>
                        r.value.projections == db.projections[vm :=
                          Projection(HPending, HBlocked, if networks > 0 then HPending else HNotRequired,
                                     if devices > 0 then HBlocked else HNotRequired, false)]))
  {
  }

  /** An absent network is registered as VERIFIED at once, with the evidence of its absence and a claim
      that nobody holds; the machine's cleanup is complete with it exactly when the domain is VERIFIED
      and storage and devices are verified or not needed. */
  lemma RegisterNetworkIff(db: Db, key: OpKey, i: Identity, evidenceId: string)
    requires Inv(db)
    ensures var r := RegisterNetwork(db, key, i, evidenceId);
            && (r.Ok? <==>
                  && key.0 != "" && key.1 > 0 && i.resource == HostNetworkArtifact
                  && if key in db.ops then db.ops[key].identity == i && db.ops[key].state == Verified
                     else evidenceId !in db.rows)
            && (r.Ok? && key in db.ops ==> r.value == db)
            && (r.Ok? && key !in db.ops ==>
                  && r.value.ops == db.ops[key := Op(i, Verified, None, 1)] && evidenceId in r.value.rows
                  && r.value.rows == db.rows[evidenceId := r.value.rows[evidenceId]]
                  && var row, vm := r.value.rows[evidenceId], (i.vm, i.materialization);
                  && row.op == key && row.claim == 1 && row.finding == AlreadyAbsent && row.matches
                  && !row.present && !row.running && row.at == db.now
                  && (vm !in db.projections ==> r.value.projections == db.projections)
                  && (vm in db.projections ==>
                        var p := db.projections[vm];
                        r.value.projections == db.projections[vm := Projection(p.domain, p.storage, HVerified, p.pci,
                          p.domain == HVerified && {p.storage, p.pci} <= {HVerified, HNotRequired})]))
  {
    FirstClaimFree(db, key);
    hide Inv;
  }

  lemma FirstClaimFree(db: Db, key: OpKey)
    requires Inv(db)
    ensures key !in db.ops ==> (key, 1) !in db.attempts
  {
    hide HandoverInv, RowInv, UndefineInv, ProjectionInv, FinishInv;
  }

  /** A claim is granted exactly for a lease of up to a day, on an eligible operation that is PENDING,
      has an unknown dispatch, or is CLAIMED past its expiry.  It is the next generation, runs for
      the lease from now, and may apply directly only if the operation was never claimed. */
  lemma ClaimIff(db: Db, key: OpKey, owner: string, lease: int, eligible: bool)
    requires Inv(db)
    ensures var r := ClaimCleanup(db, key, owner, lease, eligible);
            && (r.Ok? <==>
                  && key.0 != "" && key.1 > 0 && owner != "" && 1 <= lease <= 86_400_000_000
                  && eligible && key in db.ops
                  && var op := db.ops[key];
                     || op.state == Pending || op.state == DispatchUnknown
                     || (op.state == Claimed && op.holder.Some? && op.holder.value.expires <= db.now))
            && (r.Ok? ==>
                  && key in db.ops
                  && var op, c := db.ops[key], r.value.claim;
                  && c.op == key && c.owner == owner && c.generation == op.last + 1
                  && c.mode == (if op.last == 0 then ApplyAllowed else ReadBackFirst)
                  && r.value.expires == db.now + lease
                  && r.value.db == db.(
                       ops := db.ops[key := Op(op.identity, Claimed, Some(Holder(owner, c.generation, db.now + lease)),
                                               c.generation)],
                       attempts := db.attempts[(key, c.generation) :=
                                                 Attempt(owner, c.mode, db.now + lease, db.now)]))
  {
    if key in db.ops { NextClaimFree(db, key); }
    hide Inv;
  }

  lemma NextClaimFree(db: Db, key: OpKey)
    requires Inv(db) && key in db.ops
    ensures (key, db.ops[key].last + 1) !in db.attempts && (db.ops[key].state == Pending <==> db.ops[key].last == 0)
    ensures db.ops[key].holder.Some? <==> db.ops[key].state == Claimed
  {
    hide HandoverInv, RowInv, UndefineInv, ProjectionInv, FinishInv;
  }

  /** A granted claim is held until it expires, not longer, and under no other owner or mode. */
  lemma GrantedIsHeld(db: Db, key: OpKey, owner: string, lease: int, eligible: bool, later: Time, mode: Mode,
                      other: string)
    requires ClaimCleanup(db, key, owner, lease, eligible).Ok? && db.now <= later
    ensures var g := ClaimCleanup(db, key, owner, lease, eligible).value;
            Holds(At(g.db, later), g.claim.(mode := mode, owner := other)) <==>
              later < db.now + lease && mode == g.claim.mode && other == owner
  {
  }

  /** Commands of an operation are placed once: a known identifier answers only for the same job, kind,
      operation and incarnation. */
  ghost predicate Placeable(db: Db, c: Claim, job: string, command: CommandId, kind: Kind) {
    && c.op in db.ops && db.ops[c.op].identity.resource == LibvirtDomain && job != "" && command != ""
    && (command in db.commands ==> db.commands[command] == Command(kind, job, c.op, db.ops[c.op].identity))
  }

  /** A read-back is authorised exactly under a held claim that has to read back first. */
  lemma AuthorizeReadBackIff(db: Db, c: Claim, job: string, command: CommandId, eligible: bool)
    ensures var r := AuthorizeReadBack(db, c, job, command, eligible);
            && (r.Ok? <==> eligible && Holds(db, c) && c.mode == ReadBackFirst
                           && Placeable(db, c, job, command, ReadBack))
            && (r.Ok? ==>
                  && c.op in db.ops
                  && r.value == db.(
                       commands := db.commands[command := Command(ReadBack, job, c.op, db.ops[c.op].identity)],
                       readBacks := db.readBacks + {(c.op, c.generation, command)}))
  {
    if command in db.commands { assert db.commands[command := db.commands[command]] == db.commands; }
  }

  /** An UNDEFINE is authorised exactly under a held claim that may apply, or one under which the exact
      domain was read back defined and not running. */
  lemma AuthorizeIff(db: Db, c: Claim, job: string, command: CommandId, eligible: bool)
    ensures var r := Authorize(db, c, job, command, eligible);
            && (r.Ok? <==>
                  && eligible && Holds(db, c) && Placeable(db, c, job, command, Undefine)
                  && (c.mode == ApplyAllowed
                      || exists id :: id in db.rows && db.rows[id].op == c.op && db.rows[id].claim == c.generation
                                      && db.rows[id].kind == ReadBack && db.rows[id].finding == Present
                                      && db.rows[id].present && !db.rows[id].running && db.rows[id].matches))
            && (r.Ok? ==>
                  && c.op in db.ops
                  && r.value == db.(
                       commands := db.commands[command := Command(Undefine, job, c.op, db.ops[c.op].identity)],
                       undefines := db.undefines + {(c.op, c.generation, command)}))
  {
    if command in db.commands { assert db.commands[command := db.commands[command]] == db.commands; }
    assert ReadBackAccepted(db, c) <==>
           exists id :: id in db.rows && db.rows[id].op == c.op && db.rows[id].claim == c.generation
                        && db.rows[id].kind == ReadBack && db.rows[id].finding == Present
                        && db.rows[id].present && !db.rows[id].running && db.rows[id].matches;
  }

  // ----- completion -----------------------------------------------------------------------------------

  /** The observation is about this claim and this incarnation, complete, and consistent with itself:
      absent means not there and not running, present means there and not running. */
  ghost predicate AboutClaim(db: Db, c: Claim, o: Observation) {
    && c.op in db.ops && o.op == c.op && o.claim == c.generation && o.identity == db.ops[c.op].identity
    && o.attempt >= 1 && o.generation >= 1 && (forall i :: 0 <= i < |o.digests| ==> o.digests[i].Has64Characters())
    && match o.finding
       case Absent => o.present == Some(false) && o.running == Some(false) && o.matches
       case Present => o.present == Some(true) && o.running == Some(false) && o.matches
       case UnknownBackend => o.present.Some? && o.running.Some?
       case ConflictingBackend => o.present.Some? && o.running.Some?
       case AlreadyAbsent => false
  }

  /** The verification evidence of the command says the same thing in its own words. */
  ghost predicate Confirmed(finding: Finding, verification: Option<VerificationState>) {
    || (finding == Absent && verification == Some(VMatched))
    || (finding == Present && verification == Some(VNotApplied))
    || (finding == UnknownBackend && verification == Some(VUnknown))
    || (finding == ConflictingBackend && verification == Some(VConflicting))
  }

  /** A command that this claim may have run: a read-back under a claim that reads back first, and an
      UNDEFINE that is allowed and cannot leave the domain present. */
  ghost predicate MayHaveRun(db: Db, c: Claim, o: Observation) {
    && c.op in db.ops && o.command in db.commands
    && db.commands[o.command].identity.host == db.ops[c.op].identity.host
    && db.commands[o.command].identity.vm == db.ops[c.op].identity.vm
    && match db.commands[o.command].kind
       case ReadBack => c.mode == ReadBackFirst
       case Undefine => o.finding != Present && (c.mode == ApplyAllowed || ReadBackAccepted(db, c))
       case OtherKind => false
  }

  /** An observation completes exactly under a held claim, about that claim and incarnation, confirmed by
      the verification of a command the claim may have run, and recorded for the first time. */
  lemma CompleteIff(db: Db, c: Claim, o: Observation, v: Option<VerificationState>, eligible: bool)
    ensures Complete(db, c, o, v, eligible).Ok? <==>
              && eligible && Holds(db, c) && AboutClaim(db, c, o) && Confirmed(o.finding, v) && MayHaveRun(db, c, o)
              && o.evidenceId !in db.rows
              && forall id :: id in db.rows && db.rows[id].op == c.op && db.rows[id].claim == c.generation ==>
                   db.rows[id].generation != o.generation
  {
    hide ReadBackAccepted;
    var about := && c.op in db.ops && o.op == c.op && o.claim == c.generation && o.identity == db.ops[c.op].identity
                 && WellFormed(o);
    assert about <==> AboutClaim(db, c, o);
    hide WellFormed, AboutClaim;
  }

  /** Absence makes the operation VERIFIED, a contradiction CONFLICTING, an unknown answer
      DISPATCH_UNKNOWN, and each gives the claim back; a present domain leaves the operation and the
      claim as they are.  The row says what was observed, and no other operation changes. */
  lemma CompletedState(db: Db, c: Claim, o: Observation, v: Option<VerificationState>, eligible: bool)
    requires Complete(db, c, o, v, eligible).Ok?
    ensures var db' := Complete(db, c, o, v, eligible).value;
            && c.op in db.ops && c.op in db'.ops && o.identity == db.ops[c.op].identity
            && (o.finding == Absent ==> db'.ops[c.op] == db.ops[c.op].(state := Verified, holder := None))
            && (o.finding == ConflictingBackend ==>
                  db'.ops[c.op] == db.ops[c.op].(state := Conflicting, holder := None))
            && (o.finding == UnknownBackend ==>
                  db'.ops[c.op] == db.ops[c.op].(state := DispatchUnknown, holder := None))
            && (o.finding == Present ==> db'.ops[c.op] == db.ops[c.op] && db'.projections == db.projections)
            && (forall k :: k in db.ops && k != c.op ==> k in db'.ops && db'.ops[k] == db.ops[k])
            && o.evidenceId in db'.rows
            && var row := db'.rows[o.evidenceId];
            && row.op == c.op && row.claim == c.generation && row.generation == o.generation
            && row.finding == o.finding && Some(row.present) == o.present && Some(row.running) == o.running
            && row.matches == o.matches && row.command == o.command && row.at == db.now
            && db'.rows == db.rows[o.evidenceId := row]
            && db'.commands == db.commands && db'.undefines == db.undefines && db'.attempts == db.attempts
  {
    hide ReadBackAccepted;
  }

  /** The machine's projection follows: its domain is VERIFIED, CONFLICTING or UNKNOWN with the
      operation, and the cleanup is complete exactly when every part is verified or not needed. */
  lemma CompletedProjection(db: Db, c: Claim, o: Observation, v: Option<VerificationState>, eligible: bool)
    requires Complete(db, c, o, v, eligible).Ok? && o.finding != Present
    ensures c.op in db.ops
    ensures var db', vm := Complete(db, c, o, v, eligible).value,
                           (db.ops[c.op].identity.vm, db.ops[c.op].identity.materialization);
            && (vm !in db.projections ==> db'.projections == db.projections)
            && (vm in db.projections ==>
                  && vm in db'.projections
                  && var p, p' := db.projections[vm], db'.projections[vm];
                  && db'.projections == db.projections[vm := p']
                  && p' == p.(domain := p'.domain, complete := p'.complete)
                  && (o.finding == Absent <==> p'.domain == HVerified)
                  && (o.finding == ConflictingBackend <==> p'.domain == HConflicting)
                  && (o.finding == UnknownBackend <==> p'.domain == HUnknown)
                  && (p'.complete <==>
                        o.finding == Absent
                        && {p.storage, p.network, p.pci} <= {HVerified, HNotRequired}))
  {
    hide ReadBackAccepted, MayHaveRun;
  }
}
