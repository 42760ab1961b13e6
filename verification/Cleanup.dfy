/** Read-back-first cleanup claims (internal/persistence/postgres/backend_cleanup.go).
    Each function is one transaction at a database time. */
module Cleanup {
  import opened Common

  type OpKey = (string, nat)
  type Time = nat

  datatype Resource = LibvirtDomain | HostNetworkArtifact
  /** The exact incarnation that is to be cleaned up. */
  datatype Identity = Identity(resource: Resource, resourceId: string, resourceGeneration: nat, host: HostId,
                               vm: string, vmGeneration: nat, materialization: nat, planDigest: string,
                               backendDigest: string)

  datatype OpState = Pending | Claimed | DispatchUnknown | Verified | Conflicting | BlockedOp | StaleOp
  datatype Mode = ApplyAllowed | ReadBackFirst

  /** The claim columns, which are set exactly while the operation is CLAIMED. */
  datatype Holder = Holder(owner: string, generation: nat, expires: Time)
  datatype Op = Op(identity: Identity, state: OpState, holder: Option<Holder>, last: nat)

  datatype Attempt = Attempt(owner: string, mode: Mode, expires: Time, grantedAt: Time)

  datatype Finding = Absent | Present | UnknownBackend | ConflictingBackend | AlreadyAbsent
  datatype Kind = Undefine | ReadBack | OtherKind
  datatype Command = Command(kind: Kind, job: string, op: OpKey, identity: Identity)

  /** One row of observation evidence, with the kind of its command and its time.  `asked` is
      whether that command had been authorised, as a read-back, under the row's own claim. */
  datatype Row = Row(
    op: OpKey, claim: nat, generation: nat, finding: Finding, present: bool, running: bool, matches: bool,
    kind: Kind, command: CommandId, asked: bool, at: Time)

  datatype Hygiene = HPending | HVerified | HBlocked | HUnknown | HConflicting | HNotRequired
  datatype Projection = Projection(domain: Hygiene, storage: Hygiene, network: Hygiene, pci: Hygiene, complete: bool)

  /** `undefines` and `readBacks` are the history of authorised commands, with the claim generation
      each was authorised under. */
  datatype Db = Db(
    now: Time, ops: map<OpKey, Op>, attempts: map<(OpKey, nat), Attempt>, rows: map<string, Row>,
    commands: map<CommandId, Command>, projections: map<(string, nat), Projection>,
    undefines: set<(OpKey, nat, CommandId)>, readBacks: set<(OpKey, nat, CommandId)>)

  datatype Error = Stale | Constraint

  /** The claim a worker presents. */
  datatype Claim = Claim(op: OpKey, generation: nat, owner: string, mode: Mode)

  function At(db: Db, now: Time): Db { db.(now := if now > db.now then now else db.now) }

  // ----- registering operations -----------------------------------------------------------------

  function Settled(h: Hygiene): bool { h == HVerified || h == HNotRequired }

  /** CommitRecoverySourceDomainCleanup, once its authority is established. */
  function RegisterDomain(db: Db, key: OpKey, identity: Identity, networks: nat, devices: nat): Result<Db, Error> {
    if key.0 == "" || key.1 == 0 || identity.resource != LibvirtDomain then Err(Stale)
    else if key in db.ops && db.ops[key].identity != identity then Err(Stale)
    else
      var vm := (identity.vm, identity.materialization);
      var initial := Projection(HPending, HBlocked, if networks == 0 then HNotRequired else HPending,
                               if devices == 0 then HNotRequired else HBlocked, false);
      Ok(db.(ops := if key in db.ops then db.ops else db.ops[key := Op(identity, Pending, None, 0)],
             projections := if vm in db.projections then db.projections else db.projections[vm := initial]))
  }

  /** CommitRecoverySourceNetworkCleanup, once its authority is established: a verified operation
      that never dispatches anything. */
  function RegisterNetwork(db: Db, key: OpKey, identity: Identity, evidenceId: string): Result<Db, Error> {
    if key.0 == "" || key.1 == 0 || identity.resource != HostNetworkArtifact then Err(Stale)
    else if key in db.ops then
      if db.ops[key].identity != identity || db.ops[key].state != Verified then Err(Stale) else Ok(db)
    else if (key, 1) in db.attempts || evidenceId in db.rows then Err(Constraint)
    else
      var vm := (identity.vm, identity.materialization);
      Ok(db.(ops := db.ops[key := Op(identity, Verified, None, 1)],
             attempts := db.attempts[(key, 1) := Attempt("network-retirement-evidence-consumer", ReadBackFirst,
                                                         db.now + 60000000, db.now)],
             rows := db.rows[evidenceId := Row(key, 1, 1, AlreadyAbsent, false, false, true, OtherKind, "", false,
                                               db.now)],
             projections := if vm !in db.projections then db.projections
                            else var p := db.projections[vm].(network := HVerified);
                                 db.projections[vm := p.(complete := p.domain == HVerified && Settled(p.storage)
                                                         && Settled(p.pci))]))
  }

  // ----- claims ------------------------------------------------------------------------------------

  const DAY: nat := 24 * 3600 * 1000000

  datatype Granted = Granted(db: Db, claim: Claim, expires: Time)

  /** ClaimBackendCleanup; the lease is in microseconds. */
  function ClaimCleanup(db: Db, key: OpKey, owner: string, lease: int, eligible: bool): Result<Granted, Error> {
    if key.0 == "" || key.1 == 0 || owner == "" || lease <= 0 || lease > DAY then Err(Stale)
    else if !eligible || key !in db.ops then Err(Stale)
    else
      var op := db.ops[key];
      var expired := op.holder.Some? && op.holder.value.expires <= db.now;
      if op.state == Verified || op.state == BlockedOp || op.state == Conflicting || op.state == StaleOp
         || (op.state == Claimed && !expired) then Err(Stale)
      else
        var mode := if op.state == Pending then ApplyAllowed else ReadBackFirst;
        var g := op.last + 1;
        if (key, g) in db.attempts then Err(Constraint)
        else
          var expires := db.now + lease;
          Ok(Granted(db.(ops := db.ops[key := op.(state := Claimed, holder := Some(Holder(owner, g, expires)),
                                                  last := g)],
                         attempts := db.attempts[(key, g) := Attempt(owner, mode, expires, db.now)]),
                     Claim(key, g, owner, mode), expires))
  }

  /** The join that every later transaction makes: the presented claim is the current,
      unexpired one, and it carries the mode it was granted with. */
  predicate Holds(db: Db, c: Claim) {
    && c.op in db.ops && db.ops[c.op].state == Claimed && db.ops[c.op].holder.Some?
    && db.ops[c.op].holder.value.owner == c.owner && db.ops[c.op].holder.value.generation == c.generation
    && db.ops[c.op].holder.value.expires > db.now
    && (c.op, c.generation) in db.attempts && db.attempts[(c.op, c.generation)].mode == c.mode
  }

  /** A read-back under this very claim found the exact domain defined and not running. */
  predicate ReadBackAccepted(db: Db, c: Claim) {
    exists id :: id in db.rows && AcceptedRow(db.rows[id], c.op, c.generation)
  }

  predicate AcceptedRow(r: Row, op: OpKey, g: nat) {
    r.op == op && r.claim == g && r.finding == Present && r.present && !r.running && r.matches && r.kind == ReadBack
  }

  /** Insert the command unless it exists, then compare what is stored. */
  function Place(commands: map<CommandId, Command>, id: CommandId, command: Command): Option<map<CommandId, Command>> {
    if id !in commands then Some(commands[id := command])
    else if commands[id] == command then Some(commands) else None
  }

  /** AuthorizeBackendCleanupReadBackCommand. */
  function AuthorizeReadBack(db: Db, c: Claim, job: string, command: CommandId, eligible: bool): Result<Db, Error> {
    if job == "" || command == "" || c.mode != ReadBackFirst || !eligible then Err(Stale)
    else if !Holds(db, c) || db.ops[c.op].identity.resource != LibvirtDomain then Err(Stale)
    else
      match Place(db.commands, command, Command(ReadBack, job, c.op, db.ops[c.op].identity))
      case None => Err(Stale)
      case Some(commands) => Ok(db.(commands := commands, readBacks := db.readBacks + {(c.op, c.generation, command)}))
  }

  /** AuthorizeBackendCleanupCommand. */
  function Authorize(db: Db, c: Claim, job: string, command: CommandId, eligible: bool): Result<Db, Error> {
    if job == "" || command == "" || !eligible then Err(Stale)
    else if !Holds(db, c) || db.ops[c.op].identity.resource != LibvirtDomain then Err(Stale)
    else if c.mode == ReadBackFirst && !ReadBackAccepted(db, c) then Err(Stale)
    else
      match Place(db.commands, command, Command(Undefine, job, c.op, db.ops[c.op].identity))
      case None => Err(Stale)
      case Some(commands) => Ok(db.(commands := commands, undefines := db.undefines + {(c.op, c.generation, command)}))
  }

  // ----- completion ------------------------------------------------------------------------------

  datatype VerificationState = VMatched | VNotApplied | VUnknown | VConflicting

  datatype Observation = Observation(
    evidenceId: string, op: OpKey, claim: nat, identity: Identity, command: CommandId, attempt: int, generation: nat,
    finding: Finding, present: Option<bool>, running: Option<bool>, matches: bool, digests: seq<Digest>)

  predicate Agrees(f: Finding, v: VerificationState) {
    match f
    case Absent => v == VMatched
    case Present => v == VNotApplied
    case UnknownBackend => v == VUnknown
    case ConflictingBackend => v == VConflicting
    case AlreadyAbsent => false
  }

  /** The checks on the observation itself. */
  predicate WellFormed(o: Observation) {
    && o.attempt >= 1 && o.generation != 0 && (forall i :: 0 <= i < |o.digests| ==> o.digests[i].Has64Characters())
    && o.finding != AlreadyAbsent && o.present.Some? && o.running.Some?
    && (o.finding == Absent ==> !o.present.value && !o.running.value && o.matches)
    && (o.finding == Present ==> o.present.value && !o.running.value && o.matches)
  }

  /** The command that was executed is for the same host and machine; nothing ties it to an
      operation or a claim. */
  predicate SameMachine(c: Command, identity: Identity) {
    c.identity.host == identity.host && c.identity.vm == identity.vm
  }

  /** CompleteBackendCleanup; `verification` is the verification evidence found for the
      observation's command, attempt and digests. */
  function Complete(db: Db, c: Claim, o: Observation, verification: Option<VerificationState>,
                    eligible: bool): Result<Db, Error> {
    if !eligible || !Holds(db, c) then Err(Stale)
    else
      var op := db.ops[c.op];
      if o.op != c.op || o.claim != c.generation || o.identity != op.identity || !WellFormed(o) then Err(Stale)
      else if o.command !in db.commands || !SameMachine(db.commands[o.command], op.identity) || verification.None?
              || !Agrees(o.finding, verification.value) then Err(Stale)
      else
        var kind := db.commands[o.command].kind;
        if kind == OtherKind then Err(Stale)
        else if kind == ReadBack && c.mode != ReadBackFirst then Err(Stale)
        else if kind == Undefine && (o.finding == Present || (c.mode == ReadBackFirst && !ReadBackAccepted(db, c)))
            then Err(Stale)
        else if o.evidenceId in db.rows
                || (exists id :: id in db.rows && db.rows[id].op == c.op && db.rows[id].claim == c.generation
                                 && db.rows[id].generation == o.generation)
        then Err(Constraint)
        else
          var row := Row(c.op, c.generation, o.generation, o.finding, o.present.value, o.running.value, o.matches,
                         kind, o.command, (c.op, c.generation, o.command) in db.readBacks, db.now);
          var rows := db.rows[o.evidenceId := row];
          if o.finding == Present then Ok(db.(rows := rows))
          else
            var state := if o.finding == Absent then Verified else if o.finding == ConflictingBackend then Conflicting
                else DispatchUnknown;
            var vm := (op.identity.vm, op.identity.materialization);
            Ok(db.(rows := rows, ops := db.ops[c.op := op.(state := state, holder := None)],
                   projections := if vm in db.projections
                   then db.projections[vm := WithDomain(db.projections[vm], state)] else db.projections))
  }

  function WithDomain(p: Projection, state: OpState): Projection {
    var domain := if state == Verified then HVerified else if state == Conflicting then HConflicting else HUnknown;
    p.(domain := domain, complete := domain == HVerified && Settled(p.storage) && Settled(p.network) && Settled(p.pci))
  }
}
