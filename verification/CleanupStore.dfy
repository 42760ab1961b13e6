/** The cleanup tables as an object whose methods are the source's transactions. */
module CleanupStore {
  import opened Common
  import C = Cleanup
  import R = CleanupRuns

  class Store {
    var db: C.Db

    ghost predicate Valid()
      reads this
    {
      R.Inv(db)
    }

    constructor ()
      ensures Valid() && db == R.EMPTY
    {
      db := R.EMPTY;
      new;
      R.EmptyHolds();
    }

    method ClaimBackendCleanup(key: C.OpKey, owner: string, lease: int, eligible: bool)
      returns (r: Result<C.Claim, C.Error>)
      requires Valid()
      modifies this
      ensures Valid()
      ensures match C.ClaimCleanup(old(db), key, owner, lease, eligible)
              case Ok(g) => r == Ok(g.claim) && db == g.db
              case Err(e) => r == Err(e) && db == old(db)
    {
      hide R.Inv, R.Evolves;
      if C.ClaimCleanup(db, key, owner, lease, eligible).Ok? { R.ClaimKeeps(db, key, owner, lease, eligible); }
      if key.0 == "" || key.1 == 0 || owner == "" || lease <= 0 || lease > C.DAY { return Err(C.Stale); }
      if !eligible || key !in db.ops { return Err(C.Stale); }
      var op := db.ops[key];
      var expired := op.holder.Some? && op.holder.value.expires <= db.now;
      if op.state == C.Verified || op.state == C.BlockedOp || op.state == C.Conflicting || op.state == C.StaleOp
         || (op.state == C.Claimed && !expired) { return Err(C.Stale); }
      var mode := C.ApplyAllowed;
      if op.state != C.Pending { mode := C.ReadBackFirst; }
      var g := op.last + 1;
      if (key, g) in db.attempts { return Err(C.Constraint); }
      var expires := db.now + lease;
      db := db.(ops := db.ops[key := op.(state := C.Claimed, holder := Some(C.Holder(owner, g, expires)), last := g)]);
      db := db.(attempts := db.attempts[(key, g) := C.Attempt(owner, mode, expires, db.now)]);
      return Ok(C.Claim(key, g, owner, mode));
    }

    method AuthorizeBackendCleanupReadBackCommand(c: C.Claim, job: string, command: CommandId, eligible: bool)
      returns (error: Option<C.Error>)
      requires Valid()
      modifies this
      ensures Valid()
      ensures match C.AuthorizeReadBack(old(db), c, job, command, eligible)
              case Ok(after) => error == None && db == after
              case Err(e) => error == Some(e) && db == old(db)
    {
      hide R.Inv, R.Evolves;
      if C.AuthorizeReadBack(db, c, job, command, eligible).Ok? {
        R.AuthorizeReadBackKeeps(db, c, job, command, eligible);
      }
      if job == "" || command == "" || c.mode != C.ReadBackFirst || !eligible { return Some(C.Stale); }
      if !C.Holds(db, c) || db.ops[c.op].identity.resource != C.LibvirtDomain { return Some(C.Stale); }
      var row := C.Command(C.ReadBack, job, c.op, db.ops[c.op].identity);
      if command !in db.commands {
        db := db.(commands := db.commands[command := row]);
      } else if db.commands[command] != row {
        return Some(C.Stale);
      }
      db := db.(readBacks := db.readBacks + {(c.op, c.generation, command)});
      return None;
    }

    method AuthorizeBackendCleanupCommand(c: C.Claim, job: string, command: CommandId, eligible: bool)
      returns (error: Option<C.Error>)
      requires Valid()
      modifies this
      ensures Valid()
      ensures match C.Authorize(old(db), c, job, command, eligible)
              case Ok(after) => error == None && db == after
              case Err(e) => error == Some(e) && db == old(db)
    {
      hide R.Inv, R.Evolves;
      if C.Authorize(db, c, job, command, eligible).Ok? { R.AuthorizeKeeps(db, c, job, command, eligible); }
      if job == "" || command == "" || !eligible { return Some(C.Stale); }
      if !C.Holds(db, c) || db.ops[c.op].identity.resource != C.LibvirtDomain { return Some(C.Stale); }
      if c.mode == C.ReadBackFirst && !C.ReadBackAccepted(db, c) { return Some(C.Stale); }
      var row := C.Command(C.Undefine, job, c.op, db.ops[c.op].identity);
      if command !in db.commands {
        db := db.(commands := db.commands[command := row]);
      } else if db.commands[command] != row {
        return Some(C.Stale);
      }
      db := db.(undefines := db.undefines + {(c.op, c.generation, command)});
      return None;
    }

    method CompleteBackendCleanup(c: C.Claim, o: C.Observation, verification: Option<C.VerificationState>,
                                  eligible: bool)
      returns (error: Option<C.Error>)
      requires Valid()
      modifies this
      ensures Valid()
      ensures match C.Complete(old(db), c, o, verification, eligible)
              case Ok(after) => error == None && db == after
              case Err(e) => error == Some(e) && db == old(db)
    {
      hide R.Inv, R.Evolves, C.WellFormed, C.WithDomain;
      if C.Complete(db, c, o, verification, eligible).Ok? { R.CompleteKeeps(db, c, o, verification, eligible); }
      if !eligible || !C.Holds(db, c) { return Some(C.Stale); }
      var op := db.ops[c.op];
      if o.op != c.op || o.claim != c.generation || o.identity != op.identity || !C.WellFormed(o) {
        return Some(C.Stale);
      }
      if o.command !in db.commands || !C.SameMachine(db.commands[o.command], op.identity) { return Some(C.Stale); }
      if verification.None? || !C.Agrees(o.finding, verification.value) { return Some(C.Stale); }
      var kind := db.commands[o.command].kind;
      if kind == C.OtherKind { return Some(C.Stale); }
      if kind == C.ReadBack && c.mode != C.ReadBackFirst { return Some(C.Stale); }
      if kind == C.Undefine {
        if o.finding == C.Present { return Some(C.Stale); }
        if c.mode == C.ReadBackFirst && !C.ReadBackAccepted(db, c) { return Some(C.Stale); }
      }
      if o.evidenceId in db.rows { return Some(C.Constraint); }
      if exists id :: id in db.rows && db.rows[id].op == c.op && db.rows[id].claim == c.generation
                      && db.rows[id].generation == o.generation {
        return Some(C.Constraint);
      }
      assert C.WellFormed(o) ==> o.present.Some? && o.running.Some? by { Present(o); }
      db := db.(rows := db.rows[o.evidenceId := C.Row(c.op, c.generation, o.generation, o.finding, o.present.value,
                                                      o.running.value,
                                                      o.matches, kind, o.command,
                                                      (c.op, c.generation, o.command) in db.readBacks, db.now)]);
      if o.finding == C.Present { return None; }
      var state := C.DispatchUnknown;
      if o.finding == C.Absent {
        state := C.Verified;
      } else if o.finding == C.ConflictingBackend {
        state := C.Conflicting;
      }
      db := db.(ops := db.ops[c.op := op.(state := state, holder := None)]);
      var vm := (op.identity.vm, op.identity.materialization);
      if vm in db.projections {
        db := db.(projections := db.projections[vm := C.WithDomain(db.projections[vm], state)]);
      }
      return None;
    }
  }

  lemma Present(o: C.Observation)
    ensures C.WellFormed(o) ==> o.present.Some? && o.running.Some?
  {
  }
}
