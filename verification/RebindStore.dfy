/** The binding tables as an object whose methods are the source's transactions. */
module RebindStore {
  import opened Common
  import B = Rebind
  import R = RebindRuns

  class Store {
    var db: B.Db

    ghost predicate Valid()
      reads this
    {
      R.Inv(db)
    }

    constructor ()
      ensures Valid() && db == R.EMPTY
    {
      db := R.EMPTY;
      new;
      R.EmptyHolds();
    }

    method RecordVMAvailabilityBinding(w: B.Workload, admission: string, allocation: string, resolution: string,
                                       inputDigest: string,
                                       policy: B.Policy, row: Option<B.PolicyRow>) returns (error: Option<B.Error>)
      requires Valid()
      modifies this
      ensures Valid()
      ensures match B.Bind(old(db), w, admission, allocation, resolution, inputDigest, policy, row)
              case Ok(after) => error == None && db == after
              case Err(e) => error == Some(e) && db == old(db)
    {
      hide R.Inv, R.Evolves;
      if B.Bind(db, w, admission, allocation, resolution, inputDigest, policy, row).Ok? {
        R.BindKeeps(db, w, admission, allocation, resolution, inputDigest, policy, row);
      }
      if row.None? { return Some(B.NotFound); }
      var b := B.Binding(w, 1, admission, allocation, policy, row.value.responsibility, row.value.action,
                         B.FinalAdmission(resolution, inputDigest));
      if (w, 1) !in db.bindings {
        db := db.(bindings := db.bindings[(w, 1) := b]);
      } else if db.bindings[(w, 1)] != b {
        return Some(B.Conflict);
      }
      if w !in db.current { db := db.(current := db.current[w := B.Head(1, B.DigestOf(b))]); }
      return None;
    }

    method RecordVMAvailabilityRebindRequest(r: B.Request, row: Option<B.PolicyRow>) returns (error: Option<B.Error>)
      requires Valid()
      modifies this
      ensures Valid()
      ensures match B.Record(old(db), r, row)
              case Ok(after) => error == None && db == after
              case Err(e) => error == Some(e) && db == old(db)
    {
      hide R.Inv, R.Evolves;
      if B.Record(db, r, row).Ok? { R.RecordKeeps(db, r, row); }
      if !B.RequestComplete(r) { return Some(B.Unauthorized); }
      if r.rebind in db.requests {
        return if db.requests[r.rebind] == r then None else Some(B.Conflict);
      }
      if r.workload !in db.current { return Some(B.StaleSource); }
      var head := db.current[r.workload];
      if head.revision != r.expectedRevision || head.digest != r.sourceDigest { return Some(B.StaleSource); }
      if row.None? { return Some(B.StaleTarget); }
      if !row.value.active { return Some(B.NotActive); }
      db := db.(requests := db.requests[r.rebind := r]);
      return None;
    }

    method DecideVMAvailabilityRebind(rebind: string, decidedBy: string, row: Option<B.PolicyRow>, placed: bool)
      returns (result: Result<B.Binding, B.Error>)
      requires Valid()
      modifies this
      ensures Valid()
      ensures match B.Decide(old(db), rebind, decidedBy, row, placed)
              case Ok(d) => result == Ok(d.binding) && db == d.db
              case Err(e) => result == Err(e) && db == old(db)
    {
      hide R.Inv, R.Evolves;
      if B.Decide(db, rebind, decidedBy, row, placed).Ok? { R.DecideKeeps(db, rebind, decidedBy, row, placed); }
      if rebind == "" || decidedBy == "" { return Err(B.Unauthorized); }
      if rebind in db.decisions {
        var known := db.decisions[rebind];
        if (known.workload, known.targetRevision) !in db.bindings { return Err(B.NotFound); }
        return Ok(db.bindings[(known.workload, known.targetRevision)]);
      }
      if rebind !in db.requests { return Err(B.NotFound); }
      var r := db.requests[rebind];
      var w := r.workload;
      if w !in db.current { return Err(B.StaleSource); }
      var head := db.current[w];
      if head.revision != r.expectedRevision || head.digest != r.sourceDigest { return Err(B.StaleSource); }
      if row.None? { return Err(B.StaleTarget); }
      if !row.value.active { return Err(B.NotActive); }
      if !B.Allowed(row.value.responsibility, row.value.action) { return Err(B.InvalidTarget); }
      var n := head.revision;
      if (w, n) !in db.bindings || B.DigestOf(db.bindings[(w, n)]) != head.digest { return Err(B.StaleSource); }
      if !placed { return Err(B.Conflict); }
      if (w, n + 1) in db.bindings { return Err(B.Constraint); }
      var source := db.bindings[(w, n)];
      var b := B.Binding(w, n + 1, source.admission, source.allocation, r.target, row.value.responsibility,
                         row.value.action,
                         B.ExplicitRebind(n, head.digest, rebind));
      db := db.(decisions := db.decisions[rebind := B.Decision(w, n, head.digest, n + 1, r.target, decidedBy)]);
      db := db.(bindings := db.bindings[(w, n + 1) := b]);
      db := db.(current := db.current[w := B.Head(n + 1, B.DigestOf(b))]);
      return Ok(b);
    }
  }
}
