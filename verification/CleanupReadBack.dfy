/** Under which claim a read-back was asked for.  Completion compares host, machine and
    verification of the executed command, and the command's payload carries no claim generation,
    so a read-back authorised under one claim can be recorded under a later one. */
module CleanupReadBack {
  import opened Common
  import opened Tables
  import opened Cleanup
  import opened CleanupRuns

  /** The step records a PRESENT observation. */
  ghost predicate RecordsPresent(before: Db, now: Time, step: Step) {
    && step.DoComplete? && step.observation.finding == Present
    && Complete(At(before, now), step.claim, step.observation, step.verification, step.eligible).Ok?
  }

  /** Its command has been authorised as a read-back under the claim it is completed with. */
  ghost predicate AskedFirst(before: Db, step: Step)
    requires step.DoComplete?
  {
    (step.claim.op, step.claim.generation, step.observation.command) in before.readBacks
  }

  /** Only such a step adds a PRESENT row, and the row says whether it was asked for. */
  lemma PresentRowsAdded(before: Db, now: Time, step: Step, id: string)
    requires id !in before.rows && id in Next(before, now, step).rows
             && Next(before, now, step).rows[id].finding == Present
    ensures RecordsPresent(before, now, step)
    ensures Next(before, now, step).rows[id].asked <==> AskedFirst(before, step)
  {
    hide ReadBackAccepted, WellFormed;
  }

  lemma RecordedRow(before: Db, now: Time, step: Step)
    requires RecordsPresent(before, now, step)
    ensures var id := step.observation.evidenceId;
            && id !in before.rows && id in Next(before, now, step).rows
            && Next(before, now, step).rows[id].finding == Present
            && (Next(before, now, step).rows[id].asked <==> AskedFirst(before, step))
  {
    hide ReadBackAccepted, WellFormed;
  }

  ghost predicate AllAsked(db: Db) {
    forall id :: id in db.rows && db.rows[id].finding == Present ==> db.rows[id].asked
  }

  ghost predicate AskedFor(states: seq<Db>, steps: seq<(Time, Step)>, i: nat)
    requires i < |steps| && i < |states|
  {
    RecordsPresent(states[i], steps[i].0, steps[i].1) ==> AskedFirst(states[i], steps[i].1)
  }

  lemma {:induction false} AskedUpTo(states: seq<Db>, steps: seq<(Time, Step)>, n: nat)
    requires Run(states, steps) && n <= |steps| && forall i :: 0 <= i < n ==> AskedFor(states, steps, i)
    ensures AllAsked(states[n])
    decreases n
  {
    hide Next, RecordsPresent, AskedFirst, Evolves, Inv;
    if n > 0 {
      AskedUpTo(states, steps, n - 1);
      assert AskedFor(states, steps, n - 1);
      EveryRun(states, steps, n - 1, n);
      RowsStay(states[n - 1], states[n]);
      forall id | id in states[n].rows && states[n].rows[id].finding == Present ensures states[n].rows[id].asked {
        if id in states[n - 1].rows {
          GrowsAt(states[n - 1].rows, states[n].rows, id);
        } else {
          PresentRowsAdded(states[n - 1], steps[n - 1].0, steps[n - 1].1, id);
        }
      }
    }
  }

  lemma RowsStay(a: Db, b: Db)
    requires Evolves(a, b)
    ensures Grows(a.rows, b.rows)
  {
  }

  /** In every run: every PRESENT row was asked for under its own claim exactly when every
      completion that recorded one named a command authorised under the claim it presented. */
  lemma AlwaysAskedIff(states: seq<Db>, steps: seq<(Time, Step)>)
    requires Run(states, steps)
    ensures (forall j :: 0 <= j < |states| ==> AllAsked(states[j])) <==>
            (forall i :: 0 <= i < |steps| ==> AskedFor(states, steps, i))
  {
    hide Next, RecordsPresent, AskedFirst;
    if forall i :: 0 <= i < |steps| ==> AskedFor(states, steps, i) {
      forall j | 0 <= j < |states| ensures AllAsked(states[j]) { AskedUpTo(states, steps, j); }
    } else {
      var i :| 0 <= i < |steps| && !AskedFor(states, steps, i);
      RecordedRow(states[i], steps[i].0, steps[i].1);
      assert !AllAsked(states[i + 1]);
    }
  }

  /** What `asked` stands for: the read-back command is in the history under the row's own claim. */
  ghost predicate AskedInv(db: Db) {
    forall id :: id in db.rows && db.rows[id].asked ==>
        (db.rows[id].op, db.rows[id].claim, db.rows[id].command) in db.readBacks
  }

  lemma AskedStep(before: Db, now: Time, step: Step)
    requires AskedInv(before)
    ensures AskedInv(Next(before, now, step))
  {
    hide ReadBackAccepted, WellFormed;
  }

  lemma {:induction false} AskedRun(states: seq<Db>, steps: seq<(Time, Step)>, j: nat)
    requires Run(states, steps) && j < |states|
    ensures AskedInv(states[j])
    decreases j
  {
    hide Next;
    if j > 0 {
      AskedRun(states, steps, j - 1);
      AskedStep(states[j - 1], steps[j - 1].0, steps[j - 1].1);
    }
  }

  /** In such a run every UNDEFINE under a later claim follows a read-back that was both authorised
      and recorded under that same claim. */
  lemma UndefineWasAskedFor(states: seq<Db>, steps: seq<(Time, Step)>, j: nat, k: OpKey, g: nat, command: CommandId)
    requires Run(states, steps) && j < |states| && (k, g, command) in states[j].undefines
    requires forall i :: 0 <= i < |steps| ==> AskedFor(states, steps, i)
    ensures g == 1 || exists id :: && id in states[j].rows && AcceptedRow(states[j].rows[id], k, g)
                                   && (k, g, states[j].rows[id].command) in states[j].readBacks
  {
    UndefineNeedsReadBack(states, steps, j, k, g, command);
    AskedUpTo(states, steps, j);
    AskedRun(states, steps, j);
    hide Run, AskedFor;
    if g != 1 {
      var id :| id in states[j].rows && AcceptedRow(states[j].rows[id], k, g);
    }
  }

  // ----- the condition is needed --------------------------------------------------------------------

  lemma Extend(states: seq<Db>, steps: seq<(Time, Step)>, now: Time, step: Step)
    returns (states': seq<Db>, steps': seq<(Time, Step)>)
    requires Run(states, steps)
    ensures Run(states', steps') && |steps'| == |steps| + 1 && |states'| == |steps'| + 1
    ensures states'[|steps'|] == Next(states[|steps|], now, step)
  {
    hide Next;
    states', steps' := states + [Next(states[|steps|], now, step)], steps + [(now, step)];
  }

  /** The tables after `last` claims of one operation, each one microsecond long. */
  function ClaimedTo(k: OpKey, i: Identity, last: nat, commands: map<CommandId, Command>, rows: map<string, Row>,
                    readBacks: set<(OpKey, nat, CommandId)>): Db
    requires 1 <= last <= 3
  {
    var first, second, third :=
      Attempt("w1", ApplyAllowed, 1, 0), Attempt("w2", ReadBackFirst, 2, 1), Attempt("w3", ReadBackFirst, 3, 2);
    var attempts: map<(OpKey, nat), Attempt> :=
      if last == 1 then map[(k, 1) := first]
      else if last == 2 then map[(k, 1) := first, (k, 2) := second]
      else map[(k, 1) := first, (k, 2) := second, (k, 3) := third];
    Db(last - 1, map[k := Op(i, Claimed, Some(Holder(attempts[(k, last)].owner, last, last)), last)], attempts, rows,
       commands,
       map[(i.vm, i.materialization) := Projection(HPending, HBlocked, HNotRequired, HNotRequired, false)], {},
       readBacks)
  }

  lemma RegisterAndClaim(k: OpKey, i: Identity)
    requires k.0 != "" && k.1 != 0 && i.resource == LibvirtDomain
    ensures Next(Next(EMPTY, 0, DoRegisterDomain(k, i, 0, 0)), 0, DoClaim(k, "w1", 1, true)) ==
              ClaimedTo(k, i, 1, map[], map[], {})
  {
    var s := Next(EMPTY, 0, DoRegisterDomain(k, i, 0, 0));
    assert s.ops == map[k := Op(i, Pending, None, 0)];
  }

  lemma ClaimAgain(k: OpKey, i: Identity, last: nat, commands: map<CommandId, Command>,
                   readBacks: set<(OpKey, nat, CommandId)>)
    requires k.0 != "" && k.1 != 0 && 1 <= last <= 2
    ensures Next(ClaimedTo(k, i, last, commands, map[], readBacks), last,
                 DoClaim(k, if last == 1 then "w2" else "w3", 1, true)) ==
            ClaimedTo(k, i, last + 1, commands, map[], readBacks)
  {
  }

  lemma AskSecond(k: OpKey, i: Identity)
    requires k.0 != "" && i.resource == LibvirtDomain
    ensures Next(ClaimedTo(k, i, 2, map[], map[], {}), 1,
                 DoAuthorizeReadBack(Claim(k, 2, "w2", ReadBackFirst), "j", "r", true)) ==
            ClaimedTo(k, i, 2, map["r" := Command(ReadBack, "j", k, i)], map[], {(k, 2, "r")})
  {
  }

  function Defined(k: OpKey, i: Identity): Observation {
    Observation("e", k, 3, i, "r", 1, 1, Present, Some(true), Some(false), true, [])
  }

  lemma CompleteThird(k: OpKey, i: Identity)
    requires k.0 != "" && i.resource == LibvirtDomain
    ensures var commands := map["r" := Command(ReadBack, "j", k, i)];
            Next(ClaimedTo(k, i, 3, commands, map[], {(k, 2, "r")}), 2,
                 DoComplete(Claim(k, 3, "w3", ReadBackFirst), Defined(k, i), Some(VNotApplied), true)) ==
            ClaimedTo(k, i, 3, commands,
                     map["e" := Row(k, 3, 1, Present, true, false, true, ReadBack, "r", false, 2)], {(k, 2, "r")})
  {
  }

  lemma UndefineThird(k: OpKey, i: Identity)
    requires k.0 != "" && i.resource == LibvirtDomain
    ensures var s := ClaimedTo(k, i, 3, map["r" := Command(ReadBack, "j", k, i)],
                              map["e" := Row(k, 3, 1, Present, true, false, true, ReadBack, "r", false, 2)],
                              {(k, 2, "r")});
            var s' := Next(s, 2, DoAuthorize(Claim(k, 3, "w3", ReadBackFirst), "j", "u", true));
            (k, 3, "u") in s'.undefines && s'.readBacks == s.readBacks
  {
    var s := ClaimedTo(k, i, 3, map["r" := Command(ReadBack, "j", k, i)],
                      map["e" := Row(k, 3, 1, Present, true, false, true, ReadBack, "r", false, 2)], {(k, 2, "r")});
    assert "e" in s.rows && AcceptedRow(s.rows["e"], k, 3);
    assert ReadBackAccepted(s, Claim(k, 3, "w3", ReadBackFirst));
  }

  /** A run from the empty tables that authorises an UNDEFINE under claim 3 although no read-back
      was ever authorised under that claim. */
  lemma ReadBackAskedEarlier(k: OpKey, i: Identity) returns (states: seq<Db>, steps: seq<(Time, Step)>)
    requires k.0 != "" && k.1 != 0 && i.resource == LibvirtDomain
    ensures Run(states, steps)
    ensures var last := states[|steps|];
            (k, 3, "u") in last.undefines && forall c :: (k, 3, c) !in last.readBacks
  {
    var commands := map["r" := Command(ReadBack, "j", k, i)];
    RegisterAndClaim(k, i);
    ClaimAgain(k, i, 1, map[], {});
    AskSecond(k, i);
    ClaimAgain(k, i, 2, commands, {(k, 2, "r")});
    CompleteThird(k, i);
    UndefineThird(k, i);
    states, steps := [EMPTY], [];
    assert Run(states, steps);
    hide Run, Next, ClaimedTo;
    states, steps := Extend(states, steps, 0, DoRegisterDomain(k, i, 0, 0));
    states, steps := Extend(states, steps, 0, DoClaim(k, "w1", 1, true));
    states, steps := Extend(states, steps, 1, DoClaim(k, "w2", 1, true));
    states, steps := Extend(states, steps, 1, DoAuthorizeReadBack(Claim(k, 2, "w2", ReadBackFirst), "j", "r", true));
    states, steps := Extend(states, steps, 2, DoClaim(k, "w3", 1, true));
    states, steps := Extend(states, steps, 2,
                            DoComplete(Claim(k, 3, "w3", ReadBackFirst), Defined(k, i), Some(VNotApplied), true));
    states, steps := Extend(states, steps, 2, DoAuthorize(Claim(k, 3, "w3", ReadBackFirst), "j", "u", true));
    assert states[|steps|].readBacks == {(k, 2, "r")} by { ThirdReadBacks(k, i); }
  }

  lemma ThirdReadBacks(k: OpKey, i: Identity)
    ensures ClaimedTo(k, i, 3, map["r" := Command(ReadBack, "j", k, i)],
                     map["e" := Row(k, 3, 1, Present, true, false, true, ReadBack, "r", false, 2)],
                     {(k, 2, "r")}).readBacks == {(k, 2, "r")}
  {
  }
}
