/** What opening the journal over an unsynced directory can lead to, and exactly when it is
    harmless.  The journal's load reads the directory and does not sync it. */
module JournalOpen {
  import opened Common
  import opened D = Durable
  import opened J = Journal
  import opened JournalRuns

  // ----- what every run keeps ----------------------------------------------------------------------

  /** A record that Prepare and Complete would have let through. */
  predicate Formed(k: Key, r: Record) {
    && k.0 != "" && k.1 >= 1 && r.digest.Has64Characters() && r.target != ""
    && (r.result.Some? ==> Usable(r.result.value))
  }

  predicate Usable(x: Finding) { x.digest.Has64Characters() && !x.outcome.Unlisted? }

  ghost predicate AllFormed(m: Records) { forall k :: k in m ==> Formed(k, m[k]) }

  ghost predicate FormedInv(s: System) {
    && (s.records.None? ==> s.tasks == {})
    && (s.records.Some? ==> AllFormed(s.records.value))
    && AllFormed(s.disk.files)
    && (forall k :: k in s.disk.unsynced && s.disk.unsynced[k].Some? ==> Formed(k, s.disk.unsynced[k].value))
  }

  lemma FormedWritten(s: System, k: Key, r: Record, done: bool)
    requires FormedInv(s) && s.records.Some? && Formed(k, r)
    ensures var d := if done then s.disk.Written(k, r).Synced() else s.disk.Written(k, r);
            FormedInv(s.(disk := d, records := Some(if done then s.records.value[k := r] else s.records.value)))
  {
    hide Formed;
  }

  lemma FormedTasks(s: System, s': System)
    requires FormedInv(s) && s'.records == s.records && s'.disk == s.disk && (s'.records.None? ==> s'.tasks == {})
    ensures FormedInv(s')
  {
    hide Formed;
  }

  lemma FormedStep(s: System, step: Step)
    requires FormedInv(s)
    ensures FormedInv(Next(s, step))
  {
    var s' := Next(s, step);
    match step
    case Start(l, outcome) =>
      hide FormedInv;
      if s'.disk != s.disk || s'.records != s.records {
        FormedWritten(s, l.Key(), Record(l.digest, l.target, None), outcome == Done);
      }
      FormedTasks(s.(disk := s'.disk, records := s'.records), s');
    case Finish(t, outcome) =>
      if s'.disk != s.disk || s'.records != s.records {
        var k := t.lease.Key();
        assert Formed(k, s.records.value[k]);
        FormedWritten(s, k, s.records.value[k].(result := Some(t.stage.result)), outcome == Done);
      }
      hide FormedInv;
      FormedTasks(s.(disk := s'.disk, records := s'.records), s');
    case PowerLoss(back) => hide Formed;
    case _ => hide Formed;
  }

  lemma {:induction false} FormedRun(s: System, steps: seq<Step>)
    requires FormedInv(s)
    ensures FormedInv(RunOf(s, steps))
    decreases |steps|
  {
    hide FormedInv, Next;
    if steps != [] {
      FormedStep(s, steps[0]);
      FormedRun(Next(s, steps[0]), steps[1..]);
    }
  }

  // ----- runs in pieces ------------------------------------------------------------------------------

  lemma {:induction false} RunAppend(s: System, a: seq<Step>, b: seq<Step>)
    ensures RunOf(s, a + b) == RunOf(RunOf(s, a), b)
    decreases |a|
  {
    if a == [] {
      assert a + b == b;
    } else {
      assert (a + b)[0] == a[0] && (a + b)[1..] == a[1..] + b;
      RunAppend(Next(s, a[0]), a[1..], b);
    }
  }

  lemma {:induction false} OpensAppend(ok: Disk -> bool, s: System, a: seq<Step>, b: seq<Step>)
    requires Opens(ok, s, a) && Opens(ok, RunOf(s, a), b)
    ensures Opens(ok, s, a + b)
    decreases |a|
  {
    hide Next;
    if a == [] {
      assert a + b == b;
    } else {
      assert (a + b)[0] == a[0] && (a + b)[1..] == a[1..] + b;
      OpensAppend(ok, Next(s, a[0]), a[1..], b);
    }
  }

  lemma {:induction false} NoOpen(ok: Disk -> bool, s: System, steps: seq<Step>)
    requires forall i :: 0 <= i < |steps| ==> !steps[i].Open?
    ensures Opens(ok, s, steps)
    decreases |steps|
  {
    hide Next;
    if steps != [] { NoOpen(ok, Next(s, steps[0]), steps[1..]); }
  }

  lemma One(s: System, a: Step)
    ensures RunOf(s, [a]) == Next(s, a)
  {
    assert [a][1..] == [];
  }

  lemma Two(s: System, a: Step, b: Step)
    ensures RunOf(s, [a, b]) == Next(Next(s, a), b)
  {
    assert [a, b][1..] == [b];
    One(Next(s, a), b);
  }

  lemma Four(s: System, a: Step, b: Step, c: Step, d: Step)
    ensures RunOf(s, [a, b, c, d]) == Next(Next(Next(Next(s, a), b), c), d)
  {
    assert [a, b, c, d] == [a, b] + [c, d];
    RunAppend(s, [a, b], [c, d]);
    Two(s, a, b);
    Two(Next(Next(s, a), b), c, d);
  }

  /** A power loss followed by an Open. */
  lemma LossAndOpen(ok: Disk -> bool, s: System, back: set<Key>)
    requires ok(s.disk.Reverted(back))
    ensures var d := s.disk.Reverted(back);
            RunOf(s, [PowerLoss(back), Open]) == s.(records := Some(d.files), tasks := {}, disk := d)
            && Opens(ok, s, [PowerLoss(back), Open])
  {
    Two(s, PowerLoss(back), Open);
    var steps := [PowerLoss(back), Open];
    assert steps[1..] == [Open] && [Open][1..] == [];
    assert Opens(ok, Next(Next(s, PowerLoss(back)), Open), []);
    assert Opens(ok, Next(s, PowerLoss(back)), [Open]);
  }

  // ----- deliveries ------------------------------------------------------------------------------------

  predicate Sound(l: Lease) { l.command != "" && l.attempt >= 1 && l.digest.Has64Characters() && l.target != "" }

  /** One delivery from start to publication. */
  function Delivery(l: Lease, result: Finding): seq<Step> {
    [Start(l, Done), Execute(Task(l, Prepared), result), Finish(Task(l, Ran(result)), Done),
     Publish(Task(l, Recorded(result)))]
  }

  /** A delivery to an idle journal publishes its result, unless the journal holds another one or
      another command's record. */
  lemma Delivered(s: System, l: Lease, result: Finding)
    requires Sound(l) && Usable(result) && s.records.Some? && s.tasks == {}
    requires l.Key() in s.records.value ==>
               Known(s.records.value, l) && (s.records.value[l.Key()].result.Some? ==>
                                             s.records.value[l.Key()].result.value == result)
    ensures var s' := RunOf(s, Delivery(l, result));
            && s'.published == s.published + {(l.Key(), result)} && s'.tasks == {} && s'.records.Some?
            && (l.Key() in s.records.value && s.records.value[l.Key()].result.Some? ==> s'.disk == s.disk)
  {
    var k := l.Key();
    var s1 := Next(s, Start(l, Done));
    assert s1.tasks == {Task(l, Prepared)} && Known(s1.records.value, l);
    var s2 := Next(s1, Execute(Task(l, Prepared), result));
    assert s2.tasks == {Task(l, Ran(result))} && s2.records == s1.records && s2.disk == s1.disk;
    var s3 := Next(s2, Finish(Task(l, Ran(result)), Done));
    assert s3.tasks == {Task(l, Recorded(result))};
    var s4 := Next(s3, Publish(Task(l, Recorded(result))));
    assert s4.tasks == {};
    Four(s, Start(l, Done), Execute(Task(l, Prepared), result), Finish(Task(l, Ran(result)), Done),
         Publish(Task(l, Recorded(result))));
  }

  // ----- records: exactly when opening is harmless ------------------------------------------------------

  ghost predicate ExecutedIsRecorded(s: System) { forall l :: l in s.executed ==> OnDisk(s.disk, l) }

  /** Opened over a record that a power loss can take away, the journal lets that command execute
      without a durable record. */
  lemma UnfirmOpen(s: System) returns (l: Lease, rest: seq<Step>)
    requires FormedInv(s) && s.records.None? && !Firm(s.disk)
    ensures Opens(Firm, Next(s, Open), rest)
    ensures l in RunOf(Next(s, Open), rest).executed && !OnDisk(RunOf(Next(s, Open), rest).disk, l)
  {
    var k :| k in s.disk.unsynced && k in s.disk.files
        && !(s.disk.unsynced[k].Some? && s.disk.unsynced[k].value.SameCommand(s.disk.files[k]));
    l := LeaseOf(k, s.disk.files[k]);
    assert Formed(k, s.disk.files[k]);
    var x := Finding(Sha256(""), Unknown);
    rest := [Start(l, Done), Execute(Task(l, Prepared), x)];
    var s1 := Next(s, Open);
    NoOpen(Firm, s1, rest);
    Two(s1, Start(l, Done), Execute(Task(l, Prepared), x));
    var s2 := Next(s1, Start(l, Done));
    assert s2.tasks == s1.tasks + {Task(l, Prepared)} && s2.disk == s.disk;
  }

  /** Opening the journal is harmless to write-before-execute, whatever follows, exactly when the
      directory is firm about its records. */
  lemma WriteBeforeExecuteIff(prefix: seq<Step>)
    requires Opens(Firm, INITIAL, prefix) && RunOf(INITIAL, prefix).records.None?
    ensures var s := RunOf(INITIAL, prefix);
            Firm(s.disk) <==> forall rest :: Opens(Firm, Next(s, Open), rest) ==>
                ExecutedIsRecorded(RunOf(Next(s, Open), rest))
  {
    var s := RunOf(INITIAL, prefix);
    FormedRun(INITIAL, prefix);
    RecordRun(INITIAL, prefix);
    hide Firm, Next, RunOf, Opens, FormedInv;
    if Firm(s.disk) {
      RecordStep(s, Open);
      forall rest | Opens(Firm, Next(s, Open), rest) ensures ExecutedIsRecorded(RunOf(Next(s, Open), rest)) {
        RecordRun(Next(s, Open), rest);
      }
    } else {
      var l, rest := UnfirmOpen(s);
      assert !ExecutedIsRecorded(RunOf(Next(s, Open), rest));
    }
  }

  /** Write-before-execute fails from the empty journal: a Prepare that wrote its record and then
      failed to sync, a restart, and a replay that is answered without writing.  A power loss
      then removes the record of a command that ran. */
  lemma ExecutedWithoutRecord(l: Lease) returns (steps: seq<Step>)
    requires Sound(l)
    ensures var s := RunOf(INITIAL, steps);
            l in s.executed && !OnDisk(s.disk, l) && l.Key() !in Next(s, PowerLoss({l.Key()})).disk.files
  {
    var k, started := l.Key(), Record(l.digest, l.target, None);
    var x := Finding(Sha256(""), Unknown);
    var before, after := [Open, Start(l, Unsynced), Kill, Open], [Start(l, Done), Execute(Task(l, Prepared), x)];
    steps := before + after;
    RunAppend(INITIAL, before, after);
    Four(INITIAL, Open, Start(l, Unsynced), Kill, Open);
    var s1 := Next(INITIAL, Open);
    var s2 := Next(s1, Start(l, Unsynced));
    assert s2.disk == Disk(map[k := started], map[k := None]);
    var s4 := Next(Next(s2, Kill), Open);
    assert s4 == System(Some(map[k := started]), s2.disk, {}, {}, {});
    Two(s4, Start(l, Done), Execute(Task(l, Prepared), x));
    var s5 := Next(s4, Start(l, Done));
    assert s5.tasks == {Task(l, Prepared)} && s5.disk == s2.disk;
    assert RunOf(INITIAL, steps) == Next(s5, Execute(Task(l, Prepared), x));
  }

  // ----- results: exactly when opening is harmless -------------------------------------------------------

  ghost predicate PublishedAgree(s: System) {
    forall k, a, b :: (k, a) in s.published && (k, b) in s.published ==> a == b
  }

  /** Opened over a result that a power loss can take away or replace, the journal publishes that
      result, loses it, and publishes another one. */
  lemma UnsettledOpen(s: System) returns (k: Key, a: Finding, b: Finding, rest: seq<Step>)
    requires FormedInv(s) && s.records.None? && !Settled(s.disk)
    ensures Opens(Settled, Next(s, Open), rest)
    ensures a != b && (k, a) in RunOf(Next(s, Open), rest).published && (k, b) in RunOf(Next(s, Open), rest).published
  {
    k :| k in s.disk.unsynced && k in s.disk.files && s.disk.files[k].result.Some?
         && !(s.disk.unsynced[k].Some? && s.disk.unsynced[k].value.result == s.disk.files[k].result);
    assert Formed(k, s.disk.files[k]);
    var prior := s.disk.unsynced[k];
    if prior.Some? { assert Formed(k, prior.value); }
    a := s.disk.files[k].result.value;
    b := if prior.Some? && prior.value.result.Some? then prior.value.result.value
         else if a.outcome == Failed then a.(outcome := Unknown) else a.(outcome := Failed);
    var l := LeaseOf(k, s.disk.files[k]);
    var m := if prior.Some? then LeaseOf(k, prior.value) else l;
    var s1 := Next(s, Open);
    Delivered(s1, l, a);
    var s2 := RunOf(s1, Delivery(l, a));
    var lost := s2.disk.Reverted({k});
    LossAndOpen(Settled, s2, {k});
    var s3 := RunOf(s2, [PowerLoss({k}), Open]);
    assert s3.records.value == lost.files;
    assert k in lost.files <==> prior.Some?;
    Delivered(s3, m, b);
    rest := Delivery(l, a) + [PowerLoss({k}), Open] + Delivery(m, b);
    assert s3.published == s2.published && s2.published == s1.published + {(k, a)};
    NoOpenInDelivery(l, a);
    NoOpenInDelivery(m, b);
    hide Next, RunOf, Delivery, FormedInv, Opens, Settled;
    Stitch(s1, Delivery(l, a), [PowerLoss({k}), Open], Delivery(m, b));
    NoOpen(Settled, s1, Delivery(l, a));
    NoOpen(Settled, s3, Delivery(m, b));
    OpensAppend(Settled, s1, Delivery(l, a), [PowerLoss({k}), Open]);
    OpensAppend(Settled, s1, Delivery(l, a) + [PowerLoss({k}), Open], Delivery(m, b));
  }

  lemma NoOpenInDelivery(l: Lease, x: Finding)
    ensures forall i :: 0 <= i < |Delivery(l, x)| ==> !Delivery(l, x)[i].Open?
  {
  }

  lemma Stitch(s: System, a: seq<Step>, b: seq<Step>, c: seq<Step>)
    ensures RunOf(s, a + b) == RunOf(RunOf(s, a), b)
    ensures RunOf(s, a + b + c) == RunOf(RunOf(RunOf(s, a), b), c)
  {
    RunAppend(s, a, b);
    RunAppend(s, a + b, c);
  }

  /** Opening the journal is harmless to agreement, whatever follows, exactly when the directory is
      settled about its results. */
  lemma AgreementIff(prefix: seq<Step>)
    requires Opens(Settled, INITIAL, prefix) && RunOf(INITIAL, prefix).records.None?
    ensures var s := RunOf(INITIAL, prefix);
            Settled(s.disk) <==> forall rest :: Opens(Settled, Next(s, Open), rest) ==>
                PublishedAgree(RunOf(Next(s, Open), rest))
  {
    var s := RunOf(INITIAL, prefix);
    FormedRun(INITIAL, prefix);
    ResultRun(INITIAL, prefix);
    hide Settled, Next, RunOf, Opens, FormedInv;
    if Settled(s.disk) {
      ResultStep(s, Open);
      forall rest | Opens(Settled, Next(s, Open), rest) ensures PublishedAgree(RunOf(Next(s, Open), rest)) {
        ResultRun(Next(s, Open), rest);
        OnDiskAgree(RunOf(Next(s, Open), rest));
      }
    } else {
      var k, a, b, rest := UnsettledOpen(s);
      assert !PublishedAgree(RunOf(Next(s, Open), rest));
    }
  }

  lemma OnDiskAgree(s: System)
    requires ResultInv(s)
    ensures PublishedAgree(s)
  {
    forall k, a, b | (k, a) in s.published && (k, b) in s.published ensures a == b {
      assert ResultOnDisk(s.disk, k, a) && ResultOnDisk(s.disk, k, b);
    }
  }

  /** An unsettled directory is reachable, so published results do not agree in every run. */
  lemma PublishedCanDisagree(l: Lease, a: Finding) returns (steps: seq<Step>, k: Key, x: Finding, y: Finding)
    requires Sound(l) && Usable(a)
    ensures x != y && (k, x) in RunOf(INITIAL, steps).published && (k, y) in RunOf(INITIAL, steps).published
  {
    var key, started := l.Key(), Record(l.digest, l.target, None);
    var done := started.(result := Some(a));
    var first, second := [Open, Start(l, Done), Execute(Task(l, Prepared), a), Finish(Task(l, Ran(a)), Unsynced)],
        [Kill, Open];
    Four(INITIAL, Open, Start(l, Done), Execute(Task(l, Prepared), a), Finish(Task(l, Ran(a)), Unsynced));
    var s1 := Next(INITIAL, Open);
    var s2 := Next(s1, Start(l, Done));
    assert s2 == System(Some(map[key := started]), Disk(map[key := started], map[]), {Task(l, Prepared)}, {}, {});
    var s3 := Next(s2, Execute(Task(l, Prepared), a));
    assert s3.tasks == {Task(l, Ran(a))} && s3.disk == s2.disk && s3.records == s2.records;
    var s4 := Next(s3, Finish(Task(l, Ran(a)), Unsynced));
    assert s4.disk == Disk(map[key := done], map[key := Some(started)]);
    FormedRun(INITIAL, first + [Kill]);
    RunAppend(INITIAL, first, [Kill]);
    One(s4, Kill);
    var s5 := Next(s4, Kill);
    assert s5.records.None? && s5.disk == s4.disk;
    assert !Settled(s5.disk);
    var rest;
    k, x, y, rest := UnsettledOpen(s5);
    One(s5, Open);
    steps := first + [Kill] + ([Open] + rest);
    RunAppend(INITIAL, first + [Kill], [Open] + rest);
    RunAppend(s5, [Open], rest);
  }
}
