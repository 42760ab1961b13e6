/** Execution behind the journal, under crashes, power loss and duplicate deliveries. */
module JournalRuns {
  import opened Common
  import opened D = Durable
  import opened J = Journal

  /** A delivery being handled: prepared, executed, or completed and ready to publish. */
  datatype Stage = Prepared | Ran(result: Finding) | Recorded(result: Finding)
  datatype Task = Task(lease: Lease, stage: Stage)

  /** `tasks` are the deliveries in progress; `executed` and `published` are history. */
  datatype System = System(
    records: Option<Records>, disk: Disk, tasks: set<Task>,
    executed: set<Lease>, published: set<(Key, Finding)>)

  datatype Step =
    | Open
    | Start(lease: Lease, outcome: Outcome)
    | Execute(task: Task, result: Finding)
    | Finish(task: Task, outcome: Outcome)
    | Publish(task: Task)
    | Verify(lease: Lease)
    | Kill
    | PowerLoss(back: set<Key>)

  predicate Enabled(s: System, step: Step) {
    match step
    case Open => s.records.None?
    case Start(l, outcome) => s.records.Some?
    case Execute(t, result) => t in s.tasks && t.stage == Prepared
    case Finish(t, outcome) => s.records.Some? && t in s.tasks && t.stage.Ran?
    case Publish(t) => t in s.tasks && t.stage.Recorded?
    case Verify(l) => s.records.Some?
    case Kill => true
    case PowerLoss(back) => true
  }

  /** One step; a step that is not enabled does nothing. */
  function Next(s: System, step: Step): System {
    if !Enabled(s, step) then s
    else match step
      case Open => s.(records := Some(s.disk.files))
      case Start(l, outcome) =>
        var (r, after) := Prepare(State(s.records.value, s.disk), l.Key(), l.digest, l.target, outcome);
        s.(records := Some(after.records), disk := after.disk, tasks := s.tasks + if r.Ok? then {Task(l, Prepared)}
           else {})
      case Execute(t, result) =>
        s.(tasks := s.tasks - {t} + {Task(t.lease, Ran(result))}, executed := s.executed + {t.lease})
      case Finish(t, outcome) =>
        var (r, after) := Complete(State(s.records.value, s.disk), t.lease.Key(), t.stage.result, outcome);
        s.(records := Some(after.records), disk := after.disk,
           tasks := s.tasks - {t} + if r.Ok? then {Task(t.lease, Recorded(t.stage.result))} else {})
      case Publish(t) => s.(tasks := s.tasks - {t}, published := s.published + {(t.lease.Key(), t.stage.result)})
      case Verify(l) => s
      case Kill => s.(records := None, tasks := {})
      case PowerLoss(back) => s.(records := None, tasks := {}, disk := s.disk.Reverted(back))
  }

  function RunOf(s: System, steps: seq<Step>): System
    decreases |steps|
  {
    if steps == [] then s else RunOf(Next(s, steps[0]), steps[1..])
  }

  /** Every journal that is opened finds a directory that meets `ok`. */
  predicate Opens(ok: Disk -> bool, s: System, steps: seq<Step>)
    decreases |steps|
  {
    steps == [] || ((steps[0].Open? && s.records.None? ==> ok(s.disk)) && Opens(ok, Next(s, steps[0]), steps[1..]))
  }

  /** No power loss can take away, or replace by another command's, a record the directory
      shows. */
  predicate Firm(d: Disk) {
    forall k :: k in d.unsynced && k in d.files ==> d.unsynced[k].Some? && d.unsynced[k].value.SameCommand(d.files[k])
  }

  /** No power loss can take away or replace a result the directory shows. */
  predicate Settled(d: Disk) {
    forall k :: k in d.unsynced && k in d.files && d.files[k].result.Some? ==>
      d.unsynced[k].Some? && d.unsynced[k].value.result == d.files[k].result
  }

  const INITIAL: System := System(None, Disk(map[], map[]), {}, {}, {})

  // ----- records -------------------------------------------------------------------------------------

  /** This command's record is in the directory, and no power loss can take its identity away. */
  ghost predicate OnDisk(d: Disk, l: Lease) {
    && l.Key() in d.files && d.files[l.Key()].digest == l.digest && d.files[l.Key()].target == l.target
    && (l.Key() in d.unsynced ==>
          && d.unsynced[l.Key()].Some? && d.unsynced[l.Key()].value.digest == l.digest
          && d.unsynced[l.Key()].value.target == l.target)
  }

  function LeaseOf(k: Key, r: Record): Lease { Lease(k.0, k.1, r.digest, r.target) }

  ghost predicate Known(records: Records, l: Lease) {
    l.Key() in records && records[l.Key()].digest == l.digest && records[l.Key()].target == l.target
  }

  /** Whatever is loaded, in progress or executed has its record on disk. */
  ghost predicate RecordInv(s: System) {
    && (s.records.None? ==> s.tasks == {})
    && (s.records.Some? ==>
          && (forall k :: k in s.records.value ==> OnDisk(s.disk, LeaseOf(k, s.records.value[k])))
          && (forall t :: t in s.tasks ==> Known(s.records.value, t.lease))
          && (forall l :: l in s.executed ==> Known(s.records.value, l)))
    && (forall l :: l in s.executed ==> OnDisk(s.disk, l))
  }

  lemma RecordWritten(s: System, k: Key, r: Record, done: bool)
    requires RecordInv(s) && s.records.Some?
    requires k in s.records.value ==> s.records.value[k].SameCommand(r)
    ensures var d := if done then s.disk.Written(k, r).Synced() else s.disk.Written(k, r);
            RecordInv(s.(disk := d, records := Some(if done then s.records.value[k := r] else s.records.value)))
  {
    var d := if done then s.disk.Written(k, r).Synced() else s.disk.Written(k, r);
    var records := if done then s.records.value[k := r] else s.records.value;
    forall l: Lease | OnDisk(s.disk, l)
    && (l.Key() == k ==> r.digest == l.digest && r.target == l.target) ensures OnDisk(d, l) {}
    if done { assert OnDisk(d, LeaseOf(k, r)); }
    hide OnDisk;
    forall j | j in records ensures OnDisk(d, LeaseOf(j, records[j])) {
      if j in s.records.value { assert OnDisk(s.disk, LeaseOf(j, s.records.value[j])); }
    }
    forall l | l in s.executed ensures Known(records, l) && OnDisk(d, l) { assert Known(s.records.value, l); }
  }

  lemma RecordTasks(s: System, tasks: set<Task>)
    requires RecordInv(s) && (s.records.None? ==> tasks == {})
    requires s.records.Some? ==> forall t :: t in tasks && t !in s.tasks ==> Known(s.records.value, t.lease)
    ensures RecordInv(s.(tasks := tasks))
  {
    hide OnDisk;
  }

  lemma RecordStart(s: System, l: Lease, outcome: Outcome)
    requires RecordInv(s) && s.records.Some?
    ensures RecordInv(Next(s, Start(l, outcome)))
  {
    hide RecordInv;
    var s' := Next(s, Start(l, outcome));
    var s1 := s.(records := s'.records, disk := s'.disk);
    if s1 != s { RecordWritten(s, l.Key(), Record(l.digest, l.target, None), outcome == Done); }
    RecordTasks(s1, s'.tasks);
  }

  lemma RecordFinish(s: System, t: Task, outcome: Outcome)
    requires RecordInv(s) && s.records.Some? && t in s.tasks && t.stage.Ran?
    ensures RecordInv(Next(s, Finish(t, outcome)))
  {
    hide OnDisk;
    assert Known(s.records.value, t.lease);
    hide RecordInv;
    var k := t.lease.Key();
    var s' := Next(s, Finish(t, outcome));
    var s1 := s.(records := s'.records, disk := s'.disk);
    if s1 != s { RecordWritten(s, k, s.records.value[k].(result := Some(t.stage.result)), outcome == Done); }
    RecordTasks(s1, s'.tasks);
  }

  lemma RecordStep(s: System, step: Step)
    requires RecordInv(s) && (step.Open? && s.records.None? ==> Firm(s.disk))
    ensures RecordInv(Next(s, step))
  {
    if Enabled(s, step) {
      match step
      case Start(l, outcome) => RecordStart(s, l, outcome);
      case Finish(t, outcome) => RecordFinish(s, t, outcome);
      case PowerLoss(back) =>
        forall l | OnDisk(s.disk, l) ensures OnDisk(s.disk.Reverted(back), l) {}
      case _ =>
    }
  }

  lemma {:induction false} RecordRun(s: System, steps: seq<Step>)
    requires RecordInv(s) && Opens(Firm, s, steps)
    ensures RecordInv(RunOf(s, steps))
    decreases |steps|
  {
    hide RecordInv, Next, Firm;
    if steps != [] {
      RecordStep(s, steps[0]);
      RecordRun(Next(s, steps[0]), steps[1..]);
    }
  }

  /** Every execution has, from before it runs and in every later state, a durable record of the
      same command, attempt, digest and target, as long as every journal was opened over a
      directory that is firm about its records. */
  lemma WriteBeforeExecute(steps: seq<Step>, l: Lease)
    requires Opens(Firm, INITIAL, steps)
    requires l in RunOf(INITIAL, steps).executed || Task(l, Prepared) in RunOf(INITIAL, steps).tasks
    ensures OnDisk(RunOf(INITIAL, steps).disk, l)
  {
    RecordRun(INITIAL, steps);
    var s := RunOf(INITIAL, steps);
    hide RunOf, Opens, OnDisk;
    if Task(l, Prepared) in s.tasks {
      assert Known(s.records.value, Task(l, Prepared).lease);
      assert OnDisk(s.disk, LeaseOf(l.Key(), s.records.value[l.Key()]));
    }
  }

  // ----- results -------------------------------------------------------------------------------------

  /** The result is in the directory, and no power loss can take it away. */
  ghost predicate ResultOnDisk(d: Disk, k: Key, result: Finding) {
    && k in d.files && d.files[k].result == Some(result)
    && (k in d.unsynced ==> d.unsynced[k].Some? && d.unsynced[k].value.result == Some(result))
  }

  ghost predicate Holds(records: Records, k: Key, result: Finding) { k in records && records[k].result == Some(result) }

  /** Whatever result is loaded, ready to publish or published is on disk. */
  ghost predicate ResultInv(s: System) {
    && (s.records.None? ==> s.tasks == {})
    && (s.records.Some? ==>
          && (forall k, x :: Holds(s.records.value, k, x) ==> ResultOnDisk(s.disk, k, x))
          && (forall t :: t in s.tasks && t.stage.Recorded? ==> Holds(s.records.value, t.lease.Key(), t.stage.result))
          && (forall p :: p in s.published ==> Holds(s.records.value, p.0, p.1)))
    && (forall p :: p in s.published ==> ResultOnDisk(s.disk, p.0, p.1))
  }

  lemma ResultWritten(s: System, k: Key, r: Record, done: bool)
    requires ResultInv(s) && s.records.Some?
    requires k in s.records.value ==> s.records.value[k].result.None?
    ensures var d := if done then s.disk.Written(k, r).Synced() else s.disk.Written(k, r);
            ResultInv(s.(disk := d, records := Some(if done then s.records.value[k := r] else s.records.value)))
  {
    var d := if done then s.disk.Written(k, r).Synced() else s.disk.Written(k, r);
    var records := if done then s.records.value[k := r] else s.records.value;
    forall j, x | j != k && ResultOnDisk(s.disk, j, x) ensures ResultOnDisk(d, j, x) {}
    if done && r.result.Some? { assert ResultOnDisk(d, k, r.result.value); }
    forall j, x | Holds(s.records.value, j, x) ensures j != k && Holds(records, j, x) {}
    forall j, x | Holds(records, j, x) ensures ResultOnDisk(d, j, x) {
      if j != k { assert Holds(s.records.value, j, x); }
    }
    hide ResultOnDisk, Holds;
  }

  lemma ResultTasks(s: System, tasks: set<Task>)
    requires ResultInv(s) && (s.records.None? ==> tasks == {})
    requires s.records.Some? ==>
               forall t :: t in tasks && t !in s.tasks && t.stage.Recorded? ==>
                   Holds(s.records.value, t.lease.Key(), t.stage.result)
    ensures ResultInv(s.(tasks := tasks))
  {
    hide ResultOnDisk, Holds;
  }

  lemma ResultStart(s: System, l: Lease, outcome: Outcome)
    requires ResultInv(s) && s.records.Some?
    ensures ResultInv(Next(s, Start(l, outcome)))
  {
    hide ResultInv;
    var s' := Next(s, Start(l, outcome));
    var s1 := s.(records := s'.records, disk := s'.disk);
    if s1 != s { ResultWritten(s, l.Key(), Record(l.digest, l.target, None), outcome == Done); }
    ResultTasks(s1, s'.tasks);
  }

  lemma ResultFinish(s: System, t: Task, outcome: Outcome)
    requires ResultInv(s) && s.records.Some? && t in s.tasks && t.stage.Ran?
    ensures ResultInv(Next(s, Finish(t, outcome)))
  {
    hide ResultInv;
    var k := t.lease.Key();
    var s' := Next(s, Finish(t, outcome));
    var s1 := s.(records := s'.records, disk := s'.disk);
    if s1 != s { ResultWritten(s, k, s.records.value[k].(result := Some(t.stage.result)), outcome == Done); }
    ResultTasks(s1, s'.tasks);
  }

  lemma ResultStep(s: System, step: Step)
    requires ResultInv(s) && (step.Open? && s.records.None? ==> Settled(s.disk))
    ensures ResultInv(Next(s, step))
  {
    if Enabled(s, step) {
      match step
      case Start(l, outcome) => ResultStart(s, l, outcome);
      case Finish(t, outcome) => ResultFinish(s, t, outcome);
      case PowerLoss(back) =>
        forall k, x | ResultOnDisk(s.disk, k, x) ensures ResultOnDisk(s.disk.Reverted(back), k, x) {}
      case _ =>
    }
  }

  lemma {:induction false} ResultRun(s: System, steps: seq<Step>)
    requires ResultInv(s) && Opens(Settled, s, steps)
    ensures ResultInv(RunOf(s, steps))
    decreases |steps|
  {
    hide ResultInv, Next, Settled;
    if steps != [] {
      ResultStep(s, steps[0]);
      ResultRun(Next(s, steps[0]), steps[1..]);
    }
  }

  /** Any two published results of one command attempt agree, as long as every journal was
      opened over a directory that is settled about its results. */
  lemma PublishedResultsAgree(steps: seq<Step>, k: Key, a: Finding, b: Finding)
    requires Opens(Settled, INITIAL, steps)
    requires (k, a) in RunOf(INITIAL, steps).published && (k, b) in RunOf(INITIAL, steps).published
    ensures a == b
  {
    ResultRun(INITIAL, steps);
    var s := RunOf(INITIAL, steps);
    hide RunOf, Opens;
    assert ResultOnDisk(s.disk, k, a) && ResultOnDisk(s.disk, k, b);
  }

  /** Only Start creates a record; verification in particular does not. */
  lemma OnlyStartCreates(s: System, step: Step, k: Key)
    requires s.records.Some? && k !in s.records.value && k !in s.disk.files
    requires (Next(s, step).records.Some? && k in Next(s, step).records.value) || k in Next(s, step).disk.files
    ensures (step.Start? && step.lease.Key() == k) || (step.PowerLoss? && k in s.disk.unsynced)
  {
  }
}
