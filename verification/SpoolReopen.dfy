/** When the spool can be opened again.  Enqueue holds its limits against the loaded entries;
    load holds them against the directory, where an Enqueue that failed may have left a file. */
module SpoolReopen {
  import opened Common
  import opened Envelopes
  import opened Spool
  import opened D = Durable
  import opened SpoolDelivery
  import Receipts

  /** Open would load the directory, now and after any power loss. */
  ghost predicate Reopens(c: Config, d: Disk) {
    forall back :: Loadable(c, d.Reverted(back).files)
  }

  /** The most that a power loss can leave: what the directory shows, and every removal undone. */
  function Most(d: Disk): Files {
    map id | id in d.files.Keys + d.unsynced.Keys && (id in d.files || d.unsynced[id].Some?)
      :: if id in d.files then d.files[id] else d.unsynced[id].value
  }

  /** Only removals can be undone into a file, and what was removed is still loaded. */
  ghost predicate Tidy(memory: Option<Memory>, d: Disk) {
    forall id :: id in d.unsynced && d.unsynced[id].Some? ==>
        id !in d.files && (memory.Some? ==> id in memory.value.entries)
  }

  lemma {:induction false} PartFits(c: Config, part: Files, cap: Files)
    requires Loadable(c, cap) && (forall id :: id in part ==> id in cap && cap[id] == part[id])
    ensures Loadable(c, part)
    decreases |cap|
  {
    if part != cap {
      assert !(cap.Keys <= part.Keys);
      var id :| id in cap && id !in part;
      BytesWithout(c.size, cap, id);
      assert Loadable(c, cap - {id});
      PartFits(c, part, cap - {id});
    }
  }

  lemma ReopensIff(c: Config, memory: Option<Memory>, d: Disk)
    requires Tidy(memory, d)
    ensures Reopens(c, d) <==> Loadable(c, Most(d))
  {
    hide Loadable;
    var removed := set id | id in d.unsynced && id !in d.files;
    assert d.Reverted(removed).files == Most(d);
    if Loadable(c, Most(d)) {
      forall back ensures Loadable(c, d.Reverted(back).files) { PartFits(c, d.Reverted(back).files, Most(d)); }
    }
  }

  // ----- one Enqueue ---------------------------------------------------------------------------------

  ghost predicate HasRoom(c: Config, files: Files, e: Envelope) {
    |files| + 1 <= c.maxEntries && Bytes(c.size, files) + c.size(e) <= c.maxBytes
  }

  lemma OneMoreFits(c: Config, files: Files, e: Envelope)
    requires Loadable(c, files) && e.messageId !in files && FileFits(c, e.messageId, e)
    ensures Loadable(c, files[e.messageId := e]) <==> HasRoom(c, files, e)
  {
    hide FileFits, Bytes;
    AddOne(c, files, e);
  }

  /** An Enqueue that writes a file, whether it then succeeds or fails to sync, leaves a directory
      that loads exactly when the directory, not the loaded entries, had room for it. */
  lemma PutLoadsIff(c: Config, s: State, e: Envelope, outcome: Outcome)
    requires Loadable(c, s.disk.files) && Enqueue(c, s, e, outcome).1.disk.files != s.disk.files
    ensures Loadable(c, Enqueue(c, s, e, outcome).1.disk.files) <==> HasRoom(c, s.disk.files, e)
  {
    hide Enqueue, Loadable, HasRoom, FileFits, Bytes;
    EnqueueCases(c, s, e, outcome);
    OneMoreFits(c, s.disk.files, e);
  }

  /** The step writes a new file. */
  ghost predicate Writes(c: Config, s: System, step: Step) {
    step.Put? && s.memory.Some?
    && Enqueue(c, State(s.memory.value, s.disk), step.message, step.outcome).1.disk.files != s.disk.files
  }

  /** There is room in the directory, and if the write is not synced, also for removals that a
      power loss may undo. */
  ghost predicate Room(c: Config, d: Disk, e: Envelope, outcome: Outcome) {
    HasRoom(c, if outcome == Done then d.files else Most(d), e)
  }

  lemma PutReopensIff(c: Config, s: State, e: Envelope, outcome: Outcome)
    requires Tidy(Some(s.memory), s.disk) && Reopens(c, s.disk)
    ensures var after := Enqueue(c, s, e, outcome).1;
            && Tidy(Some(after.memory), after.disk)
            && (if after.disk.files != s.disk.files then Reopens(c, after.disk) <==>
                Room(c, s.disk, e, outcome) else after == s)
  {
    hide Enqueue, Room, FileFits, Bytes, SameMessage, Reopens, Tidy;
    EnqueueCases(c, s, e, outcome);
    var after := Enqueue(c, s, e, outcome).1;
    if after != s {
      if outcome == Done { SyncedFile(c, s, e); } else { UnsyncedFile(c, s, e); }
    }
  }

  lemma SyncedFile(c: Config, s: State, e: Envelope)
    requires Tidy(Some(s.memory), s.disk) && Reopens(c, s.disk) && FileFits(c, e.messageId, e)
             && e.messageId !in s.disk.files
    ensures var d := Disk(s.disk.files[e.messageId := e], map[]);
            && Tidy(Some(s.memory.(entries := s.memory.entries[e.messageId := e])), d)
            && (Reopens(c, d) <==> Room(c, s.disk, e, Done))
  {
    hide Loadable, HasRoom, FileFits, Reopens;
    ShownLoads(c, s.disk);
    SyncedReopensIff(c, s.disk.files[e.messageId := e]);
    OneMoreFits(c, s.disk.files, e);
  }

  lemma ShownLoads(c: Config, d: Disk)
    requires Reopens(c, d)
    ensures Loadable(c, d.files)
  {
    hide Loadable;
    assert d.Reverted({}).files == d.files;
  }

  lemma SyncedReopensIff(c: Config, files: Files)
    ensures Reopens(c, Disk(files, map[])) <==> Loadable(c, files)
  {
    hide Loadable;
    var d: Disk := Disk(files, map[]);
    forall back ensures d.Reverted(back).files == files {}
    assert Loadable(c, d.Reverted({}).files) <==> Loadable(c, files);
  }

  lemma UnsyncedFile(c: Config, s: State, e: Envelope)
    requires Tidy(Some(s.memory), s.disk) && Reopens(c, s.disk) && FileFits(c, e.messageId, e)
    requires e.messageId !in s.disk.files && e.messageId !in s.memory.entries
    ensures var d := s.disk.Written(e.messageId, e);
            Tidy(Some(s.memory), d) && (Reopens(c, d) <==> Room(c, s.disk, e, Unsynced))
  {
    hide Loadable, HasRoom, FileFits, Reopens;
    var d := s.disk.Written(e.messageId, e);
    ReopensIff(c, Some(s.memory), s.disk);
    ReopensIff(c, Some(s.memory), d);
    assert Most(d) == Most(s.disk)[e.messageId := e];
    OneMoreFits(c, Most(s.disk), e);
  }

  lemma AckReopens(c: Config, s: State, r: Receipt, outcome: Outcome)
    requires Tidy(Some(s.memory), s.disk) && Reopens(c, s.disk)
    ensures var after := Acknowledge(s, r, outcome).1; Tidy(Some(after.memory), after.disk) && Reopens(c, after.disk)
  {
    hide Acknowledge, Loadable, Reopens;
    AcknowledgeCases(s, r, outcome);
    var after := Acknowledge(s, r, outcome).1;
    if after != s {
      ReopensIff(c, Some(s.memory), s.disk);
      ReopensIff(c, Some(after.memory), after.disk);
      PartFits(c, Most(after.disk), Most(s.disk));
    }
  }

  // ----- runs -----------------------------------------------------------------------------------------

  /** From a state that reopens, a step leads to one that does not exactly when it writes a file
      for which there was no room. */
  lemma StepReopensIff(c: Config, s: System, step: Step)
    requires Tidy(s.memory, s.disk) && Reopens(c, s.disk) && Enabled(c, s, step)
    ensures var s' := Next(c, s, step);
            && Tidy(s'.memory, s'.disk)
            && (Reopens(c, s'.disk) <==> (Writes(c, s, step) ==> Room(c, s.disk, step.message, step.outcome)))
  {
    hide Receipts.Consistent, Receipts.Extends, Receipts.Answers, Loadable, Enqueue, Acknowledge, Room, Reopens;
    var s' := Next(c, s, step);
    match step
    case Put(e, outcome) => PutReopensIff(c, State(s.memory.value, s.disk), e, outcome);
    case Ack(r, outcome) => AckReopens(c, State(s.memory.value, s.disk), r, outcome);
    case PowerLoss(back) => LossReopens(c, s.disk, back);
    case Open(syncs) => SyncReopens(c, s.disk);
    case _ =>
  }

  lemma LossReopens(c: Config, d: Disk, back: set<MessageId>)
    requires Reopens(c, d)
    ensures Reopens(c, d.Reverted(back))
  {
    SyncedReopensIff(c, d.Reverted(back).files);
  }

  lemma SyncReopens(c: Config, d: Disk)
    requires Reopens(c, d)
    ensures Reopens(c, d.Synced())
  {
    ShownLoads(c, d);
    SyncedReopensIff(c, d.files);
  }

  lemma InitiallyReopens(c: Config, s: System)
    requires Initial(s) && c.maxEntries >= 0 && c.maxBytes >= 0
    ensures Tidy(s.memory, s.disk) && Reopens(c, s.disk)
  {
    forall back ensures Loadable(c, s.disk.Reverted(back).files) { assert s.disk.Reverted(back).files == map[]; }
  }

  ghost predicate HadRoom(c: Config, states: seq<System>, steps: seq<Step>, i: nat)
    requires i < |steps| && i < |states|
  {
    Writes(c, states[i], steps[i]) ==> Room(c, states[i].disk, steps[i].message, steps[i].outcome)
  }

  lemma {:induction false} ReopensUpTo(c: Config, states: seq<System>, steps: seq<Step>, n: nat)
    requires Run(c, states, steps) && c.maxEntries >= 0 && c.maxBytes >= 0 && n <= |steps|
    requires forall i :: 0 <= i < n ==> HadRoom(c, states, steps, i)
    ensures Tidy(states[n].memory, states[n].disk) && Reopens(c, states[n].disk)
    decreases n
  {
    hide Reopens, Tidy, Enabled, Next, Initial, Writes, Room;
    if n == 0 {
      InitiallyReopens(c, states[0]);
    } else {
      ReopensUpTo(c, states, steps, n - 1);
      assert HadRoom(c, states, steps, n - 1);
      StepReopensIff(c, states[n - 1], steps[n - 1]);
    }
  }

  /** In every run: the spool can be opened again in every state, whatever a power loss does,
      exactly when every Enqueue that wrote a file found room for it in the directory. */
  lemma AlwaysReopensIff(c: Config, states: seq<System>, steps: seq<Step>)
    requires Run(c, states, steps) && c.maxEntries >= 0 && c.maxBytes >= 0
    ensures (forall j :: 0 <= j < |states| ==> Reopens(c, states[j].disk)) <==>
            (forall i :: 0 <= i < |steps| ==> HadRoom(c, states, steps, i))
  {
    if forall i :: 0 <= i < |steps| ==> HadRoom(c, states, steps, i) {
      forall j | 0 <= j < |states| ensures Reopens(c, states[j].disk) { ReopensUpTo(c, states, steps, j); }
    } else {
      var n := FirstWithout(c, states, steps, 0);
      ReopensUpTo(c, states, steps, n);
      hide Reopens, Tidy, Next, Writes, Room;
      assert Enabled(c, states[n], steps[n]) && states[n + 1] == Next(c, states[n], steps[n]);
      StepReopensIff(c, states[n], steps[n]);
      assert !Reopens(c, states[n + 1].disk);
    }
  }

  lemma {:induction false} FirstWithout(c: Config, states: seq<System>, steps: seq<Step>, from: nat) returns (n: nat)
    requires |states| == |steps| + 1 && from <= |steps| && (forall i :: 0 <= i < from ==> HadRoom(c, states, steps, i))
    requires !forall i :: 0 <= i < |steps| ==> HadRoom(c, states, steps, i)
    ensures n < |steps| && !HadRoom(c, states, steps, n) && forall i :: 0 <= i < n ==> HadRoom(c, states, steps, i)
    decreases |steps| - from
  {
    hide HadRoom;
    if HadRoom(c, states, steps, from) { n := FirstWithout(c, states, steps, from + 1); } else { n := from; }
  }

  // ----- runs without an unsynced Enqueue ------------------------------------------------------------

  /** Everything the directory shows, or may show again after a power loss, is part of one
      collection `cap` that fits the limits; while the process runs, that is its entries. */
  ghost predicate Bounded(c: Config, memory: Option<Memory>, disk: Disk, cap: Files) {
    && Loadable(c, cap)
    && (forall id :: id in disk.files ==> id in cap && cap[id] == disk.files[id])
    && (forall id :: id in disk.unsynced && disk.unsynced[id].Some? ==> id in cap && cap[id] == disk.unsynced[id].value)
    && (memory.Some? ==> memory.value.entries == cap)
  }

  lemma PutBounded(c: Config, s: State, e: Envelope, outcome: Outcome, cap: Files) returns (cap': Files)
    requires Bounded(c, Some(s.memory), s.disk, cap) && outcome != Unsynced
    ensures var after := Enqueue(c, s, e, outcome).1; Bounded(c, Some(after.memory), after.disk, cap')
  {
    hide Bytes, Enqueue, FileFits, SameMessage, Loadable;
    EnqueueCases(c, s, e, outcome);
    cap' := Enqueue(c, s, e, outcome).1.memory.entries;
    if cap' != cap {
      OneMoreFits(c, cap, e);
      assert HasRoom(c, cap, e);
    }
  }

  lemma AckBounded(c: Config, s: State, r: Receipt, outcome: Outcome, cap: Files) returns (cap': Files)
    requires Bounded(c, Some(s.memory), s.disk, cap)
    ensures var after := Acknowledge(s, r, outcome).1; Bounded(c, Some(after.memory), after.disk, cap')
  {
    hide Loadable, Acknowledge;
    AcknowledgeCases(s, r, outcome);
    cap' := Acknowledge(s, r, outcome).1.memory.entries;
    PartFits(c, cap', cap);
  }

  /** As long as no Enqueue ended with its new file written but not known to be synced, the
      next Open finds a directory within the limits. */
  lemma StepBounded(c: Config, s: System, step: Step, cap: Files) returns (cap': Files)
    requires Bounded(c, s.memory, s.disk, cap) && Enabled(c, s, step) && !(step.Put? && step.outcome == Unsynced)
    ensures var s' := Next(c, s, step); Bounded(c, s'.memory, s'.disk, cap')
  {
    hide Receipts.Consistent, Receipts.Extends, Receipts.Answers, Loadable, Enqueue, Acknowledge;
    var s' := Next(c, s, step);
    cap' := cap;
    match step
    case Put(e, outcome) => cap' := PutBounded(c, State(s.memory.value, s.disk), e, outcome, cap);
    case Ack(r, outcome) =>
      cap' := AckBounded(c, State(s.memory.value, s.disk), r, outcome, cap);
    case Open(syncs) => if syncs { cap' := s.disk.files; }
    case _ =>
  }

  /** In particular, in every run without an Enqueue that ended unsynced, every state reopens. */
  lemma {:induction false} ReopenSucceeds(c: Config, states: seq<System>, steps: seq<Step>)
    requires Run(c, states, steps) && c.maxEntries >= 0 && c.maxBytes >= 0
    requires forall i :: 0 <= i < |steps| && steps[i].Put? ==> steps[i].outcome != Unsynced
    ensures Reopens(c, states[|steps|].disk)
  {
    var cap: Files := map[];
    assert Bounded(c, states[0].memory, states[0].disk, cap);
    hide Next, Enabled, Loadable, Bounded;
    for i := 0 to |steps|
      invariant Bounded(c, states[i].memory, states[i].disk, cap)
    {
      assert Enabled(c, states[i], steps[i]) && states[i + 1] == Next(c, states[i], steps[i]);
      cap := StepBounded(c, states[i], steps[i], cap);
    }
    BoundedReopens(c, states[|steps|], cap);
  }

  lemma BoundedReopens(c: Config, s: System, cap: Files)
    requires Bounded(c, s.memory, s.disk, cap)
    ensures Reopens(c, s.disk)
  {
    hide Loadable;
    forall back ensures Loadable(c, s.disk.Reverted(back).files) { PartFits(c, s.disk.Reverted(back).files, cap); }
  }

  // ----- the exception, for every limit ---------------------------------------------------------------

  /** The first n of some envelopes, as files. */
  function Filed(es: seq<Envelope>, n: nat): Files
    requires n <= |es|
  {
    if n == 0 then map[] else Filed(es, n - 1)[es[n - 1].messageId := es[n - 1]]
  }

  function Sizes(c: Config, es: seq<Envelope>, n: nat): nat
    requires n <= |es|
  {
    if n == 0 then 0 else Sizes(c, es, n - 1) + c.size(es[n - 1])
  }

  /** Different messages, each fit for the spool, and small enough together. */
  ghost predicate Batch(c: Config, es: seq<Envelope>) {
    && (forall i :: 0 <= i < |es| ==> FileFits(c, es[i].messageId, es[i]))
    && (forall i, j :: 0 <= i < j < |es| ==> es[i].messageId != es[j].messageId)
    && Sizes(c, es, |es|) <= c.maxBytes
  }

  lemma {:induction false} FiledCounts(c: Config, es: seq<Envelope>, n: nat)
    requires Batch(c, es) && n <= |es|
    ensures |Filed(es, n)| == n && Bytes(c.size, Filed(es, n)) == Sizes(c, es, n)
    ensures forall i :: n <= i < |es| ==> es[i].messageId !in Filed(es, n)
    decreases n
  {
    hide FileFits;
    if n > 0 {
      FiledCounts(c, es, n - 1);
      hide Bytes;
      AddOne(c, Filed(es, n - 1), es[n - 1]);
    }
  }

  lemma AddOne(c: Config, files: Files, e: Envelope)
    requires e.messageId !in files
    ensures |files[e.messageId := e]| == |files| + 1
    ensures Bytes(c.size, files[e.messageId := e]) == Bytes(c.size, files) + c.size(e)
  {
    hide Bytes;
    var more := files[e.messageId := e];
    BytesWithout(c.size, more, e.messageId);
    assert more - {e.messageId} == files;
  }

  lemma {:induction false} SizesGrow(c: Config, es: seq<Envelope>, n: nat, m: nat)
    requires n <= m <= |es|
    ensures Sizes(c, es, n) <= Sizes(c, es, m)
    decreases m
  {
    if n < m { SizesGrow(c, es, n, m - 1); }
  }

  /** The open spool after n successful Enqueues. */
  ghost function Holding(s: System, es: seq<Envelope>, n: nat): System
    requires n <= |es|
  {
    s.(memory := Some(Memory(Filed(es, n), false)), disk := Disk(Filed(es, n), map[]),
       promised := set i | 0 <= i < n :: es[i])
  }

  lemma PutOne(c: Config, s: System, es: seq<Envelope>, n: nat)
    requires Batch(c, es) && n < |es| && n < c.maxEntries
    ensures Next(c, Holding(s, es, n), Put(es[n], Done)) == Holding(s, es, n + 1)
  {
    FiledCounts(c, es, n);
    SizesGrow(c, es, n + 1, |es|);
    hide Bytes, Filed;
    assert Filed(es, n + 1) == Filed(es, n)[es[n].messageId := es[n]] by { FiledOne(es, n); }
    assert (set i | 0 <= i < n + 1 :: es[i]) == (set i | 0 <= i < n :: es[i]) + {es[n]};
  }

  lemma FiledOne(es: seq<Envelope>, n: nat)
    requires n < |es|
    ensures Filed(es, n + 1) == Filed(es, n)[es[n].messageId := es[n]]
  {
  }

  /** With one place left: an Enqueue that fails to sync, and one that then succeeds. */
  lemma OnePlaceLeft(c: Config, s: System, es: seq<Envelope>, n: nat)
    requires Batch(c, es) && |es| == n + 2 && c.maxEntries == n + 1
    ensures var s1 := Next(c, Holding(s, es, n), Put(es[n], Unsynced));
            var s2 := Next(c, s1, Put(es[n + 1], Done));
            && s1.memory == Holding(s, es, n).memory && s2.memory.Some?
            && es[n + 1] in s2.promised && |s2.disk.files| == c.maxEntries + 1
  {
    FiledCounts(c, es, n);
    SizesGrow(c, es, n + 1, |es|);
    hide Bytes, Filed;
    var s1 := Next(c, Holding(s, es, n), Put(es[n], Unsynced));
    assert s1.disk.files == Filed(es, n)[es[n].messageId := es[n]];
    assert Sizes(c, es, n) + c.size(es[n + 1]) <= c.maxBytes;
    var s2 := Next(c, s1, Put(es[n + 1], Done));
    assert s2.disk.files == s1.disk.files[es[n + 1].messageId := es[n + 1]];
    assert |s1.disk.files| == n + 1;
  }

  /** For every limit there is a run from the empty directory, with one Enqueue that fails after
      writing its file, whose last Enqueue succeeds and after which no Open loads. */
  lemma FailedPutCanBlockOpen(c: Config, s: System, es: seq<Envelope>) returns (states: seq<System>, steps: seq<Step>)
    requires Initial(s) && c.maxEntries >= 1 && c.maxBytes >= 1 && Batch(c, es) && |es| == c.maxEntries + 1
    ensures Run(c, states, steps) && states[0] == s
    ensures var last := states[|steps|];
            es[c.maxEntries] in last.promised && last.memory.None? && !Loadable(c, last.disk.files)
            && !Enabled(c, last, Open(true))
  {
    hide Run, Enabled, Next, Initial, Batch, Holding, Loadable;
    var n: nat := c.maxEntries - 1;
    states, steps := Fill(c, s, es, n);
    OnePlaceLeft(c, s, es, n);
    StillOpen(s, es, n);
    CanPut(c, Holding(s, es, n), es[n], Unsynced);
    states, steps := Extend(c, states, steps, Put(es[n], Unsynced));
    CanPut(c, states[|steps|], es[n + 1], Done);
    states, steps := Extend(c, states, steps, Put(es[n + 1], Done));
    Killed(c, states[|steps|]);
    states, steps := Extend(c, states, steps, Kill);
  }

  /** A run that opens the empty directory and stores n messages. */
  lemma {:induction false} Fill(c: Config, s: System, es: seq<Envelope>, n: nat)
    returns (states: seq<System>, steps: seq<Step>)
    requires Initial(s) && c.maxBytes >= 1 && Batch(c, es) && n <= |es| && n < c.maxEntries
    ensures Run(c, states, steps) && |states| == |steps| + 1 && states[0] == s && states[|steps|] == Holding(s, es, n)
    decreases n
  {
    hide Run, Enabled, Next, Initial, Batch, Holding;
    if n == 0 {
      OpenEmpty(c, s, es);
      NoSteps(c, s);
      states, steps := Extend(c, [s], [], Open(true));
    } else {
      states, steps := Fill(c, s, es, n - 1);
      PutOne(c, s, es, n - 1);
      StillOpen(s, es, n - 1);
      CanPut(c, Holding(s, es, n - 1), es[n - 1], Done);
      states, steps := Extend(c, states, steps, Put(es[n - 1], Done));
    }
  }

  lemma NoSteps(c: Config, s: System)
    requires Initial(s)
    ensures Run(c, [s], [])
  {
  }

  lemma CanPut(c: Config, s: System, e: Envelope, outcome: Outcome)
    requires s.memory.Some?
    ensures Enabled(c, s, Put(e, outcome))
  {
  }

  lemma OpenEmpty(c: Config, s: System, es: seq<Envelope>)
    requires Initial(s) && c.maxEntries >= 0 && c.maxBytes >= 0
    ensures Enabled(c, s, Open(true)) && Next(c, s, Open(true)) == Holding(s, es, 0)
  {
  }

  lemma StillOpen(s: System, es: seq<Envelope>, n: nat)
    requires n <= |es|
    ensures Holding(s, es, n).memory.Some?
  {
  }

  lemma Killed(c: Config, s: System)
    requires |s.disk.files| > c.maxEntries
    ensures Enabled(c, s, Kill)
    ensures var after := Next(c, s, Kill);
            after == s.(memory := None) && !Loadable(c, after.disk.files) && !Enabled(c, after, Open(true))
  {
  }

  lemma Extend(c: Config, states: seq<System>, steps: seq<Step>, step: Step)
    returns (states': seq<System>, steps': seq<Step>)
    requires Run(c, states, steps) && Enabled(c, states[|steps|], step)
    ensures Run(c, states', steps') && |steps'| == |steps| + 1 && |states'| == |steps'| + 1 && states'[0] == states[0]
    ensures states'[|steps'|] == Next(c, states[|steps|], step)
  {
    hide Enabled, Next, Initial;
    states', steps' := states + [Next(c, states[|steps|], step)], steps + [step];
  }
}
