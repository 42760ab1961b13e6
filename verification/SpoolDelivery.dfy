/** The spool and the Gateway's receipt table as one system, under crashes, power loss, lost,
    duplicated and reordered messages, and changes of session. */
module SpoolDelivery {
  import opened Common
  import opened Envelopes
  import opened Spool
  import opened D = Durable
  import Receipts

  /** `sent` and `emitted` hold everything that was ever put on the wire in either direction:
      loss is never delivering a member, duplication and reordering are delivering it again
      and later.  `promised` records the envelopes for which Enqueue returned nil. */
  datatype System = System(
    memory: Option<Memory>, disk: Disk,
    sent: set<Envelope>, table: Receipts.Table, emitted: set<Receipt>,
    promised: set<Envelope>)

  datatype Step =
    | Put(message: Envelope, outcome: Outcome)
    | Send(id: MessageId, generation: nat)
    | Deliver(message: Envelope, answer: Receipts.Answer, answered: bool)
    | OtherTraffic(table: Receipts.Table)
    | Ack(receipt: Receipt, outcome: Outcome)
    | Close
    | Kill
    | PowerLoss(back: set<MessageId>)
    | Open(syncs: bool)

  /** A step that the system may take.  Delivery is any Gateway transaction that answers a sent
      envelope, under whatever session is current at that time; the answer may be lost. */
  ghost predicate Enabled(c: Config, s: System, step: Step) {
    match step
    case Put(e, outcome) => s.memory.Some?
    case Send(id, generation) => s.memory.Some? && !s.memory.value.closed && id in s.memory.value.entries
    case Deliver(e, a, answered) => e in s.sent && Receipts.Answers(s.table, e, a)
    case OtherTraffic(table) => Receipts.Extends(s.table, table) && Receipts.Consistent(table)
    case Ack(r, outcome) => s.memory.Some? && r in s.emitted
    case Close => s.memory.Some?
    case Kill => true
    case PowerLoss(back) => true
    case Open(syncs) => s.memory.None? && (syncs ==> Loadable(c, s.disk.files))
  }

  ghost function Next(c: Config, s: System, step: Step): System
    requires Enabled(c, s, step)
  {
    match step
    case Put(e, outcome) =>
      var (error, after) := Enqueue(c, State(s.memory.value, s.disk), e, outcome);
      s.(memory := Some(after.memory), disk := after.disk, promised := s.promised + if error.None? then {e} else {})
    case Send(id, generation) =>
      s.(sent := s.sent + {s.memory.value.entries[id].BindSession(generation)})
    case Deliver(e, a, answered) =>
      s.(table := a.table, emitted := s.emitted + if answered then {a.receipt} else {})
    case OtherTraffic(table) => s.(table := table)
    case Ack(r, outcome) =>
      var (error, after) := Acknowledge(State(s.memory.value, s.disk), r, outcome);
      s.(memory := Some(after.memory), disk := after.disk)
    case Close => s.(memory := Some(s.memory.value.(closed := true)))
    case Kill => s.(memory := None)
    case PowerLoss(back) => s.(memory := None, disk := s.disk.Reverted(back))
    case Open(syncs) => if syncs then s.(memory := Some(Memory(s.disk.files, false)), disk := s.disk.Synced()) else s
  }

  // ----- the guarantee -------------------------------------------------------------------------

  /** The same message is in the directory and no power loss can take it away. */
  ghost predicate OnDisk(d: Disk, e: Envelope) {
    e.messageId in d.files && e.messageId !in d.unsynced && SameMessage(d.files[e.messageId], e)
  }

  /** The Gateway holds a durable ACCEPTED receipt for exactly this message. */
  ghost predicate Receipted(t: Receipts.Table, e: Envelope) {
    Receipts.Key(e) in t && t[Receipts.Key(e)].Acknowledges(e) && t[Receipts.Key(e)].disposition == Accepted
  }

  ghost predicate Safe(s: System, e: Envelope) { OnDisk(s.disk, e) || Receipted(s.table, e) }

  /** The loaded entries match the directory wherever both have a file, and each is safe. */
  ghost predicate MemoryInv(s: System) {
    s.memory.Some? ==>
      forall id :: id in s.memory.value.entries ==>
        var e := s.memory.value.entries[id];
        && e.messageId == id
        && (id in s.disk.files ==> s.disk.files[id] == e)
        && Safe(s, e)
  }

  ghost predicate Inv(s: System) {
    && Receipts.Consistent(s.table)
    && (forall r :: r in s.emitted ==> (r.host, r.messageId) in s.table && s.table[(r.host, r.messageId)] == r)
    && Keyed(s.disk.files)
    && (forall id :: id in s.disk.unsynced && s.disk.unsynced[id].Some? ==> s.disk.unsynced[id].value.messageId == id)
    && MemoryInv(s)
    && (forall e :: e in s.promised ==> Safe(s, e))
  }

  /** The state before the Agent first runs on an empty directory. */
  ghost predicate Initial(s: System) {
    && s.memory.None? && s.disk == Disk(map[], map[])
    && s.sent == {} && s.emitted == {} && s.promised == {} && Receipts.Consistent(s.table)
  }

  /** Safety rests only on the message's identity. */
  lemma SameIsSafe(s: System, e: Envelope, f: Envelope)
    requires SameMessage(e, f) && Safe(s, e)
    ensures Safe(s, f)
  {
  }

  /** A new file: nothing that was safe depended on that name being absent. */
  lemma NewFileKeeps(s: System, e: Envelope, dirty: map<MessageId, Option<Envelope>>)
    requires Inv(s) && e.messageId !in s.disk.files
    requires dirty == s.disk.Dirty(e.messageId) || dirty == map[]
    ensures Inv(s.(disk := Disk(s.disk.files[e.messageId := e], dirty), memory := None))
    ensures forall f :: Safe(s, f) ==> Safe(s.(disk := Disk(s.disk.files[e.messageId := e], dirty)), f)
  {
    hide Receipts.Consistent;
    var s' := s.(disk := Disk(s.disk.files[e.messageId := e], dirty), memory := None);
    forall f | Safe(s, f) ensures Safe(s', f) {
      assert OnDisk(s.disk, f) ==> OnDisk(s'.disk, f);
    }
  }

  lemma PutKeeps(c: Config, s: System, e: Envelope, outcome: Outcome)
    requires Inv(s) && s.memory.Some?
    ensures Inv(Next(c, s, Put(e, outcome)))
  {
    hide Receipts.Consistent, Bytes, Enqueue, Safe, SameMessage, FileFits;
    var s' := Next(c, s, Put(e, outcome));
    var (error, after) := Enqueue(c, State(s.memory.value, s.disk), e, outcome);
    EnqueueCases(c, State(s.memory.value, s.disk), e, outcome);
    if after == State(s.memory.value, s.disk) {
      if error.None? { SameIsSafe(s, s.memory.value.entries[e.messageId], e); }
      SafeIgnores(s, s');
    } else {
      NewFileKeeps(s, e, s'.disk.unsynced);
      var s1 := s.(disk := Disk(s.disk.files[e.messageId := e], s'.disk.unsynced));
      assert s'.disk == s1.disk;
      SafeIgnores(s1, s');
      if error.None? { FreshIsSafe(s', e); }
    }
  }

  lemma SafeIgnores(s: System, s': System)
    requires s.disk == s'.disk && s.table == s'.table
    ensures forall f :: Safe(s, f) <==> Safe(s', f)
  {
  }

  lemma FreshIsSafe(s: System, e: Envelope)
    requires e.messageId in s.disk.files && s.disk.files[e.messageId] == e && s.disk.unsynced == map[]
    ensures Safe(s, e)
  {
  }

  lemma AckKeeps(c: Config, s: System, r: Receipt, outcome: Outcome)
    requires Inv(s) && s.memory.Some? && r in s.emitted
    ensures Inv(Next(c, s, Ack(r, outcome)))
  {
    hide Acknowledge, Receipts.Consistent;
    AcknowledgeCases(State(s.memory.value, s.disk), r, outcome);
    var s' := Next(c, s, Ack(r, outcome));
    if s'.disk != s.disk {
      var item := s.memory.value.entries[r.messageId];
      assert s.table[(r.host, r.messageId)] == r;
      forall f | Safe(s, f) ensures Safe(s', f) {
        if OnDisk(s.disk, f) && f.messageId == r.messageId {
          assert SameMessage(item, f);
          assert Receipted(s.table, f);
        }
      }
    }
  }

  lemma TableKeeps(s: System, s': System)
    requires Inv(s)
    requires s' == s.(table := s'.table, emitted := s'.emitted)
    requires Receipts.Extends(s.table, s'.table) && Receipts.Consistent(s'.table)
    requires forall r :: r in s'.emitted - s.emitted ==>
               (r.host, r.messageId) in s'.table && s'.table[(r.host, r.messageId)] == r
    ensures Inv(s')
  {
    hide Receipts.Consistent;
    forall f | Safe(s, f) ensures Safe(s', f) {}
    forall r | r in s'.emitted ensures (r.host, r.messageId) in s'.table && s'.table[(r.host, r.messageId)] == r {
      if r in s.emitted { assert (r.host, r.messageId) in s.table; } else { assert r in s'.emitted - s.emitted; }
    }
  }

  lemma PowerLossKeeps(c: Config, s: System, back: set<MessageId>)
    requires Inv(s)
    ensures Inv(Next(c, s, PowerLoss(back)))
  {
    hide Receipts.Consistent;
    var s' := Next(c, s, PowerLoss(back));
    forall f | Safe(s, f) ensures Safe(s', f) {
      assert OnDisk(s.disk, f) ==> OnDisk(s'.disk, f);
    }
  }

  lemma OpenKeeps(c: Config, s: System)
    requires Inv(s) && s.memory.None?
    ensures Enabled(c, s, Open(true)) ==> Inv(Next(c, s, Open(true)))
  {
    hide Receipts.Consistent;
    if Enabled(c, s, Open(true)) {
      var s' := Next(c, s, Open(true));
      forall f | Safe(s, f) ensures Safe(s', f) {}
      forall id | id in s'.disk.files ensures OnDisk(s'.disk, s'.disk.files[id]) {}
    }
  }

  /** Every step keeps the guarantee, never changes or removes a receipt, and never forgets a
      promise. */
  lemma StepKeeps(c: Config, s: System, step: Step)
    requires Inv(s) && Enabled(c, s, step)
    ensures var s' := Next(c, s, step);
            Inv(s') && Receipts.Extends(s.table, s'.table) && s.promised <= s'.promised && s.emitted <= s'.emitted
  {
    var s' := Next(c, s, step);
    match step
    case Put(e, outcome) => PutKeeps(c, s, e, outcome);
    case Deliver(e, a, answered) => TableKeeps(s, s');
    case OtherTraffic(table) => TableKeeps(s, s');
    case Ack(r, outcome) => AckKeeps(c, s, r, outcome);
    case PowerLoss(back) => PowerLossKeeps(c, s, back);
    case Open(syncs) => OpenKeeps(c, s);
    case Send(id, generation) => Unrelated(s, s');
    case Close => Unrelated(s, s');
    case Kill => Unrelated(s, s');
  }

  lemma Unrelated(s: System, s': System)
    requires Inv(s) && s' == s.(memory := s'.memory, sent := s'.sent)
    requires s'.memory.Some? ==> s.memory.Some? && s'.memory.value.entries == s.memory.value.entries
    ensures Inv(s')
  {
    hide Receipts.Consistent;
    forall f | Safe(s, f) ensures Safe(s', f) {}
  }

  // ----- runs ------------------------------------------------------------------------------------

  ghost predicate Run(c: Config, states: seq<System>, steps: seq<Step>) {
    && |states| == |steps| + 1 && Initial(states[0])
    && forall i :: 0 <= i < |steps| ==> Enabled(c, states[i], steps[i]) && states[i + 1] == Next(c, states[i], steps[i])
  }

  lemma InitialHolds(s: System)
    requires Initial(s)
    ensures Inv(s)
  {
  }

  lemma {:induction false} RunKeeps(c: Config, states: seq<System>, steps: seq<Step>, i: nat, j: nat)
    requires Run(c, states, steps) && i <= j < |states|
    ensures Inv(states[i]) && Inv(states[j])
    ensures Receipts.Extends(states[i].table, states[j].table) && states[i].promised <= states[j].promised
    decreases j
  {
    hide Inv, Initial, Enabled, Next;
    InitialHolds(states[0]);
    if j > 0 {
      if i < j {
        RunKeeps(c, states, steps, i, j - 1);
      } else {
        RunKeeps(c, states, steps, i - 1, j - 1);
      }
      assert Enabled(c, states[j - 1], steps[j - 1]) && states[j] == Next(c, states[j - 1], steps[j - 1]);
      StepKeeps(c, states[j - 1], steps[j - 1]);
    }
  }

  /** At least once, end to end: from the moment Enqueue returns nil for an envelope, in every
      later state that message is durably on disk or durably accepted by the Gateway. */
  lemma PromisedIsNeverLost(c: Config, states: seq<System>, steps: seq<Step>, i: nat, j: nat, e: Envelope)
    requires Run(c, states, steps) && i <= j < |states| && e in states[i].promised
    ensures OnDisk(states[j].disk, e) || Receipted(states[j].table, e)
  {
    hide Run, Enabled, Next;
    RunKeeps(c, states, steps, i, j);
  }

  /** A message whose first receipt is not ACCEPTED is never released: it stays on disk. */
  lemma RefusedIsKeptForever(c: Config, states: seq<System>, steps: seq<Step>, i: nat, j: nat, e: Envelope)
    requires Run(c, states, steps) && i <= j < |states| && e in states[i].promised
    requires Receipts.Key(e) in states[i].table && states[i].table[Receipts.Key(e)].disposition != Accepted
    ensures OnDisk(states[j].disk, e)
  {
    hide Run, Enabled, Next;
    RunKeeps(c, states, steps, i, j);
  }

  /** Whatever an earlier or later delivery of a message is answered, under any session, it is
      answered with one and the same receipt. */
  lemma OneReceiptPerMessage(c: Config, states: seq<System>, steps: seq<Step>, i: nat, j: nat)
    requires Run(c, states, steps) && i < j < |steps| && steps[i].Deliver? && steps[j].Deliver?
    requires Receipts.Key(steps[i].message) == Receipts.Key(steps[j].message)
    ensures steps[i].answer.receipt == steps[j].answer.receipt
  {
    hide Inv;
    RunKeeps(c, states, steps, i + 1, j);
    assert Enabled(c, states[i], steps[i]) && states[i + 1] == Next(c, states[i], steps[i]);
    assert Enabled(c, states[j], steps[j]);
    hide Run, Next;
    assert states[i + 1].table == steps[i].answer.table;
  }
}
