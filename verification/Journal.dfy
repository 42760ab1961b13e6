/** The Agent's write-before-execute journal (internal/agent/executionjournal/journal.go). */
module Journal {
  import opened Common
  import opened D = Durable

  /** A command attempt; the file name is the digest of this pair. */
  type Key = (CommandId, int)

  datatype ResultOutcome = Succeeded | Failed | Unknown | Unlisted(text: string)

  datatype Finding = Finding(digest: Digest, outcome: ResultOutcome)

  /** STARTED is a record without a result, COMPLETED one with a result. */
  datatype Record = Record(digest: Digest, target: string, result: Option<Finding>)
  {
    predicate SameCommand(other: Record) { digest == other.digest && target == other.target }
  }

  type Records = map<Key, Record>
  type Disk = D.Directory<Key, Record>

  datatype Error = Incomplete | Closed | Conflict | NotFound | DiskFault

  /** The open journal of a process. */
  datatype State = State(records: Records, disk: Disk)

  /** Prepare on an open journal; `outcome` is how writing a new record ends. */
  function Prepare(s: State, k: Key, digest: Digest, target: string, outcome: Outcome): (Result<Record, Error>, State) {
    if k.0 == "" || k.1 < 1 || !digest.Has64Characters() || target == "" then (Err(Incomplete), s)
    else if k in s.records then
      if s.records[k].digest == digest && s.records[k].target == target then (Ok(s.records[k]), s)
          else (Err(Conflict), s)
    else
      var record := Record(digest, target, None);
      match outcome
      case NoEffect => (Err(DiskFault), s)
      case Unsynced => (Err(DiskFault), s.(disk := s.disk.Written(k, record)))
      case Done => (Ok(record), State(s.records[k := record], s.disk.Written(k, record).Synced()))
  }

  /** Complete on an open journal. */
  function Complete(s: State, k: Key, result: Finding, outcome: Outcome): (Result<Record, Error>, State) {
    if !result.digest.Has64Characters() || result.outcome.Unlisted? then (Err(Incomplete), s)
    else if k !in s.records then (Err(NotFound), s)
    else if s.records[k].result.Some? then
      if s.records[k].result.value == result then (Ok(s.records[k]), s) else (Err(Conflict), s)
    else
      var record := s.records[k].(result := Some(result));
      match outcome
      case NoEffect => (Err(DiskFault), s)
      case Unsynced => (Err(DiskFault), s.(disk := s.disk.Written(k, record)))
      case Done => (Ok(record), State(s.records[k := record], s.disk.Written(k, record).Synced()))
  }

  /** Evidence only reads. */
  function Evidence(s: State, k: Key, digest: Digest, target: string): Result<Record, Error> {
    if k !in s.records then Err(NotFound)
    else if s.records[k].digest != digest || s.records[k].target != target then Err(Conflict)
    else Ok(s.records[k])
  }

  datatype Lease = Lease(command: CommandId, attempt: int, digest: Digest, target: string)
  {
    function Key(): Key { (command, attempt) }
  }

  /** What happened outside the journal, in order. */
  datatype Event = Executed(lease: Lease) | Published(key: Key, result: Finding) | Observed(key: Key, withRecord: bool)

  /** What the module reports for a backend that returns an error. */
  const UNCERTAIN: Finding := Finding(Sha256("backend_execution_uncertain"), Unknown)

  function ResultOf(ran: Option<Finding>): Finding { if ran.Some? then ran.value else UNCERTAIN }

  datatype Handled = Handled(ok: bool, state: State, events: seq<Event>)

  /** Handle of a command lease: journal, execute, complete, publish.  `ran` is what the backend
      returns (None for an error), `prepares` and `completes` how the journal writes end, `sends`
      whether publishing succeeds. */
  function Handle(s: State, closed: bool, lease: Lease, ran: Option<Finding>, prepares: Outcome, completes: Outcome,
                  sends: bool): Handled
  {
    if closed then Handled(false, s, [])
    else
      var (p, s1) := Prepare(s, lease.Key(), lease.digest, lease.target, prepares);
      if p.Err? then Handled(false, s1, [])
      else
        var (c, s2) := Complete(s1, lease.Key(), ResultOf(ran), completes);
        if c.Ok? && sends then Handled(true, s2, [Executed(lease), Published(lease.Key(), ResultOf(ran))])
        else Handled(false, s2, [Executed(lease)])
  }

  /** Evidence is what Prepare left: it answers for a well-formed command exactly when a Prepare of
      it would succeed without writing anything, and then with the same record. */
  lemma EvidenceIsPrepared(s: State, k: Key, digest: Digest, target: string, outcome: Outcome)
    requires k.0 != "" && k.1 >= 1 && digest.Has64Characters() && target != ""
    ensures Evidence(s, k, digest, target).Ok? <==> Prepare(s, k, digest, target, NoEffect).0.Ok?
    ensures Evidence(s, k, digest, target).Ok? ==>
              Prepare(s, k, digest, target, outcome) == (Evidence(s, k, digest, target), s)
    ensures var (r, after) := Prepare(s, k, digest, target, outcome); r.Ok? ==> Evidence(after, k, digest, target) == r
  {
  }

  /** After a successful Complete the evidence carries exactly that result, whatever is prepared or
      completed for the same command later. */
  lemma EvidenceIsCompleted(s: State, k: Key, result: Finding, outcome: Outcome, other: Finding, later: Outcome)
    requires Complete(s, k, result, outcome).0.Ok?
    ensures var (r, after) := Complete(s, k, result, outcome);
            var record := r.value;
            && record.result == Some(result) && Evidence(after, k, record.digest, record.target) == Ok(record)
            && Prepare(after, k, record.digest, record.target, later).1 == after
            && Complete(after, k, other, later).1 == after
            && (Complete(after, k, other, later).0.Ok? ==> other == result)
  {
  }
}
