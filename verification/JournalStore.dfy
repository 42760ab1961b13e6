/** The journal as an object over its directory, and the module that executes commands behind
    it (internal/agent/execution/module.go). */
module JournalStore {
  import opened Common
  import opened D = Durable
  import opened J = Journal
  import X = JournalOutcomes

  class ExecutionJournal {
    var records: Records
    var closed: bool
    var disk: Disk

    ghost function View(): State
      reads this
    {
      State(records, disk)
    }

    /** Open with load: the records are whatever the directory shows; nothing is synced. */
    constructor (disk: Disk)
      ensures View() == State(disk.files, disk) && !closed
    {
      this.disk, records, closed := disk, disk.files, false;
    }

    method Persist(k: Key, record: Record, outcome: Outcome) returns (ok: bool)
      modifies this`disk
      ensures ok <==> outcome == Done
      ensures disk == match outcome
                      case NoEffect => old(disk)
                      case Unsynced => old(disk).Written(k, record)
                      case Done => old(disk).Written(k, record).Synced()
      ensures ok ==> forall back :: disk.Reverted(back).At(k) == Some(record)
    {
      if outcome == NoEffect { return false; }
      disk := disk.Written(k, record);
      if outcome == Unsynced { return false; }
      disk := disk.Synced();
      return true;
    }

    method Prepare(k: Key, digest: Digest, target: string, outcome: Outcome) returns (r: Result<Record, Error>)
      modifies this
      ensures closed == old(closed)
      ensures (r, View()) == if closed && !(k.0 == "" || k.1 < 1 || !digest.Has64Characters() || target == "")
                             then (Err(Closed), old(View()))
                             else J.Prepare(old(View()), k, digest, target, outcome)
    {
      if k.0 == "" || k.1 < 1 || !digest.Has64Characters() || target == "" { return Err(Incomplete); }
      if closed { return Err(Closed); }
      if k in records {
        if records[k].digest != digest || records[k].target != target { return Err(Conflict); }
        return Ok(records[k]);
      }
      var record := Record(digest, target, None);
      var ok := Persist(k, record, outcome);
      if !ok { return Err(DiskFault); }
      records := records[k := record];
      return Ok(record);
    }

    method Complete(k: Key, result: Finding, outcome: Outcome) returns (r: Result<Record, Error>)
      modifies this
      ensures closed == old(closed)
      ensures (r, View()) == if closed && result.digest.Has64Characters() && !result.outcome.Unlisted?
                             then (Err(Closed), old(View()))
                             else J.Complete(old(View()), k, result, outcome)
    {
      if !result.digest.Has64Characters() || result.outcome.Unlisted? { return Err(Incomplete); }
      if closed { return Err(Closed); }
      if k !in records { return Err(NotFound); }
      var record := records[k];
      if record.result.Some? {
        if record.result.value != result { return Err(Conflict); }
        return Ok(record);
      }
      record := record.(result := Some(result));
      var ok := Persist(k, record, outcome);
      if !ok { return Err(DiskFault); }
      records := records[k := record];
      return Ok(record);
    }

    method EvidenceOf(k: Key, digest: Digest, target: string) returns (r: Result<Record, Error>)
      ensures r == if closed then Err(Closed) else Evidence(View(), k, digest, target)
      ensures r.Ok? ==> k in records && r.value == records[k] && r.value.SameCommand(Record(digest, target, None))
    {
      if closed { return Err(Closed); }
      if k !in records { return Err(NotFound); }
      if records[k].digest != digest || records[k].target != target { return Err(Conflict); }
      return Ok(records[k]);
    }
  }

  class Module {
    const journal: ExecutionJournal
    ghost var events: seq<Event>

    constructor (journal: ExecutionJournal)
      ensures this.journal == journal && events == []
    {
      this.journal := journal;
      events := [];
    }

    /** Handle for a command lease that passed its identity checks and has a backend. */
    method HandleLease(lease: Lease, ran: Option<Finding>, prepares: Outcome, completes: Outcome, sends: bool)
      returns (ok: bool)
      modifies this, journal
      ensures journal.closed == old(journal.closed)
      ensures var h := Handle(old(journal.View()), journal.closed, lease, ran, prepares, completes, sends);
              ok == h.ok && journal.View() == h.state && events == old(events) + h.events
      ensures ok ==> exists x :: X.Reports(ran, x) && events == old(events) + [Executed(lease),
                                                                               Published(lease.Key(), x)]
                                 && lease.Key() in journal.records
                                 && journal.records[lease.Key()] == Record(lease.digest, lease.target, Some(x))
      ensures !ok ==> events == old(events) || events == old(events) + [Executed(lease)]
    {
      ghost var x := X.HandleIff(journal.View(), journal.closed, lease, ran, prepares, completes, sends);
      var prepared := journal.Prepare(lease.Key(), lease.digest, lease.target, prepares);
      if prepared.Err? { return false; }
      events := events + [Executed(lease)];
      var result := ResultOf(ran);
      var completed := journal.Complete(lease.Key(), result, completes);
      if completed.Err? || !sends { return false; }
      events := events + [Published(lease.Key(), result)];
      return true;
    }

    /** handleVerification: reads the journal, and never writes it. */
    method HandleVerification(lease: Lease, sends: bool) returns (ok: bool)
      modifies this
      ensures var e := Evidence(journal.View(), lease.Key(), lease.digest, lease.target);
              && (ok <==> !journal.closed && e != Err(Conflict) && sends)
              && events == old(events) + if ok then [Observed(lease.Key(), e.Ok?)] else []
    {
      var evidence := journal.EvidenceOf(lease.Key(), lease.digest, lease.target);
      if evidence.Err? && evidence.error != NotFound { return false; }
      if !sends { return false; }
      events := events + [Observed(lease.Key(), evidence.Ok?)];
      return true;
    }
  }
}
