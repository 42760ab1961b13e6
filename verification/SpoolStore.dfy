/** The spool as the Agent runs it: an object over a queue directory. */
module SpoolStore {
  import opened Common
  import opened Envelopes
  import opened Sorting
  import opened Spool
  import opened D = Durable
  import X = SpoolOutcomes

  class DurableSpool {
    const config: Config
    var entries: Files
    var closed: bool
    var disk: Disk

    ghost function View(): State
      reads this
    {
      State(Memory(entries, closed), disk)
    }

    ghost predicate Valid()
      reads this
    {
      Fits(config, entries)
    }

    constructor (config: Config, disk: Disk)
      ensures Valid() && this.config == config && View() == State(Memory(map[], false), disk)
    {
      this.config, this.disk, entries, closed := config, disk, map[], false;
    }

    method Stats() returns (count: nat, bytes: nat)
      ensures count == |entries| && bytes == Bytes(config.size, entries)
    {
      var left := entries;
      bytes := 0;
      while left != map[]
        invariant left.Keys <= entries.Keys
        invariant bytes + Bytes(config.size, left) == Bytes(config.size, entries)
        decreases |left|
      {
        var id :| id in left;
        BytesWithout(config.size, left, id);
        bytes := bytes + config.size(left[id]);
        left := left - {id};
      }
      count := |entries|;
    }

    /** load, run on a fresh object: succeeds exactly on a directory that fits, and then the
        entries are the directory. */
    method Load(syncs: bool) returns (error: Option<Error>)
      requires entries == map[]
      modifies this
      ensures Valid()
      ensures closed == old(closed)
      ensures error.None? <==> Loadable(config, old(disk).files) && syncs
      ensures error.None? ==> entries == disk.files && disk == old(disk).Synced()
      ensures error.Some? ==> disk == old(disk)
    {
      var names := disk.files.Keys;
      while names != {}
        invariant names <= disk.files.Keys && disk == old(disk) && closed == old(closed)
        invariant entries == map id | id in disk.files && id !in names :: disk.files[id]
        invariant forall id :: id in disk.files && id !in names ==> FileFits(config, id, disk.files[id])
        decreases |names|
      {
        var id :| id in names;
        var e := disk.files[id];
        if !FileFits(config, id, e) { return Some(Unloadable); }
        entries := entries[id := e];
        names := names - {id};
      }
      assert entries == disk.files;
      var count, bytes := Stats();
      if count > config.maxEntries || bytes > config.maxBytes { return Some(Full); }
      if !syncs { return Some(DiskFault); }
      disk := disk.Synced();
      return None;
    }

    method Enqueue(e: Envelope, outcome: Outcome) returns (error: Option<Error>)
      requires Valid()
      modifies this
      ensures Valid()
      ensures (error, View()) == Spool.Enqueue(config, old(View()), e, outcome)
      ensures error == None <==>
                && e.Valid(config.maxMessageBytes) && e.host == config.host && !old(closed)
                && if e.messageId in old(entries)
                   then old(entries)[e.messageId] == e.BindSession(old(entries)[e.messageId].sessionGeneration)
                   else && |old(entries)| < config.maxEntries
                        && Bytes(config.size, old(entries)) + config.size(e) <= config.maxBytes
                        && old(disk).At(e.messageId) == None && outcome == Done
    {
      X.EnqueueIff(config, View(), e, outcome);
      if !e.Valid(config.maxMessageBytes) { return Some(InvalidEnvelope); }
      if e.host != config.host { return Some(HostMismatch); }
      if closed { return Some(Closed); }
      if e.messageId in entries {
        return if SameMessage(entries[e.messageId], e) then None else Some(MessageConflict);
      }
      var count, bytes := Stats();
      if count + 1 > config.maxEntries || bytes + config.size(e) > config.maxBytes { return Some(Full); }
      // Write a new file under the message's name, then sync the directory.
      if e.messageId in disk.files || outcome == NoEffect { return Some(DiskFault); }
      disk := disk.Written(e.messageId, e);
      if outcome == Unsynced { return Some(DiskFault); }
      disk := disk.Synced();
      entries := entries[e.messageId := e];
      return None;
    }

    method Acknowledge(r: Receipt, outcome: Outcome) returns (error: Option<Error>)
      requires Valid()
      modifies this
      ensures Valid()
      ensures (error, View()) == Spool.Acknowledge(old(View()), r, outcome)
      ensures error == None <==>
                && !old(closed) && r.messageId in old(entries) && X.IsFor(r, old(entries)[r.messageId])
                && r.disposition == Accepted && old(disk).At(r.messageId).Some? && outcome == Done
      ensures error == None ==>
                r.messageId !in entries && forall back :: disk.Reverted(back).At(r.messageId) == None
    {
      X.AcknowledgeIff(View(), r, outcome);
      if closed { return Some(Closed); }
      if r.messageId !in entries { return Some(Empty); }
      if !r.Acknowledges(entries[r.messageId]) { return Some(ReceiptMismatch); }
      if r.disposition != Accepted { return Some(NonReleasing); }
      // Remove the file, then sync the directory, then forget the entry.
      if r.messageId !in disk.files || outcome == NoEffect { return Some(DiskFault); }
      disk := disk.Removed(r.messageId);
      if outcome == Unsynced { return Some(DiskFault); }
      disk := disk.Synced();
      entries := entries - {r.messageId};
      return None;
    }

    /** HandleReceipt: a receipt that does not release its entry is no error. */
    method HandleReceipt(r: Receipt, cancelled: bool, outcome: Outcome) returns (error: Option<Error>)
      requires Valid()
      modifies this
      ensures Valid()
      ensures cancelled ==> error.Some? && View() == old(View())
      ensures !cancelled ==> var (e, s) := Spool.Acknowledge(old(View()), r, outcome);
                             View() == s && error == if e == Some(NonReleasing) then None else e
    {
      if cancelled { return Some(Closed); }
      error := Acknowledge(r, outcome);
      if error == Some(NonReleasing) { return None; }
    }

    /** Pending: the entries are visited in an arbitrary order and then sorted. */
    method Pending() returns (r: Result<seq<Envelope>, Error>)
      requires Valid()
      ensures closed ==> r == Err(Closed)
      ensures !closed ==> r.Ok? && IsPending(entries, r.value)
    {
      if closed { return Err(Closed); }
      var visited, left := [], entries.Keys;
      while left != {}
        invariant left <= entries.Keys
        invariant multiset(visited) == multiset(set id | id in entries && id !in left :: entries[id])
        decreases |left|
      {
        var id :| id in left;
        ghost var seen := set i | i in entries && i !in left :: entries[i];
        visited := visited + [entries[id]];
        left := left - {id};
        assert entries[id] !in seen;
        assert (set i | i in entries && i !in left :: entries[i]) == seen + {entries[id]};
      }
      assert (set id | id in entries && id !in left :: entries[id]) == (set id | id in entries :: entries[id]);
      var sorted := Sort(Before, visited);
      SortPermutes(Before, visited);
      BeforeIsLinear();
      SortSorts(Before, visited);
      return Ok(sorted);
    }

    /** Digest: whatever order Pending visited the entries in, the lines hashed are those of the
        one pending sequence. */
    method DigestOfPending() returns (r: Result<seq<(MessageId, Digest, string, nat)>, Error>)
      requires Valid()
      ensures closed ==> r == Err(Closed)
      ensures !closed ==> r.Ok? && forall p :: IsPending(entries, p) ==> r.value == DigestLines(p)
    {
      var pending := Pending();
      if pending.Err? { return Err(pending.error); }
      forall p | IsPending(entries, p) ensures DigestLines(pending.value) == DigestLines(p) {
        PendingIsUnique(entries, pending.value, p);
      }
      return Ok(DigestLines(pending.value));
    }

    method Close()
      requires Valid()
      modifies this
      ensures Valid()
      ensures View() == old(View()).(memory := Memory(old(entries), true))
    {
      closed := true;
    }
  }

  /** Open: the lock is held; `syncs` is how load's final directory sync ends. */
  method Open(config: Config, disk: Disk, syncs: bool) returns (spool: Option<DurableSpool>)
    ensures spool.Some? <==> && config.host != "" && config.maxEntries >= 1 && config.maxBytes >= 1
                             && config.maxMessageBytes >= 1 && Loadable(config, disk.files) && syncs
    ensures spool.Some? ==> && fresh(spool.value) && spool.value.Valid() && spool.value.config == config
                            && spool.value.View() == State(Memory(disk.files, false), disk.Synced())
  {
    if config.host == "" || config.maxEntries < 1 || config.maxBytes < 1 || config.maxMessageBytes < 1 { return None; }
    var s := new DurableSpool(config, disk);
    var error := s.Load(syncs);
    if error.Some? {
      s.Close();
      return None;
    }
    return Some(s);
  }
}
