/** The Agent's durable outbound journal (internal/agent/spool/spool.go).

    A file's name is the SHA-256 of its message identifier, so the queue directory is a map
    from message identifiers to envelopes. */
module Spool {
  import opened Common
  import opened Envelopes
  import opened Sorting
  import opened D = Durable

  datatype Config = Config(host: HostId, maxEntries: int, maxBytes: int, maxMessageBytes: int, size: Envelope -> nat)

  type Files = map<MessageId, Envelope>

  type Disk = D.Directory<MessageId, Envelope>

  datatype Error =
    | InvalidEnvelope | HostMismatch | Closed | MessageConflict | Full | DiskFault
    | Empty | ReceiptMismatch | NonReleasing | Unloadable

  predicate SameMessage(a: Envelope, b: Envelope) {
    && a.host == b.host && a.stream == b.stream && a.messageId == b.messageId
    && a.schemaVersion == b.schemaVersion && a.sequenceScope == b.sequenceScope && a.sequence == b.sequence
    && a.resourceGeneration == b.resourceGeneration && a.payloadDigest == b.payloadDigest
    && a.correlationKey == b.correlationKey
  }

  /** The process's view: its loaded entries and whether it was closed. */
  datatype Memory = Memory(entries: Files, closed: bool)

  datatype State = State(memory: Memory, disk: Disk)

  ghost function Pick(files: Files): MessageId
    requires files != map[]
    ensures Pick(files) in files
  {
    var id :| id in files;
    id
  }

  /** Sum of the record sizes. */
  ghost function Bytes(size: Envelope -> nat, files: Files): nat
    decreases |files|
  {
    if files == map[] then 0 else size(files[Pick(files)]) + Bytes(size, files - {Pick(files)})
  }

  lemma {:induction false} BytesWithout(size: Envelope -> nat, files: Files, id: MessageId)
    requires id in files
    ensures Bytes(size, files) == size(files[id]) + Bytes(size, files - {id})
    decreases |files|
  {
    var p := Pick(files);
    if p != id {
      BytesWithout(size, files - {p}, id);
      BytesWithout(size, files - {id}, p);
      assert files - {p} - {id} == files - {id} - {p};
    }
  }

  // ----- the operations as functions of the state ------------------------------------------

  /** Enqueue; `outcome` is how the write of a new file ends. */
  ghost function Enqueue(c: Config, s: State, e: Envelope, outcome: Outcome): (Option<Error>, State) {
    if !e.Valid(c.maxMessageBytes) then (Some(InvalidEnvelope), s)
    else if e.host != c.host then (Some(HostMismatch), s)
    else if s.memory.closed then (Some(Closed), s)
    else if e.messageId in s.memory.entries then
      (if SameMessage(s.memory.entries[e.messageId], e) then None else Some(MessageConflict), s)
    else if |s.memory.entries| + 1 > c.maxEntries || Bytes(c.size, s.memory.entries) + c.size(e) > c.maxBytes then
      (Some(Full), s)
    else if e.messageId in s.disk.files || outcome == NoEffect then (Some(DiskFault), s)
    else if outcome == Unsynced then (Some(DiskFault), s.(disk := s.disk.Written(e.messageId, e)))
    else
      (None, State(s.memory.(entries := s.memory.entries[e.messageId := e]), s.disk.Written(e.messageId, e).Synced()))
  }

  /** Acknowledge; `outcome` is how the removal of the file ends. */
  ghost function Acknowledge(s: State, r: Receipt, outcome: Outcome): (Option<Error>, State) {
    if s.memory.closed then (Some(Closed), s)
    else if r.messageId !in s.memory.entries then (Some(Empty), s)
    else if !r.Acknowledges(s.memory.entries[r.messageId]) then (Some(ReceiptMismatch), s)
    else if r.disposition != Accepted then (Some(NonReleasing), s)
    else if r.messageId !in s.disk.files || outcome == NoEffect then (Some(DiskFault), s)
    else if outcome == Unsynced then (Some(DiskFault), s.(disk := s.disk.Removed(r.messageId)))
    else
      (None, State(s.memory.(entries := s.memory.entries - {r.messageId}), s.disk.Removed(r.messageId).Synced()))
  }

  /** The three ways Enqueue ends. */
  lemma EnqueueCases(c: Config, s: State, e: Envelope, outcome: Outcome)
    ensures var (error, after) := Enqueue(c, s, e, outcome);
            || (after == s && (error.None? ==>
                               e.messageId in s.memory.entries && SameMessage(s.memory.entries[e.messageId], e)))
            || (&& FileFits(c, e.messageId, e) && e.messageId !in s.disk.files && e.messageId !in s.memory.entries
                && |s.memory.entries| + 1 <= c.maxEntries && Bytes(c.size, s.memory.entries) + c.size(e) <= c.maxBytes
                && (|| (outcome == Unsynced && error == Some(DiskFault)
                        && after == State(s.memory, s.disk.Written(e.messageId, e)))
                    || (outcome == Done && error == None
                        && after == State(s.memory.(entries := s.memory.entries[e.messageId := e]),
                                          Disk(s.disk.files[e.messageId := e], map[])))))
  {
  }

  /** The three ways Acknowledge ends. */
  lemma AcknowledgeCases(s: State, r: Receipt, outcome: Outcome)
    ensures var (error, after) := Acknowledge(s, r, outcome);
            || (after == s && error.Some?)
            || (&& r.messageId in s.memory.entries && r.messageId in s.disk.files
                && r.Acknowledges(s.memory.entries[r.messageId]) && r.disposition == Accepted
                && (|| (outcome == Unsynced && error == Some(DiskFault)
                        && after == State(s.memory, s.disk.Removed(r.messageId)))
                    || (outcome == Done && error == None
                        && after == State(s.memory.(entries := s.memory.entries - {r.messageId}),
                                          Disk(s.disk.files - {r.messageId}, map[])))))
  {
  }

  predicate FileFits(c: Config, id: MessageId, e: Envelope) {
    e.host == c.host && e.Valid(c.maxMessageBytes) && e.messageId == id
  }

  /** Every file, or entry, is a message of this spool under its own name. */
  ghost predicate Fits(c: Config, files: Files) {
    forall id :: id in files ==> FileFits(c, id, files[id])
  }

  /** What load demands of the directory. */
  ghost predicate Loadable(c: Config, files: Files) {
    && Fits(c, files)
    && |files| <= c.maxEntries && Bytes(c.size, files) <= c.maxBytes
  }

  // ----- pending messages ----------------------------------------------------------------------

  /** Scope, then sequence number, then message identifier. */
  predicate Before(a: Envelope, b: Envelope) {
    if a.sequenceScope != b.sequenceScope then StringLeq(a.sequenceScope, b.sequenceScope)
    else if a.sequence != b.sequence then a.sequence < b.sequence
    else StringLeq(a.messageId, b.messageId)
  }

  lemma BeforeIsLinear()
    ensures Linear(Before)
  {
    forall x, y ensures Before(x, y) || Before(y, x) {
      StringOrder(x.sequenceScope, y.sequenceScope, "");
      StringOrder(x.messageId, y.messageId, "");
    }
    forall x, y, z | Before(x, y) && Before(y, z) ensures Before(x, z) { BeforeComposes(x, y, z); }
  }

  lemma BeforeComposes(x: Envelope, y: Envelope, z: Envelope)
    requires Before(x, y) && Before(y, z)
    ensures Before(x, z)
  {
    hide StringLeq;
    StringOrder(x.sequenceScope, y.sequenceScope, z.sequenceScope);
    StringOrder(y.sequenceScope, z.sequenceScope, x.sequenceScope);
    StringOrder(x.messageId, y.messageId, z.messageId);
  }

  /** Each entry exactly once, in order. */
  ghost predicate IsPending(entries: Files, s: seq<Envelope>) {
    && Sorted(Before, s)
    && multiset(s) == multiset(set id | id in entries :: entries[id])
  }

  ghost predicate Keyed(entries: Files) {
    forall id :: id in entries ==> entries[id].messageId == id
  }

  /** Pending does not depend on the order in which the entries are visited. */
  lemma PendingIsUnique(entries: Files, a: seq<Envelope>, b: seq<Envelope>)
    requires Keyed(entries) && IsPending(entries, a) && IsPending(entries, b)
    ensures a == b
  {
    forall i, j | 0 <= i < |a| && 0 <= j < |a| && Before(a[i], a[j]) && Before(a[j], a[i]) ensures a[i] == a[j] {
      assert a[i] in multiset(a) && a[j] in multiset(a);
      StringOrder(a[i].sequenceScope, a[j].sequenceScope, "");
      StringOrder(a[i].messageId, a[j].messageId, "");
    }
    SortedUnique(Before, a, b);
  }

  /** The columns Digest hashes, line by line; the hash is their injective image. */
  function DigestLines(pending: seq<Envelope>): seq<(MessageId, Digest, string, nat)> {
    seq(|pending|, i requires 0 <= i < |pending| =>
      (pending[i].messageId, pending[i].payloadDigest, pending[i].sequenceScope, pending[i].sequence))
  }
}
