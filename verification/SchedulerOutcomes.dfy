/** What the scheduler takes, which message it hands out next, and which messages may leave. */
module SchedulerOutcomes {
  import opened Common
  import opened Envelopes
  import opened Scheduler
  import Q = SchedulerQueue

  /** How many messages wait, and how many payload bytes. */
  ghost function Messages(q: Queue): nat { Sum(q.lanes, One) }
  ghost function Bytes(q: Queue): nat { Sum(q.lanes, Size) }

  /** A message is taken exactly when it is small enough, its stream has room, the whole queue has
      room by messages and by bytes, and bulk traffic leaves the reserve free; it then stands at the
      back of its stream, and every other stream and the order of service are as before. */
  lemma EnqueueIff(l: Limits, q: Queue, e: Envelope)
    requires Valid(l, q)
    ensures Enqueue(l, q, e).Ok? <==>
              && |e.payload| <= l.maxMessageBytes
              && e.stream in l.perStream && |Lane(q.lanes, e.stream)| < l.perStream[e.stream]
              && Messages(q) + 1 <= l.maxTotalMessages && Bytes(q) + |e.payload| <= l.maxTotalBytes
              && (e.stream == InventoryObservation || e.stream == Resync ==>
                    && Messages(q) + 1 <= l.maxTotalMessages - l.reservedMessages
                    && Bytes(q) + |e.payload| <= l.maxTotalBytes - l.reservedBytes)
    ensures Enqueue(l, q, e) == Err(MessageTooLarge) <==> |e.payload| > l.maxMessageBytes
    ensures var r := Enqueue(l, q, e); r.Ok? ==>
              && Lane(r.value.lanes, e.stream) == Lane(q.lanes, e.stream) + [e]
              && (forall s :: s != e.stream ==> Lane(r.value.lanes, s) == Lane(q.lanes, s))
              && r.value.authorityCursor == q.authorityCursor && r.value.bulkCursor == q.bulkCursor
              && r.value.consecutivePriority == q.consecutivePriority
  {
  }

  ghost predicate Waiting(q: Queue, s: Stream) { Lane(q.lanes, s) != [] }

  ghost predicate BulkWaiting(q: Queue) { Waiting(q, InventoryObservation) || Waiting(q, Resync) }

  ghost predicate AuthorityWaiting(q: Queue) {
    Waiting(q, CommandLease) || Waiting(q, ResultReceipt) || Waiting(q, HeartbeatHealth)
    || Waiting(q, CredentialLifecycle)
  }

  /** `s` has a message, is reached from the cursor in `k` turns, and no stream before it has one. */
  ghost predicate ReachedIn(q: Queue, streams: seq<Stream>, cursor: nat, s: Stream, k: nat)
    requires streams != []
  {
    && s == streams[Turn(cursor, k, |streams|)] && Waiting(q, s)
    && forall j :: 0 <= j < k ==> !Waiting(q, streams[Turn(cursor, j, |streams|)])
  }

  /** `s` is the first stream of the rotation that has a message, and `next` the place after it. */
  ghost predicate Next(q: Queue, streams: seq<Stream>, cursor: nat, s: Stream, next: nat)
    requires streams != []
  {
    exists k: nat :: k < |streams| && ReachedIn(q, streams, cursor, s, k) && next == Turn(cursor, k + 1, |streams|)
  }

  /** Bulk traffic goes first exactly when enough priority messages went before, and otherwise only
      when nothing else waits; Control goes before the authority streams; those and the bulk
      streams each take turns.  The counter counts priority messages since the last bulk one. */
  lemma DequeueOrder(l: Limits, q: Queue)
    requires Valid(l, q)
    ensures var priority := Waiting(q, Control) || AuthorityWaiting(q);
            var r := Dequeue(l, q);
            && (r.None? <==> !priority && !BulkWaiting(q))
            && (r.Some? ==>
                  var s, q' := r.value.message.stream, r.value.queue;
                  && TakesFrom(q, r.value, s)
                  && if BulkWaiting(q) && (!priority || q.consecutivePriority >= l.maxConsecutivePriority)
                     then && Next(q, [InventoryObservation, Resync], q.bulkCursor, s, q'.bulkCursor)
                          && q'.consecutivePriority == 0 && q'.authorityCursor == q.authorityCursor
                     else && q'.consecutivePriority == q.consecutivePriority + 1 && q'.bulkCursor == q.bulkCursor
                          && if Waiting(q, Control) then s == Control && q'.authorityCursor == q.authorityCursor
                             else Next(q, [CommandLease, ResultReceipt, HeartbeatHealth, CredentialLifecycle],
                                       q.authorityCursor, s, q'.authorityCursor))
  {
    DequeueKeeps(l, q);
    DequeueShape(l, q);
    BulkFound(q);
    AuthorityFound(q);
    hide Valid, Dequeue, Source, Scan, Next, TakesFrom;
  }

  /** A scan finds the first waiting stream of the rotation. */
  lemma ScanReaches(q: Queue, streams: seq<Stream>, cursor: nat)
    requires streams != []
    ensures var r := Scan(q.lanes, streams, cursor, 0);
            r.Some? ==> exists k: nat :: k < |streams| && ReachedIn(q, streams, cursor, streams[r.value], k)
                                         && r.value == Turn(cursor, k, |streams|)
  {
    var k := ScanIsFirst(q.lanes, streams, cursor, 0);
    var r := Scan(q.lanes, streams, cursor, 0);
    hide Turn, Scan;
    if r.Some? { assert ReachedIn(q, streams, cursor, streams[r.value], k); }
  }

  lemma TurnOn(cursor: nat, k: nat, n: nat)
    requires n == 2 || n == 4
    ensures Turn(cursor, k + 1, n) == (Turn(cursor, k, n) + 1) % n
  {
  }

  lemma ScanNext(q: Queue, streams: seq<Stream>, cursor: nat)
    requires |streams| == 2 || |streams| == 4
    ensures var r := Scan(q.lanes, streams, cursor, 0);
            r.Some? ==> Next(q, streams, cursor, streams[r.value], (r.value + 1) % |streams|)
  {
    var r := Scan(q.lanes, streams, cursor, 0);
    ScanReaches(q, streams, cursor);
    hide Turn, Scan, ReachedIn;
    if r.Some? {
      var k: nat :| k < |streams| && ReachedIn(q, streams, cursor, streams[r.value], k)
                    && r.value == Turn(cursor, k, |streams|);
      TurnOn(cursor, k, |streams|);
    }
  }

  lemma BulkFound(q: Queue)
    requires q.bulkCursor < 2
    ensures var r := Scan(q.lanes, BULK, q.bulkCursor, 0);
            && (r.Some? <==> BulkWaiting(q))
            && (r.Some? ==> Next(q, [InventoryObservation, Resync], q.bulkCursor, BULK[r.value], 1 - r.value))
  {
    ScanNext(q, BULK, q.bulkCursor);
    hide Next;
    if Scan(q.lanes, BULK, q.bulkCursor, 0).None? {
      hide Scan;
      ScanEmpty(q.lanes, BULK, q.bulkCursor, 0);
      ScanEmpty(q.lanes, BULK, q.bulkCursor, 1);
    } else {
      hide Scan;
    }
  }

  lemma AuthorityFound(q: Queue)
    requires q.authorityCursor < 4
    ensures var r := Scan(q.lanes, AUTHORITY, q.authorityCursor, 0);
            && (r.Some? <==> AuthorityWaiting(q))
            && (r.Some? ==> Next(q, [CommandLease, ResultReceipt, HeartbeatHealth, CredentialLifecycle],
                                 q.authorityCursor, AUTHORITY[r.value], (r.value + 1) % 4))
  {
    ScanNext(q, AUTHORITY, q.authorityCursor);
    hide Next;
    if Scan(q.lanes, AUTHORITY, q.authorityCursor, 0).None? {
      hide Scan;
      ScanEmpty(q.lanes, AUTHORITY, q.authorityCursor, 0);
      ScanEmpty(q.lanes, AUTHORITY, q.authorityCursor, 1);
      ScanEmpty(q.lanes, AUTHORITY, q.authorityCursor, 2);
      ScanEmpty(q.lanes, AUTHORITY, q.authorityCursor, 3);
    } else {
      hide Scan;
    }
  }

  /** A message leaves only under one authority: a current one, for its own host and its own session
      generation; and it must be complete, known, bounded and carry its own digest. */
  lemma LeavesIff(l: Limits, a: Q.Authority, e: Envelope)
    ensures Q.MayLeave(l, a, e) <==>
              && a == Q.Authority(true, e.host, e.sessionGeneration)
              && e.sessionGeneration > 0 && "" !in {e.host, e.messageId, e.schemaVersion, e.sequenceScope}
              && e.stream in {Control, CommandLease, ResultReceipt, HeartbeatHealth, CredentialLifecycle,
                              InventoryObservation, Resync}
              && 1 <= l.maxMessageBytes && |e.payload| <= l.maxMessageBytes && e.payloadDigest == Sha256(e.payload)
  {
  }

  /** So after any change of session or authority nothing that was queued before it leaves, until it is
      bound to the new session. */
  lemma OnlyOneAuthority(l: Limits, a: Q.Authority, b: Q.Authority, e: Envelope)
    requires Q.MayLeave(l, a, e) && a != b
    ensures !Q.MayLeave(l, b, e)
    ensures Q.MayLeave(l, b, e.BindSession(b.generation)) <==> b.current && b.host == a.host && b.generation > 0
  {
  }
}
