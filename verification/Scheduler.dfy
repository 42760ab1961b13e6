/** The bounded priority scheduler of one Agent session
    (internal/agent/session/queue.go, and FlushOne of internal/agent/session/manager.go). */
module Scheduler {
  import opened Common
  import opened Envelopes

  datatype Limits = Limits(
    maxMessageBytes: int, maxTotalMessages: int, maxTotalBytes: int,
    reservedMessages: int, reservedBytes: int, maxConsecutivePriority: int,
    perStream: map<Stream, int>)

  type Lanes = map<Stream, seq<Envelope>>

  datatype Queue = Queue(
    lanes: Lanes, count: int, bytes: int,
    authorityCursor: nat, bulkCursor: nat, consecutivePriority: nat)

  datatype Error = QueueFull | MessageTooLarge

  const CONTROL: seq<Stream> := [Control]
  const AUTHORITY: seq<Stream> := [CommandLease, ResultReceipt, HeartbeatHealth, CredentialLifecycle]
  const BULK: seq<Stream> := [InventoryObservation, Resync]

  predicate IsBulk(s: Stream) { s == InventoryObservation || s == Resync }

  function LimitFor(l: Limits, s: Stream): int {
    if s in l.perStream then l.perStream[s] else 0
  }

  /** What NewPriorityQueue accepts. */
  ghost predicate LimitsValid(l: Limits) {
    && l.maxMessageBytes >= 1 && l.maxTotalMessages >= 1 && l.maxTotalBytes >= 1
    && 0 <= l.reservedMessages < l.maxTotalMessages
    && 0 <= l.reservedBytes < l.maxTotalBytes
    && l.maxConsecutivePriority >= 1
    && forall s: Stream :: s.Known() ==> LimitFor(l, s) >= 1
  }

  const EMPTY: Queue := Queue(map[], 0, 0, 0, 0, 0)

  function Lane(lanes: Lanes, s: Stream): seq<Envelope> {
    if s in lanes then lanes[s] else []
  }

  // ----- operations -------------------------------------------------------------------------

  /** Enqueue. */
  function Enqueue(l: Limits, q: Queue, e: Envelope): Result<Queue, Error> {
    var size := |e.payload|;
    if size > l.maxMessageBytes then
      Err(MessageTooLarge)
    else if |Lane(q.lanes, e.stream)| >= LimitFor(l, e.stream) then
      Err(QueueFull)
    else if q.count + 1 > l.maxTotalMessages || q.bytes + size > l.maxTotalBytes then
      Err(QueueFull)
    else if IsBulk(e.stream) && (q.count + 1 > l.maxTotalMessages - l.reservedMessages
                                 || q.bytes + size > l.maxTotalBytes - l.reservedBytes) then
      Err(QueueFull)
    else
      Ok(q.(lanes := q.lanes[e.stream := Lane(q.lanes, e.stream) + [e]], count := q.count + 1, bytes := q.bytes + size))
  }

  /** The lane index reached from `start` after `offset` turns. */
  function Turn(start: nat, offset: nat, n: nat): (i: nat)
    requires n > 0
    ensures i < n
  {
    (start + offset) % n
  }

  /** The index popFirst takes from: the first non-empty lane in rotation order. */
  function Scan(lanes: Lanes, streams: seq<Stream>, start: nat, offset: nat): (r: Option<nat>)
    requires |streams| > 0 && offset <= |streams|
    ensures r.Some? ==> r.value < |streams| && Lane(lanes, streams[r.value]) != []
    decreases |streams| - offset
  {
    if offset == |streams| then None
    else
      var index := Turn(start, offset, |streams|);
      if Lane(lanes, streams[index]) != [] then Some(index) else Scan(lanes, streams, start, offset + 1)
  }

  datatype Taken = Taken(message: Envelope, queue: Queue)

  function Pop(q: Queue, s: Stream): Taken
    requires Lane(q.lanes, s) != []
  {
    var lane := Lane(q.lanes, s);
    Taken(lane[0], q.(lanes := q.lanes[s := lane[1..]], count := q.count - 1, bytes := q.bytes - |lane[0].payload|))
  }

  function PopBulk(q: Queue): Option<Taken> {
    match Scan(q.lanes, BULK, q.bulkCursor % 2, 0)
    case None => None
    case Some(i) =>
      var t := Pop(q, BULK[i]);
      Some(t.(queue := t.queue.(bulkCursor := (i + 1) % 2, consecutivePriority := 0)))
  }

  function PopPriority(q: Queue): Option<Taken> {
    if Lane(q.lanes, Control) != [] then
      var t := Pop(q, Control);
      Some(t.(queue := t.queue.(consecutivePriority := q.consecutivePriority + 1)))
    else
      match Scan(q.lanes, AUTHORITY, q.authorityCursor % 4, 0)
      case None => None
      case Some(i) =>
        var t := Pop(q, AUTHORITY[i]);
        Some(t.(queue := t.queue.(authorityCursor := (i + 1) % 4, consecutivePriority := q.consecutivePriority + 1)))
  }

  /** Dequeue: after enough consecutive priority messages a waiting bulk message goes first. */
  function Dequeue(l: Limits, q: Queue): Option<Taken> {
    var bulk := PopBulk(q);
    if q.consecutivePriority >= l.maxConsecutivePriority && bulk.Some? then bulk
    else if PopPriority(q).Some? then PopPriority(q)
    else bulk
  }

  /** The lane a successful Dequeue takes from. */
  function Source(l: Limits, q: Queue): (s: Stream)
    requires Dequeue(l, q).Some?
    ensures s.Known() && Lane(q.lanes, s) != []
    ensures var t := Dequeue(l, q).value;
            && t.message == Pop(q, s).message
            && t.queue == Pop(q, s).queue.(authorityCursor := t.queue.authorityCursor, bulkCursor := t.queue.bulkCursor,
                                           consecutivePriority := t.queue.consecutivePriority)
            && (t.queue.authorityCursor == q.authorityCursor || t.queue.authorityCursor < 4)
            && (t.queue.bulkCursor == q.bulkCursor || t.queue.bulkCursor < 2)
  {
    var bulk := Scan(q.lanes, BULK, q.bulkCursor % 2, 0);
    if q.consecutivePriority >= l.maxConsecutivePriority && bulk.Some? then BULK[bulk.value]
    else if Lane(q.lanes, Control) != [] then Control
    else
      var authority := Scan(q.lanes, AUTHORITY, q.authorityCursor % 4, 0);
      if authority.Some? then AUTHORITY[authority.value] else BULK[bulk.value]
  }

  /** How a Dequeue moves the cursors and the consecutive-priority counter. */
  lemma DequeueShape(l: Limits, q: Queue)
    requires q.bulkCursor < 2 && q.authorityCursor < 4
    ensures var bulk, authority := Scan(q.lanes, BULK, q.bulkCursor, 0), Scan(q.lanes, AUTHORITY, q.authorityCursor, 0);
            var c := q.consecutivePriority;
            && (Dequeue(l, q).None? <==> bulk.None? && Lane(q.lanes, Control) == [] && authority.None?)
            && (Dequeue(l, q).Some? ==>
                  var s, q' := Source(l, q), Dequeue(l, q).value.queue;
                  if bulk.Some? && (c >= l.maxConsecutivePriority
                                    || (Lane(q.lanes, Control) == [] && authority.None?)) then
                    s == BULK[bulk.value] && q'.bulkCursor == 1 - bulk.value && q'.consecutivePriority == 0
                    && q'.authorityCursor == q.authorityCursor
                  else
                    && q'.bulkCursor == q.bulkCursor && q'.consecutivePriority == c + 1
                    && if Lane(q.lanes, Control) != [] then s == Control && q'.authorityCursor == q.authorityCursor
                       else
                         && authority.Some? && s == AUTHORITY[authority.value]
                         && q'.authorityCursor == (authority.value + 1) % 4)
  {
    hide Scan;
  }

  // ----- sums over the lanes -------------------------------------------------------------------

  function One(e: Envelope): nat { 1 }
  function Size(e: Envelope): nat { |e.payload| }

  ghost function LaneSum(lane: seq<Envelope>, weight: Envelope -> nat): nat {
    if lane == [] then 0 else weight(lane[0]) + LaneSum(lane[1..], weight)
  }

  ghost function Pick(lanes: Lanes): Stream
    requires lanes != map[]
    ensures Pick(lanes) in lanes
  {
    var s :| s in lanes;
    s
  }

  ghost function Sum(lanes: Lanes, weight: Envelope -> nat): nat
    decreases |lanes|
  {
    if lanes == map[] then 0
    else LaneSum(lanes[Pick(lanes)], weight) + Sum(lanes - {Pick(lanes)}, weight)
  }

  lemma {:induction false} LaneSumAppend(lane: seq<Envelope>, e: Envelope, weight: Envelope -> nat)
    ensures LaneSum(lane + [e], weight) == LaneSum(lane, weight) + weight(e)
  {
    if lane == [] {
      assert ([e])[1..] == [];
    } else {
      LaneSumAppend(lane[1..], e, weight);
      assert (lane + [e])[1..] == lane[1..] + [e];
    }
  }

  lemma {:induction false} LaneSumOnes(lane: seq<Envelope>)
    ensures LaneSum(lane, One) == |lane|
  {
    if lane != [] { LaneSumOnes(lane[1..]); }
  }

  lemma {:induction false} SumWithout(lanes: Lanes, s: Stream, weight: Envelope -> nat)
    requires s in lanes
    ensures Sum(lanes, weight) == LaneSum(lanes[s], weight) + Sum(lanes - {s}, weight)
    decreases |lanes|
  {
    var t := Pick(lanes);
    if t != s {
      SumWithout(lanes - {t}, s, weight);
      SumWithout(lanes - {s}, t, weight);
      assert lanes - {t} - {s} == lanes - {s} - {t};
    }
  }

  /** Replacing one lane changes the sum by that lane alone. */
  lemma SumReplaced(lanes: Lanes, s: Stream, lane: seq<Envelope>, weight: Envelope -> nat)
    ensures Sum(lanes[s := lane], weight) ==
              Sum(lanes, weight) - LaneSum(Lane(lanes, s), weight) + LaneSum(lane, weight)
  {
    SumWithout(lanes[s := lane], s, weight);
    assert lanes[s := lane] - {s} == lanes - {s};
    if s in lanes { SumWithout(lanes, s, weight); } else { assert lanes - {s} == lanes; }
  }

  // ----- the invariant --------------------------------------------------------------------------

  ghost function BulkSum(q: Queue, weight: Envelope -> nat): nat {
    LaneSum(Lane(q.lanes, InventoryObservation), weight) + LaneSum(Lane(q.lanes, Resync), weight)
  }

  ghost predicate LaneValid(l: Limits, s: Stream, lane: seq<Envelope>) {
    && (lane != [] ==> |lane| <= LimitFor(l, s))
    && forall i :: 0 <= i < |lane| ==> lane[i].stream == s && |lane[i].payload| <= l.maxMessageBytes
  }

  /** Counters are the true sums, every limit holds, and bulk traffic stays out of the
      reserve. */
  ghost predicate Valid(l: Limits, q: Queue) {
    && q.count == Sum(q.lanes, One) && q.bytes == Sum(q.lanes, Size)
    && q.count <= l.maxTotalMessages && q.bytes <= l.maxTotalBytes
    && BulkSum(q, One) <= l.maxTotalMessages - l.reservedMessages
    && BulkSum(q, Size) <= l.maxTotalBytes - l.reservedBytes
    && (forall s :: s in q.lanes ==> LaneValid(l, s, q.lanes[s]))
    && q.authorityCursor < 4 && q.bulkCursor < 2
  }

  lemma EmptyValid(l: Limits)
    requires LimitsValid(l)
    ensures Valid(l, EMPTY)
  {
  }

  lemma BulkWithin(q: Queue, weight: Envelope -> nat)
    ensures BulkSum(q, weight) <= Sum(q.lanes, weight)
  {
    var i, r := InventoryObservation, Resync;
    if i in q.lanes {
      SumWithout(q.lanes, i, weight);
      if r in q.lanes { SumWithout(q.lanes - {i}, r, weight); }
    } else if r in q.lanes {
      SumWithout(q.lanes, r, weight);
    }
  }

  /** The sums after one more message. */
  lemma OneMore(q: Queue, e: Envelope, weight: Envelope -> nat)
    ensures var lanes := q.lanes[e.stream := Lane(q.lanes, e.stream) + [e]];
            && Sum(lanes, weight) == Sum(q.lanes, weight) + weight(e)
            && BulkSum(q.(lanes := lanes), weight) == BulkSum(q, weight) + if IsBulk(e.stream) then weight(e) else 0
  {
    hide Sum;
    SumReplaced(q.lanes, e.stream, Lane(q.lanes, e.stream) + [e], weight);
    LaneSumAppend(Lane(q.lanes, e.stream), e, weight);
  }

  lemma EnqueueKeeps(l: Limits, q: Queue, e: Envelope)
    requires Valid(l, q)
    ensures Enqueue(l, q, e).Ok? ==> Valid(l, Enqueue(l, q, e).value)
  {
    hide Sum, LaneSum, BulkSum;
    var r := Enqueue(l, q, e);
    if r.Ok? {
      OneMore(q, e, One);
      OneMore(q, e, Size);
      BulkWithin(q, One);
      BulkWithin(q, Size);
      BulkOfLanes(r.value, q.(lanes := r.value.lanes), One);
      BulkOfLanes(r.value, q.(lanes := r.value.lanes), Size);
    }
  }

  lemma BulkOfLanes(a: Queue, b: Queue, weight: Envelope -> nat)
    requires a.lanes == b.lanes
    ensures BulkSum(a, weight) == BulkSum(b, weight)
  {
  }

  lemma PopKeeps(l: Limits, q: Queue, s: Stream)
    requires Valid(l, q) && Lane(q.lanes, s) != []
    ensures Valid(l, Pop(q, s).queue) && Pop(q, s).message.stream == s
  {
    var lane := Lane(q.lanes, s);
    SumReplaced(q.lanes, s, lane[1..], One);
    SumReplaced(q.lanes, s, lane[1..], Size);
  }

  /** Which lane a Dequeue takes from, and everything it leaves alone. */
  ghost predicate TakesFrom(q: Queue, t: Taken, s: Stream) {
    && Lane(q.lanes, s) != [] && t.message == Lane(q.lanes, s)[0]
    && Lane(t.queue.lanes, s) == Lane(q.lanes, s)[1..]
    && forall o :: o != s ==> Lane(t.queue.lanes, o) == Lane(q.lanes, o)
  }

  lemma PopTakes(l: Limits, q: Queue, s: Stream)
    requires Valid(l, q) && Lane(q.lanes, s) != []
    ensures TakesFrom(q, Pop(q, s), s)
  {
  }

  lemma DequeueKeeps(l: Limits, q: Queue)
    requires Valid(l, q)
    ensures Dequeue(l, q).Some? ==>
              var t := Dequeue(l, q).value;
              && Valid(l, t.queue) && t.message.stream == Source(l, q) && TakesFrom(q, t, t.message.stream)
              && t.queue.count == q.count - 1 && t.queue.bytes == q.bytes - |t.message.payload|
  {
    if Dequeue(l, q).Some? {
      var s := Source(l, q);
      PopKeeps(l, q, s);
      PopTakes(l, q, s);
    }
  }

  lemma {:induction false} ScanIsFirst(lanes: Lanes, streams: seq<Stream>, start: nat, offset: nat) returns (found: nat)
    requires |streams| > 0 && offset <= |streams|
    ensures offset <= found <= |streams|
    ensures Scan(lanes, streams, start, offset) ==
              if found == |streams| then None else Some(Turn(start, found, |streams|))
    ensures forall o :: offset <= o < found ==> Lane(lanes, streams[Turn(start, o, |streams|)]) == []
    decreases |streams| - offset
  {
    hide Turn;
    if offset == |streams| || Lane(lanes, streams[Turn(start, offset, |streams|)]) != [] {
      found := offset;
    } else {
      found := ScanIsFirst(lanes, streams, start, offset + 1);
    }
  }

  lemma ScanEmpty(lanes: Lanes, streams: seq<Stream>, start: nat, i: nat)
    requires i < |streams| && start < |streams| && Scan(lanes, streams, start, 0).None?
    ensures Lane(lanes, streams[i]) == []
  {
    var found := ScanIsFirst(lanes, streams, start, 0);
    var o := if i >= start then i - start else i + |streams| - start;
    TurnBack(start, i, |streams|);
    hide Turn;
    assert Turn(start, o, |streams|) == i;
  }

  /** Turning from `start` to `i` takes the rotation distance between them. */
  lemma TurnBack(start: nat, i: nat, n: nat)
    requires start < n && i < n
    ensures Turn(start, if i >= start then i - start else i + n - start, n) == i
  {
  }

  /** Dequeue returns nothing exactly when every known lane is empty. */
  lemma DequeueEmptyIff(l: Limits, q: Queue)
    requires Valid(l, q)
    ensures Dequeue(l, q).None? <==> forall s: Stream :: s.Known() ==> Lane(q.lanes, s) == []
  {
    if Dequeue(l, q).None? {
      hide Scan;
      forall s: Stream | s.Known() ensures Lane(q.lanes, s) == [] {
        if s == InventoryObservation { ScanEmpty(q.lanes, BULK, q.bulkCursor % 2, 0); }
        if s == Resync { ScanEmpty(q.lanes, BULK, q.bulkCursor % 2, 1); }
        if s == CommandLease { ScanEmpty(q.lanes, AUTHORITY, q.authorityCursor % 4, 0); }
        if s == ResultReceipt { ScanEmpty(q.lanes, AUTHORITY, q.authorityCursor % 4, 1); }
        if s == HeartbeatHealth { ScanEmpty(q.lanes, AUTHORITY, q.authorityCursor % 4, 2); }
        if s == CredentialLifecycle { ScanEmpty(q.lanes, AUTHORITY, q.authorityCursor % 4, 3); }
      }
    } else {
      DequeueKeeps(l, q);
    }
  }
}
