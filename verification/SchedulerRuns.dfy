/** The scheduler over arbitrary interleavings of Enqueue and Dequeue: FIFO per stream,
    reserved capacity, requeueing, and quantitative freedom from starvation. */
module SchedulerRuns {
  import opened Common
  import opened Envelopes
  import opened Scheduler

  datatype Op = Put(message: Envelope) | Take

  function Next(l: Limits, q: Queue, op: Op): Queue {
    match op
    case Put(e) => if Enqueue(l, q, e).Ok? then Enqueue(l, q, e).value else q
    case Take => if Dequeue(l, q).Some? then Dequeue(l, q).value.queue else q
  }

  function After(l: Limits, q: Queue, ops: seq<Op>): Queue
    decreases |ops|
  {
    if ops == [] then q else After(l, Next(l, q, ops[0]), ops[1..])
  }

  /** The message of stream s that one step accepts, as a sequence of at most one. */
  function AcceptedNow(l: Limits, q: Queue, op: Op, s: Stream): seq<Envelope> {
    if op.Put? && op.message.stream == s && Enqueue(l, q, op.message).Ok? then [op.message] else []
  }

  /** The message that one step takes out of lane s, as a sequence of at most one. */
  function ReturnedNow(l: Limits, q: Queue, op: Op, s: Stream): seq<Envelope> {
    if op.Take? && Dequeue(l, q).Some? && Source(l, q) == s then [Dequeue(l, q).value.message] else []
  }

  /** The messages of stream s that Enqueue accepted along the run, in order. */
  function Accepted(l: Limits, q: Queue, ops: seq<Op>, s: Stream): seq<Envelope>
    decreases |ops|
  {
    if ops == [] then [] else AcceptedNow(l, q, ops[0], s) + Accepted(l, Next(l, q, ops[0]), ops[1..], s)
  }

  /** The messages of stream s that Dequeue returned along the run, in order. */
  function Returned(l: Limits, q: Queue, ops: seq<Op>, s: Stream): seq<Envelope>
    decreases |ops|
  {
    if ops == [] then [] else ReturnedNow(l, q, ops[0], s) + Returned(l, Next(l, q, ops[0]), ops[1..], s)
  }

  function Takes(ops: seq<Op>): nat {
    if ops == [] then 0 else (if ops[0].Take? then 1 else 0) + Takes(ops[1..])
  }

  // ----- safety over runs ------------------------------------------------------------------------

  lemma NextKeeps(l: Limits, q: Queue, op: Op)
    requires Valid(l, q)
    ensures Valid(l, Next(l, q, op))
  {
    hide Valid, Enqueue, Dequeue;
    match op
    case Put(e) => EnqueueKeeps(l, q, e);
    case Take => DequeueKeeps(l, q);
  }

  /** Counters, limits and the bulk bound hold after every run from the empty queue. */
  lemma {:induction false} EveryRunValid(l: Limits, q: Queue, ops: seq<Op>)
    requires Valid(l, q)
    ensures Valid(l, After(l, q, ops))
    decreases |ops|
  {
    hide Valid, Next;
    if ops != [] {
      NextKeeps(l, q, ops[0]);
      EveryRunValid(l, Next(l, q, ops[0]), ops[1..]);
    }
  }

  /** One step appends what it accepts to the back of a lane and takes what it returns off
      the front. */
  lemma LaneStep(l: Limits, q: Queue, op: Op, s: Stream)
    requires Valid(l, q)
    ensures Lane(q.lanes, s) + AcceptedNow(l, q, op, s) == ReturnedNow(l, q, op, s) + Lane(Next(l, q, op).lanes, s)
    ensures |ReturnedNow(l, q, op, s)| == 0 || Lane(q.lanes, s) != []
  {
    hide Valid, Enqueue, Dequeue, Source, Lane;
    match op
    case Put(e) => EnqueueAppends(l, q, e, s);
    case Take =>
      if Dequeue(l, q).Some? {
        DequeueKeeps(l, q);
        Split(Lane(q.lanes, Source(l, q)));
      }
  }

  lemma Split<T>(s: seq<T>)
    requires s != []
    ensures s == [s[0]] + s[1..]
  {
  }

  lemma EnqueueAppends(l: Limits, q: Queue, e: Envelope, s: Stream)
    ensures Enqueue(l, q, e).Ok? ==>
              Lane(Enqueue(l, q, e).value.lanes, s) == if e.stream == s then Lane(q.lanes, s) + [e]
                  else Lane(q.lanes, s)
  {
  }

  /** Each stream is a FIFO queue of its own: what was in the lane, followed by what was
      accepted, is what was returned, followed by what is in the lane now. */
  lemma {:induction false} StreamsAreFifo(l: Limits, q: Queue, ops: seq<Op>, s: Stream)
    requires Valid(l, q)
    ensures Lane(q.lanes, s) + Accepted(l, q, ops, s) == Returned(l, q, ops, s) + Lane(After(l, q, ops).lanes, s)
    decreases |ops|
  {
    hide Valid, Next, AcceptedNow, ReturnedNow;
    if ops != [] {
      var q' := Next(l, q, ops[0]);
      NextKeeps(l, q, ops[0]);
      LaneStep(l, q, ops[0], s);
      StreamsAreFifo(l, q', ops[1..], s);
      Chain(Lane(q.lanes, s), AcceptedNow(l, q, ops[0], s), Accepted(l, q', ops[1..], s), ReturnedNow(l, q, ops[0], s),
            Lane(q'.lanes, s), Returned(l, q', ops[1..], s), Lane(After(l, q, ops).lanes, s));
    }
  }

  lemma Chain<T>(lane: seq<T>, a: seq<T>, A: seq<T>, r: seq<T>, lane': seq<T>, R: seq<T>, end: seq<T>)
    requires lane + a == r + lane' && lane' + A == R + end
    ensures lane + (a + A) == (r + R) + end
  {
    assert lane + (a + A) == (lane + a) + A;
    assert (r + lane') + A == r + (lane' + A);
    assert r + (R + end) == (r + R) + end;
  }

  // ----- reserved capacity ---------------------------------------------------------------------------

  /** A priority message that fits its lane and, together with the priority traffic already
      queued, the reserve, is never refused, whatever bulk traffic is queued. */
  lemma ReservedPriorityIsAccepted(l: Limits, q: Queue, e: Envelope)
    requires Valid(l, q) && !IsBulk(e.stream) && |e.payload| <= l.maxMessageBytes
    requires |Lane(q.lanes, e.stream)| < LimitFor(l, e.stream)
    requires (q.count - BulkSum(q, One)) + 1 <= l.reservedMessages
    requires (q.bytes - BulkSum(q, Size)) + |e.payload| <= l.reservedBytes
    ensures Enqueue(l, q, e).Ok?
  {
    BulkWithin(q, One);
    BulkWithin(q, Size);
  }

  /** Putting back the message just taken always succeeds for a priority message.  For a bulk
      message it succeeds exactly when the queue was within its unreserved capacity before. */
  lemma RequeueIff(l: Limits, q: Queue)
    requires Valid(l, q) && Dequeue(l, q).Some?
    ensures var t := Dequeue(l, q).value;
            Enqueue(l, t.queue, t.message).Ok? <==>
              (IsBulk(t.message.stream) ==>
                 q.count <= l.maxTotalMessages - l.reservedMessages && q.bytes <= l.maxTotalBytes - l.reservedBytes)
  {
    DequeueKeeps(l, q);
  }

  // ----- freedom from starvation --------------------------------------------------------------------

  /** The number of Dequeues after which the k-th message of bulk lane i has been returned. */
  function BulkBudget(l: Limits, q: Queue, i: nat, k: nat): int {
    (2 * k - (if q.bulkCursor == i then 1 else 0) - 1) * (l.maxConsecutivePriority + 1)
    + (if q.consecutivePriority < l.maxConsecutivePriority then l.maxConsecutivePriority - q.consecutivePriority
       else 0) + 1
  }

  lemma BulkScan(lanes: Lanes, cursor: nat, i: nat)
    requires i < 2 && cursor < 2 && Lane(lanes, BULK[i]) != []
    ensures var r := Scan(lanes, BULK, cursor, 0); r == Some(i) || (cursor != i && r == Some(cursor))
  {
    assert Turn(cursor, 0, 2) == cursor;
    assert Turn(cursor, 1, 2) == 1 - cursor;
  }

  /** A Dequeue while bulk lane i holds messages takes from that lane or uses up budget. */
  lemma BulkTurn(l: Limits, q: Queue, i: nat, k: nat)
    requires Valid(l, q) && l.maxConsecutivePriority >= 1
    requires i < 2 && 1 <= k <= |Lane(q.lanes, BULK[i])|
    ensures Dequeue(l, q).Some?
    ensures var q' := Dequeue(l, q).value.queue;
            if Source(l, q) == BULK[i]
            then BulkBudget(l, q', i, k - 1) <= BulkBudget(l, q, i, k) - 1
            else BulkBudget(l, q', i, k) <= BulkBudget(l, q, i, k) - 1
  {
    hide Scan, Dequeue, Source, Sum, LaneValid, BulkBudget, Lane;
    BulkScan(q.lanes, q.bulkCursor, i);
    DequeueShape(l, q);
    BudgetFalls(l, q, Dequeue(l, q).value.queue, i, k);
  }

  /** The budget falls when a priority message is taken early enough, and with each bulk
      message that moves the cursor on. */
  lemma BudgetFalls(l: Limits, q: Queue, q': Queue, i: nat, k: nat)
    requires l.maxConsecutivePriority >= 1 && i < 2 && k >= 1
    ensures (q.consecutivePriority < l.maxConsecutivePriority && q'.bulkCursor == q.bulkCursor
             && q'.consecutivePriority == q.consecutivePriority + 1) ==>
             BulkBudget(l, q', i, k) == BulkBudget(l, q, i, k) - 1
    ensures q'.consecutivePriority == 0 && q'.bulkCursor != i ==>
              BulkBudget(l, q', i, k - 1) <= BulkBudget(l, q, i, k) - 1
    ensures q'.consecutivePriority == 0 && q'.bulkCursor == i && q.bulkCursor != i ==>
              BulkBudget(l, q', i, k) <= BulkBudget(l, q, i, k) - 1
  {
    var M := l.maxConsecutivePriority;
    var at := if q.bulkCursor == i then 1 else 0;
    Times(2 * k - at - 1, 2 * k - 2 - 1, M + 1);
    Times(2 * k - at - 1, 2 * k - 1 - 1, M + 1);
  }

  /** Dropping at least one full round from the budget drops at least its length. */
  lemma Times(big: int, small: int, m: int)
    requires m >= 1
    ensures small < big ==> small * m + m <= big * m
  {
    if small < big {
      var more := big - small - 1;
      assert more * m >= 0;
      assert big * m == (small + 1 + more) * m == small * m + m + more * m;
    }
  }

  /** The number of Dequeues after which the k-th message of authority lane i has been
      returned, as long as control is idle. */
  function AuthorityBudget(l: Limits, q: Queue, i: nat, k: nat): int {
    2 * (4 * (k - 1) + (if i >= q.authorityCursor then i - q.authorityCursor else i + 4 - q.authorityCursor))
    + if q.consecutivePriority >= l.maxConsecutivePriority then 2 else 1
  }

  /** The rotation stops no later than at a non-empty lane. */
  lemma AuthorityScan(lanes: Lanes, cursor: nat, i: nat) returns (d: nat)
    requires i < 4 && cursor < 4 && Lane(lanes, AUTHORITY[i]) != []
    ensures d <= (if i >= cursor then i - cursor else i + 4 - cursor)
    ensures Scan(lanes, AUTHORITY, cursor, 0) == Some(Turn(cursor, d, 4))
  {
    TurnBack(cursor, i, 4);
    hide Turn, Scan;
    d := ScanIsFirst(lanes, AUTHORITY, cursor, 0);
  }

  lemma AuthorityTurn(l: Limits, q: Queue, i: nat, k: nat)
    requires Valid(l, q) && l.maxConsecutivePriority >= 1 && Lane(q.lanes, Control) == []
    requires i < 4 && 1 <= k <= |Lane(q.lanes, AUTHORITY[i])|
    ensures Dequeue(l, q).Some?
    ensures var q' := Dequeue(l, q).value.queue;
            if Source(l, q) == AUTHORITY[i]
            then AuthorityBudget(l, q', i, k - 1) <= AuthorityBudget(l, q, i, k) - 1
            else AuthorityBudget(l, q', i, k) <= AuthorityBudget(l, q, i, k) - 1
  {
    hide Scan, Dequeue, Source, Sum, LaneValid, Lane;
    var d := AuthorityScan(q.lanes, q.authorityCursor, i);
    DequeueShape(l, q);
  }

  /** Control traffic is absent whenever the run dequeues. */
  predicate ControlIdle(l: Limits, q: Queue, ops: seq<Op>)
    decreases |ops|
  {
    ops == [] || ((ops[0].Take? ==> Lane(q.lanes, Control) == []) && ControlIdle(l, Next(l, q, ops[0]), ops[1..]))
  }

  /** One step of the counting argument below. */
  lemma LaneShift(l: Limits, q: Queue, op: Op, s: Stream, k: nat) returns (k': nat)
    requires Valid(l, q) && 1 <= k <= |Lane(q.lanes, s)|
    ensures k' == k - |ReturnedNow(l, q, op, s)| && k' <= |Lane(Next(l, q, op).lanes, s)|
  {
    LaneStep(l, q, op, s);
    k' := k - |ReturnedNow(l, q, op, s)|;
  }

  /** One step of a run, seen from the k-th message of bulk lane i. */
  lemma BulkStep(l: Limits, q: Queue, op: Op, i: nat, k: nat)
    requires Valid(l, q) && l.maxConsecutivePriority >= 1
    requires i < 2 && 1 <= k <= |Lane(q.lanes, BULK[i])|
    ensures var q', returned := Next(l, q, op), |ReturnedNow(l, q, op, BULK[i])|;
            && returned <= k && k - returned <= |Lane(q'.lanes, BULK[i])|
            && BulkBudget(l, q', i, k - returned) <= BulkBudget(l, q, i, k) - if op.Take? then 1 else 0
  {
    hide Valid, Dequeue, Source, Lane, BulkBudget;
    var k' := LaneShift(l, q, op, BULK[i], k);
    match op
    case Put(e) => PutLeavesCursors(l, q, e, i, k);
    case Take => BulkTurn(l, q, i, k);
  }

  lemma PutLeavesCursors(l: Limits, q: Queue, e: Envelope, i: nat, k: nat)
    ensures BulkBudget(l, Next(l, q, Put(e)), i, k) == BulkBudget(l, q, i, k)
    ensures AuthorityBudget(l, Next(l, q, Put(e)), i, k) == AuthorityBudget(l, q, i, k)
  {
  }

  lemma {:induction false} BulkReturned(l: Limits, q: Queue, ops: seq<Op>, i: nat, k: nat)
    requires Valid(l, q) && l.maxConsecutivePriority >= 1
    requires i < 2 && 1 <= k <= |Lane(q.lanes, BULK[i])|
    requires Takes(ops) >= BulkBudget(l, q, i, k)
    ensures |Returned(l, q, ops, BULK[i])| >= k
    decreases |ops|
  {
    hide Valid, Next, Lane, BulkBudget, ReturnedNow;
    if ops == [] {
      BudgetPositive(l, q, i, k);
    } else {
      NextKeeps(l, q, ops[0]);
      BulkStep(l, q, ops[0], i, k);
      var k' := k - |ReturnedNow(l, q, ops[0], BULK[i])|;
      if k' > 0 { BulkReturned(l, Next(l, q, ops[0]), ops[1..], i, k'); }
    }
  }

  lemma BudgetPositive(l: Limits, q: Queue, i: nat, k: nat)
    requires k >= 1 && l.maxConsecutivePriority >= 1
    ensures 1 <= BulkBudget(l, q, i, k) <= 2 * k * (l.maxConsecutivePriority + 1)
  {
    var M := l.maxConsecutivePriority;
    var at := if q.bulkCursor == i then 1 else 0;
    assert (2 * k - at - 1) * (M + 1) >= 0;
    Times(2 * k, 2 * k - at - 1, M + 1);
  }

  /** One step of a run, seen from the k-th message of authority lane i. */
  lemma AuthorityStep(l: Limits, q: Queue, op: Op, i: nat, k: nat)
    requires Valid(l, q) && l.maxConsecutivePriority >= 1 && (op.Take? ==> Lane(q.lanes, Control) == [])
    requires i < 4 && 1 <= k <= |Lane(q.lanes, AUTHORITY[i])|
    ensures var q', returned := Next(l, q, op), |ReturnedNow(l, q, op, AUTHORITY[i])|;
            && returned <= k && k - returned <= |Lane(q'.lanes, AUTHORITY[i])|
            && AuthorityBudget(l, q', i, k - returned) <= AuthorityBudget(l, q, i, k) - if op.Take? then 1 else 0
  {
    hide Valid, Dequeue, Source, Lane, AuthorityBudget;
    var k' := LaneShift(l, q, op, AUTHORITY[i], k);
    match op
    case Put(e) => PutLeavesCursors(l, q, e, i, k);
    case Take => AuthorityTurn(l, q, i, k);
  }

  lemma AuthorityPositive(l: Limits, q: Queue, i: nat, k: nat)
    requires k >= 1 && i < 4 && q.authorityCursor < 4
    ensures 1 <= AuthorityBudget(l, q, i, k) <= 8 * k
  {
  }

  lemma {:induction false} AuthorityReturned(l: Limits, q: Queue, ops: seq<Op>, i: nat, k: nat)
    requires Valid(l, q) && l.maxConsecutivePriority >= 1 && ControlIdle(l, q, ops)
    requires i < 4 && 1 <= k <= |Lane(q.lanes, AUTHORITY[i])|
    requires Takes(ops) >= AuthorityBudget(l, q, i, k)
    ensures |Returned(l, q, ops, AUTHORITY[i])| >= k
    decreases |ops|
  {
    hide Next, Lane, AuthorityBudget, ReturnedNow, Sum, BulkSum, LaneValid;
    if ops == [] {
      AuthorityPositive(l, q, i, k);
    } else {
      NextKeeps(l, q, ops[0]);
      AuthorityStep(l, q, ops[0], i, k);
      var k' := k - |ReturnedNow(l, q, ops[0], AUTHORITY[i])|;
      if k' > 0 { AuthorityReturned(l, Next(l, q, ops[0]), ops[1..], i, k'); }
    }
  }

  lemma PrefixReturned(l: Limits, q: Queue, ops: seq<Op>, s: Stream, k: nat)
    requires Valid(l, q) && k <= |Lane(q.lanes, s)| && k <= |Returned(l, q, ops, s)|
    ensures Returned(l, q, ops, s)[..k] == Lane(q.lanes, s)[..k]
  {
    StreamsAreFifo(l, q, ops, s);
    hide Valid, Returned, Accepted, After;
    var lane, accepted, returned, rest := Lane(q.lanes, s), Accepted(l, q, ops, s), Returned(l, q, ops, s),
        Lane(After(l, q, ops).lanes, s);
    assert (lane + accepted)[..k] == lane[..k];
    assert (returned + rest)[..k] == returned[..k];
  }

  /** However Enqueues interleave, the k-th message of a bulk lane is returned within
      2 * k * (MaxConsecutivePriority + 1) Dequeues. */
  lemma BulkIsNotStarved(l: Limits, q: Queue, ops: seq<Op>, s: Stream, k: nat)
    requires LimitsValid(l) && Valid(l, q)
    requires IsBulk(s) && 1 <= k <= |Lane(q.lanes, s)|
    requires Takes(ops) >= 2 * k * (l.maxConsecutivePriority + 1)
    ensures k <= |Returned(l, q, ops, s)| && Returned(l, q, ops, s)[..k] == Lane(q.lanes, s)[..k]
  {
    var i := if s == InventoryObservation then 0 else 1;
    BudgetPositive(l, q, i, k);
    hide Valid, Takes, Returned;
    BulkReturned(l, q, ops, i, k);
    PrefixReturned(l, q, ops, s, k);
  }

  /** While control is idle, the k-th message of an authority lane is returned within 8 * k
      Dequeues, and so its head within eight. */
  lemma AuthorityIsNotStarved(l: Limits, q: Queue, ops: seq<Op>, s: Stream, k: nat)
    requires LimitsValid(l) && Valid(l, q) && ControlIdle(l, q, ops)
    requires s in AUTHORITY && 1 <= k <= |Lane(q.lanes, s)|
    requires Takes(ops) >= 8 * k
    ensures k <= |Returned(l, q, ops, s)| && Returned(l, q, ops, s)[..k] == Lane(q.lanes, s)[..k]
  {
    var i: nat :| i < 4 && AUTHORITY[i] == s;
    assert AuthorityBudget(l, q, i, k) <= 8 * k;
    hide Valid, Takes, Returned, ControlIdle;
    AuthorityReturned(l, q, ops, i, k);
    PrefixReturned(l, q, ops, s, k);
  }

  /** A run from the empty queue that ends in a bulk message which cannot be put back. */
  lemma BulkRequeueCanFail(m: Envelope)
    requires m.payload == ""
    ensures exists l: Limits, ops: seq<Op> :: LimitsValid(l) && BulkLost(l, ops)
  {
    var perStream := map[Control := 2, CommandLease := 1, ResultReceipt := 1, HeartbeatHealth := 1,
                         CredentialLifecycle := 1, InventoryObservation := 1, Resync := 1];
    var l := Limits(1, 2, 2, 1, 1, 1, perStream);
    var b, c := m.(stream := InventoryObservation), m.(stream := Control);
    var ops := [Put(b), Put(c), Take, Put(c)];
    var q1 := Next(l, EMPTY, Put(b));
    var q2 := Next(l, q1, Put(c));
    var q3 := Next(l, q2, Take);
    var q4 := Next(l, q3, Put(c));
    assert [] + [b] == [b] && [] + [c] == [c];
    assert q1 == Queue(map[InventoryObservation := [b]], 1, 0, 0, 0, 0);
    assert q2 == Queue(map[InventoryObservation := [b], Control := [c]], 2, 0, 0, 0, 0);
    assert Lane(q2.lanes, Control) == [c] && [c][1..] == [];
    assert Dequeue(l, q2) == PopPriority(q2) by { hide Scan, Pop; }
    assert q3 == Pop(q2, Control).queue.(consecutivePriority := 1) by { hide Scan, Pop; }
    assert q3.lanes == q2.lanes[Control := []];
    assert q3.lanes[Control := [c]] == q2.lanes;
    assert q4 == Queue(q2.lanes, 2, 0, 0, 0, 1) by { hide Scan, Dequeue; }
    assert After(l, EMPTY, ops) == q4 by {
      assert ops[1..] == [Put(c), Take, Put(c)] && ops[1..][1..] == [Take, Put(c)] && ops[1..][1..][1..] == [Put(c)];
      assert After(l, q3, [Put(c)]) == q4;
      assert After(l, q2, [Take, Put(c)]) == After(l, q3, [Take, Put(c)][1..]);
      assert After(l, q1, [Put(c), Take, Put(c)]) == After(l, q2, [Put(c), Take, Put(c)][1..]);
    }
    assert Scan(q4.lanes, BULK, 0, 0) == Some(0);
    assert BulkLost(l, ops);
  }

  ghost predicate BulkLost(l: Limits, ops: seq<Op>) {
    var q := After(l, EMPTY, ops);
    && Dequeue(l, q).Some?
    && IsBulk(Dequeue(l, q).value.message.stream)
    && Enqueue(l, Dequeue(l, q).value.queue, Dequeue(l, q).value.message).Err?
  }
}
