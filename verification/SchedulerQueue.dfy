/** The scheduler as the Agent runs it: a queue object updated in place
    (internal/agent/session/queue.go) and the session manager that sends from it
    (internal/agent/session/manager.go). */
module SchedulerQueue {
  import opened Common
  import opened Envelopes
  import S = Scheduler
  import R = SchedulerRuns

  class PriorityQueue {
    const limits: S.Limits
    var lanes: S.Lanes
    var totalCount: int
    var totalBytes: int
    var authorityCursor: nat
    var bulkCursor: nat
    var consecutivePriority: nat

    ghost function View(): S.Queue
      reads this
    {
      S.Queue(lanes, totalCount, totalBytes, authorityCursor, bulkCursor, consecutivePriority)
    }

    ghost predicate Valid()
      reads this
    {
      S.LimitsValid(limits) && S.Valid(limits, View())
    }

    constructor (limits: S.Limits)
      requires S.LimitsValid(limits)
      ensures Valid() && this.limits == limits && View() == S.EMPTY
    {
      this.limits := limits;
      lanes, totalCount, totalBytes := map[], 0, 0;
      authorityCursor, bulkCursor, consecutivePriority := 0, 0, 0;
      new;
      S.EmptyValid(limits);
    }

    method Enqueue(e: Envelope) returns (error: Option<S.Error>)
      requires Valid()
      modifies this
      ensures Valid()
      ensures match S.Enqueue(limits, old(View()), e)
              case Ok(q) => error == None && View() == q
              case Err(why) => error == Some(why) && View() == old(View())
    {
      S.EnqueueKeeps(limits, View(), e);
      hide S.Valid, S.LimitsValid;
      var size := |e.payload|;
      if size > limits.maxMessageBytes { return Some(S.MessageTooLarge); }
      var lane := S.Lane(lanes, e.stream);
      if |lane| >= S.LimitFor(limits, e.stream) { return Some(S.QueueFull); }
      if totalCount + 1 > limits.maxTotalMessages || totalBytes + size > limits.maxTotalBytes {
        return Some(S.QueueFull);
      }
      if S.IsBulk(e.stream) {
        if totalCount + 1 > limits.maxTotalMessages - limits.reservedMessages
           || totalBytes + size > limits.maxTotalBytes - limits.reservedBytes {
          return Some(S.QueueFull);
        }
      }
      lanes := lanes[e.stream := lane + [e]];
      totalCount := totalCount + 1;
      totalBytes := totalBytes + size;
      return None;
    }

    /** Takes the head of the first non-empty lane, starting at the cursor when there is one;
        the caller stores the moved cursor. */
    method PopFirst(streams: seq<Stream>, cursor: Option<nat>) returns (message: Option<Envelope>, moved: Option<nat>)
      requires |streams| > 0
      modifies this`lanes, this`totalCount, this`totalBytes
      ensures match S.Scan(old(lanes), streams, if cursor.Some? then cursor.value % |streams| else 0, 0)
              case None => message == None && moved == cursor && View() == old(View())
              case Some(i) =>
                var t := S.Pop(old(View()), streams[i]);
                && message == Some(t.message) && View() == t.queue
                && moved == if cursor.Some? then Some((i + 1) % |streams|) else None
    {
      var start := 0;
      if cursor.Some? { start := cursor.value % |streams|; }
      var offset := 0;
      while offset < |streams|
        invariant offset <= |streams|
        invariant View() == old(View())
        invariant S.Scan(lanes, streams, start, 0) == S.Scan(lanes, streams, start, offset)
      {
        var index := (start + offset) % |streams|;
        var stream := streams[index];
        var lane := S.Lane(lanes, stream);
        if |lane| == 0 {
          offset := offset + 1;
          continue;
        }
        lanes := lanes[stream := lane[1..]];
        totalCount := totalCount - 1;
        totalBytes := totalBytes - |lane[0].payload|;
        return Some(lane[0]), if cursor.Some? then Some((index + 1) % |streams|) else None;
      }
      return None, cursor;
    }

    method Dequeue() returns (message: Option<Envelope>)
      requires Valid()
      modifies this
      ensures Valid()
      ensures match S.Dequeue(limits, old(View()))
              case None => message == None && View() == old(View())
              case Some(t) => message == Some(t.message) && View() == t.queue
    {
      hide S.Valid, S.LimitsValid, S.Scan, S.Pop, S.Lane, S.Source, S.Dequeue, S.PopBulk, S.PopPriority;
      ghost var before := View();
      S.DequeueKeeps(limits, before);
      DequeueParts(limits, before);
      var moved: Option<nat>;
      if consecutivePriority >= limits.maxConsecutivePriority {
        message, moved := PopFirst(S.BULK, Some(bulkCursor));
        if message.Some? {
          bulkCursor := moved.value;
          consecutivePriority := 0;
          return;
        }
      }
      message, moved := PopFirst(S.CONTROL, None);
      if message.Some? {
        consecutivePriority := consecutivePriority + 1;
        return;
      }
      message, moved := PopFirst(S.AUTHORITY, Some(authorityCursor));
      if message.Some? {
        authorityCursor := moved.value;
        consecutivePriority := consecutivePriority + 1;
        return;
      }
      message, moved := PopFirst(S.BULK, Some(bulkCursor));
      if message.Some? {
        bulkCursor := moved.value;
        consecutivePriority := 0;
      }
    }

    method Stats() returns (messages: int, bytes: int)
      requires Valid()
      ensures messages == S.Sum(lanes, S.One) && bytes == S.Sum(lanes, S.Size)
      ensures 0 <= messages <= limits.maxTotalMessages && 0 <= bytes <= limits.maxTotalBytes
    {
      return totalCount, totalBytes;
    }
  }

  const KNOWN: seq<Stream> := S.CONTROL + S.AUTHORITY + S.BULK

  lemma KnownStreams(s: Stream)
    ensures s.Known() <==> s in KNOWN
  {
    assert KNOWN == [Control, CommandLease, ResultReceipt, HeartbeatHealth, CredentialLifecycle, InventoryObservation,
                     Resync];
  }

  /** NewPriorityQueue: a queue for usable limits, and for no others. */
  method NewPriorityQueue(l: S.Limits) returns (queue: Option<PriorityQueue>)
    ensures queue.Some? <==> S.LimitsValid(l)
    ensures queue.Some? ==>
              && fresh(queue.value) && queue.value.Valid()
              && queue.value.limits == l && queue.value.View() == S.EMPTY
  {
    if l.maxMessageBytes < 1 || l.maxTotalMessages < 1 || l.maxTotalBytes < 1 { return None; }
    if l.reservedMessages < 0 || l.reservedMessages >= l.maxTotalMessages { return None; }
    if l.reservedBytes < 0 || l.reservedBytes >= l.maxTotalBytes { return None; }
    if l.maxConsecutivePriority < 1 { return None; }
    for i := 0 to |KNOWN|
      invariant forall j :: 0 <= j < i ==> S.LimitFor(l, KNOWN[j]) >= 1
    {
      KnownStreams(KNOWN[i]);
      if S.LimitFor(l, KNOWN[i]) < 1 { return None; }
    }
    forall s: Stream | s.Known() ensures S.LimitFor(l, s) >= 1 { KnownStreams(s); }
    var q := new PriorityQueue(l);
    return Some(q);
  }

  /** Dequeue in terms of the three scans it makes. */
  lemma DequeueParts(l: S.Limits, q: S.Queue)
    ensures var bulk := S.Scan(q.lanes, S.BULK, q.bulkCursor % 2, 0);
            var control := S.Scan(q.lanes, S.CONTROL, 0, 0);
            var authority := S.Scan(q.lanes, S.AUTHORITY, q.authorityCursor % 4, 0);
            var r := S.Dequeue(l, q);
            if bulk.Some? && (q.consecutivePriority >= l.maxConsecutivePriority
                              || (control.None? && authority.None?)) then
              var t := S.Pop(q, S.BULK[bulk.value]);
              r == Some(t.(queue := t.queue.(bulkCursor := (bulk.value + 1) % 2, consecutivePriority := 0)))
            else if control.Some? then
              var t := S.Pop(q, S.CONTROL[control.value]);
              r == Some(t.(queue := t.queue.(consecutivePriority := q.consecutivePriority + 1)))
            else if authority.Some? then
              var t := S.Pop(q, S.AUTHORITY[authority.value]);
              r == Some(t.(queue := t.queue.(authorityCursor := (authority.value + 1) % 4,
                                             consecutivePriority := q.consecutivePriority + 1)))
            else
              r == None
  {
    ControlScan(q.lanes);
    hide S.Scan, S.Pop;
  }

  lemma ControlScan(lanes: S.Lanes)
    ensures S.Scan(lanes, S.CONTROL, 0, 0) == if S.Lane(lanes, Control) != [] then Some(0) else None
  {
  }

  // ----- sending ---------------------------------------------------------------------------------

  /** The session authority an Agent has cached. */
  datatype Authority = Authority(current: bool, host: HostId, generation: nat)

  /** What FlushOne reports; a failure with `kept` false has lost the message. */
  datatype Flushed =
    | NotOpen
    | Idle
    | Sent(message: Envelope)
    | Failed(message: Envelope, atSend: bool, kept: bool)

  predicate MayLeave(l: S.Limits, a: Authority, e: Envelope) {
    a.current && e.host == a.host && e.sessionGeneration == a.generation && e.Valid(l.maxMessageBytes)
  }

  /** The whole effect of one FlushOne: at most one message is removed, it is the head of its
      lane, a failed one goes to the back of the same lane, and it is lost only when it is bulk
      traffic and the queue was above its unreserved capacity. */
  ghost predicate Flushes(l: S.Limits, open: bool, a: Authority, sends: bool, q: S.Queue, q': S.Queue, r: Flushed) {
    match r
    case NotOpen => !open && q' == q
    case Idle => open && q' == q && forall s: Stream :: s.Known() ==> S.Lane(q.lanes, s) == []
    case Sent(m) =>
      && open && sends && MayLeave(l, a, m)
      && S.Lane(q.lanes, m.stream) != [] && S.Lane(q.lanes, m.stream)[0] == m
      && S.Lane(q'.lanes, m.stream) == S.Lane(q.lanes, m.stream)[1..]
      && (forall s :: s != m.stream ==> S.Lane(q'.lanes, s) == S.Lane(q.lanes, s))
    case Failed(m, atSend, kept) =>
      && open && (atSend <==> MayLeave(l, a, m)) && (atSend ==> !sends)
      && S.Lane(q.lanes, m.stream) != [] && S.Lane(q.lanes, m.stream)[0] == m
      && S.Lane(q'.lanes, m.stream) == S.Lane(q.lanes, m.stream)[1..] + (if kept then [m] else [])
      && (forall s :: s != m.stream ==> S.Lane(q'.lanes, s) == S.Lane(q.lanes, s))
      && (kept <==> (S.IsBulk(m.stream) ==>
                       q.count <= l.maxTotalMessages - l.reservedMessages
                       && q.bytes <= l.maxTotalBytes - l.reservedBytes))
  }

  class Manager {
    const queue: PriorityQueue
    var open: bool
    var authority: Authority

    constructor (queue: PriorityQueue, open: bool, authority: Authority)
      ensures this.queue == queue && this.open == open && this.authority == authority
    {
      this.queue, this.open, this.authority := queue, open, authority;
    }

    /** FlushOne, with the outcome of the transport's Send as a parameter. */
    method FlushOne(sends: bool) returns (r: Flushed)
      requires queue.Valid()
      modifies queue
      ensures queue.Valid()
      ensures Flushes(queue.limits, open, authority, sends, old(queue.View()), queue.View(), r)
    {
      hide S.Valid, S.LimitsValid, S.Dequeue, S.Enqueue, S.Lane, MayLeave;
      ghost var l, before := queue.limits, queue.View();
      if !open { return NotOpen; }
      S.DequeueEmptyIff(l, before);
      if S.Dequeue(l, before).Some? { FlushSteps(l, before); }
      var message := queue.Dequeue();
      if message.None? { return Idle; }
      var e := message.value;
      var leaves := MayLeave(queue.limits, authority, e);
      if leaves && sends { return Sent(e); }
      var error := queue.Enqueue(e);
      return Failed(e, leaves, error.None?);
    }
  }

  /** What taking one message and putting it back does to the lanes. */
  lemma FlushSteps(l: S.Limits, q: S.Queue)
    requires S.Valid(l, q) && S.Dequeue(l, q).Some?
    ensures var t := S.Dequeue(l, q).value;
            && S.TakesFrom(q, t, t.message.stream)
            && (S.Enqueue(l, t.queue, t.message).Ok? <==>
                  (S.IsBulk(t.message.stream) ==>
                     q.count <= l.maxTotalMessages - l.reservedMessages
                     && q.bytes <= l.maxTotalBytes - l.reservedBytes))
            && (S.Enqueue(l, t.queue, t.message).Ok? ==>
                  forall s :: S.Lane(S.Enqueue(l, t.queue, t.message).value.lanes, s) ==
                              S.Lane(t.queue.lanes, s) + if s == t.message.stream then [t.message] else [])
  {
    S.DequeueKeeps(l, q);
    R.RequeueIff(l, q);
    hide S.Valid, S.Dequeue;
    var t := S.Dequeue(l, q).value;
    forall s ensures S.Enqueue(l, t.queue, t.message).Ok? ==>
                       S.Lane(S.Enqueue(l, t.queue, t.message).value.lanes, s) ==
                       S.Lane(t.queue.lanes, s) + if s == t.message.stream then [t.message] else [] {
      R.EnqueueAppends(l, t.queue, t.message, s);
    }
  }
}
