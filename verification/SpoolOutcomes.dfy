/** Exactly when the spool takes a message and when it lets one go, and what a power loss can
    still change afterwards. */
module SpoolOutcomes {
  import opened Common
  import opened Envelopes
  import opened Spool
  import opened D = Durable

  /** Enqueue answers nil exactly for a valid message of this host on an open spool that is either
      loaded already, unchanged but for its session, or new, with room by count and by bytes,
      no file of that name, and a write that is synced. */
  lemma EnqueueIff(c: Config, s: State, e: Envelope, outcome: Outcome)
    requires Fits(c, s.memory.entries)
    ensures Enqueue(c, s, e, outcome).0 == None <==>
              && e.Valid(c.maxMessageBytes) && e.host == c.host && !s.memory.closed
              && if e.messageId in s.memory.entries
                 then s.memory.entries[e.messageId] == e.BindSession(s.memory.entries[e.messageId].sessionGeneration)
                 else && |s.memory.entries| < c.maxEntries
                      && Bytes(c.size, s.memory.entries) + c.size(e) <= c.maxBytes
                      && s.disk.At(e.messageId) == None && outcome == Done
  {
    hide Bytes;
    if e.messageId in s.memory.entries && e.Valid(c.maxMessageBytes) {
      SameIffRebound(c, s.memory.entries[e.messageId], e);
    }
  }

  lemma SameIffRebound(c: Config, a: Envelope, e: Envelope)
    requires FileFits(c, e.messageId, a) && e.Valid(c.maxMessageBytes)
    ensures SameMessage(a, e) <==> a == e.BindSession(a.sessionGeneration)
  {
  }

  /** A new message that was taken is loaded as it is, and no power loss takes its file away; a
      message that was loaded before changes nothing, and no other entry or file is touched. */
  lemma EnqueuedIsDurable(c: Config, s: State, e: Envelope, outcome: Outcome, back: set<MessageId>)
    requires Enqueue(c, s, e, outcome).0 == None
    ensures var s' := Enqueue(c, s, e, outcome).1;
            && (e.messageId in s.memory.entries ==> s' == s)
            && (e.messageId !in s.memory.entries ==>
                  && s'.memory == Memory(s.memory.entries[e.messageId := e], false)
                  && s'.disk.Reverted(back).At(e.messageId) == Some(e)
                  && forall id :: id != e.messageId ==> s'.disk.At(id) == s.disk.At(id))
  {
    hide Bytes;
    if e.messageId !in s.memory.entries { WrittenThenLost(s.disk, e.messageId, e, back, e.messageId); }
  }

  /** A refused message is not loaded, and only a write that could not be synced leaves a file,
      which a power loss may remove again. */
  lemma RefusedEnqueue(c: Config, s: State, e: Envelope, outcome: Outcome)
    requires Enqueue(c, s, e, outcome).0.Some?
    ensures var s' := Enqueue(c, s, e, outcome).1;
            && s'.memory == s.memory
            && (s'.disk != s.disk ==>
                  && outcome == Unsynced && s.disk.At(e.messageId) == None && s'.disk.At(e.messageId) == Some(e)
                  && (e.messageId !in s.disk.unsynced ==> s'.disk.Reverted({e.messageId}).At(e.messageId) == None))
  {
    hide Bytes;
  }

  /** The receipt names exactly this message, with positive generation and a listed disposition. */
  ghost predicate IsFor(r: Receipt, e: Envelope) {
    && (r.host, r.stream, r.messageId, r.sequenceScope, r.sequence, r.payloadDigest)
       == (e.host, e.stream, e.messageId, e.sequenceScope, e.sequence, e.payloadDigest)
    && r.acceptedGeneration > 0
    && r.disposition in {Accepted, Stale, Rejected, Quarantined}
  }

  lemma AcknowledgesIff(r: Receipt, e: Envelope)
    ensures r.Acknowledges(e) <==> IsFor(r, e)
  {
  }

  /** Acknowledge answers nil exactly when the spool is open, the entry is loaded, the receipt is
      for it and ACCEPTED, and its file is there and its removal is synced. */
  lemma AcknowledgeIff(s: State, r: Receipt, outcome: Outcome)
    ensures Acknowledge(s, r, outcome).0 == None <==>
              && !s.memory.closed && r.messageId in s.memory.entries && IsFor(r, s.memory.entries[r.messageId])
              && r.disposition == Accepted
              && s.disk.At(r.messageId).Some? && outcome == Done
  {
  }

  /** The answer that the handler of receipts swallows: the entry is there, and the receipt for it says
      anything but ACCEPTED. */
  lemma NonReleasingIff(s: State, r: Receipt, outcome: Outcome)
    ensures Acknowledge(s, r, outcome).0 == Some(NonReleasing) <==>
              && !s.memory.closed && r.messageId in s.memory.entries && IsFor(r, s.memory.entries[r.messageId])
              && r.disposition in {Stale, Rejected, Quarantined}
  {
  }

  /** An acknowledged message is out of memory, and no power loss brings its file back; every other
      entry and file stays. */
  lemma ReleasedIsGone(s: State, r: Receipt, outcome: Outcome, back: set<MessageId>)
    requires Acknowledge(s, r, outcome).0 == None
    ensures var s' := Acknowledge(s, r, outcome).1;
            && s'.memory == Memory(s.memory.entries - {r.messageId}, false)
            && s'.disk.Reverted(back).At(r.messageId) == None
            && forall id :: id != r.messageId ==> s'.disk.At(id) == s.disk.At(id)
  {
  }

  /** Any other receipt releases nothing: the entry stays loaded, and its file goes only when an
      ACCEPTED removal could not be synced, where a power loss may bring it back. */
  lemma NotReleased(s: State, r: Receipt, outcome: Outcome)
    requires Acknowledge(s, r, outcome).0.Some?
    ensures var s' := Acknowledge(s, r, outcome).1;
            && s'.memory == s.memory
            && (s'.disk != s.disk ==>
                  && outcome == Unsynced && r.disposition == Accepted && s'.disk.At(r.messageId) == None
                  && (r.messageId !in s.disk.unsynced ==>
                        s'.disk.Reverted({r.messageId}).At(r.messageId) == s.disk.At(r.messageId)))
  {
  }

  /** After a removal that could not be synced, the entry cannot be acknowledged any more by this
      process: every further receipt for it fails on the missing file. */
  lemma UnsyncedRemovalSticks(s: State, r: Receipt, again: Receipt, outcome: Outcome)
    requires Acknowledge(s, r, Unsynced).1 != s && again.messageId == r.messageId
    ensures var s' := Acknowledge(s, r, Unsynced).1;
            && Acknowledge(s', again, outcome).0.Some? && Acknowledge(s', again, outcome).1 == s'
            && r.messageId in s'.memory.entries
  {
  }
}
