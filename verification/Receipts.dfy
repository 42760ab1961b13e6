/** The Gateway's receipt table (internal/persistence/postgres/agent_receipt.go). */
module Receipts {
  import opened Common
  import opened Envelopes

  /** kim.agent_message_receipts, keyed by its primary key. */
  type Table = map<(HostId, MessageId), Receipt>

  /** The host's row of kim.agent_transport_sessions_current. */
  datatype Session = Session(generation: nat, current: bool)

  datatype Error =
    | EvidenceConflict        // ErrAgentMessageEvidenceConflict
    | NoCurrentSession
    | ConstraintViolation     // CHECK (session_generation > 0)
    | InvalidEnvelope

  datatype Answer = Answer(table: Table, receipt: Receipt)

  function Key(e: Envelope): (HostId, MessageId) { (e.host, e.messageId) }

  /** The columns of UNIQUE (host_id, logical_stream, sequence_scope, sequence_number). */
  type Slot = (HostId, Stream, string, nat)

  function SlotOf(r: Receipt): Slot { (r.host, r.stream, r.sequenceScope, r.sequence) }

  predicate SlotTaken(table: Table, e: Envelope) {
    exists k :: k in table && SlotOf(table[k]) == (e.host, e.stream, e.sequenceScope, e.sequence)
  }

  /** recordAgentReceiptTx: insert, or on any uniqueness conflict read back and compare. */
  function Record(table: Table, e: Envelope, currentGeneration: nat, disposition: Disposition): Result<Answer, Error>
  {
    if currentGeneration == 0 then
      Err(ConstraintViolation)
    else if Key(e) in table || SlotTaken(table, e) then
      if Key(e) in table && table[Key(e)].Acknowledges(e) then
        Ok(Answer(table, table[Key(e)]))
      else
        Err(EvidenceConflict)
    else
      var receipt := Receipt(e.host, currentGeneration, e.stream, e.messageId, e.sequenceScope,
                             e.sequence, e.payloadDigest, disposition);
      Ok(Answer(table[Key(e) := receipt], receipt))
  }

  /** acceptAgentMessageTx: an existing receipt wins; otherwise the session current now
      decides between ACCEPTED and STALE. */
  function Accept(table: Table, session: Option<Session>, e: Envelope): Result<Answer, Error>
  {
    if Key(e) in table then
      if table[Key(e)].Acknowledges(e) then Ok(Answer(table, table[Key(e)])) else Err(EvidenceConflict)
    else if session.None? || !session.value.current then
      Err(NoCurrentSession)
    else
      var disposition := if session.value.generation == e.sessionGeneration then Accepted else Stale;
      Record(table, e, session.value.generation, disposition)
  }

  /** AcceptAgentMessage. */
  function AcceptMessage(table: Table, session: Option<Session>, e: Envelope, maxMessageBytes: int): Result<Answer,
        Error>
  {
    if !e.Valid(maxMessageBytes) then Err(InvalidEnvelope) else Accept(table, session, e)
  }

  /** Every row sits under its own identity, carries a positive generation and a listed
      disposition, and no two rows share a sequence slot. */
  ghost predicate Consistent(table: Table) {
    && (forall k :: k in table ==>
          && k == (table[k].host, table[k].messageId)
          && table[k].acceptedGeneration != 0
          && !table[k].disposition.Unlisted?)
    && (forall j, k :: j in table && k in table && j != k ==> SlotOf(table[j]) != SlotOf(table[k]))
  }

  /** Rows are never changed or removed. */
  ghost predicate Extends(table: Table, later: Table) {
    forall k :: k in table ==> k in later && later[k] == table[k]
  }

  /** What every Gateway entry point owes a sender: the table only grew, it is still
      consistent, and the returned receipt is the durable row for exactly this message. */
  ghost predicate Answers(table: Table, e: Envelope, a: Answer) {
    && Extends(table, a.table)
    && Consistent(a.table)
    && Key(e) in a.table && a.table[Key(e)] == a.receipt
    && a.receipt.Acknowledges(e)
  }

  lemma RecordAnswers(table: Table, e: Envelope, generation: nat, disposition: Disposition)
    requires Consistent(table)
    requires disposition == Accepted || disposition == Stale
    ensures var r := Record(table, e, generation, disposition); r.Ok? ==> Answers(table, e, r.value)
  {
    var r := Record(table, e, generation, disposition);
    if r.Ok? && r.value.table != table {
      var later := r.value.table;
      forall j, k | j in later && k in later && j != k
        ensures SlotOf(later[j]) != SlotOf(later[k])
      {
        if j != Key(e) && k != Key(e) {
          assert SlotOf(table[j]) != SlotOf(table[k]);
        } else {
          var other := if j == Key(e) then k else j;
          assert other in table && SlotOf(table[other]) != SlotOf(r.value.receipt);
        }
      }
    }
  }

  /** The plain entry point keeps the contract, and says exactly when it accepts. */
  lemma AcceptAnswers(table: Table, session: Option<Session>, e: Envelope, max: int)
    requires Consistent(table)
    ensures var r := AcceptMessage(table, session, e, max);
            && (r.Ok? ==> Answers(table, e, r.value))
            && (r.Ok? && Key(e) !in table ==>
                  (r.value.receipt.disposition == Accepted <==> session.value == Session(e.sessionGeneration, true)))
  {
    if Key(e) !in table && session.Some? {
      RecordAnswers(table, e, session.value.generation,
                    if session.value.generation == e.sessionGeneration then Accepted else Stale);
    }
  }

  /** Exactly when a message is answered, and with what: a known one by its own row, and a new one when
      the host has a current session and no row holds its sequence slot; the new row names the session
      of now, and says ACCEPTED or STALE as the message was sent under it or under another. */
  lemma AcceptIff(table: Table, session: Option<Session>, e: Envelope, max: int)
    ensures var r := AcceptMessage(table, session, e, max);
            && (r.Ok? <==>
                  && e.Valid(max)
                  && if (e.host, e.messageId) in table then table[(e.host, e.messageId)].Acknowledges(e)
                     else && session.Some? && session.value.current && session.value.generation > 0
                          && forall k :: k in table ==>
                               !(table[k].host == e.host && table[k].stream == e.stream
                                 && table[k].sequenceScope == e.sequenceScope && table[k].sequence == e.sequence))
            && (r.Ok? && (e.host, e.messageId) in table ==>
                  r.value == Answer(table, table[(e.host, e.messageId)]))
            && (r.Ok? && (e.host, e.messageId) !in table ==>
                  var receipt := Receipt(e.host, session.value.generation, e.stream, e.messageId, e.sequenceScope,
                                         e.sequence, e.payloadDigest,
                                         if e.sessionGeneration == session.value.generation then Accepted else Stale);
                  r.value == Answer(table[(e.host, e.messageId) := receipt], receipt))
  {
    assert SlotTaken(table, e) <==>
           exists k :: k in table && table[k].host == e.host && table[k].stream == e.stream
                       && table[k].sequenceScope == e.sequenceScope && table[k].sequence == e.sequence;
  }

  /** A message that has a receipt gets that same receipt again under every later session,
      and nothing is written. */
  lemma ReplayGetsOriginalReceipt(table: Table, e: Envelope, later: Option<Session>, generation: nat, max: int)
    requires Key(e) in table && table[Key(e)].Acknowledges(e)
    requires generation > 0 && e.Valid(max)
    ensures AcceptMessage(table, later, e.BindSession(generation), max) == Ok(Answer(table, table[Key(e)]))
  {
  }
}
