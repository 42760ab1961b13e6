/** Application-level messages between an Agent and the Gateway
    (internal/agent/session/envelope.go). */
module Envelopes {
  import opened Common

  /** A logical stream.  `Other` is a name outside the closed set of known streams. */
  datatype Stream =
    | Control
    | CommandLease
    | ResultReceipt
    | HeartbeatHealth
    | CredentialLifecycle
    | InventoryObservation
    | Resync
    | Other(name: string)
  {
    predicate Known() { !Other? }
  }

  datatype Envelope = Envelope(
    host: HostId,
    sessionGeneration: nat,
    stream: Stream,
    messageId: MessageId,
    schemaVersion: string,
    sequenceScope: string,
    sequence: nat,
    resourceGeneration: nat,
    payloadDigest: Digest,
    correlationKey: string,
    payload: string)
  {
    /** Complete, bounded, and carrying the digest of its own payload. */
    predicate Valid(maxMessageBytes: int) {
      && host != "" && messageId != "" && schemaVersion != "" && sequenceScope != ""
      && sessionGeneration != 0
      && stream.Known()
      && 1 <= maxMessageBytes && |payload| <= maxMessageBytes
      && payloadDigest == Sha256(payload)
    }

    /** The copy that is put on the wire under the session current at send time. */
    function BindSession(generation: nat): Envelope {
      this.(sessionGeneration := generation)
    }
  }

  datatype Disposition = Accepted | Stale | Rejected | Quarantined | Unlisted(text: string)

  /** Durable Gateway evidence about one message. */
  datatype Receipt = Receipt(
    host: HostId,
    acceptedGeneration: nat,
    stream: Stream,
    messageId: MessageId,
    sequenceScope: string,
    sequence: nat,
    payloadDigest: Digest,
    disposition: Disposition)
  {
    /** The receipt identifies exactly this durable message. */
    predicate Acknowledges(e: Envelope) {
      && host == e.host && stream == e.stream && messageId == e.messageId
      && sequenceScope == e.sequenceScope && sequence == e.sequence
      && payloadDigest == e.payloadDigest
      && acceptedGeneration != 0
      && !disposition.Unlisted?
    }
  }

  /** Rebinding to another session changes nothing a receipt looks at, so one receipt
      answers every replay of a message, whatever session carried it; and because the
      digest is collision free, a receipt that acknowledges two valid envelopes
      acknowledges the same payload. */
  lemma ReceiptIgnoresSession(r: Receipt, e: Envelope, f: Envelope, generation: nat, max: int)
    ensures r.Acknowledges(e.BindSession(generation)) <==> r.Acknowledges(e)
    ensures r.Acknowledges(e) && r.Acknowledges(f) && e.Valid(max) && f.Valid(max) ==> e.payload == f.payload
  {
  }
}
