/** The Gateway's entry points are deliveries of the spool protocol. */
module SpoolGateway {
  import opened Common
  import opened Envelopes
  import opened SpoolDelivery
  import Spool
  import Receipts
  import E = Execution
  import Steps = ExecutionSteps
  import Runs = ExecutionRuns

  /** A successful Gateway transaction on a sent envelope, as a step of the spool system. */
  function Delivery(e: Envelope, r: E.Outcome<Receipt>, answered: bool): Step
    requires r.result.Ok?
  {
    Deliver(e, Receipts.Answer(r.db.receipts, r.result.value), answered)
  }

  lemma AnswerIsDelivery(c: Spool.Config, s: System, db: E.Db, e: Envelope, r: E.Outcome<Receipt>, answered: bool)
    requires s.table == db.receipts && e in s.sent && Steps.AnswersSender(db, e, r) && r.result.Ok?
    ensures Enabled(c, s, Delivery(e, r, answered)) && Next(c, s, Delivery(e, r, answered)).table == r.db.receipts
  {
    hide Receipts.Answers, Steps.Good;
  }

  /** A plain message, a command result or a verification observation that the Gateway accepts is an
      enabled delivery, and the receipt table of the spool system stays the Gateway's. */
  lemma EntryPointsDeliver(c: Spool.Config, s: System, db: E.Db, e: Envelope, max: int, result: E.ResultMessage,
                           observation: E.ObservationMessage, projected: bool, t1: int, t2: int, t3: int,
                           answered: bool)
    requires Steps.DbInv(db) && s.table == db.receipts && e in s.sent
    ensures var plain := Runs.Plain(db, e, max);
            plain.result.Ok? ==> Enabled(c, s, Delivery(e, plain, answered)) && Next(c, s,
                  Delivery(e, plain, answered)).table == plain.db.receipts
    ensures var r := E.AgentResult(db, e, max, E.DecideResult(result), projected, t1, t2, t3);
            r.result.Ok? ==> Enabled(c, s, Delivery(e, r, answered)) && Next(c, s,
                  Delivery(e, r, answered)).table == r.db.receipts
    ensures var o := E.AgentObservation(db, e, max, E.DecideObservation(observation), projected);
            o.result.Ok? ==> Enabled(c, s, Delivery(e, o, answered)) && Next(c, s,
                  Delivery(e, o, answered)).table == o.db.receipts
  {
    hide Steps.DbInv, Steps.AnswersSender, E.AgentResult, E.AgentObservation, Enabled, Next;
    Runs.PlainKeeps(db, e, max);
    Steps.AgentResultKeeps(db, e, max, E.DecideResult(result), projected, t1, t2, t3);
    Steps.AgentObservationKeeps(db, e, max, E.DecideObservation(observation), projected);
    var plain := Runs.Plain(db, e, max);
    if plain.result.Ok? { AnswerIsDelivery(c, s, db, e, plain, answered); }
    var r := E.AgentResult(db, e, max, E.DecideResult(result), projected, t1, t2, t3);
    if r.result.Ok? { AnswerIsDelivery(c, s, db, e, r, answered); }
    var o := E.AgentObservation(db, e, max, E.DecideObservation(observation), projected);
    if o.result.Ok? { AnswerIsDelivery(c, s, db, e, o, answered); }
  }

  /** Every other transaction of the Gateway only adds receipts, which the spool system allows at
      any time. */
  lemma OtherStepsAreTraffic(c: Spool.Config, s: System, db: E.Db, step: Runs.Step)
    requires Steps.DbInv(db) && s.table == db.receipts
    ensures Enabled(c, s, OtherTraffic(Runs.Next(db, step).receipts))
  {
    hide Steps.DbInv, Runs.Next, Receipts.Consistent, Receipts.Extends;
    Runs.StepKeeps(db, step);
    ReceiptsGrow(db, Runs.Next(db, step));
  }

  lemma ReceiptsGrow(db: E.Db, db': E.Db)
    requires Steps.Good(db, db')
    ensures Receipts.Extends(db.receipts, db'.receipts) && Receipts.Consistent(db'.receipts)
  {
  }
}
