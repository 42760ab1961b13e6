/** Exactly when the journal writes, what a power loss leaves of it, and what one handled lease
    reports to the world. */
module JournalOutcomes {
  import opened Common
  import opened D = Durable
  import opened J = Journal

  ghost predicate WellFormed(k: Key, digest: Digest, target: string) {
    k.0 != "" && k.1 >= 1 && digest.Has64Characters() && target != ""
  }

  /** Nothing but this name changed. */
  ghost predicate OnlyAt(s: State, s': State, k: Key) {
    forall j :: j != k ==> (j in s'.records <==> j in s.records) && (j in s.records ==> s'.records[j] == s.records[j])
                           && s'.disk.At(j) == s.disk.At(j)
  }

  /** Prepare succeeds exactly for a well-formed command whose record is there for the same digest and
      target, or is new and written; a new record has no result, and no power loss takes it away. */
  lemma PrepareIff(s: State, k: Key, digest: Digest, target: string, outcome: Outcome, back: set<Key>)
    ensures var (r, s') := Prepare(s, k, digest, target, outcome);
            && (r.Ok? <==>
                  && WellFormed(k, digest, target)
                  && if k in s.records then s.records[k].digest == digest && s.records[k].target == target
                     else outcome == Done)
            && OnlyAt(s, s', k)
            && (r.Ok? ==> s'.records == s.records[k := r.value] && r.value.digest == digest && r.value.target == target)
            && (r.Ok? && k in s.records ==> s' == s)
            && (r.Ok? && k !in s.records ==>
                  r.value.result == None && s'.disk.Reverted(back).At(k) == Some(r.value))
            && (r.Err? ==>
                  && s'.records == s.records
                  && (s' != s ==> outcome == Unsynced && s'.disk.At(k) == Some(Record(digest, target, None))))
  {
    if Prepare(s, k, digest, target, outcome).0.Ok? && k in s.records {
      assert s.records[k := s.records[k]] == s.records;
    }
  }

  /** Complete succeeds exactly for a listed outcome and a full digest on a prepared command that has
      this very result already, or has none and it is written; the result is then in the record,
      and no power loss takes it away. */
  lemma CompleteIff(s: State, k: Key, x: Finding, outcome: Outcome, back: set<Key>)
    ensures var (r, s') := Complete(s, k, x, outcome);
            && (r.Ok? <==>
                  && x.digest.Has64Characters() && x.outcome in {Succeeded, Failed, Unknown} && k in s.records
                  && if s.records[k].result.Some? then s.records[k].result == Some(x) else outcome == Done)
            && OnlyAt(s, s', k)
            && (r.Ok? ==>
                  && r.value == Record(s.records[k].digest, s.records[k].target, Some(x))
                  && s'.records == s.records[k := r.value])
            && (r.Ok? && s.records[k].result.Some? ==> s' == s)
            && (r.Ok? && s.records[k].result.None? ==> s'.disk.Reverted(back).At(k) == Some(r.value))
            && (r.Err? ==>
                  && s'.records == s.records
                  && (s' != s ==>
                        && outcome == Unsynced && k in s.records && s.records[k].result.None?
                        && s'.disk.At(k) == Some(Record(s.records[k].digest, s.records[k].target, Some(x)))))
  {
    if Complete(s, k, x, outcome).0.Ok? && s.records[k].result.Some? {
      assert s.records[k := s.records[k]] == s.records;
    }
  }

  /** The one finding that a handled lease may report: what the backend returned, and UNKNOWN when
      the backend returned an error. */
  ghost predicate Reports(ran: Option<Finding>, x: Finding) {
    match ran
    case Some(result) => x == result
    case None => x.outcome == Unknown && x.digest.Has64Characters()
  }

  /** A lease is executed exactly when it is prepared.  What is published is then the backend's
      result, and UNKNOWN for a backend error; it is published exactly when it is recorded and
      sending succeeds, and a recorded result is never replaced. */
  lemma HandleIff(s: State, closed: bool, l: Lease, ran: Option<Finding>, prepares: Outcome, completes: Outcome,
                  sends: bool) returns (x: Finding)
    ensures Reports(ran, x) && x == ResultOf(ran)
    ensures var h := Handle(s, closed, l, ran, prepares, completes, sends);
            var k := l.Key();
            var prepared := && !closed && WellFormed(k, l.digest, l.target)
                            && if k in s.records then s.records[k].digest == l.digest && s.records[k].target == l.target
                               else prepares == Done;
            var recorded := && prepared && x.digest.Has64Characters() && x.outcome in {Succeeded, Failed, Unknown}
                            && if k in s.records && s.records[k].result.Some? then s.records[k].result == Some(x)
                               else completes == Done;
            && h.events == (if !prepared then [] else if !(recorded && sends) then [Executed(l)]
                            else [Executed(l), Published(k, x)])
            && (h.ok <==> recorded && sends)
            && OnlyAt(s, h.state, k)
            && (recorded ==> k in h.state.records && h.state.records[k] == Record(l.digest, l.target, Some(x)))
            && (!recorded && k in h.state.records && h.state.records[k].result.Some? ==>
                  k in s.records && h.state.records[k] == s.records[k])
  {
    x := ResultOf(ran);
    var (p, s1) := Prepare(s, l.Key(), l.digest, l.target, prepares);
    PrepareIff(s, l.Key(), l.digest, l.target, prepares, {});
    CompleteIff(s1, l.Key(), x, completes, {});
    hide Prepare, Complete;
  }

  /** Whatever one handled lease leaves of a new attempt in memory or, after any power loss, on disk,
      the only result in it is the one reported; a backend error leaves UNKNOWN or nothing. */
  lemma NewAttemptRecords(s: State, closed: bool, l: Lease, ran: Option<Finding>, prepares: Outcome,
                          completes: Outcome, sends: bool, back: set<Key>) returns (x: Finding)
    requires l.Key() !in s.records && s.disk.At(l.Key()) == None && l.Key() !in s.disk.unsynced
    ensures Reports(ran, x)
    ensures var h := Handle(s, closed, l, ran, prepares, completes, sends);
            var k := l.Key();
            var kept := h.state.disk.Reverted(back).At(k);
            && (k in h.state.records ==> h.state.records[k].result in {None, Some(x)})
            && (kept.Some? ==> kept.value.SameCommand(Record(l.digest, l.target, None))
                               && kept.value.result in {None, Some(x)})
            && (Executed(l) in h.events ==> kept.Some?)
            && (Published(k, x) in h.events ==> kept == Some(Record(l.digest, l.target, Some(x))))
  {
    x := HandleIff(s, closed, l, ran, prepares, completes, sends);
    KeptOnDisk(s, closed, l, ran, x, prepares, completes, sends, back);
    hide Handle, ResultOf;
  }

  lemma KeptOnDisk(s: State, closed: bool, l: Lease, ran: Option<Finding>, x: Finding, prepares: Outcome,
                   completes: Outcome, sends: bool, back: set<Key>)
    requires l.Key() !in s.records && s.disk.At(l.Key()) == None && l.Key() !in s.disk.unsynced
    requires x == ResultOf(ran)
    ensures var h := Handle(s, closed, l, ran, prepares, completes, sends);
            var kept := h.state.disk.Reverted(back).At(l.Key());
            && (kept.Some? ==> kept.value in {Record(l.digest, l.target, None), Record(l.digest, l.target, Some(x))})
            && (Executed(l) in h.events ==> kept.Some?)
            && (Published(l.Key(), x) in h.events ==> kept == Some(Record(l.digest, l.target, Some(x))))
  {
    hide ResultOf;
  }
}
