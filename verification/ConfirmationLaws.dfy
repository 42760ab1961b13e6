/** What a verdict of the failure-confirmation evaluator means. */
module ConfirmationLaws {
  import opened Common
  import opened Confirmation

  /** An observation that can stand for a requirement. */
  ghost predicate Candidate(r: Requirement, observations: seq<Observation>, o: Observation) {
    o in observations && o.evidenceType == r.evidenceType && o.source == r.source && Fits(r, o)
  }

  lemma {:induction false} RowsMembers(observations: seq<Observation>, t: EvidenceType, s: SourceType, o: Observation)
    ensures o in Rows(observations, t, s) <==> o in observations && o.evidenceType == t && o.source == s
  {
    if observations != [] {
      var n := |observations| - 1;
      RowsMembers(observations[..n], t, s, o);
      assert observations == observations[..n] + [observations[n]];
    }
  }

  lemma FirstMatchIff(r: Requirement, observations: seq<Observation>, distinct: bool, used: set<SourceIdentity>)
    ensures var o := FirstMatch(r, RowsFor(observations, r), distinct, used);
            && (o.Some? <==> exists x :: Candidate(r, observations, x) && (distinct ==> x.Identity() !in used))
            && (o.Some? ==> Candidate(r, observations, o.value) && (distinct ==> o.value.Identity() !in used))
  {
    var rows := RowsFor(observations, r);
    FirstMatchFinds(r, rows, distinct, used);
    forall x ensures x in rows && Matches(r, x, distinct, used) <==>
                     Candidate(r, observations, x) && (distinct ==> x.Identity() !in used)
    {
      RowsMembers(observations, r.evidenceType, r.source, x);
    }
  }

  // ----- soundness -----------------------------------------------------------------------------

  ghost predicate Assignment(requirements: seq<Requirement>, observations: seq<Observation>, distinct: bool,
                             picks: seq<Observation>) {
    && |picks| == |requirements|
    && (forall i :: 0 <= i < |picks| ==> Candidate(requirements[i], observations, picks[i]))
    && (distinct ==> forall i, j :: 0 <= i < j < |picks| ==> picks[i].Identity() != picks[j].Identity())
  }

  lemma {:induction false} JudgePicks(requirements: seq<Requirement>, observations: seq<Observation>, distinct: bool,
                                      used: set<SourceIdentity>)
    returns (picks: seq<Observation>)
    requires Judge(requirements, observations, distinct, used) == Satisfied
    ensures Assignment(requirements, observations, distinct, picks)
    ensures distinct ==> forall i :: 0 <= i < |picks| ==> picks[i].Identity() !in used
  {
    picks := [];
    if requirements != [] {
      hide Candidate;
      FirstMatchIff(requirements[0], observations, distinct, used);
      var o := FirstMatch(requirements[0], RowsFor(observations, requirements[0]), distinct, used).value;
      var rest := JudgePicks(requirements[1..], observations, distinct, used + {o.Identity()});
      picks := [o] + rest;
    }
  }

  /** SATISFIED comes with a matching observation for every requirement, from pairwise distinct
      sources where the policy demands it, and every CURRENT observation of a required pair
      reports the required state. */
  lemma SatisfiedIsSound(p: Policy, observations: seq<Observation>) returns (picks: seq<Observation>)
    requires PolicyValid(p) && Evaluate(p, observations) == Satisfied
    ensures Assignment(p.requirements, observations, p.requireDistinct, picks)
    ensures forall i, o :: 0 <= i < |p.requirements| && o in observations && o.freshness == Current
                           && o.evidenceType == p.requirements[i].evidenceType && o.source == p.requirements[i].source
                           ==> o.observed == p.requirements[i].observed
  {
    picks := JudgePicks(p.requirements, observations, p.requireDistinct, {});
    forall i, o | 0 <= i < |p.requirements| && o in observations && o.freshness == Current
                  && o.evidenceType == p.requirements[i].evidenceType && o.source == p.requirements[i].source
      ensures o.observed == p.requirements[i].observed
    {
      AgreeUnlessConflict(p.requirements, observations, p.requirements[i], o, picks[i]);
    }
  }

  lemma AgreeUnlessConflict(requirements: seq<Requirement>, observations: seq<Observation>, r: Requirement,
                            a: Observation, b: Observation)
    requires r in requirements && !Conflict(requirements, observations)
    requires a in observations && a.evidenceType == r.evidenceType && a.source == r.source && a.freshness == Current
    requires b in observations && b.evidenceType == r.evidenceType && b.source == r.source && b.freshness == Current
    ensures a.observed == b.observed
  {
    var rows := RowsFor(observations, r);
    RowsMembers(observations, r.evidenceType, r.source, a);
    RowsMembers(observations, r.evidenceType, r.source, b);
    var i :| 0 <= i < |rows| && rows[i] == a;
    var j :| 0 <= j < |rows| && rows[j] == b;
    assert !Disagree(rows);
  }

  // ----- order and repetition -----------------------------------------------------------------

  ghost predicate SameMembers(a: seq<Observation>, b: seq<Observation>) { forall o :: o in a <==> o in b }

  lemma RowsSame(a: seq<Observation>, b: seq<Observation>, r: Requirement)
    requires SameMembers(a, b)
    ensures SameMembers(RowsFor(a, r), RowsFor(b, r))
  {
    forall o ensures o in RowsFor(a, r) <==> o in RowsFor(b, r) {
      RowsMembers(a, r.evidenceType, r.source, o);
      RowsMembers(b, r.evidenceType, r.source, o);
    }
  }

  lemma DisagreeSame(a: seq<Observation>, b: seq<Observation>)
    requires SameMembers(a, b) && Disagree(a)
    ensures Disagree(b)
  {
    var i, j :| 0 <= i < |a| && 0 <= j < |a| && a[i].freshness == Current && a[j].freshness == Current
        && a[i].observed != a[j].observed;
    assert a[i] in a && a[j] in a;
    var k :| 0 <= k < |b| && b[k] == a[i];
    var m :| 0 <= m < |b| && b[m] == a[j];
  }

  lemma ConflictSame(requirements: seq<Requirement>, a: seq<Observation>, b: seq<Observation>)
    requires SameMembers(a, b) && Conflict(requirements, a)
    ensures Conflict(requirements, b)
  {
    hide Disagree;
    var r :| r in requirements && Disagree(RowsFor(a, r));
    RowsSame(a, b, r);
    DisagreeSame(RowsFor(a, r), RowsFor(b, r));
  }

  lemma MissingByMembers(rows: seq<Observation>)
    ensures Missing(rows) == if exists o :: o in rows && SaysUnknown(o) then UnknownEvidence
                             else if exists o :: o in rows && o.freshness == Aged then StaleEvidence
                             else NotSatisfied
  {
    if o :| o in rows && SaysUnknown(o) { var i :| 0 <= i < |rows| && rows[i] == o; }
    if o :| o in rows && o.freshness == Aged { var i :| 0 <= i < |rows| && rows[i] == o; }
  }

  lemma {:induction false} JudgeSame(requirements: seq<Requirement>, a: seq<Observation>, b: seq<Observation>,
                                     used: set<SourceIdentity>, used': set<SourceIdentity>)
    requires SameMembers(a, b)
    ensures Judge(requirements, a, false, used) == Judge(requirements, b, false, used')
  {
    if requirements != [] {
      var r := requirements[0];
      FirstMatchIff(r, a, false, used);
      FirstMatchIff(r, b, false, used');
      RowsSame(a, b, r);
      MissingByMembers(RowsFor(a, r));
      MissingByMembers(RowsFor(b, r));
      hide Missing, FirstMatch, RowsFor;
      if m, n :| FirstMatch(r, RowsFor(a, r), false, used) == Some(m)
                 && FirstMatch(r, RowsFor(b, r), false, used') == Some(n) {
        JudgeSame(requirements[1..], a, b, used + {m.Identity()}, used' + {n.Identity()});
      }
    }
  }

  /** Without distinct sources, the verdict depends only on which observations there are: not
      on their order and not on repetition. */
  lemma OrderDoesNotMatter(p: Policy, a: seq<Observation>, b: seq<Observation>)
    requires !p.requireDistinct && SameMembers(a, b)
    ensures Evaluate(p, a) == Evaluate(p, b)
  {
    JudgeSame(p.requirements, a, b, {}, {});
    if Conflict(p.requirements, a) { ConflictSame(p.requirements, a, b); }
    if Conflict(p.requirements, b) { ConflictSame(p.requirements, b, a); }
  }

  // ----- only CURRENT observations count ------------------------------------------------------

  function CurrentOf(observations: seq<Observation>): seq<Observation> {
    if observations == [] then []
    else
      var last := observations[|observations| - 1];
      CurrentOf(observations[..|observations| - 1]) + if last.freshness == Current then [last] else []
  }

  lemma {:induction false} CurrentRows(observations: seq<Observation>, t: EvidenceType, s: SourceType)
    ensures Rows(CurrentOf(observations), t, s) == CurrentOf(Rows(observations, t, s))
  {
    if observations != [] {
      var n := |observations| - 1;
      var last := observations[n];
      CurrentRows(observations[..n], t, s);
      PushCurrent(CurrentOf(observations[..n]), last, t, s);
      PushRow(Rows(observations[..n], t, s), last);
    }
  }

  lemma PushCurrent(observations: seq<Observation>, o: Observation, t: EvidenceType, s: SourceType)
    ensures Rows(observations + [o], t, s) == Rows(observations, t, s) + if o.evidenceType == t
            && o.source == s then [o] else []
    ensures observations + [] == observations
  {
    assert (observations + [o])[..|observations|] == observations;
  }

  lemma PushRow(rows: seq<Observation>, o: Observation)
    ensures CurrentOf(rows + [o]) == CurrentOf(rows) + if o.freshness == Current then [o] else []
    ensures rows + [] == rows
  {
    assert (rows + [o])[..|rows|] == rows;
  }

  lemma {:induction false} CurrentMembers(observations: seq<Observation>, o: Observation)
    ensures o in CurrentOf(observations) <==> o in observations && o.freshness == Current
  {
    if observations != [] {
      var n := |observations| - 1;
      CurrentMembers(observations[..n], o);
      assert observations == observations[..n] + [observations[n]];
    }
  }

  /** A CURRENT requirement matches the same observation with and without the others. */
  lemma {:induction false} CurrentFirst(r: Requirement, rows: seq<Observation>, distinct: bool,
                                        used: set<SourceIdentity>)
    requires r.freshness == Current
    ensures FirstMatch(r, CurrentOf(rows), distinct, used) == FirstMatch(r, rows, distinct, used)
  {
    if rows != [] {
      var n := |rows| - 1;
      CurrentFirst(r, rows[..n], distinct, used);
      assert rows == rows[..n] + [rows[n]];
      FirstOfAppended(r, rows[..n], rows[n], distinct, used);
      FirstOfAppended(r, CurrentOf(rows[..n]), rows[n], distinct, used);
      assert CurrentOf(rows[..n]) + [] == CurrentOf(rows[..n]);
    }
  }

  lemma {:induction false} FirstOfAppended(r: Requirement, rows: seq<Observation>, o: Observation, distinct: bool,
                                           used: set<SourceIdentity>)
    ensures FirstMatch(r, rows + [o], distinct, used) ==
              if FirstMatch(r, rows, distinct, used).Some? then FirstMatch(r, rows, distinct, used)
              else if Matches(r, o, distinct, used) then Some(o) else None
  {
    if rows != [] {
      FirstOfAppended(r, rows[1..], o, distinct, used);
      assert (rows + [o])[1..] == rows[1..] + [o];
    } else {
      assert [o][1..] == [];
    }
  }

  lemma {:induction false} JudgeCurrent(requirements: seq<Requirement>, observations: seq<Observation>, distinct: bool,
                                        used: set<SourceIdentity>)
    requires forall r :: r in requirements ==> r.freshness == Current
    ensures Judge(requirements, observations, distinct, used) == Satisfied <==>
            Judge(requirements, CurrentOf(observations), distinct, used) == Satisfied
  {
    if requirements != [] {
      var r := requirements[0];
      CurrentRows(observations, r.evidenceType, r.source);
      CurrentFirst(r, RowsFor(observations, r), distinct, used);
      hide FirstMatch, Rows, CurrentOf;
      if o: Observation :| FirstMatch(r, RowsFor(observations, r), distinct, used) == Some(o) {
        JudgeCurrent(requirements[1..], observations, distinct, used + {o.Identity()});
      }
    }
  }

  lemma DisagreeCurrent(rows: seq<Observation>)
    ensures Disagree(rows) <==> Disagree(CurrentOf(rows))
  {
    var c := CurrentOf(rows);
    forall o ensures o in c <==> o in rows && o.freshness == Current { CurrentMembers(rows, o); }
    if Disagree(rows) {
      var i, j :| 0 <= i < |rows| && 0 <= j < |rows| && rows[i].freshness == Current && rows[j].freshness == Current
                  && rows[i].observed != rows[j].observed;
      assert rows[i] in c && rows[j] in c;
    }
    if Disagree(c) {
      var i, j :| 0 <= i < |c| && 0 <= j < |c| && c[i].freshness == Current && c[j].freshness == Current
          && c[i].observed != c[j].observed;
      assert c[i] in rows && c[j] in rows;
    }
  }

  /** Whether a verdict is SATISFIED rests on the CURRENT observations alone, so adding others
      anywhere neither breaks it nor brings it about. */
  lemma OnlyCurrentDecides(p: Policy, observations: seq<Observation>, more: seq<Observation>)
    requires PolicyValid(p) && CurrentOf(observations) == CurrentOf(more)
    ensures Evaluate(p, observations) == Satisfied <==> Evaluate(p, more) == Satisfied
  {
    OnCurrent(p, observations);
    OnCurrent(p, more);
  }

  lemma OnCurrent(p: Policy, observations: seq<Observation>)
    requires PolicyValid(p)
    ensures Evaluate(p, observations) == Satisfied <==> Evaluate(p, CurrentOf(observations)) == Satisfied
  {
    JudgeCurrent(p.requirements, observations, p.requireDistinct, {});
    hide Disagree, Judge;
    forall r ensures Disagree(RowsFor(observations, r)) <==> Disagree(RowsFor(CurrentOf(observations), r)) {
      CurrentRows(observations, r.evidenceType, r.source);
      DisagreeCurrent(RowsFor(observations, r));
    }
  }

  // ----- distinct sources: what the greedy matcher decides -----------------------------------

  ghost predicate HasCandidate(r: Requirement, observations: seq<Observation>) {
    exists o :: Candidate(r, observations, o)
  }

  /** The observation a requirement takes when nothing is in its way. */
  function First(r: Requirement, observations: seq<Observation>): Option<Observation> {
    FirstMatch(r, RowsFor(observations, r), false, {})
  }

  /** Requirement b has a candidate from another source than a's first choice. */
  ghost predicate LeavesRoom(a: Requirement, b: Requirement, observations: seq<Observation>) {
    First(a, observations).Some? ==>
      exists o :: Candidate(b, observations, o) && o.Identity() != First(a, observations).value.Identity()
  }

  /** For every two requirements on one kind of source, the later one can avoid the first
      choice of the earlier one. */
  ghost predicate Room(requirements: seq<Requirement>, observations: seq<Observation>) {
    forall i, j :: 0 <= i < j < |requirements| && requirements[i].source == requirements[j].source ==>
      LeavesRoom(requirements[i], requirements[j], observations)
  }

  /** No two requirements share a (type, source) pair, and each pair is one that evidence can have. */
  ghost predicate Separate(requirements: seq<Requirement>) {
    && (forall i, j :: 0 <= i < j < |requirements| ==>
          (requirements[i].evidenceType, requirements[i].source) != (requirements[j].evidenceType,
                                                                     requirements[j].source))
    && (forall i :: 0 <= i < |requirements| ==>
          (requirements[i].source == LibvirtReadBack <==> requirements[i].evidenceType == VmRuntimeObservation))
  }

  lemma SeparateIfMatched(p: Policy, observations: seq<Observation>)
    requires PolicyValid(p) && !Conflict(p.requirements, observations)
    requires forall o :: o in observations ==> o.SourceFits()
    requires forall r :: r in p.requirements ==> HasCandidate(r, observations)
    ensures Separate(p.requirements)
  {
    var rs := p.requirements;
    forall i | 0 <= i < |rs| ensures rs[i].source == LibvirtReadBack <==> rs[i].evidenceType == VmRuntimeObservation {
      assert HasCandidate(rs[i], observations);
    }
    forall i, j | 0 <= i < j < |rs| ensures (rs[i].evidenceType, rs[i].source) != (rs[j].evidenceType, rs[j].source) {
      if rs[i].evidenceType == rs[j].evidenceType && rs[i].source == rs[j].source {
        assert HasCandidate(rs[i], observations) && HasCandidate(rs[j], observations);
        var a :| Candidate(rs[i], observations, a);
        var b :| Candidate(rs[j], observations, b);
        AgreeUnlessConflict(rs, observations, rs[i], a, b);
      }
    }
  }

  /** The used identities of one kind of source, before requirement k: none if no earlier
      requirement has that source, and the earlier one's first choice if exactly one has. */
  ghost predicate UsedBefore(rs: seq<Requirement>, observations: seq<Observation>, k: nat, used: set<SourceIdentity>)
    requires k <= |rs|
  {
    && (forall u :: u in used ==> exists m :: 0 <= m < k && rs[m].source == u.source)
    && (forall m :: 0 <= m < k && Alone(rs, m, k) && First(rs[m], observations).Some? ==>
          forall u: SourceIdentity :: u.source == rs[m].source ==>
          (u in used <==> u == First(rs[m], observations).value.Identity()))
  }

  /** Requirement m is the only one before k with its kind of source. */
  ghost predicate Alone(rs: seq<Requirement>, m: nat, k: nat)
    requires m < k <= |rs|
  {
    forall n :: 0 <= n < k && n != m ==> rs[n].source != rs[m].source
  }

  /** Earlier requirements on the source of requirement k: there is at most one. */
  lemma AtMostOneBefore(rs: seq<Requirement>, m: nat, k: nat)
    requires Separate(rs) && m < k < |rs| && rs[m].source == rs[k].source
    ensures Alone(rs, m, k)
  {
  }

  lemma {:induction false} SameFirst(r: Requirement, rows: seq<Observation>, used: set<SourceIdentity>)
    requires forall o :: o in rows ==> o.Identity() !in used
    ensures FirstMatch(r, rows, true, used) == FirstMatch(r, rows, false, {})
  {
    if rows != [] {
      assert rows[0] in rows;
      SameFirst(r, rows[1..], used);
    }
  }

  /** What the matcher does at requirement k. */
  lemma GreedyStep(rs: seq<Requirement>, observations: seq<Observation>, k: nat, used: set<SourceIdentity>)
    requires Separate(rs) && k < |rs| && UsedBefore(rs, observations, k, used)
    requires forall r :: r in rs ==> HasCandidate(r, observations)
    ensures var o := FirstMatch(rs[k], RowsFor(observations, rs[k]), true, used);
            && (o.Some? <==> forall i :: 0 <= i < k && rs[i].source == rs[k].source ==>
                LeavesRoom(rs[i], rs[k], observations))
            && (o.Some? ==> UsedBefore(rs, observations, k + 1, used + {o.value.Identity()}))
  {
    var r := rs[k];
    var o := FirstMatch(r, RowsFor(observations, r), true, used);
    FirstMatchIff(r, observations, true, used);
    FirstMatchIff(r, observations, false, {});
    assert HasCandidate(r, observations);
    if m :| 0 <= m < k && rs[m].source == r.source {
      AtMostOneBefore(rs, m, k);
      FirstMatchIff(rs[m], observations, false, {});
      assert HasCandidate(rs[m], observations);
      OneBefore(rs, observations, m, k, used);
    } else {
      NoneBefore(rs, observations, k, used);
    }
    if o.Some? { UsedAfter(rs, observations, k, used, o.value); }
  }

  lemma OneBefore(rs: seq<Requirement>, observations: seq<Observation>, m: nat, k: nat, used: set<SourceIdentity>)
    requires m < k < |rs| && rs[m].source == rs[k].source && Alone(rs, m, k) && UsedBefore(rs, observations, k, used)
    requires First(rs[m], observations).Some?
    ensures FirstMatch(rs[k], RowsFor(observations, rs[k]), true, used).Some? <==>
              LeavesRoom(rs[m], rs[k], observations)
  {
    FirstMatchIff(rs[k], observations, true, used);
    hide First, FirstMatch, RowsFor;
    var taken := First(rs[m], observations).value.Identity();
    forall x: Observation | Candidate(rs[k], observations, x) ensures x.Identity() in used <==> x.Identity() == taken {
      assert x.Identity().source == rs[m].source;
    }
  }

  lemma NoneBefore(rs: seq<Requirement>, observations: seq<Observation>, k: nat, used: set<SourceIdentity>)
    requires k < |rs| && UsedBefore(rs, observations, k, used)
    requires forall m :: 0 <= m < k ==> rs[m].source != rs[k].source
    requires HasCandidate(rs[k], observations)
    ensures FirstMatch(rs[k], RowsFor(observations, rs[k]), true, used) == First(rs[k], observations)
    ensures First(rs[k], observations).Some?
  {
    var rows := RowsFor(observations, rs[k]);
    FirstMatchIff(rs[k], observations, false, {});
    forall o | o in rows ensures o.Identity() !in used {
      RowsMembers(observations, rs[k].evidenceType, rs[k].source, o);
    }
    SameFirst(rs[k], rows, used);
  }

  lemma UsedAfter(rs: seq<Requirement>, observations: seq<Observation>, k: nat, used: set<SourceIdentity>,
                  o: Observation)
    requires k < |rs| && UsedBefore(rs, observations, k, used) && o.source == rs[k].source
    requires (forall m :: 0 <= m < k ==> rs[m].source != rs[k].source) ==> First(rs[k], observations) == Some(o)
    ensures UsedBefore(rs, observations, k + 1, used + {o.Identity()})
  {
    hide First;
    var used' := used + {o.Identity()};
    forall u | u in used' ensures exists m :: 0 <= m < k + 1 && rs[m].source == u.source {
      if u in used {
        var m :| 0 <= m < k && rs[m].source == u.source;
      } else {
        assert rs[k].source == u.source;
      }
    }
    forall m, u: SourceIdentity | 0 <= m < k + 1 && Alone(rs, m, k + 1) && First(rs[m], observations).Some?
    && u.source == rs[m].source
      ensures u in used' <==> u == First(rs[m], observations).value.Identity()
    {
      if m < k { assert Alone(rs, m, k) && rs[k].source != rs[m].source; }
    }
  }

  lemma {:induction false} GreedyIff(rs: seq<Requirement>, observations: seq<Observation>, k: nat,
                                     used: set<SourceIdentity>)
    requires Separate(rs) && k <= |rs| && UsedBefore(rs, observations, k, used)
    requires forall r :: r in rs ==> HasCandidate(r, observations)
    ensures Judge(rs[k..], observations, true, used) == Satisfied <==>
              forall i, j :: 0 <= i < j < |rs| && k <= j && rs[i].source == rs[j].source ==>
                  LeavesRoom(rs[i], rs[j], observations)
    decreases |rs| - k
  {
    hide Separate, UsedBefore, HasCandidate, LeavesRoom, FirstMatch, RowsFor;
    if k < |rs| {
      GreedyStep(rs, observations, k, used);
      assert rs[k..][0] == rs[k] && rs[k..][1..] == rs[k + 1..];
      if o: Observation :| FirstMatch(rs[k], RowsFor(observations, rs[k]), true, used) == Some(o) {
        GreedyIff(rs, observations, k + 1, used + {o.Identity()});
      }
    }
  }

  /** With distinct sources the matcher is greedy.  It answers SATISFIED exactly when there is no
      conflict, every requirement has a candidate, and every later requirement on a kind of
      source can avoid the first choice of an earlier one on the same kind. */
  lemma DistinctSatisfiedIff(p: Policy, observations: seq<Observation>)
    requires PolicyValid(p) && p.requireDistinct && forall o :: o in observations ==> o.SourceFits()
    ensures Evaluate(p, observations) == Satisfied <==>
              && !Conflict(p.requirements, observations)
              && (forall r :: r in p.requirements ==> HasCandidate(r, observations))
              && Room(p.requirements, observations)
  {
    var rs := p.requirements;
    assert rs[0..] == rs;
    if Evaluate(p, observations) == Satisfied {
      var picks := JudgePicks(rs, observations, true, {});
      forall r | r in rs ensures HasCandidate(r, observations) {
        var i :| 0 <= i < |rs| && rs[i] == r;
        assert Candidate(r, observations, picks[i]);
      }
    }
    if !Conflict(rs, observations) && forall r :: r in rs ==> HasCandidate(r, observations) {
      SeparateIfMatched(p, observations);
      GreedyIff(rs, observations, 0, {});
    }
  }

  /** Without distinct sources SATISFIED means just that: no conflict, and a candidate each. */
  lemma {:induction false} PlainSatisfiedIff(p: Policy, observations: seq<Observation>)
    requires !p.requireDistinct
    ensures Evaluate(p, observations) == Satisfied <==>
              !Conflict(p.requirements, observations) && forall r :: r in p.requirements ==>
                  HasCandidate(r, observations)
  {
    PlainJudge(p.requirements, observations, {});
  }

  lemma {:induction false} PlainJudge(requirements: seq<Requirement>, observations: seq<Observation>,
                                      used: set<SourceIdentity>)
    ensures Judge(requirements, observations, false, used) == Satisfied <==>
              forall r :: r in requirements ==> HasCandidate(r, observations)
  {
    if requirements != [] {
      var r := requirements[0];
      FirstMatchIff(r, observations, false, used);
      assert requirements == [r] + requirements[1..];
      if o: Observation :| FirstMatch(r, RowsFor(observations, r), false, used) == Some(o) {
        PlainJudge(requirements[1..], observations, used + {o.Identity()});
        assert HasCandidate(r, observations);
      } else {
        assert !HasCandidate(r, observations);
      }
    }
  }

  // ----- the other verdicts --------------------------------------------------------------------

  /** An observation of the kind that a requirement asks for. */
  ghost predicate OfKind(r: Requirement, observations: seq<Observation>, o: Observation) {
    o in observations && o.evidenceType == r.evidenceType && o.source == r.source
  }

  /** CONFLICTING_INPUT means exactly that two CURRENT observations of one required kind differ. */
  lemma ConflictIff(p: Policy, observations: seq<Observation>)
    ensures Evaluate(p, observations) == ConflictingInput <==>
              exists r, a, b :: r in p.requirements && OfKind(r, observations, a) && OfKind(r, observations, b)
                                && a.freshness == Current && b.freshness == Current && a.observed != b.observed
  {
    forall r ensures Disagree(RowsFor(observations, r)) <==>
                     exists a, b :: OfKind(r, observations, a) && OfKind(r, observations, b)
                                    && a.freshness == Current && b.freshness == Current && a.observed != b.observed
    {
      DisagreeMembers(r, observations);
    }
    NeverConflicting(p.requirements, observations, p.requireDistinct, {});
  }

  lemma DisagreeMembers(r: Requirement, observations: seq<Observation>)
    ensures Disagree(RowsFor(observations, r)) <==>
              exists a, b :: OfKind(r, observations, a) && OfKind(r, observations, b)
                             && a.freshness == Current && b.freshness == Current && a.observed != b.observed
  {
    var rows := RowsFor(observations, r);
    forall o ensures o in rows <==> OfKind(r, observations, o) {
      RowsMembers(observations, r.evidenceType, r.source, o);
    }
    hide OfKind;
  }

  lemma {:induction false} NeverConflicting(requirements: seq<Requirement>, observations: seq<Observation>,
                                            distinct: bool, used: set<SourceIdentity>)
    ensures Judge(requirements, observations, distinct, used) != ConflictingInput
  {
    if requirements != [] {
      var o := FirstMatch(requirements[0], RowsFor(observations, requirements[0]), distinct, used);
      if o.Some? { NeverConflicting(requirements[1..], observations, distinct, used + {o.value.Identity()}); }
    }
  }

  /** The verdict of a requirement that was not met, by what there is of its kind: something UNKNOWN or
      without a date, else something AGED, else nothing that helps. */
  ghost predicate Explains(r: Requirement, observations: seq<Observation>, v: Verdict) {
    var unsure := exists o :: OfKind(r, observations, o) && (o.observed == Unknown || o.freshness == Undated);
    var aged := exists o :: OfKind(r, observations, o) && o.freshness == Aged;
    (v == UnknownEvidence && unsure) || (v == StaleEvidence && !unsure && aged)
    || (v == NotSatisfied && !unsure && !aged)
  }

  /** Any other verdict is explained by one requirement, and without distinct sources by the first that
      has no candidate. */
  lemma UnmetIsExplained(p: Policy, observations: seq<Observation>) returns (k: nat)
    requires Evaluate(p, observations) != Satisfied && Evaluate(p, observations) != ConflictingInput
    ensures k < |p.requirements| && Explains(p.requirements[k], observations, Evaluate(p, observations))
    ensures !p.requireDistinct ==>
              !HasCandidate(p.requirements[k], observations)
              && forall j :: 0 <= j < k ==> HasCandidate(p.requirements[j], observations)
  {
    k := JudgeUnmet(p.requirements, observations, p.requireDistinct, {});
  }

  lemma {:induction false} JudgeUnmet(requirements: seq<Requirement>, observations: seq<Observation>, distinct: bool,
                                      used: set<SourceIdentity>) returns (k: nat)
    requires Judge(requirements, observations, distinct, used) != Satisfied
    ensures k < |requirements|
    ensures Explains(requirements[k], observations, Judge(requirements, observations, distinct, used))
    ensures !distinct ==> !HasCandidate(requirements[k], observations)
                          && forall j :: 0 <= j < k ==> HasCandidate(requirements[j], observations)
  {
    var r := requirements[0];
    FirstMatchIff(r, observations, distinct, used);
    var o := FirstMatch(r, RowsFor(observations, r), distinct, used);
    if o.Some? {
      var rest := JudgeUnmet(requirements[1..], observations, distinct, used + {o.value.Identity()});
      assert HasCandidate(r, observations);
      k := rest + 1;
    } else {
      MissingExplains(r, observations);
      k := 0;
    }
  }

  lemma MissingExplains(r: Requirement, observations: seq<Observation>)
    ensures Explains(r, observations, Missing(RowsFor(observations, r)))
  {
    var rows := RowsFor(observations, r);
    forall o ensures o in rows <==> OfKind(r, observations, o) {
      RowsMembers(observations, r.evidenceType, r.source, o);
    }
    hide OfKind;
  }

  /** Greedy matching is incomplete: here an assignment from distinct sources exists, and the
      evaluator does not find it, because it does not go back on its first choice. */
  lemma GreedyMissesAnAssignment() returns (p: Policy, observations: seq<Observation>, picks: seq<Observation>)
    ensures PolicyValid(p) && forall o :: o in observations ==> o.Valid()
    ensures Assignment(p.requirements, observations, p.requireDistinct, picks)
    ensures !Conflict(p.requirements, observations)
    ensures Evaluate(p, observations) != Satisfied
  {
    var a := Requirement(1, AgentConnectivityLoss, Present, Current, ControlPlane);
    var b := Requirement(2, HostOperationAuthorityState, Present, Current, ControlPlane);
    p := Policy(true, [a, b]);
    var shared := Observation("e1", AgentConnectivityLoss, ControlPlane, "h", 1, 1, 1, 1, Present, Current, Text("d"),
                              1);
    var other := shared.(evidenceId := "e2", generation := 2);
    var host := shared.(evidenceId := "e3", evidenceType := HostOperationAuthorityState);
    observations := [shared] + [other, host];
    picks := [other, host];
    NoConflictIfUniform(p.requirements, observations, Present);
    assert First(a, observations) == Some(shared) by { FirstIsHead(a, shared, [other, host]); }
    assert !LeavesRoom(a, b, observations) by {
      hide First;
      forall o | Candidate(b, observations, o) ensures o.Identity() == shared.Identity() {
        assert o == host;
      }
    }
    assert p.requirements[0] == a && p.requirements[1] == b;
    hide LeavesRoom, First, Evaluate, Conflict, HasCandidate;
    DistinctSatisfiedIff(p, observations);
  }

  lemma NoConflictIfUniform(requirements: seq<Requirement>, observations: seq<Observation>, state: Observed)
    requires forall o :: o in observations ==> o.observed == state
    ensures !Conflict(requirements, observations)
  {
    forall r ensures !Disagree(RowsFor(observations, r)) {
      var rows := RowsFor(observations, r);
      forall i | 0 <= i < |rows| ensures rows[i].observed == state {
        RowsMembers(observations, r.evidenceType, r.source, rows[i]);
      }
    }
  }

  /** A candidate at the head of the evidence is the first choice. */
  lemma {:induction false} FirstIsHead(r: Requirement, o: Observation, rest: seq<Observation>)
    requires Candidate(r, [o], o)
    ensures RowsFor([o] + rest, r) != [] && RowsFor([o] + rest, r)[0] == o
    ensures First(r, [o] + rest) == Some(o)
  {
    if rest == [] {
      assert [o] + rest == [o] && [o][..0] == [];
      assert Rows([o], r.evidenceType, r.source) == Rows([], r.evidenceType, r.source) + [o];
    } else {
      FirstIsHead(r, o, rest[..|rest| - 1]);
      assert ([o] + rest)[..|rest|] == [o] + rest[..|rest| - 1];
    }
  }
}
