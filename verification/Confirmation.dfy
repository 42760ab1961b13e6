/** The failure-confirmation evaluator
    (internal/persistence/postgres/failure_confirmation.go). */
module Confirmation {
  import opened Common

  datatype EvidenceType = AgentConnectivityLoss | HostOperationAuthorityState | VmRuntimeObservation
  datatype SourceType = ControlPlane | LibvirtReadBack
  datatype Observed = Present | Absent | Unknown | Conflicting
  datatype Freshness = Current | Aged | Undated

  /** What the source-identity digest covers; the digest is its injective image. */
  datatype SourceIdentity = SourceIdentity(source: SourceType, host: HostId, session: nat, credential: nat,
                                           authority: nat, generation: nat)

  datatype Observation = Observation(
    evidenceId: string, evidenceType: EvidenceType, source: SourceType, host: HostId,
    session: nat, credential: nat, authority: nat, generation: nat,
    observed: Observed, freshness: Freshness, payload: Digest, observedAt: nat)
  {
    function Identity(): SourceIdentity { SourceIdentity(source, host, session, credential, authority, generation) }

    /** Each type of evidence comes from one kind of source. */
    predicate SourceFits() {
      match evidenceType
      case AgentConnectivityLoss => source == ControlPlane && session > 0 && credential > 0
      case HostOperationAuthorityState => source == ControlPlane && authority > 0
      case VmRuntimeObservation => source == LibvirtReadBack
    }

    /** validFailureObservation. */
    predicate Valid() {
      evidenceId != "" && host != "" && generation != 0 && payload != Text("") && observedAt != 0 && SourceFits()
    }
  }

  datatype Requirement = Requirement(ordinal: int, evidenceType: EvidenceType, observed: Observed,
                                     freshness: Freshness, source: SourceType)

  datatype Policy = Policy(requireDistinct: bool, requirements: seq<Requirement>)

  /** The part of validFailureConfirmationPolicy that concerns requirements. */
  ghost predicate PolicyValid(p: Policy) {
    && p.requirements != []
    && (forall i :: 0 <= i < |p.requirements| ==>
          var r := p.requirements[i];
          r.ordinal == i + 1 && (r.observed == Present || r.observed == Absent) && r.freshness == Current)
    && (forall i, j :: 0 <= i < j < |p.requirements| ==>
          var a, b := p.requirements[i], p.requirements[j];
          (a.evidenceType, a.observed, a.freshness, a.source) != (b.evidenceType, b.observed, b.freshness, b.source))
  }

  datatype Verdict = Satisfied | ConflictingInput | UnknownEvidence | StaleEvidence | NotSatisfied

  // ----- what the evaluator computes ------------------------------------------------------------

  /** The observations of one (type, source) pair, in order. */
  function Rows(observations: seq<Observation>, t: EvidenceType, s: SourceType): seq<Observation> {
    if observations == [] then []
    else
      var last := observations[|observations| - 1];
      Rows(observations[..|observations| - 1], t, s) + if last.evidenceType == t && last.source == s then [last] else []
  }

  function RowsFor(observations: seq<Observation>, r: Requirement): seq<Observation> {
    Rows(observations, r.evidenceType, r.source)
  }

  /** Two CURRENT rows report different states. */
  ghost predicate Disagree(rows: seq<Observation>) {
    exists i, j :: 0 <= i < |rows| && 0 <= j < |rows| && rows[i].freshness == Current && rows[j].freshness == Current
                   && rows[i].observed != rows[j].observed
  }

  predicate Fits(r: Requirement, o: Observation) { o.observed == r.observed && o.freshness == r.freshness }

  predicate Matches(r: Requirement, o: Observation, distinct: bool, used: set<SourceIdentity>) {
    Fits(r, o) && (!distinct || o.Identity() !in used)
  }

  function FirstMatch(r: Requirement, rows: seq<Observation>, distinct: bool,
                      used: set<SourceIdentity>): Option<Observation> {
    if rows == [] then None
    else if Matches(r, rows[0], distinct, used) then Some(rows[0])
    else FirstMatch(r, rows[1..], distinct, used)
  }

  lemma {:induction false} FirstMatchFinds(r: Requirement, rows: seq<Observation>, distinct: bool,
                                           used: set<SourceIdentity>)
    ensures var o := FirstMatch(r, rows, distinct, used);
            && (o.Some? <==> exists x :: x in rows && Matches(r, x, distinct, used))
            && (o.Some? ==> o.value in rows && Matches(r, o.value, distinct, used))
  {
    hide Matches;
    if rows != [] {
      FirstMatchFinds(r, rows[1..], distinct, used);
      assert rows == [rows[0]] + rows[1..];
    }
  }

  predicate SaysUnknown(o: Observation) { o.observed == Unknown || o.freshness == Undated }

  ghost function Missing(rows: seq<Observation>): Verdict {
    if exists i :: 0 <= i < |rows| && SaysUnknown(rows[i]) then UnknownEvidence
    else if exists i :: 0 <= i < |rows| && rows[i].freshness == Aged then StaleEvidence
    else NotSatisfied
  }

  ghost function Judge(requirements: seq<Requirement>, observations: seq<Observation>, distinct: bool,
                       used: set<SourceIdentity>): Verdict {
    if requirements == [] then Satisfied
    else
      var rows := RowsFor(observations, requirements[0]);
      match FirstMatch(requirements[0], rows, distinct, used)
      case None => Missing(rows)
      case Some(o) => Judge(requirements[1..], observations, distinct, used + {o.Identity()})
  }

  ghost predicate Conflict(requirements: seq<Requirement>, observations: seq<Observation>) {
    exists r :: r in requirements && Disagree(RowsFor(observations, r))
  }

  ghost function Evaluate(p: Policy, observations: seq<Observation>): Verdict {
    if Conflict(p.requirements, observations) then ConflictingInput
    else Judge(p.requirements, observations, p.requireDistinct, {})
  }

  // ----- the evaluator itself ---------------------------------------------------------------------

  type Groups = map<(EvidenceType, SourceType), seq<Observation>>

  function Group(g: Groups, t: EvidenceType, s: SourceType): seq<Observation> { if (t, s) in g then g[(t, s)] else [] }

  ghost predicate IsGrouping(g: Groups, observations: seq<Observation>) {
    forall t, s :: Group(g, t, s) == Rows(observations, t, s)
  }

  method GroupRows(observations: seq<Observation>) returns (relevant: Groups)
    ensures IsGrouping(relevant, observations)
  {
    relevant := map[];
    for i := 0 to |observations|
      invariant IsGrouping(relevant, observations[..i])
    {
      var o := observations[i];
      assert observations[..i + 1][..i] == observations[..i];
      relevant := relevant[(o.evidenceType, o.source) := Group(relevant, o.evidenceType, o.source) + [o]];
    }
    assert observations[..|observations|] == observations;
  }

  /** evaluateConfirmationRequirements: one pass for conflicts, one for matches. */
  method EvaluateRequirements(p: Policy, observations: seq<Observation>) returns (v: Verdict)
    ensures v == Evaluate(p, observations)
  {
    hide Disagree, Judge;
    var relevant := GroupRows(observations);
    var k := 0;
    while k < |p.requirements|
      invariant k <= |p.requirements|
      invariant forall m :: 0 <= m < k ==> !Disagree(RowsFor(observations, p.requirements[m]))
    {
      var r := p.requirements[k];
      var disagree := HasConflict(Group(relevant, r.evidenceType, r.source));
      if disagree {
        assert r in p.requirements && Disagree(RowsFor(observations, r));
        return ConflictingInput;
      }
      k := k + 1;
    }
    assert !Conflict(p.requirements, observations);
    v := MatchRequirements(p, relevant, observations);
  }

  /** The first pass over one pair's rows collects the states its CURRENT rows report. */
  method HasConflict(rows: seq<Observation>) returns (disagree: bool)
    ensures disagree <==> Disagree(rows)
  {
    var states: set<Observed> := {};
    for i := 0 to |rows|
      invariant states == set j | 0 <= j < i && rows[j].freshness == Current :: rows[j].observed
    {
      if rows[i].freshness == Current { states := states + {rows[i].observed}; }
    }
    disagree := |states| > 1;
    MoreThanOne(states);
    if disagree {
      var a, b :| a in states && b in states && a != b;
      var i :| 0 <= i < |rows| && rows[i].freshness == Current && rows[i].observed == a;
      var j :| 0 <= j < |rows| && rows[j].freshness == Current && rows[j].observed == b;
    } else {
      forall i, j | 0 <= i < |rows| && 0 <= j < |rows| && rows[i].freshness == Current && rows[j].freshness == Current
        ensures rows[i].observed == rows[j].observed
      {
        assert rows[i].observed in states && rows[j].observed in states;
      }
    }
  }

  lemma MoreThanOne<T>(s: set<T>)
    ensures |s| > 1 <==> exists a, b :: a in s && b in s && a != b
  {
    if |s| > 1 {
      var a :| a in s;
      assert |s - {a}| == |s| - 1;
      var b :| b in s - {a};
      assert a in s && b in s && a != b;
    }
    if a, b :| a in s && b in s && a != b {
      assert |s - {a}| == |s| - 1 && b in s - {a};
    }
  }

  method MatchRequirements(p: Policy, relevant: Groups, ghost observations: seq<Observation>)
    returns (v: Verdict)
    requires IsGrouping(relevant, observations)
    ensures v == Judge(p.requirements, observations, p.requireDistinct, {})
  {
    var used: set<SourceIdentity> := {};
    var k := 0;
    assert p.requirements[0..] == p.requirements;
    while k < |p.requirements|
      invariant k <= |p.requirements|
      invariant Judge(p.requirements, observations, p.requireDistinct, {}) ==
                Judge(p.requirements[k..], observations, p.requireDistinct, used)
    {
      var r := p.requirements[k];
      var rows := Group(relevant, r.evidenceType, r.source);
      assert rows == RowsFor(observations, r);
      assert p.requirements[k..][0] == r && p.requirements[k..][1..] == p.requirements[k + 1..];
      var found, unknown, stale := ScanRows(r, rows, p.requireDistinct, used);
      if found.None? {
        return if unknown then UnknownEvidence else if stale then StaleEvidence else NotSatisfied;
      }
      used := used + {found.value.Identity()};
      k := k + 1;
    }
    v := Satisfied;
  }

  /** The second pass over one requirement's rows stops at the first match. */
  method ScanRows(r: Requirement, rows: seq<Observation>, distinct: bool, used: set<SourceIdentity>)
    returns (found: Option<Observation>, unknown: bool, stale: bool)
    ensures found == FirstMatch(r, rows, distinct, used)
    ensures found.None? ==>
              Missing(rows) == if unknown then UnknownEvidence else if stale then StaleEvidence else NotSatisfied
  {
    hide SaysUnknown, Matches;
    unknown, stale := false, false;
    var i := 0;
    assert rows[0..] == rows;
    while i < |rows|
      invariant i <= |rows|
      invariant unknown <==> exists j :: 0 <= j < i && SaysUnknown(rows[j])
      invariant stale <==> exists j :: 0 <= j < i && rows[j].freshness == Aged
      invariant FirstMatch(r, rows, distinct, used) == FirstMatch(r, rows[i..], distinct, used)
    {
      var o := rows[i];
      if SaysUnknown(o) { unknown := true; }
      if o.freshness == Aged { stale := true; }
      assert rows[i..][0] == o && rows[i..][1..] == rows[i + 1..];
      if Matches(r, o, distinct, used) { return Some(o), unknown, stale; }
      i := i + 1;
    }
    found := None;
  }
}
