/** The identities the Gateway derives for verifications, internal/agent/gateway/message_receiver.go:
    text glued to a decimal attempt, so their uniqueness is a property of strings. */
module ReadBackIdentity {
  import opened Common
  import opened Execution

  ghost predicate Digits(s: string) { forall i :: 0 <= i < |s| ==> '0' <= s[i] <= '9' }

  lemma {:induction false} DecimalDigits(n: nat)
    ensures Digits(Decimal(n)) && |Decimal(n)| >= 1
    ensures n >= 10 ==> |Decimal(n)| >= 2
  {
    if n >= 10 { DecimalDigits(n / 10); }
  }

  lemma {:induction false} DecimalInjective(m: nat, n: nat)
    requires Decimal(m) == Decimal(n)
    ensures m == n
  {
    DecimalDigits(m);
    DecimalDigits(n);
    var s := Decimal(m);
    assert s[|s| - 1] as int == '0' as int + m % 10 == '0' as int + n % 10;
    if m >= 10 && n >= 10 {
      assert s == Decimal(m / 10) + s[|s| - 1..] && s == Decimal(n / 10) + s[|s| - 1..];
      assert Decimal(m / 10) == s[..|s| - 1] == Decimal(n / 10);
      DecimalInjective(m / 10, n / 10);
    }
  }

  lemma DigitAt(p: string, d: string, s: string, k: nat)
    requires Digits(d) && s == p + "-" + d && |p| < k < |s|
    ensures s[k] != '-'
  {
    assert s[k] == d[k - |p| - 1];
  }

  /** A number after the last dash can be split off in one way. */
  lemma LastDash(p: string, d: string, q: string, e: string)
    requires Digits(d) && Digits(e) && p + "-" + d == q + "-" + e
    ensures p == q && d == e
  {
    var s := p + "-" + d;
    assert s[|p|] == '-' && s[|q|] == '-';
    if |p| < |q| {
      DigitAt(p, d, s, |q|);
    } else if |q| < |p| {
      DigitAt(q, e, s, |p|);
    }
    assert p == s[..|p|] && q == s[..|q|];
    assert d == s[|p| + 1..] && e == s[|q| + 1..];
  }

  lemma SameTail(p: string, q: string, tail: string)
    ensures p + tail == q + tail <==> p == q
  {
    if p + tail == q + tail {
      assert p == (p + tail)[..|p|] && q == (q + tail)[..|q|];
    }
  }

  /** Result messages get one verification identity exactly when they are about one attempt of one
      command. */
  lemma ResultIdentityIff(m: ResultMessage, n: ResultMessage)
    requires m.outcome != OutcomeFailed && n.outcome != OutcomeFailed
    ensures DecideResult(m).verification.value.verificationId == DecideResult(n).verification.value.verificationId
       <==> m.id == n.id && m.attempt == n.attempt
  {
    hide Decimal;
    assert "-verification" + "-" == "-verification-";
    AttemptTail(m.id, m.attempt, "-verification", n.id, n.attempt, "-verification");
    SameTail(m.id, n.id, "-verification");
  }

  lemma AttemptTail(id: string, attempt: nat, kind: string, id': string, attempt': nat, kind': string)
    ensures id + (kind + "-") + Decimal(attempt) == id' + (kind' + "-") + Decimal(attempt')
       <==> id + kind == id' + kind' && attempt == attempt'
  {
    hide Decimal;
    DecimalDigits(attempt);
    DecimalDigits(attempt');
    var d, d' := Decimal(attempt), Decimal(attempt');
    assert id + (kind + "-") + d == (id + kind) + "-" + d;
    assert id' + (kind' + "-") + d' == (id' + kind') + "-" + d';
    if (id + kind) + "-" + d == (id' + kind') + "-" + d' {
      LastDash(id + kind, d, id' + kind', d');
      DecimalInjective(attempt, attempt');
    }
  }

  lemma ObservationIdentityIff(m: ObservationMessage, n: ObservationMessage)
    ensures DecideObservation(m).verification.verificationId == DecideObservation(n).verification.verificationId
       <==> m.id == n.id && m.attempt == n.attempt
  {
    hide Decimal;
    assert "-resync-verification" + "-" == "-resync-verification-";
    AttemptTail(m.id, m.attempt, "-resync-verification", n.id, n.attempt, "-resync-verification");
    SameTail(m.id, n.id, "-resync-verification");
  }

  /** The two kinds of message are not kept apart for every command: a result of a command whose
      name is another command's with "-resync" behind it gets the identity of that command's
      read-back of the same attempt, and this is the only clash. */
  lemma IdentitiesClashIff(m: ResultMessage, n: ObservationMessage)
    requires m.outcome != OutcomeFailed
    ensures DecideResult(m).verification.value.verificationId == DecideObservation(n).verification.verificationId
       <==> m.id == n.id + "-resync" && m.attempt == n.attempt
  {
    hide Decimal;
    assert "-verification" + "-" == "-verification-" && "-resync-verification" + "-" == "-resync-verification-";
    AttemptTail(m.id, m.attempt, "-verification", n.id, n.attempt, "-resync-verification");
    assert n.id + "-resync-verification" == (n.id + "-resync") + "-verification";
    SameTail(m.id, n.id + "-resync", "-verification");
  }

  /** Then whichever of the two is recorded first makes every recording of the other fail. */
  lemma ClashIsRefused(db: Db, m: ResultMessage, n: ObservationMessage, projected: bool)
    requires m.outcome != OutcomeFailed && m.id == n.id + "-resync" && m.attempt == n.attempt
    ensures var v, w := DecideResult(m).verification.value, DecideObservation(n).verification;
            && v.row != w.row
            && (v.verificationId in db.evidence && db.evidence[v.verificationId] == v.row ==>
                  RecordVerification(db, w, projected).result.Err? && RecordVerification(db, w, projected).db == db)
            && (w.verificationId in db.evidence && db.evidence[w.verificationId] == w.row ==>
                  RecordVerification(db, v, projected).result.Err? && RecordVerification(db, v, projected).db == db)
  {
    hide Decimal, SameAttempts;
    IdentitiesClashIff(m, n);
  }
}
