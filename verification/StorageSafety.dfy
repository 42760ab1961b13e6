/** The storage-safety verdict of a confirmed failure epoch: the decision logic of
    EvaluateStorageSafety in internal/persistence/postgres/failure_safety.go, over the attachment
    rows it has loaded. */
module StorageSafety {
  import opened Common

  datatype AttachmentState = Detached | AttachmentUnknown | AttachmentConflicting | OtherAttachment
  datatype EvidenceState = Matched | EvidenceUnknown | EvidenceConflicting | OtherEvidence

  datatype Input = Input(attachment: string, volume: string, state: AttachmentState, evidence: EvidenceState,
                         released: bool, bound: bool, devicePresent: bool, holderOpen: bool)
  {
    predicate Unsure() { state == AttachmentUnknown || evidence == EvidenceUnknown }
    predicate Contradictory() { state == AttachmentConflicting || evidence == EvidenceConflicting }
    /** Detached, given up by its claim, still bound, read back, and held open by nobody. */
    predicate SafelyDetached() {
      state == Detached && released && bound && evidence == Matched && !devicePresent && !holderOpen
    }
  }

  datatype Verdict = Safe | NotSafe | Unknown | ConflictingInput
  datatype Usability = Missing | Stale | UsabilityUnknown | Usable

  /** The proof about the root volume, for policies that allow a quiesced root. */
  datatype Root = Root(attachment: string, volume: string, usability: Usability)

  /** The first row that is not safely detached decides; if there is none, `otherwise`. */
  function FirstObjection(inputs: seq<Input>, otherwise: Verdict): Verdict {
    if inputs == [] then otherwise
    else if inputs[0].Unsure() then Unknown
    else if inputs[0].Contradictory() then ConflictingInput
    else if !inputs[0].SafelyDetached() then NotSafe
    else FirstObjection(inputs[1..], otherwise)
  }

  /** The rows of the data volumes. */
  function Data(inputs: seq<Input>, root: string): seq<Input> {
    if inputs == [] then []
    else
      var last := inputs[|inputs| - 1];
      Data(inputs[..|inputs| - 1], root) + if last.attachment != root then [last] else []
  }

  predicate RootMismatch(inputs: seq<Input>, root: Root) {
    exists i :: 0 <= i < |inputs| && inputs[i].attachment == root.attachment && inputs[i].volume != root.volume
  }

  function RootVerdict(inputs: seq<Input>, root: Root): Verdict {
    if RootMismatch(inputs, root) then ConflictingInput
    else match root.usability
         case Missing => NotSafe
         case Stale => NotSafe
         case UsabilityUnknown => Unknown
         case Usable => Safe
  }

  function Evaluate(inputs: seq<Input>, root: Option<Root>): Verdict {
    if root.Some? then FirstObjection(Data(inputs, root.value.attachment), RootVerdict(inputs, root.value))
    else if inputs == [] then NotSafe
    else FirstObjection(inputs, Safe)
  }

  // ----- the decision in place ------------------------------------------------------------------

  /** Keeps the data rows at the front of the same buffer, and notices a root row that names
      another volume. */
  method KeepData(a: array<Input>, root: Root) returns (n: nat, mismatch: bool)
    modifies a
    ensures n <= a.Length && a[..n] == Data(old(a[..]), root.attachment)
    ensures mismatch <==> RootMismatch(old(a[..]), root)
  {
    n, mismatch := 0, false;
    ghost var was := a[..];
    for i := 0 to a.Length
      invariant n <= i && a[..n] == Data(was[..i], root.attachment)
      invariant forall k :: i <= k < a.Length ==> a[k] == was[k]
      invariant mismatch <==> RootMismatch(was[..i], root)
    {
      assert was[..i + 1][..i] == was[..i] && was[..i + 1] == was[..i] + [was[i]];
      if a[i].attachment != root.attachment {
        a[n] := a[i];
        n := n + 1;
      } else if a[i].volume != root.volume {
        mismatch := true;
      }
    }
    assert was[..a.Length] == was;
  }

  method EvaluateStorageSafety(a: array<Input>, root: Option<Root>) returns (v: Verdict)
    modifies a
    ensures v == Evaluate(old(a[..]), root)
  {
    var n := a.Length;
    if root.Some? {
      ghost var was := a[..];
      var mismatch;
      n, mismatch := KeepData(a, root.value);
      v := if mismatch then ConflictingInput
           else match root.value.usability
                case Missing => NotSafe
                case Stale => NotSafe
                case UsabilityUnknown => Unknown
                case Usable => Safe;
      assert v == RootVerdict(was, root.value);
    } else if a.Length == 0 {
      return NotSafe;
    } else {
      v := Safe;
      assert a[..] == a[..n];
    }
    ghost var otherwise := v;
    var i := 0;
    assert a[0..n] == a[..n];
    while i < n
      invariant i <= n && v == otherwise
      invariant FirstObjection(a[..n], otherwise) == FirstObjection(a[i..n], otherwise)
    {
      assert a[i..n][0] == a[i] && a[i..n][1..] == a[i + 1..n];
      if a[i].Unsure() { return Unknown; }
      if a[i].Contradictory() { return ConflictingInput; }
      if !a[i].SafelyDetached() { return NotSafe; }
      i := i + 1;
    }
  }

  // ----- what SAFE means ---------------------------------------------------------------------------

  lemma {:induction false} NoObjectionIff(inputs: seq<Input>, otherwise: Verdict)
    ensures FirstObjection(inputs, otherwise) == Safe <==>
              otherwise == Safe && forall i :: 0 <= i < |inputs| ==> inputs[i].SafelyDetached()
  {
    if inputs != [] {
      NoObjectionIff(inputs[1..], otherwise);
      assert forall i :: 1 <= i < |inputs| ==> inputs[i] == inputs[1..][i - 1];
    }
  }

  lemma {:induction false} DataMembers(inputs: seq<Input>, root: string, x: Input)
    ensures x in Data(inputs, root) <==> x in inputs && x.attachment != root
  {
    if inputs != [] {
      var n := |inputs| - 1;
      DataMembers(inputs[..n], root, x);
      assert inputs == inputs[..n] + [inputs[n]];
    }
  }

  /** SAFE exactly when every loaded row is safely detached, except that a policy for a quiesced
      root excuses the root's row in return for a usable proof that names its volume.  No later
      row can turn an objection back into SAFE. */
  lemma SafeIff(inputs: seq<Input>, root: Option<Root>)
    ensures Evaluate(inputs, root) == Safe <==>
              if root.Some? then
                && root.value.usability == Usable
                && forall x :: x in inputs ==>
                     if x.attachment == root.value.attachment then x.volume == root.value.volume else x.SafelyDetached()
              else inputs != [] && forall x :: x in inputs ==> x.SafelyDetached()
  {
    if root.Some? {
      var data := Data(inputs, root.value.attachment);
      NoObjectionIff(data, RootVerdict(inputs, root.value));
      forall x ensures x in data <==> x in inputs && x.attachment != root.value.attachment {
        DataMembers(inputs, root.value.attachment, x);
      }
    } else {
      NoObjectionIff(inputs, Safe);
    }
  }

  /** An objection is the first row that is not safely detached: UNKNOWN if its attachment or its
      evidence is unknown, else CONFLICTING_INPUT if one of them contradicts, else NOT_SAFE.  With no
      such row, what the root or its absence says decides. */
  lemma {:induction false} ObjectionIs(inputs: seq<Input>, otherwise: Verdict) returns (k: nat)
    ensures k <= |inputs| && forall i :: 0 <= i < k ==> inputs[i].SafelyDetached()
    ensures k == |inputs| ==> FirstObjection(inputs, otherwise) == otherwise
    ensures k < |inputs| ==>
              var x, v := inputs[k], FirstObjection(inputs, otherwise);
              && !x.SafelyDetached()
              && (x.state == AttachmentUnknown || x.evidence == EvidenceUnknown <==> v == Unknown)
              && (v == ConflictingInput <==>
                    && x.state != AttachmentUnknown && x.evidence != EvidenceUnknown
                    && (x.state == AttachmentConflicting || x.evidence == EvidenceConflicting))
              && v != Safe
  {
    k := 0;
    if inputs != [] && inputs[0].SafelyDetached() {
      var rest := ObjectionIs(inputs[1..], otherwise);
      k := rest + 1;
    }
  }

  /** Without data rows that object, a usable proof of the right root volume is SAFE, one that is missing
      or stale is NOT_SAFE, one that is unknown is UNKNOWN, and a root row that names another volume is
      CONFLICTING_INPUT; without a root, no row at all is NOT_SAFE. */
  lemma RootDecides(inputs: seq<Input>, root: Option<Root>)
    requires root.Some? ==> forall x :: x in inputs && x.attachment != root.value.attachment ==> x.SafelyDetached()
    requires root.None? ==> inputs == []
    ensures var v := Evaluate(inputs, root);
            if root.None? then v == NotSafe
            else if exists x :: x in inputs && x.attachment == root.value.attachment && x.volume != root.value.volume
            then v == ConflictingInput
            else && (v == Safe <==> root.value.usability == Usable)
                 && (v == NotSafe <==> root.value.usability == Missing || root.value.usability == Stale)
                 && (v == Unknown <==> root.value.usability == UsabilityUnknown)
  {
    if root.Some? {
      var data := Data(inputs, root.value.attachment);
      var k := ObjectionIs(data, RootVerdict(inputs, root.value));
      if k < |data| { DataMembers(inputs, root.value.attachment, data[k]); }
    }
  }

  /** So SAFE does not depend on the order of the rows; which objection is reported does. */
  lemma SafeIgnoresOrder(a: seq<Input>, b: seq<Input>, root: Option<Root>)
    requires multiset(a) == multiset(b)
    ensures Evaluate(a, root) == Safe <==> Evaluate(b, root) == Safe
  {
    SafeIff(a, root);
    SafeIff(b, root);
    forall x ensures x in a <==> x in b { assert x in multiset(a) <==> x in multiset(b); }
    assert |multiset(a)| == |a| && |multiset(b)| == |b|;
  }
}
