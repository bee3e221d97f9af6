/** GuidValidator.Validate: every identifier passed in must differ from Guid.Empty. */
module GuidValidator {
  import opened Guids
  import opened Errors
  import opened Wrappers

  /** ArgumentNullException(nameof(guid), "GUID cannot be empty."); .NET appends the parameter name. */
  const EmptyGuidError: Error := ArgumentNull("GUID cannot be empty. (Parameter 'guid')")

  /** Walks the arguments in order and throws at the first empty one. */
  function Validate(guids: seq<Guid>): (r: Outcome<Error>)
    ensures r.Fail? <==> exists i :: 0 <= i < |guids| && guids[i] == Empty
    ensures r.Fail? ==> r.error == EmptyGuidError
  {
    if guids == [] then Pass
    else if guids[0] == Empty then Fail(EmptyGuidError)
    else
      var rest := Validate(guids[1..]);
      assert forall i :: 0 <= i < |guids[1..]| ==> guids[1..][i] == guids[i + 1];
      rest
  }

  /** Validating a concatenation passes exactly when both halves pass. */
  lemma ValidateConcat(a: seq<Guid>, b: seq<Guid>)
    ensures Validate(a + b).Pass? <==> Validate(a).Pass? && Validate(b).Pass?
  {
    var ab := a + b;
    if Validate(ab).Fail? {
      var i :| 0 <= i < |ab| && ab[i] == Empty;
      if i < |a| { assert a[i] == Empty; } else { assert b[i - |a|] == Empty; }
    }
    if Validate(a).Fail? {
      var i :| 0 <= i < |a| && a[i] == Empty;
      assert ab[i] == Empty;
    }
    if Validate(b).Fail? {
      var i :| 0 <= i < |b| && b[i] == Empty;
      assert ab[|a| + i] == Empty;
    }
  }

  /** The failure does not depend on where the empty identifier sits. */
  lemma FailureIndependentOfPosition(guids: seq<Guid>, i: nat)
    requires i < |guids| && guids[i] == Empty
    ensures Validate(guids) == Fail(EmptyGuidError)
  {
  }
}
