/** `Identity`: an identification document, a type and a number. */
module Identity {
  import opened Common
  import Text

  datatype Identity = Identity(kind: string, idNumber: string)

  /** The constructor `Identity(type, idNumber)`: both non-null and not
      empty after trimming. */
  function NewIdentity(kind: Option<string>, idNumber: Option<string>): (r: Result<Identity>)
    ensures r.Ok? <==>
      kind.Some? && !Text.IsTrimEmpty(kind.value) && idNumber.Some? && !Text.IsTrimEmpty(idNumber.value)
    ensures r.Ok? ==> r.value.kind == kind.value && r.value.idNumber == idNumber.value
    ensures r.Err? ==> r.error == IllegalArgument
  {
    if kind.None? || Text.IsTrimEmpty(kind.value) then Err(IllegalArgument)
    else if idNumber.None? || Text.IsTrimEmpty(idNumber.value) then Err(IllegalArgument)
    else Ok(Identity(kind.value, idNumber.value))
  }

  /** `isValid`: both fields present and not blank. */
  predicate IsValid(id: Identity) {
    !Text.IsTrimEmpty(id.kind) && !Text.IsTrimEmpty(id.idNumber)
  }

  /** An identity is constructible from its own fields exactly when it is
      valid, so every constructed identity is valid. */
  lemma ValidIffConstructible(id: Identity)
    ensures IsValid(id) <==> NewIdentity(Some(id.kind), Some(id.idNumber)) == Ok(id)
  {
  }

  /** `equals`: the same number and the same type. */
  predicate Equals(a: Identity, b: Identity) {
    a.idNumber == b.idNumber && a.kind == b.kind
  }

  lemma EqualsIsIdentity(a: Identity, b: Identity)
    ensures Equals(a, b) <==> a == b
  {
  }

  /** `toString`: "type: idNumber". */
  function ToString(id: Identity): (r: string)
    ensures |r| == |id.kind| + 2 + |id.idNumber|
    ensures r[..|id.kind|] == id.kind
    ensures r[|id.kind|..|id.kind| + 2] == ": "
    ensures r[|id.kind| + 2..] == id.idNumber
  {
    id.kind + ": " + id.idNumber
  }

  /** Reads an identity back from its `toString` text: the type runs up
      to the first colon, and the number starts two characters later. */
  function Parse(text: string): (id: Identity)
  {
    var j := Text.IndexOf(text, ':');
    Identity(text[..j], if j + 2 <= |text| then text[j + 2..] else "")
  }

  /** `toString` loses nothing when the type has no colon in it. */
  lemma ToStringRoundTrip(id: Identity)
    requires forall i | 0 <= i < |id.kind| :: id.kind[i] != ':'
    ensures Parse(ToString(id)) == id
  {
    var text := ToString(id);
    assert text[|id.kind|] == ':';
    assert Text.IndexOf(text, ':') == |id.kind|;
  }
}
