/** `Address`: street, city and postal code, each required. */
module Address {
  import opened Common
  import Text

  datatype Address = Address(street: string, city: string, zipCode: string)

  /** The constructor: each field non-null and not empty after trimming. */
  function NewAddress(street: Option<string>, city: Option<string>, zipCode: Option<string>): (r: Result<Address>)
    ensures r.Ok? <==>
      && street.Some? && !Text.IsTrimEmpty(street.value)
      && city.Some? && !Text.IsTrimEmpty(city.value)
      && zipCode.Some? && !Text.IsTrimEmpty(zipCode.value)
    ensures r.Ok? ==> r.value == Address(street.value, city.value, zipCode.value)
    ensures r.Err? ==> r.error == IllegalArgument
  {
    if street.None? || Text.IsTrimEmpty(street.value) then Err(IllegalArgument)
    else if city.None? || Text.IsTrimEmpty(city.value) then Err(IllegalArgument)
    else if zipCode.None? || Text.IsTrimEmpty(zipCode.value) then Err(IllegalArgument)
    else Ok(Address(street.value, city.value, zipCode.value))
  }

  /** `hasCompleteAddress`: every field present and not blank. */
  predicate HasCompleteAddress(a: Address) {
    !Text.IsTrimEmpty(a.street) && !Text.IsTrimEmpty(a.city) && !Text.IsTrimEmpty(a.zipCode)
  }

  /** An address is constructible from its own fields exactly when it is
      complete, so every constructed address reports itself complete. */
  lemma CompleteIffConstructible(a: Address)
    ensures HasCompleteAddress(a) <==> NewAddress(Some(a.street), Some(a.city), Some(a.zipCode)) == Ok(a)
  {
  }

  /** `equals`: all three fields equal. */
  predicate Equals(a: Address, b: Address) {
    a.street == b.street && a.city == b.city && a.zipCode == b.zipCode
  }

  lemma EqualsIsIdentity(a: Address, b: Address)
    ensures Equals(a, b) <==> a == b
  {
  }

  /** `toString`: "street, city zip". */
  function ToString(a: Address): (r: string)
    ensures |r| == |a.street| + |a.city| + |a.zipCode| + 3
    ensures r[..|a.street|] == a.street
    ensures r[|a.street|..|a.street| + 2] == ", "
    ensures r[|a.street| + 2..|a.street| + 2 + |a.city|] == a.city
    ensures r[|r| - |a.zipCode| - 1] == ' '
    ensures r[|r| - |a.zipCode|..] == a.zipCode
  {
    a.street + ", " + a.city + " " + a.zipCode
  }

  /** Reads an address back from its `toString` text: the street runs up
      to the first comma, the city runs from two characters after it up
      to the next space, and the postal code is the rest. */
  function Parse(text: string): (a: Address)
  {
    var j := Text.IndexOf(text, ',');
    var rest := if j + 2 <= |text| then text[j + 2..] else "";
    var k := Text.IndexOf(rest, ' ');
    Address(text[..j], rest[..k], if k + 1 <= |rest| then rest[k + 1..] else "")
  }

  /** `toString` loses nothing when the street has no comma and the city
      has no space; the postal code may hold anything, "NW1 6XE" included. */
  lemma ToStringRoundTrip(a: Address)
    requires forall i | 0 <= i < |a.street| :: a.street[i] != ','
    requires forall i | 0 <= i < |a.city| :: a.city[i] != ' '
    ensures Parse(ToString(a)) == a
  {
    var text := ToString(a);
    var j := |a.street|;
    assert text[j] == ',';
    assert Text.IndexOf(text, ',') == j;
    var rest := text[j + 2..];
    var k := |a.city|;
    assert rest[..k] == text[j + 2..j + 2 + k] == a.city;
    assert forall i | 0 <= i < k :: rest[i] == a.city[i];
    assert rest[k] == text[|text| - |a.zipCode| - 1] == ' ';
    assert Text.IndexOf(rest, ' ') == k;
    assert rest[k + 1..] == text[|text| - |a.zipCode|..] == a.zipCode;
  }
}
