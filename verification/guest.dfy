/** `Guest`: the person who occupies a room. */
module Guest {
  import opened Common
  import Text
  import Address
  import Identity

  /** The identity is optional: the constructor never checks it. */
  datatype Guest = Guest(name: string, addressDetails: Address.Address, id: Option<Identity.Identity>)

  /** The constructor: a name that is non-null and not empty after
      trimming, and a non-null address; the identity may be null. */
  function NewGuest(name: Option<string>, addressDetails: Option<Address.Address>, id: Option<Identity.Identity>): (r: Result<Guest>)
    ensures r.Ok? <==> name.Some? && !Text.IsTrimEmpty(name.value) && addressDetails.Some?
    ensures r.Ok? ==> r.value.name == name.value && r.value.addressDetails == addressDetails.value && r.value.id == id
    ensures r.Err? ==> r.error == IllegalArgument
  {
    if name.None? || Text.IsTrimEmpty(name.value) then Err(IllegalArgument)
    else if addressDetails.None? then Err(IllegalArgument)
    else Ok(Guest(name.value, addressDetails.value, id))
  }

  /** `hasIdentification`: an identity is on file. */
  predicate HasIdentification(g: Guest) {
    g.id.Some?
  }

  /** A guest built without an identity is accepted and reports none; one
      built with an identity reports it. */
  lemma IdentificationFollowsConstructor(name: string, a: Address.Address, id: Option<Identity.Identity>)
    requires !Text.IsTrimEmpty(name)
    ensures NewGuest(Some(name), Some(a), id).Ok?
    ensures HasIdentification(NewGuest(Some(name), Some(a), id).value) <==> id.Some?
  {
  }
}
