/** `CreditCard`: a card number, expiry and security code, checked only for
    presence and length. */
module CreditCard {
  import opened Common
  import Text

  datatype CreditCard = CreditCard(number: string, expiryDate: string, cvv: string)

  /** Shortest accepted card number. Any characters count, hyphens and
      spaces included. */
  const MinNumberLength: nat := 13
  /** Shortest accepted security code. */
  const MinCvvLength: nat := 3
  /** What the masked form puts in front of the last four characters. */
  const MaskPrefix: string := "XXXX-XXXX-XXXX-"

  /** What every constructed card satisfies. */
  predicate Valid(c: CreditCard) {
    |c.number| >= MinNumberLength && !Text.IsTrimEmpty(c.expiryDate) && |c.cvv| >= MinCvvLength
  }

  /** The constructor: number of at least 13 characters, an expiry that is
      not empty after trimming, a CVV of at least 3 characters; a null in
      any position is rejected. */
  function NewCreditCard(number: Option<string>, expiryDate: Option<string>, cvv: Option<string>): (r: Result<CreditCard>)
    ensures r.Ok? <==>
      && number.Some? && |number.value| >= MinNumberLength
      && expiryDate.Some? && !Text.IsTrimEmpty(expiryDate.value)
      && cvv.Some? && |cvv.value| >= MinCvvLength
    ensures r.Ok? ==> r.value == CreditCard(number.value, expiryDate.value, cvv.value) && Valid(r.value)
    ensures r.Ok? ==> |r.value.number| >= 4  // so every constructed card can be masked
    ensures r.Err? ==> r.error == IllegalArgument
  {
    if number.None? || |number.value| < MinNumberLength then Err(IllegalArgument)
    else if expiryDate.None? || Text.IsTrimEmpty(expiryDate.value) then Err(IllegalArgument)
    else if cvv.None? || |cvv.value| < MinCvvLength then Err(IllegalArgument)
    else Ok(CreditCard(number.value, expiryDate.value, cvv.value))
  }

  /** `getMaskedNumber`: the fixed prefix and the last four characters of
      the number. `substring` needs at least four characters. */
  function MaskedNumber(c: CreditCard): (r: string)
    requires |c.number| >= 4
    ensures |r| == |MaskPrefix| + 4 == 19
    ensures r[..|MaskPrefix|] == MaskPrefix
    ensures r[|MaskPrefix|..] == c.number[|c.number| - 4..]
  {
    MaskPrefix + c.number[|c.number| - 4..]
  }

  /** `toString` shows the masked number only: nothing of the number but
      its last four characters appears. */
  function ToString(c: CreditCard): (r: string)
    requires |c.number| >= 4
    ensures |r| == 19
    ensures r[..|MaskPrefix|] == MaskPrefix
    ensures r[|MaskPrefix|..] == c.number[|c.number| - 4..]
  {
    MaskedNumber(c)
  }

  /** `equals` compares card numbers only. */
  predicate Equals(a: CreditCard, b: CreditCard) {
    a.number == b.number
  }

  /** Cards that are `equals` show the same masked text, whatever their
      expiry dates and security codes. */
  lemma MaskRespectsEquals(a: CreditCard, b: CreditCard)
    requires |a.number| >= 4 && |b.number| >= 4
    ensures Equals(a, b) ==> ToString(a) == ToString(b)
    ensures Equals(a, b) <==> Equals(a, b.(expiryDate := a.expiryDate, cvv := a.cvv))
  {
  }

  /** The card number of the demo is accepted and shows its last four
      digits; a twelve-character number is refused. */
  lemma CardExamples()
    ensures NewCreditCard(Some("4444-5555-6666-7777"), Some("12/28"), Some("123")).Ok?
    ensures MaskedNumber(CreditCard("4444-5555-6666-7777", "12/28", "123")) == "XXXX-XXXX-XXXX-7777"
    ensures NewCreditCard(Some("123456789013"), Some("12/25"), Some("123")) == Err(IllegalArgument)
  {
    var e: string := "12/28";
    assert !Text.IsTrimmable(e[0]);
    Text.TrimEmptyIff(e);
  }
}
