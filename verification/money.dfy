/** `Money`: a non-negative decimal amount in a currency. */
module Money {
  import opened Common

  /** A `java.math.BigDecimal`: the value `unscaled * 10^(-scale)`. Two
      decimals with the same value but different scales (100.0 and 100.00)
      are different objects with different `equals`. */
  datatype Decimal = Decimal(unscaled: int, scale: int)

  /** A currency, compared only by identity; its code and symbol lookup
      belong to the Java library. */
  datatype Currency = Currency(code: string)

  datatype Money = Money(amount: Decimal, currency: Currency)

  const Zero: Decimal := Decimal(0, 0)

  function Pow10(n: nat): (r: nat)
    ensures r >= 1
  {
    if n == 0 then 1 else 10 * Pow10(n - 1)
  }

  /** `BigDecimal.compareTo`: -1, 0 or 1 by numeric value, after bringing
      both operands to the larger of their two scales. */
  function Compare(a: Decimal, b: Decimal): (r: int)
    ensures -1 <= r <= 1
  {
    var s := if a.scale >= b.scale then a.scale else b.scale;
    var x := a.unscaled * Pow10(s - a.scale);
    var y := b.unscaled * Pow10(s - b.scale);
    if x < y then -1 else if x == y then 0 else 1
  }

  /** Comparing against zero reads the sign of the unscaled value, whatever
      the scale. */
  lemma CompareWithZero(d: Decimal)
    ensures Compare(d, Zero) < 0 <==> d.unscaled < 0
    ensures Compare(d, Zero) == 0 <==> d.unscaled == 0
    ensures Compare(d, Zero) > 0 <==> d.unscaled > 0
  {
  }

  /** The constructor `Money(BigDecimal, Currency)`: a null or negative
      amount and a null currency are rejected. */
  function NewMoney(amount: Option<Decimal>, currency: Option<Currency>): (r: Result<Money>)
    ensures r.Ok? <==> amount.Some? && amount.value.unscaled >= 0 && currency.Some?
    ensures r.Ok? ==> r.value.amount == amount.value && r.value.currency == currency.value
    ensures r.Err? ==> r.error == IllegalArgument
  {
    if amount.None? then Err(IllegalArgument)
    else if Compare(amount.value, Zero) < 0 then (CompareWithZero(amount.value); Err(IllegalArgument))
    else if currency.None? then Err(IllegalArgument)
    else (CompareWithZero(amount.value); Ok(Money(amount.value, currency.value)))
  }

  /** What every constructed `Money` satisfies. */
  predicate Valid(m: Money) {
    m.amount.unscaled >= 0
  }

  predicate IsPositive(m: Money) {
    Compare(m.amount, Zero) > 0
  }

  predicate IsZero(m: Money) {
    Compare(m.amount, Zero) == 0
  }

  /** Every constructed amount is valid, and exactly one of `isPositive` and
      `isZero` holds of it. */
  lemma PositiveXorZero(amount: Option<Decimal>, currency: Option<Currency>)
    requires NewMoney(amount, currency).Ok?
    ensures Valid(NewMoney(amount, currency).value)
    ensures IsPositive(NewMoney(amount, currency).value) != IsZero(NewMoney(amount, currency).value)
  {
  }

  /** `equals`: the same amount by `BigDecimal.equals` (unscaled value and
      scale) and the same currency. */
  predicate Equals(a: Money, b: Money) {
    a.amount.unscaled == b.amount.unscaled && a.amount.scale == b.amount.scale
    && a.currency == b.currency
  }

  /** `equals` is exactly structural equality of the model values. */
  lemma EqualsIsIdentity(a: Money, b: Money)
    ensures Equals(a, b) <==> a == b
  {
  }

  /** The same amount written with `extra` more digits of scale. */
  function Rescale(d: Decimal, extra: nat): (r: Decimal)
    ensures r.scale == d.scale + extra
  {
    Decimal(d.unscaled * Pow10(extra), d.scale + extra)
  }

  /** Rescaling keeps the numeric value, so the sign tests do not move,
      while `equals` tells the two apart as soon as the scale changes. */
  lemma RescaleKeepsValue(m: Money, extra: nat)
    requires extra > 0
    ensures Compare(Rescale(m.amount, extra), m.amount) == 0
    ensures IsPositive(m.(amount := Rescale(m.amount, extra))) == IsPositive(m)
    ensures IsZero(m.(amount := Rescale(m.amount, extra))) == IsZero(m)
    ensures !Equals(m.(amount := Rescale(m.amount, extra)), m)
  {
  }

  /** 100.0 USD and 100.00 USD are numerically equal but not `equals`. */
  lemma ScaleSensitiveEquality()
    ensures Compare(Decimal(1000, 1), Decimal(10000, 2)) == 0
    ensures !Equals(Money(Decimal(1000, 1), Currency("USD")), Money(Decimal(10000, 2), Currency("USD")))
  {
  }
}
