/**
  The records the services, validators and data-access objects work on.
  Every field the Java classes may leave null is an Option.
 */
module Entities {
  import opened Wrappers

  // ---------------------------------------------------------------------
  // BigDecimal and its longValue
  // ---------------------------------------------------------------------

  /** A BigDecimal: the value unscaled * 10^(-scale). */
  datatype Decimal = Decimal(unscaled: int, scale: int)

  const TWO_63: int := 0x8000_0000_0000_0000
  const TWO_64: int := 0x1_0000_0000_0000_0000

  function Pow10(n: nat): (r: nat)
    ensures r >= 1
  {
    if n == 0 then 1 else 10 * Pow10(n - 1)
  }

  /** Java's integer division, which truncates toward zero. */
  function TruncDiv(a: int, b: int): (r: int)
    requires b > 0
    ensures a >= 0 ==> r >= 0
    ensures a <= 0 ==> r <= 0
    ensures r < 0 <==> a <= -b
  {
    if a >= 0 then a / b
    else
      var q := (-a) / b;
      assert q >= 1 <==> -a >= b by {
        if -a >= b {
          DivAtLeastOne(-a, b);
        }
      }
      -q
  }

  lemma DivAtLeastOne(x: int, b: int)
    requires b > 0 && x >= b
    ensures x / b >= 1
  {
    var q := x / b;
    var m := x % b;
    assert x == q * b + m && 0 <= m < b;
  }

  /** The integer part of a decimal, with the fraction dropped toward zero. */
  function IntegerPart(d: Decimal): int {
    if d.scale <= 0 then d.unscaled * Pow10(-d.scale) else TruncDiv(d.unscaled, Pow10(d.scale))
  }

  /** The low 64 bits of n read as a two's-complement long. */
  function WrapLong(n: int): (r: int)
    ensures -TWO_63 <= r < TWO_63
    ensures (n - r) % TWO_64 == 0
    ensures -TWO_63 <= n < TWO_63 ==> r == n
  {
    var m := n % TWO_64;
    if m >= TWO_63 then m - TWO_64 else m
  }

  /** BigDecimal.longValue: the integer part, wrapped to 64 bits. */
  function LongValue(d: Decimal): int {
    WrapLong(IntegerPart(d))
  }

  /** The integer part is negative exactly when the decimal is at most -1. */
  lemma IntegerPartNegative(d: Decimal)
    ensures IntegerPart(d) < 0 <==>
      (d.scale <= 0 && d.unscaled < 0) || (d.scale > 0 && d.unscaled <= -(Pow10(d.scale) as int))
  {
    if d.scale <= 0 {
      var p := Pow10(-d.scale);
      if d.unscaled < 0 {
        assert d.unscaled * p <= -(p as int);
      } else {
        assert d.unscaled * p >= 0;
      }
    }
  }

  /** -0.5 has integer part 0: longValue does not see the sign. */
  lemma NegativeFractionLongValue()
    ensures LongValue(Decimal(-5, 1)) == 0
  {
    assert Pow10(1) == 10;
    assert TruncDiv(-5, 10) == 0;
  }

  /** 2^63 wraps to the smallest long. */
  lemma HugeLongValueWraps()
    ensures LongValue(Decimal(TWO_63, 0)) == -TWO_63
  {
    assert Pow10(0) == 1;
    assert IntegerPart(Decimal(TWO_63, 0)) == TWO_63;
  }

  // ---------------------------------------------------------------------
  // LocalDateTime
  // ---------------------------------------------------------------------

  datatype DateTime = DateTime(year: int, month: int, day: int, hour: int, minute: int, second: int, nano: int)

  // ---------------------------------------------------------------------
  // Entities
  // ---------------------------------------------------------------------

  datatype Tag = Tag(id: Option<int>, name: Option<string>)

  datatype GiftCertificate = GiftCertificate(
    id: Option<int>,
    name: Option<string>,
    description: Option<string>,
    price: Option<Decimal>,
    duration: Option<int>,
    createDate: Option<DateTime>,
    lastUpdateDate: Option<DateTime>,
    tags: Option<seq<Tag>>)

  datatype Role = USER | OtherRole(roleName: string)
  datatype Status = ACTIVE | OtherStatus(statusName: string)

  datatype User = User(
    id: Option<int>,
    email: Option<string>,
    password: Option<string>,
    name: Option<string>,
    surname: Option<string>,
    registrationDate: Option<DateTime>,
    role: Option<Role>,
    status: Option<Status>)

  datatype Order = Order(
    id: Option<int>,
    user: User,
    giftCertificate: GiftCertificate,
    cost: Option<Decimal>,
    orderDate: DateTime)

  /** The classes a validator can be asked about. */
  datatype EntityClass = TagClass | GiftCertificateClass | UserClass | OrderClass | ObjectClass
}
