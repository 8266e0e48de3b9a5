/**
 The arithmetic of an offer: the guarded sum of an apartment and its ancillary units, the
 half-up discount in int64, and the rounding of a DECIMAL price text to whole roubles.
 */
module Pricing {
  import opened Wrappers
  import opened Text
  import opened Percent

  /** A price column: BIGINT with CHECK (price >= 0). */
  type Price = p: int | 0 <= p <= MAX_INT64

  /** The largest base price whose discount never wraps: floor((2^63 - 1 - 5000) / 10000). */
  const MAX_SAFE_PRICE: int := 922337203685477

  // ---------- roundedRatio ----------

  /** Go's division of int64 values: toward zero. */
  function Quotient(a: int, b: int): int
    requires b > 0
  {
    if a >= 0 then a / b else -((-a) / b)
  }

  function RoundedRatio(value: int, numerator: int, denominator: int): int
    requires denominator > 0
  {
    Quotient(Wrap64(Wrap64(value * numerator) + denominator / 2), denominator)
  }

  function DiscountAmount(base: Price, discount: int): int {
    RoundedRatio(base, discount, 10000)
  }

  ghost predicate IsDiscount(d: int) {
    0 <= d <= MAX_BASIS_POINTS
  }

  /** Half-up rounding of x / 10000 for a product x that has not been cut to 64 bits. */
  function HalfUp(x: nat): nat {
    (x + 5000) / 10000
  }

  lemma WrappedHalfUpIff(x: nat)
    ensures Quotient(Wrap64(Wrap64(x) + 5000), 10000) == HalfUp(x) <==> x + 5000 <= MAX_INT64
  {
    WrapSum(x, 5000);
    if x + 5000 > MAX_INT64 {
      assert x + 5000 < TWO_64 ==> Wrap64(x + 5000) == x + 5000 - TWO_64;
    }
  }

  /** The int64 computation is the half-up quotient exactly when the sum under it does not overflow. */
  lemma DiscountExactIff(base: Price, discount: int)
    requires IsDiscount(discount)
    ensures base * discount >= 0
    ensures DiscountAmount(base, discount) == HalfUp(base * discount) <==> base * discount + 5000 <= MAX_INT64
  {
    MulMono(0, base, 0, discount);
    WrappedHalfUpIff(base * discount);
  }

  /** No discount overflows for a base price exactly up to MAX_SAFE_PRICE. */
  lemma SafePriceIff(base: Price)
    ensures (forall d :: IsDiscount(d) ==> base * d + 5000 <= MAX_INT64) <==> base <= MAX_SAFE_PRICE
  {
    if base <= MAX_SAFE_PRICE {
      forall d | IsDiscount(d)
        ensures base * d + 5000 <= MAX_INT64
      {
        MulMono(base, MAX_SAFE_PRICE, d, 10000);
      }
    } else {
      assert IsDiscount(10000) && base * 10000 + 5000 > MAX_INT64;
    }
  }

  lemma MulMono(a: nat, a': nat, b: nat, b': nat)
    requires a <= a' && b <= b'
    ensures a * b <= a' * b'
  {
    assert a * b <= a' * b;
    assert a' * b <= a' * b';
  }

  function Distance(a: int, b: int): nat {
    if a < b then b - a else a - b
  }

  /** The discount is the integer nearest to base * d / 10000, the larger one on a tie, and splits the base. */
  lemma DiscountIsNearest(base: Price, discount: int)
    requires IsDiscount(discount) && base * discount + 5000 <= MAX_INT64
    ensures var a := DiscountAmount(base, discount);
            && 0 <= a <= base
            && (forall b: int :: Distance(10000 * a, base * discount) <= Distance(10000 * b, base * discount))
            && (forall b: int :: Distance(10000 * b, base * discount) == Distance(10000 * a, base * discount) ==> b <= a)
  {
    DiscountExactIff(base, discount);
    MulMono(base, base, discount, 10000);
    HalfUpIsNearest(base * discount);
  }

  lemma HalfUpIsNearest(x: nat)
    ensures var a := HalfUp(x);
            && (forall b: int :: Distance(10000 * a, x) <= Distance(10000 * b, x))
            && (forall b: int :: Distance(10000 * b, x) == Distance(10000 * a, x) ==> b <= a)
    ensures forall base: nat :: x <= base * 10000 ==> HalfUp(x) <= base
  {
  }

  lemma HalfUpLipschitz(x: nat, y: nat, k: nat)
    requires x <= y <= x + 10000 * k
    ensures HalfUp(x) <= HalfUp(y) <= HalfUp(x) + k
  {
  }

  function FinalPrice(base: Price, discount: int): int {
    Wrap64(base - DiscountAmount(base, discount))
  }

  /** Discount and final price split the base price. */
  lemma FinalPriceSplits(base: Price, discount: int)
    requires IsDiscount(discount) && base * discount + 5000 <= MAX_INT64
    ensures DiscountAmount(base, discount) + FinalPrice(base, discount) == base
    ensures 0 <= FinalPrice(base, discount) <= base
  {
    DiscountIsNearest(base, discount);
    WithinInt64(base - DiscountAmount(base, discount));
  }

  lemma WithinInt64(x: int)
    requires 0 <= x <= MAX_INT64
    ensures Wrap64(x) == x
  {
  }

  /** One rouble above the bound, a discount of 100 percent doubles the price. */
  lemma OverflowRaisesPrice()
    ensures DiscountAmount(MAX_SAFE_PRICE + 1, 10000) < 0
    ensures FinalPrice(MAX_SAFE_PRICE + 1, 10000) > MAX_SAFE_PRICE + 1
  {
    WrapSum((MAX_SAFE_PRICE + 1) * 10000, 5000);
  }

  /** So they do for every discount, up to the safe bound. */
  lemma SafeSplit(base: Price, discount: int)
    requires IsDiscount(discount) && base <= MAX_SAFE_PRICE
    ensures DiscountAmount(base, discount) + FinalPrice(base, discount) == base
    ensures 0 <= FinalPrice(base, discount) <= base
  {
    SafePriceIff(base);
    FinalPriceSplits(base, discount);
  }

  lemma SafeFinalPrice(base: Price, d: int)
    requires IsDiscount(d) && base <= MAX_SAFE_PRICE
    ensures base * d >= 0 && FinalPrice(base, d) == base - HalfUp(base * d)
  {
    SafePriceIff(base);
    DiscountExactIff(base, d);
    FinalPriceSplits(base, d);
  }

  /** A larger discount never raises the final price ... */
  lemma FinalPriceAntitone(base: Price, d: int, d': int)
    requires IsDiscount(d) && IsDiscount(d') && d <= d'
    requires base <= MAX_SAFE_PRICE
    ensures FinalPrice(base, d') <= FinalPrice(base, d)
  {
    SafeFinalPrice(base, d);
    SafeFinalPrice(base, d');
    MulMono(base, base, d, d');
    HalfUpLipschitz(base * d, base * d', base * d');
  }

  lemma ProductGrows(base: nat, base': nat, d: nat)
    requires base <= base' && d <= 10000
    ensures base * d <= base' * d <= base * d + 10000 * (base' - base)
  {
    var k := base' - base;
    assert base' * d == base * d + k * d;
    MulMono(k, k, d, 10000);
  }

  /** ... and a dearer object is never sold cheaper at the same discount. */
  lemma FinalPriceMonotone(base: Price, base': Price, d: int)
    requires IsDiscount(d) && base <= base' <= MAX_SAFE_PRICE
    ensures FinalPrice(base, d) <= FinalPrice(base', d)
  {
    SafeFinalPrice(base, d);
    SafeFinalPrice(base', d);
    ProductGrows(base, base', d);
    HalfUpLipschitz(base * d, base' * d, base' - base);
  }

  // ---------- the guarded sum ----------

  datatype Unit = Unit(id: int, buildingId: int, parking: bool, free: bool, price: Price)

  function UnitPrice(unit: Option<Unit>): Price {
    if unit.Some? then unit.value.price else 0
  }

  function SumOfPrices(units: seq<Option<Unit>>): nat {
    if units == [] then 0 else SumOfPrices(units[..|units| - 1]) + UnitPrice(units[|units| - 1])
  }

  /** The base price, or None when the int64 guard refuses the sum. */
  method BasePrice(apartment: Price, parking: Option<Unit>, storage: Option<Unit>) returns (r: Option<Price>)
    ensures r.Some? <==> apartment + UnitPrice(parking) + UnitPrice(storage) <= MAX_INT64
    ensures r.Some? ==> r.value == apartment + UnitPrice(parking) + UnitPrice(storage)
  {
    var units := [parking, storage];
    var basePrice: Price := apartment;
    for i := 0 to |units|
      invariant basePrice == apartment + SumOfPrices(units[..i])
    {
      assert units[..i + 1][..i] == units[..i];
      if units[i].Some? {
        if units[i].value.price > MAX_INT64 - basePrice {
          SumOfTwo(parking, storage);
          return None;
        }
        basePrice := basePrice + units[i].value.price;
      }
    }
    assert units[..2] == units;
    SumOfTwo(parking, storage);
    return Some(basePrice);
  }

  lemma SumOfTwo(parking: Option<Unit>, storage: Option<Unit>)
    ensures SumOfPrices([parking, storage][..1]) == UnitPrice(parking)
    ensures SumOfPrices([parking, storage]) == UnitPrice(parking) + UnitPrice(storage)
  {
    var units := [parking, storage];
    assert units[..1] == [parking] && [parking][..0] == [];
  }

  // ---------- decimalMoneyToInteger ----------

  function BeforePoint(raw: string): string {
    if raw == "" || raw[0] == '.' then "" else [raw[0]] + BeforePoint(raw[1..])
  }

  function DropZeros(s: string): string {
    if s == "" || s[|s| - 1] != '0' then s else DropZeros(s[..|s| - 1])
  }

  method DecimalMoneyToInteger(raw: string) returns (r: Option<int>)
    ensures r == MoneyRounded(raw)
  {
    BeforePointLength(raw);
    var head := BeforePoint(raw);
    var whole := ParseInt64(head);
    if whole.None? {
      return None;
    }
    if head == raw || DropZeros(raw[|head| + 1..]) == "" {
      return whole;
    }
    var fraction := raw[|head| + 1..];
    if |fraction| > 2 {
      fraction := fraction[..2];
    }
    fraction := PadFraction(fraction);
    var kopecks := ParseInt64(fraction);
    if kopecks.None? {
      return None;
    }
    var result := whole.value;
    if kopecks.value >= 50 {
      result := Wrap64(result + 1);
    }
    return Some(result);
  }

  lemma BeforePointLength(raw: string)
    ensures |BeforePoint(raw)| <= |raw|
    ensures |BeforePoint(raw)| == |raw| <==> BeforePoint(raw) == raw
  {
  }

  function Kopecks(fraction: string): Option<int> {
    ParseInt64(Pad2(if |fraction| > 2 then fraction[..2] else fraction))
  }

  /** The whole part, plus one when the kopecks reach fifty; an unread part is an error. */
  function Carry(whole: Option<int>, kopecks: Option<int>): Option<int> {
    if whole.None? || kopecks.None? then None
    else if kopecks.value >= 50 then Some(Wrap64(whole.value + 1)) else whole
  }

  function RoundPieces(head: string, fraction: Option<string>): Option<int> {
    if fraction.None? || DropZeros(fraction.value) == "" then ParseInt64(head)
    else Carry(ParseInt64(head), Kopecks(fraction.value))
  }

  function AfterPoint(raw: string): Option<string> {
    BeforePointLength(raw);
    var head := BeforePoint(raw);
    if head == raw then None else Some(raw[|head| + 1..])
  }

  function MoneyRounded(raw: string): Option<int> {
    RoundPieces(BeforePoint(raw), AfterPoint(raw))
  }

  lemma {:induction false} BeforePointOf(whole: string, fraction: string)
    requires '.' !in whole
    ensures BeforePoint(whole) == whole
    ensures BeforePoint(whole + "." + fraction) == whole
  {
    var s := whole + "." + fraction;
    if whole == "" {
      assert s[0] == '.';
    } else {
      assert s[1..] == whole[1..] + "." + fraction;
      BeforePointOf(whole[1..], fraction);
      assert [whole[0]] + whole[1..] == whole;
    }
  }

  lemma {:induction false} ZerosAreZero(s: string)
    requires AllDigits(s) && DropZeros(s) == ""
    ensures NatValue(s) == 0
  {
    if s != "" {
      ZerosAreZero(s[..|s| - 1]);
    }
  }

  lemma DigitsParse(s: string)
    requires s != "" && AllDigits(s) && NatValue(s) <= MAX_INT64
    ensures ParseInt64(s) == Some(NatValue(s))
  {
    assert IsDigit(s[0]);
    assert Unsigned(s) == s;
  }

  lemma PowerTwoMore(m: nat)
    ensures Pow10(m + 2) == 100 * Pow10(m)
  {
    assert Pow10(m + 2) == 10 * Pow10(m + 1);
  }

  /** The fraction 0.f is at least one half. */
  predicate AtLeastHalf(f: string)
    requires AllDigits(f)
  {
    2 * NatValue(f) >= Pow10(|f|)
  }

  lemma HeadDecides(f: string)
    requires AllDigits(f) && |f| >= 2
    ensures NatValue(f[..2]) < 100
    ensures NatValue(f[..2]) >= 50 <==> AtLeastHalf(f)
  {
    var head, rest := f[..2], f[2..];
    NatValueBound(head);
    NatValueBound(rest);
    NatValueConcat(head, rest);
    assert f == head + rest;
    PowerTwoMore(0);
    PowerTwoMore(|rest|);
    HalfOf(NatValue(head), NatValue(rest), Pow10(|rest|));
  }

  /** The first two digits alone decide whether the fraction is at least one half. */
  lemma KopecksDecide(f: string)
    requires AllDigits(f)
    ensures Kopecks(f).Some?
    ensures Kopecks(f).value >= 50 <==> AtLeastHalf(f)
  {
    if |f| >= 2 {
      HeadDecides(f);
      assert Pad2(f[..2]) == f[..2] && f[..|f|] == f;
      DigitsParse(f[..2]);
    } else if |f| == 1 {
      assert f == [f[0]];
      DigitThenZero(f[0]);
    } else {
      NatValueTwo('0', '0');
      DigitsParse(['0', '0']);
    }
  }

  lemma DigitThenZero(c: char)
    requires IsDigit(c)
    ensures Kopecks([c]) == Some(10 * DigitValue(c))
    ensures AtLeastHalf([c]) <==> DigitValue(c) >= 5
  {
    NatValueTwo(c, '0');
    assert [c][..0] == "" && NatValue([c]) == DigitValue(c) && Pow10(1) == 10;
    assert Pad2([c]) == [c, '0'];
    DigitsParse([c, '0']);
  }

  lemma HalfOf(k: nat, r: nat, q: nat)
    requires r < q
    ensures k >= 50 <==> 2 * (k * q + r) >= 100 * q
  {
    if k >= 50 {
      MulMono(50, k, q, q);
    } else {
      MulMono(k, 49, q, q);
    }
  }

  /** r is floor(n / unit + 1/2). */
  ghost predicate IsHalfUpOf(r: int, n: int, unit: int) {
    2 * r * unit <= 2 * n + unit < 2 * (r + 1) * unit
  }

  lemma CarryIsHalfUp(w: nat, k: nat, unit: nat, r: int, n: int)
    requires k < unit && n == w * unit + k && r == if 2 * k >= unit then w + 1 else w
    ensures IsHalfUpOf(r, n, unit)
  {
    assert 2 * (w + 1) * unit == 2 * w * unit + 2 * unit;
    assert 2 * (w + 2) * unit == 2 * w * unit + 4 * unit;
    assert 2 * (w * unit + k) == 2 * w * unit + 2 * k;
  }

  /** A non-negative decimal x = whole.fraction, of any length, becomes floor(x + 1/2):
      with unit = 10^|fraction|, x is NatValue(whole + fraction) / unit. */
  lemma MoneyIsHalfUp(whole: string, fraction: string)
    requires whole != "" && AllDigits(whole) && AllDigits(fraction) && NatValue(whole) < MAX_INT64
    ensures AllDigits(whole + fraction) && MoneyRounded(whole + "." + fraction).Some?
    ensures IsHalfUpOf(MoneyRounded(whole + "." + fraction).value, NatValue(whole + fraction), Pow10(|fraction|))
  {
    MoneyOfParts(whole, fraction);
    NatValueConcat(whole, fraction);
    NatValueBound(fraction);
    CarryIsHalfUp(NatValue(whole), NatValue(fraction), Pow10(|fraction|),
                  MoneyRounded(whole + "." + fraction).value, NatValue(whole + fraction));
  }

  /** The whole part, and one more for a fraction of at least one half. */
  function RoundedUp(whole: string, fraction: string): nat
    requires AllDigits(whole) && AllDigits(fraction)
  {
    if AtLeastHalf(fraction) then NatValue(whole) + 1 else NatValue(whole)
  }

  lemma MoneyOfParts(whole: string, fraction: string)
    requires whole != "" && AllDigits(whole) && AllDigits(fraction) && NatValue(whole) < MAX_INT64
    ensures MoneyRounded(whole + "." + fraction) == Some(RoundedUp(whole, fraction))
  {
    BeforePointOf(whole, fraction);
    assert (whole + "." + fraction)[|whole| + 1..] == fraction;
    assert AfterPoint(whole + "." + fraction) == Some(fraction);
    RoundDigits(whole, fraction);
  }

  lemma CarryOf(whole: nat, kopecks: int, up: bool)
    requires whole < MAX_INT64 && (kopecks >= 50 <==> up)
    ensures Carry(Some(whole), Some(kopecks)) == Some(if up then whole + 1 else whole)
  {
    WithinInt64(whole + 1);
  }

  lemma CarryDigits(whole: string, fraction: string)
    requires whole != "" && AllDigits(whole) && AllDigits(fraction) && NatValue(whole) < MAX_INT64
    ensures Carry(ParseInt64(whole), Kopecks(fraction)) == Some(RoundedUp(whole, fraction))
  {
    DigitsParse(whole);
    KopecksDecide(fraction);
    CarryOf(NatValue(whole), Kopecks(fraction).value, AtLeastHalf(fraction));
  }

  lemma RoundDigits(whole: string, fraction: string)
    requires whole != "" && AllDigits(whole) && AllDigits(fraction) && NatValue(whole) < MAX_INT64
    ensures RoundPieces(whole, Some(fraction)) == Some(RoundedUp(whole, fraction))
  {
    if DropZeros(fraction) == "" {
      DigitsParse(whole);
      ZerosAreZero(fraction);
    } else {
      CarryDigits(whole, fraction);
    }
  }

  /** Without a point the price is the number itself. */
  lemma WholeMoney(whole: string)
    requires whole != "" && AllDigits(whole) && NatValue(whole) <= MAX_INT64
    ensures MoneyRounded(whole) == Some(NatValue(whole))
  {
    BeforePointOf(whole, "");
    DigitsParse(whole);
  }
}
