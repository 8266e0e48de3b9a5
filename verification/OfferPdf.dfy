/** The price lines of the offer document and the grouping of digits in its amounts. */
module OfferPdf {
  import opened Wrappers
  import opened Text
  import opened Percent
  import opened Pricing
  import opened OfferStore

  datatype LineKind = ApartmentLine | ParkingLine | StorageLine

  datatype Line = Line(kind: LineKind, price: int)

  datatype Model = Model(lines: seq<Line>, discount: int)

  function CountOf(lines: seq<Line>, kind: LineKind): nat {
    if lines == [] then 0
    else CountOf(lines[..|lines| - 1], kind) + (if lines[|lines| - 1].kind == kind then 1 else 0)
  }

  /** One line for the apartment and one for each unit of the offer, with its price. */
  predicate ItemizesUnits(lines: seq<Line>, o: NewOffer) {
    && CountOf(lines, ApartmentLine) == 1
    && CountOf(lines, ParkingLine) == (if o.parkingUnitId.Some? then 1 else 0)
    && CountOf(lines, StorageLine) == (if o.storageUnitId.Some? then 1 else 0)
    && (forall l :: l in lines && l.kind == ParkingLine ==> l.price == o.parkingPrice)
    && (forall l :: l in lines && l.kind == StorageLine ==> l.price == o.storagePrice)
  }

  /** The lines sum to the base price, beginning with the apartment's own, and the discount is the one taken off; up to
      the safe bound total minus discount is the final price. */
  predicate AddsUp(m: Model, o: NewOffer) {
    && Total(m.lines) == o.basePrice
    && m.lines != [] && m.lines[0] == Line(ApartmentLine, o.apartmentPrice)
    && m.discount == DiscountAmount(o.basePrice, o.discount)
    && (o.basePrice <= MAX_SAFE_PRICE ==> Total(m.lines) - m.discount == o.finalPrice)
  }

  /** The document itemizes the offer's units, and for an offer priced by the service it adds up. */
  method NewOfferPdfModel(o: NewOffer) returns (m: Model)
    ensures m.lines == Lines(o) && m.discount == Wrap64(o.basePrice - o.finalPrice)
    ensures ItemizesUnits(m.lines, o)
    ensures WellPriced(o) ==> AddsUp(m, o)
  {
    LinesAreCounted(o);
    if WellPriced(o) {
      LinesSumToBase(o);
      PrintedDiscount(o);
      if o.basePrice <= MAX_SAFE_PRICE {
        PrintedFinalPrice(o);
      }
    }
    var apartmentPrice := Wrap64(Wrap64(o.basePrice - o.parkingPrice) - o.storagePrice);
    var lines := [Line(ApartmentLine, apartmentPrice)];
    if o.parkingUnitId.Some? {
      lines := lines + [Line(ParkingLine, o.parkingPrice)];
    }
    if o.storageUnitId.Some? {
      lines := lines + [Line(StorageLine, o.storagePrice)];
    }
    return Model(lines, Wrap64(o.basePrice - o.finalPrice));
  }

  /** The lines, and one more if there is a unit for it. */
  function With(lines: seq<Line>, present: bool, l: Line): seq<Line> {
    if present then lines + [l] else lines
  }

  function Lines(o: NewOffer): seq<Line> {
    var apartment := [Line(ApartmentLine, Wrap64(Wrap64(o.basePrice - o.parkingPrice) - o.storagePrice))];
    var withParking := With(apartment, o.parkingUnitId.Some?, Line(ParkingLine, o.parkingPrice));
    With(withParking, o.storageUnitId.Some?, Line(StorageLine, o.storagePrice))
  }

  function Total(lines: seq<Line>): int {
    if lines == [] then 0 else Total(lines[..|lines| - 1]) + lines[|lines| - 1].price
  }

  lemma TotalWith(lines: seq<Line>, present: bool, l: Line)
    ensures Total(With(lines, present, l)) == Total(lines) + (if present then l.price else 0)
  {
    assert (lines + [l])[..|lines|] == lines;
  }

  lemma CountWith(lines: seq<Line>, present: bool, l: Line, kind: LineKind)
    ensures CountOf(With(lines, present, l), kind) == CountOf(lines, kind) + (if present && l.kind == kind then 1 else 0)
  {
    assert (lines + [l])[..|lines|] == lines;
  }

  lemma OneLine(l: Line, kind: LineKind)
    ensures CountOf([l], kind) == (if l.kind == kind then 1 else 0) && Total([l]) == l.price
  {
    assert [l][..0] == [];
  }

  lemma LinesOfKind(o: NewOffer, kind: LineKind)
    ensures CountOf(Lines(o), kind) ==
            (if kind == ApartmentLine then 1 else 0)
            + (if o.parkingUnitId.Some? && kind == ParkingLine then 1 else 0)
            + (if o.storageUnitId.Some? && kind == StorageLine then 1 else 0)
  {
    var apartment := Line(ApartmentLine, Wrap64(Wrap64(o.basePrice - o.parkingPrice) - o.storagePrice));
    var parking, storage := Line(ParkingLine, o.parkingPrice), Line(StorageLine, o.storagePrice);
    OneLine(apartment, kind);
    CountWith([apartment], o.parkingUnitId.Some?, parking, kind);
    CountWith(With([apartment], o.parkingUnitId.Some?, parking), o.storageUnitId.Some?, storage, kind);
  }

  lemma InWith(lines: seq<Line>, present: bool, x: Line, l: Line)
    requires l in With(lines, present, x)
    ensures l in lines || l == x
  {
  }

  lemma LinesArePriced(o: NewOffer, l: Line)
    requires l in Lines(o)
    ensures l.kind == ParkingLine ==> l.price == o.parkingPrice
    ensures l.kind == StorageLine ==> l.price == o.storagePrice
  {
    var apartment := Line(ApartmentLine, Wrap64(Wrap64(o.basePrice - o.parkingPrice) - o.storagePrice));
    var parking, storage := Line(ParkingLine, o.parkingPrice), Line(StorageLine, o.storagePrice);
    var withParking := With([apartment], o.parkingUnitId.Some?, parking);
    InWith(withParking, o.storageUnitId.Some?, storage, l);
    if l in withParking {
      InWith([apartment], o.parkingUnitId.Some?, parking, l);
    }
  }

  lemma LinesAreCounted(o: NewOffer)
    ensures ItemizesUnits(Lines(o), o)
  {
    LinesOfKind(o, ApartmentLine);
    LinesOfKind(o, ParkingLine);
    LinesOfKind(o, StorageLine);
    forall l | l in Lines(o)
      ensures l.kind == ParkingLine ==> l.price == o.parkingPrice
      ensures l.kind == StorageLine ==> l.price == o.storagePrice
    {
      LinesArePriced(o, l);
    }
  }

  lemma LinesTotal(o: NewOffer)
    ensures Total(Lines(o)) == Wrap64(Wrap64(o.basePrice - o.parkingPrice) - o.storagePrice)
                               + (if o.parkingUnitId.Some? then o.parkingPrice else 0)
                               + (if o.storageUnitId.Some? then o.storagePrice else 0)
  {
    var apartment := Line(ApartmentLine, Wrap64(Wrap64(o.basePrice - o.parkingPrice) - o.storagePrice));
    var parking, storage := Line(ParkingLine, o.parkingPrice), Line(StorageLine, o.storagePrice);
    OneLine(apartment, ApartmentLine);
    TotalWith([apartment], o.parkingUnitId.Some?, parking);
    TotalWith(With([apartment], o.parkingUnitId.Some?, parking), o.storageUnitId.Some?, storage);
  }

  /** For an offer priced by the service the lines sum to the base price, beginning with the apartment's own price. */
  lemma LinesSumToBase(o: NewOffer)
    requires WellPriced(o)
    ensures Total(Lines(o)) == o.basePrice
    ensures Lines(o)[0] == Line(ApartmentLine, o.apartmentPrice)
  {
    LinesTotal(o);
    WithinInt64(o.basePrice - o.parkingPrice);
    WithinInt64(o.basePrice - o.parkingPrice - o.storagePrice);
  }

  lemma DiscountIsBounded(base: Price, discount: int)
    ensures -922337203685478 <= DiscountAmount(base, discount) <= 922337203685478
  {
    var x := Wrap64(Wrap64(base * discount) + 5000);
    assert -TWO_63 <= x <= MAX_INT64;
  }

  lemma DifferenceUndone(base: Price, amount: int)
    requires -922337203685478 <= amount <= 922337203685478
    ensures Wrap64(base - Wrap64(base - amount)) == amount
  {
    WrapPeriod(amount);
    assert Wrap64(amount) == amount;
    if base - amount > MAX_INT64 {
      WrapPeriod(base - amount - TWO_64);
      assert Wrap64(base - amount) == base - amount - TWO_64;
    }
  }

  /** The discount printed is the discount taken off, also where the arithmetic has overflowed. */
  lemma PrintedDiscount(o: NewOffer)
    requires WellPriced(o)
    ensures Wrap64(o.basePrice - o.finalPrice) == DiscountAmount(o.basePrice, o.discount)
  {
    DiscountIsBounded(o.basePrice, o.discount);
    DifferenceUndone(o.basePrice, DiscountAmount(o.basePrice, o.discount));
  }

  /** Up to the safe bound, total minus printed discount is the printed final price. */
  lemma PrintedFinalPrice(o: NewOffer)
    requires WellPriced(o) && o.basePrice <= MAX_SAFE_PRICE
    ensures o.basePrice - Wrap64(o.basePrice - o.finalPrice) == o.finalPrice && 0 <= o.finalPrice <= o.basePrice
  {
    PrintedDiscount(o);
    SafeSplit(o.basePrice, o.discount);
  }

  /** So it is for every offer in every reachable table. */
  lemma StoredOffersAddUp(run: seq<Statement>, i: nat)
    requires AllIssued(run) && i < |ApplyAll(EmptyTable, run).rows|
    ensures var o := ApplyAll(EmptyTable, run).rows[i].offer;
            && Total(Lines(o)) == o.basePrice
            && Wrap64(o.basePrice - o.finalPrice) == DiscountAmount(o.basePrice, o.discount)
            && (o.basePrice <= MAX_SAFE_PRICE ==> o.basePrice - Wrap64(o.basePrice - o.finalPrice) == o.finalPrice)
  {
    RunKeepsPrices(EmptyTable, run);
    var r := ApplyAll(EmptyTable, run).rows[i];
    LinesSumToBase(r.offer);
    PrintedDiscount(r.offer);
    if r.offer.basePrice <= MAX_SAFE_PRICE {
      PrintedFinalPrice(r.offer);
    }
  }

  // ---------- formatMoney ----------

  const MINUS := "\U{2212} "
  const ROUBLES := " \U{440}\U{443}\U{431}."

  /** Digits in groups of three from the right. */
  function Grouped(digits: string): string {
    if |digits| <= 3 then digits
    else Grouped(digits[..|digits| - 3]) + " " + digits[|digits| - 3..]
  }

  /** Cutting off one more group of three in front of position k. */
  lemma GroupStep(number: string, tail: string, k: nat)
    requires 3 < k <= |number|
    ensures var digits, front, tail' := number[..k] + tail, number[..k - 3], " " + (number[k - 3..k] + tail);
            && digits[..k - 3] + " " + digits[k - 3..] == front + tail'
            && Grouped(number[..k]) + tail == Grouped(front) + tail'
  {
    var left, front, group := number[..k], number[..k - 3], number[k - 3..k];
    var digits := left + tail;
    assert left[..k - 3] == front && left[k - 3..] == group;
    assert digits[..k - 3] == front && digits[k - 3..] == group + tail;
    Reassociate(Grouped(front), group, tail);
    Reassociate(front, group, tail);
  }

  lemma Reassociate(a: string, b: string, c: string)
    ensures a + " " + b + c == a + (" " + (b + c))
    ensures a + " " + (b + c) == a + (" " + (b + c))
  {
  }

  method GroupDigits(number: string) returns (digits: string)
    ensures digits == Grouped(number)
  {
    digits := number;
    var index: int := |digits| - 3;
    ghost var tail := "";
    assert number[..|number|] == number && number + "" == number && Grouped(number) + "" == Grouped(number);
    while index > 0
      invariant index + 3 <= |number| && (index + 3 >= 0 || number == "")
      invariant index + 3 >= 0 ==> digits == number[..index + 3] + tail && Grouped(number) == Grouped(number[..index + 3]) + tail
      invariant index + 3 < 0 ==> digits == number
    {
      var k := index + 3;
      GroupStep(number, tail, k);
      tail := " " + (number[k - 3..k] + tail);
      digits := digits[..index] + " " + digits[index..];
      index := index - 3;
    }
  }

  method FormatMoney(value: int) returns (text: string)
    requires -TWO_63 <= value <= MAX_INT64
    ensures text == MoneyText(value)
  {
    var negative := value < 0;
    var magnitude := if negative then Wrap64(-value) else value;
    var digits := GroupDigits(FormatInt(magnitude));
    if negative {
      digits := MINUS + digits;
    }
    return digits + ROUBLES;
  }

  /** The negation of the least int64 is itself. */
  function Magnitude(value: int): int {
    if value < 0 then Wrap64(-value) else value
  }

  function Signed(value: int): string {
    if value < 0 then MINUS + Grouped(FormatInt(Magnitude(value))) else Grouped(FormatInt(Magnitude(value)))
  }

  function MoneyText(value: int): string {
    Signed(value) + ROUBLES
  }

  function WithoutSpaces(s: string): string {
    if s == "" then ""
    else if s[|s| - 1] == ' ' then WithoutSpaces(s[..|s| - 1])
    else WithoutSpaces(s[..|s| - 1]) + [s[|s| - 1]]
  }

  lemma {:induction false} WithoutSpacesConcat(a: string, b: string)
    ensures WithoutSpaces(a + b) == WithoutSpaces(a) + WithoutSpaces(b)
  {
    if b == "" {
      assert a + b == a;
    } else {
      WithoutSpacesConcat(a, b[..|b| - 1]);
      assert (a + b)[..|a + b| - 1] == a + b[..|b| - 1];
    }
  }

  lemma {:induction false} NothingToRemove(s: string)
    requires ' ' !in s
    ensures WithoutSpaces(s) == s
  {
    if s != "" {
      NothingToRemove(s[..|s| - 1]);
      assert s == s[..|s| - 1] + [s[|s| - 1]];
    }
  }

  /** Without its spaces the text is the number again. */
  lemma {:induction false} GroupingKeepsDigits(digits: string)
    requires ' ' !in digits
    ensures WithoutSpaces(Grouped(digits)) == digits
  {
    NothingToRemove(digits);
    if |digits| > 3 {
      var n := |digits| - 3;
      GroupingKeepsDigits(digits[..n]);
      NothingToRemove(digits[n..]);
      WithoutSpacesConcat(Grouped(digits[..n]), " ");
      WithoutSpacesConcat(Grouped(digits[..n]) + " ", digits[n..]);
      assert " "[..0] == "";
      assert digits == digits[..n] + digits[n..];
    }
  }

  /** The spaces stand exactly at every fourth place from the right: groups of three, and never one in front. */
  lemma {:induction false} SpacesAreEveryFourth(digits: string, j: nat)
    requires ' ' !in digits && j < |Grouped(digits)|
    ensures Grouped(digits)[j] == ' ' <==> (|Grouped(digits)| - j) % 4 == 0
    ensures Grouped(digits)[0] != ' '
  {
    if |digits| > 3 {
      var n := |digits| - 3;
      var front := Grouped(digits[..n]);
      SpacesAreEveryFourth(digits[..n], if j < |front| then j else 0);
    }
  }

  /** Different amounts never print alike. */
  lemma MoneyTextInjective(a: int, b: int)
    requires -TWO_63 <= a <= MAX_INT64 && -TWO_63 <= b <= MAX_INT64
    ensures MoneyText(a) == MoneyText(b) <==> a == b
  {
    if MoneyText(a) == MoneyText(b) {
      CutRoubles(a);
      CutRoubles(b);
      ReadBack(a);
      ReadBack(b);
      FormatIntInjective(Magnitude(a), Magnitude(b));
      MagnitudeTells(a);
      MagnitudeTells(b);
    }
  }

  lemma MagnitudeTells(value: int)
    requires -TWO_63 <= value <= MAX_INT64
    ensures Magnitude(value) == if -TWO_63 < value < 0 then -value else value
  {
    WrapPeriod(-TWO_63);
  }

  lemma CutRoubles(value: int)
    ensures MoneyText(value)[..|MoneyText(value)| - |ROUBLES|] == Signed(value)
  {
  }

  /** The sign and the digits can be read back from the text. */
  lemma ReadBack(value: int)
    ensures value < 0 <==> Signed(value) != "" && Signed(value)[0] == '\U{2212}'
    ensures value >= 0 ==> WithoutSpaces(Signed(value)) == FormatInt(Magnitude(value))
    ensures value < 0 ==> WithoutSpaces(Signed(value)[2..]) == FormatInt(Magnitude(value))
  {
    var text := FormatInt(Magnitude(value));
    NumberText(Magnitude(value));
    GroupingKeepsDigits(text);
    GroupedStart(text);
    assert (MINUS + Grouped(text))[2..] == Grouped(text);
  }

  lemma NumberText(n: int)
    ensures FormatInt(n) != "" && ' ' !in FormatInt(n) && FormatInt(n)[0] != '\U{2212}'
  {
    NatValueOfFormat(if n < 0 then -n else n);
  }

  lemma {:induction false} GroupedStart(digits: string)
    requires digits != ""
    ensures Grouped(digits) != "" && Grouped(digits)[0] == digits[0]
  {
    if |digits| > 3 {
      GroupedStart(digits[..|digits| - 3]);
    }
  }
}
