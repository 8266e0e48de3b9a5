/**
 Discount percentages as text and as basis points (hundredths of a percent):
 percentStringToBasisPoints and formatBasisPoints of the offer service, with the int64
 arithmetic they run on, and the number texts that the Python agent and the DECIMAL(5,2)
 columns feed into them.
 */
module Percent {
  import opened Wrappers
  import opened Text

  const MAX_BASIS_POINTS: int := 10000

  function Pad2(f: string): (p: string)
    requires |f| <= 2
    ensures |p| == 2 && f <= p
  {
    if |f| == 2 then f else if |f| == 1 then f + "0" else "00"
  }

  /** The text before the point and the text after it, when the parser goes on to read them. */
  function Pieces(text: string): (r: Option<(string, string)>)
    ensures r.Some? ==> |r.value.1| <= 2
  {
    var parts := Split(text, '.');
    if text == "" || text[0] == '-' || |parts| > 2 || parts[0] == "" then None
    else if |parts| == 1 then Some((parts[0], ""))
    else if |parts[1]| > 2 then None
    else Some((parts[0], parts[1]))
  }

  /** whole * 100 + hundredths as the machine computes it, when it lies in 0..10000. */
  function Points(whole: int, hundredths: int): (r: Option<int>)
    ensures r.Some? ==> 0 <= r.value <= MAX_BASIS_POINTS
  {
    var basisPoints := Wrap64(Wrap64(whole * 100) + hundredths);
    if basisPoints < 0 || basisPoints > MAX_BASIS_POINTS then None else Some(basisPoints)
  }

  function PointsOfPieces(whole: string, fraction: string): (r: Option<int>)
    requires |fraction| <= 2
    ensures r.Some? ==> 0 <= r.value <= MAX_BASIS_POINTS
  {
    match (ParseInt64(whole), ParseInt64(Pad2(fraction)))
    case (Some(w), Some(f)) => Points(w, f)
    case _ => None
  }

  /** What the parser answers: the basis points of an accepted text. */
  function ParsePercent(value: string): (r: Option<int>)
    ensures r.Some? ==> 0 <= r.value <= MAX_BASIS_POINTS
  {
    match Pieces(TrimSpace(value))
    case None => None
    case Some((whole, fraction)) => PointsOfPieces(whole, fraction)
  }

  method PercentStringToBasisPoints(value: string) returns (r: Option<int>)
    ensures r == ParsePercent(value)
  {
    var text := TrimSpace(value);
    if text == "" || text[0] == '-' {
      return None;
    }
    var parts := Split(text, '.');
    if |parts| > 2 || |parts[0]| == 0 {
      return None;
    }
    var whole := ParseInt64(parts[0]);
    var fraction := "";
    if |parts| == 2 {
      fraction := parts[1];
    }
    assert |fraction| <= 2 ==> Pieces(text) == Some((parts[0], fraction));
    if whole.None? || |fraction| > 2 {
      return None;
    }
    fraction := PadFraction(fraction);
    var hundredths := ParseInt64(fraction);
    if hundredths.None? {
      return None;
    }
    r := Points(whole.value, hundredths.value);
  }

  method PadFraction(written: string) returns (fraction: string)
    requires |written| <= 2
    ensures fraction == Pad2(written)
  {
    fraction := written;
    while |fraction| < 2
      invariant |fraction| <= 2 && Pad2(fraction) == Pad2(written)
      decreases 2 - |fraction|
    {
      fraction := fraction + "0";
    }
  }

  // ---------- the exact language of the parser ----------

  /** A text of the shape [+]whole[.tail]. */
  function Written(plus: bool, whole: string, tail: Option<string>): string {
    (if plus then "+" else "") + whole + (if tail.Some? then "." + tail.value else "")
  }

  function Tail(tail: Option<string>): string {
    if tail.Some? then tail.value else ""
  }

  /** The tails the parser lets through: at most two characters, of which the first may be a sign. */
  predicate TailShape(f: string) {
    |f| <= 2 && AllDigits(Unsigned(f))
  }

  function TailValue(f: string): int
    requires TailShape(f)
  {
    var n: int := NatValue(Unsigned(Pad2(f)));
    if f != "" && f[0] == '-' then -n else n
  }

  lemma TailParses(f: string)
    requires |f| <= 2
    ensures TailShape(f) <==> ParseInt64(Pad2(f)).Some?
    ensures TailShape(f) ==> ParseInt64(Pad2(f)) == Some(TailValue(f)) && -9 <= TailValue(f) <= 99
  {
    var p := Pad2(f);
    if f == "" {
      assert Unsigned(p) == "00";
    } else {
      assert Unsigned(p) == Unsigned(f) + p[|f|..];
    }
    if AllDigits(Unsigned(p)) {
      assert forall i :: 0 <= i < |Unsigned(f)| ==> Unsigned(f)[i] == Unsigned(p)[i];
      NatValueBound(Unsigned(p));
      assert Pow10(1) == 10 && Pow10(2) == 100;
      assert p[0] == '-' <==> f != "" && f[0] == '-';
      assert f != "" && IsSign(f[0]) ==> |Unsigned(p)| == 1;
    }
  }

  lemma NoPointInside(f: string)
    requires AllDigits(Unsigned(f))
    ensures '.' !in f
  {
    if f != "" && IsSign(f[0]) {
      assert forall i :: 1 <= i < |f| ==> f[i] == Unsigned(f)[i - 1];
    }
  }

  lemma PiecesOfWritten(plus: bool, whole: string, tail: Option<string>)
    requires whole != "" && AllDigits(whole) && TailShape(Tail(tail))
    ensures Pieces(Written(plus, whole, tail)) == Some((Written(plus, whole, None), Tail(tail)))
  {
    var head := Written(plus, whole, None);
    var text := Written(plus, whole, tail);
    assert head == if plus then "+" + whole else whole;
    assert text[0] == head[0] && head[0] != '-';
    assert Unsigned(head) == whole;
    NoPointInside(head);
    if tail.Some? {
      assert text == head + ['.'] + tail.value;
      SplitAtFirst(head, '.', tail.value);
      NoPointInside(tail.value);
      SplitWithout(tail.value, '.');
    } else {
      SplitWithout(head, '.');
    }
  }

  lemma WholeParses(plus: bool, whole: string)
    requires whole != "" && AllDigits(whole)
    ensures ParseInt64(Written(plus, whole, None)) ==
            if NatValue(whole) <= MAX_INT64 then Some(NatValue(whole)) else None
  {
    var head := Written(plus, whole, None);
    assert head == if plus then "+" + whole else whole;
    assert Unsigned(head) == whole;
  }

  lemma PointsInRange(whole: int, hundredths: int)
    ensures Points(whole, hundredths) == InRange(Wrap64(whole * 100 + hundredths))
  {
    WrapSum(whole * 100, hundredths);
  }

  lemma PiecesRead(head: string, f: string, whole: int, hundredths: int)
    requires |f| <= 2 && ParseInt64(head) == Some(whole) && ParseInt64(Pad2(f)) == Some(hundredths)
    ensures PointsOfPieces(head, f) == Points(whole, hundredths)
  {
  }

  /** What the int64 arithmetic makes of a whole part and its hundredths. */
  function Reading(whole: nat, hundredths: int): Option<int> {
    if whole <= MAX_INT64 then InRange(Wrap64(whole * 100 + hundredths)) else None
  }

  lemma PiecesReading(head: string, f: string, whole: nat, hundredths: int)
    requires |f| <= 2 && ParseInt64(head) == (if whole <= MAX_INT64 then Some(whole) else None)
    requires ParseInt64(Pad2(f)) == Some(hundredths)
    ensures PointsOfPieces(head, f) == Reading(whole, hundredths)
  {
    if whole <= MAX_INT64 {
      PiecesRead(head, f, whole, hundredths);
      PointsInRange(whole, hundredths);
    }
  }

  /** The two pieces of an accepted text are read as the int64 sum of their values. */
  lemma PiecesValue(plus: bool, whole: string, f: string)
    requires whole != "" && AllDigits(whole) && TailShape(f)
    ensures PointsOfPieces(Written(plus, whole, None), f) == Reading(NatValue(whole), TailValue(f))
  {
    WholeParses(plus, whole);
    TailParses(f);
    PiecesReading(Written(plus, whole, None), f, NatValue(whole), TailValue(f));
  }

  function InRange(points: int): Option<int> {
    if 0 <= points <= MAX_BASIS_POINTS then Some(points) else None
  }

  /** A text of the accepted shape is read as the int64 sum of its parts, and as nothing else. */
  lemma ShapeParses(value: string, plus: bool, whole: string, tail: Option<string>)
    requires TrimSpace(value) == Written(plus, whole, tail)
    requires whole != "" && AllDigits(whole) && TailShape(Tail(tail))
    ensures ParsePercent(value) == Reading(NatValue(whole), TailValue(Tail(tail)))
  {
    PiecesOfWritten(plus, whole, tail);
    PiecesValue(plus, whole, Tail(tail));
  }

  lemma PiecesRejoin(text: string)
    requires Pieces(text).Some?
    ensures var (w, f) := Pieces(text).value;
            && w != "" && w[0] != '-'
            && ((text == w && f == "") || text == w + "." + f)
  {
    SplitRejoins(text, '.');
  }

  /** A whole part that is read and has no minus is digits with an optional plus. */
  lemma HeadShape(w: string) returns (plus: bool, whole: string)
    requires w != "" && w[0] != '-' && ParseInt64(w).Some?
    ensures w == Written(plus, whole, None) && whole != "" && AllDigits(whole)
  {
    plus, whole := w[0] == '+', Unsigned(w);
    assert w == if plus then "+" + whole else whole;
  }

  lemma WrittenWithTail(plus: bool, whole: string, f: string)
    ensures Written(plus, whole, Some(f)) == Written(plus, whole, None) + "." + f
  {
    var head := Written(plus, whole, None);
    assert head + "." + f == head + ("." + f);
  }

  /** Whatever the parser accepts has that shape: with ShapeParses, the exact accepted language. */
  lemma AcceptedShape(value: string) returns (plus: bool, whole: string, tail: Option<string>)
    requires ParsePercent(value).Some?
    ensures TrimSpace(value) == Written(plus, whole, tail)
    ensures whole != "" && AllDigits(whole) && TailShape(Tail(tail))
  {
    var text := TrimSpace(value);
    PiecesRejoin(text);
    var (w, f) := Pieces(text).value;
    TailParses(f);
    plus, whole := HeadShape(w);
    tail := if text == w && f == "" then None else Some(f);
    WrittenWithTail(plus, whole, f);
  }

  // ---------- plain decimals and what they mean ----------

  /** digits[.digits], at most two after the point: the form the API documents. */
  predicate IsPlain(whole: string, tail: Option<string>) {
    whole != "" && AllDigits(whole) && AllDigits(Tail(tail)) && |Tail(tail)| <= 2
  }

  /** A hundred times the value of the plain decimal whole.f. */
  function Hundredfold(whole: string, f: string): nat
    requires AllDigits(whole) && AllDigits(f) && |f| <= 2
  {
    NatValue(whole) * 100 + NatValue(Pad2(f))
  }

  lemma SmallPowers()
    ensures Pow10(0) == 1 && Pow10(1) == 10 && Pow10(2) == 100
  {
  }

  lemma ZerosAreWorthless()
    ensures NatValue("") == 0 && NatValue("0") == 0 && NatValue("00") == 0
  {
    assert "0"[..0] == "" && "00"[..1] == "0";
  }

  lemma PadMultiplies(f: string)
    requires AllDigits(f) && |f| <= 2
    ensures NatValue(Pad2(f)) == NatValue(f) * Pow10(2 - |f|)
  {
    var zeros := if |f| == 2 then "" else if |f| == 1 then "0" else "00";
    ZerosAreWorthless();
    NatValueConcat(f, zeros);
    assert Pad2(f) == f + zeros;
  }

  /** whole.f writes NatValue(whole + f) / 10^|f|, so Hundredfold is exactly 100 times that value. */
  lemma HundredfoldIsExact(whole: string, f: string)
    requires AllDigits(whole) && AllDigits(f) && |f| <= 2
    ensures AllDigits(whole + f)
    ensures Hundredfold(whole, f) * Pow10(|f|) == 100 * NatValue(whole + f)
    ensures Pow10(2 - |f|) * Pow10(|f|) == 100
  {
    NatValueConcat(whole, f);
    PadMultiplies(f);
    PowersMeet(|f|);
    ScaledSum(Hundredfold(whole, f), NatValue(whole + f), NatValue(whole), NatValue(f), Pow10(|f|), Pow10(2 - |f|));
  }

  lemma PowersMeet(k: nat)
    requires k <= 2
    ensures Pow10(2 - k) * Pow10(k) == 100
  {
    SmallPowers();
  }

  lemma ScaledSum(h: nat, t: nat, v: nat, n: nat, p: nat, q: nat)
    requires h == v * 100 + n * q && t == v * p + n && q * p == 100
    ensures h * p == 100 * t
  {
    SumTimes(v * 100, n * q, p);
    ProductTimes(n, q, p);
    SwapHundred(v, p);
  }

  lemma SumTimes(a: nat, b: nat, p: nat)
    ensures (a + b) * p == a * p + b * p
  {
  }

  lemma ProductTimes(n: nat, q: nat, p: nat)
    ensures n * q * p == n * (q * p)
  {
  }

  lemma SwapHundred(v: nat, p: nat)
    ensures v * 100 * p == 100 * (v * p)
  {
  }

  /** Basis points in range, as they should be read. */
  function Capped(h: nat): Option<int> {
    if h <= MAX_BASIS_POINTS then Some(h) else None
  }

  /** The int64 sum of a whole part and its hundredths has overflowed and come round into 0..10000. */
  predicate ComesRound(whole: nat, hundredths: nat) {
    && whole <= MAX_INT64 && whole * 100 + hundredths >= TWO_64
    && (whole * 100 + hundredths) % 0x1_0000_0000_0000_0000 <= MAX_BASIS_POINTS
  }

  /** The reading a caller expects of a plain decimal: its value when that is at most 100 percent. */
  function ExactReading(whole: string, f: string): Option<int>
    requires AllDigits(whole) && AllDigits(f) && |f| <= 2
  {
    Capped(Hundredfold(whole, f))
  }

  /** An absurd percentage whose int64 product comes round into the valid range. */
  predicate WrapsIntoRange(whole: string, f: string)
    requires AllDigits(whole) && AllDigits(f) && |f| <= 2
  {
    ComesRound(NatValue(whole), NatValue(Pad2(f)))
  }

  lemma {:induction false} WrapOfNat(h: nat)
    ensures 0 <= Wrap64(h) <= MAX_BASIS_POINTS <==> h % 0x1_0000_0000_0000_0000 <= MAX_BASIS_POINTS
    ensures h % 0x1_0000_0000_0000_0000 <= MAX_BASIS_POINTS ==> Wrap64(h) == h % 0x1_0000_0000_0000_0000
  {
    if h >= TWO_64 {
      WrapOfNat(h - TWO_64);
      WrapPeriod(h - TWO_64);
      ModPeriod(h - TWO_64);
    }
  }

  lemma ModPeriod(h: nat)
    ensures (h + TWO_64) % 0x1_0000_0000_0000_0000 == h % 0x1_0000_0000_0000_0000
  {
  }

  lemma PlainTail(f: string)
    requires AllDigits(f) && |f| <= 2
    ensures TailShape(f) && TailValue(f) == NatValue(Pad2(f)) <= 99
  {
    assert f == "" || IsDigit(f[0]);
    TailParses(f);
  }

  lemma PlainParses(value: string, plus: bool, whole: string, tail: Option<string>)
    requires IsPlain(whole, tail) && TrimSpace(value) == Written(plus, whole, tail)
    ensures ParsePercent(value) == Reading(NatValue(whole), NatValue(Pad2(Tail(tail))))
  {
    PlainTail(Tail(tail));
    ShapeParses(value, plus, whole, tail);
  }

  lemma ReadingExactIff(whole: nat, hundredths: nat)
    ensures Reading(whole, hundredths) == Capped(whole * 100 + hundredths) <==> !ComesRound(whole, hundredths)
    ensures ComesRound(whole, hundredths) ==>
              Reading(whole, hundredths) == Some((whole * 100 + hundredths) % 0x1_0000_0000_0000_0000)
  {
    WrapOfNat(whole * 100 + hundredths);
  }

  lemma PartsExactIff(r: Option<int>, whole: string, f: string)
    requires AllDigits(whole) && AllDigits(f) && |f| <= 2 && r == Reading(NatValue(whole), NatValue(Pad2(f)))
    ensures r == ExactReading(whole, f) <==> !WrapsIntoRange(whole, f)
    ensures WrapsIntoRange(whole, f) ==> r == Some(Hundredfold(whole, f) % 0x1_0000_0000_0000_0000)
  {
    ReadingExactIff(NatValue(whole), NatValue(Pad2(f)));
  }

  /** A plain decimal is read correctly exactly when its hundredfold does not wrap into 0..10000. */
  lemma PlainReadingIff(value: string, plus: bool, whole: string, tail: Option<string>)
    requires IsPlain(whole, tail) && TrimSpace(value) == Written(plus, whole, tail)
    ensures ParsePercent(value) == ExactReading(whole, Tail(tail)) <==> !WrapsIntoRange(whole, Tail(tail))
    ensures WrapsIntoRange(whole, Tail(tail)) ==>
              ParsePercent(value) == Some(Hundredfold(whole, Tail(tail)) % 0x1_0000_0000_0000_0000)
  {
    PlainParses(value, plus, whole, tail);
    PartsExactIff(ParsePercent(value), whole, Tail(tail));
  }

  /** Below 184467440737095516 percent every plain decimal is read correctly ... */
  lemma PlainReadingBelowBound(value: string, plus: bool, whole: string, tail: Option<string>)
    requires IsPlain(whole, tail) && TrimSpace(value) == Written(plus, whole, tail)
    requires NatValue(whole) < 184467440737095516
    ensures ParsePercent(value) == ExactReading(whole, Tail(tail))
  {
    NatValueBound(Pad2(Tail(tail)));
    assert Pow10(2) == 100 by { assert Pow10(1) == 10; }
    PlainReadingIff(value, plus, whole, tail);
  }

  /** The decimal text of (2^64 + n) / 100. */
  function OverflowText(n: nat): string {
    Written(false, FormatNat((TWO_64 + n) / 100), Some(FmtTwoDigits((TWO_64 + n) % 100)))
  }

  /** ... and from that bound on the reading can be wrong: for every valid discount there is an absurd percentage,
      beginning with 184467440737095516.16 for zero, that is accepted as this discount. */
  lemma OverflowIsAccepted(n: nat)
    requires n <= MAX_BASIS_POINTS
    ensures ParsePercent(OverflowText(n)) == Some(n)
    ensures var whole, f := FormatNat((TWO_64 + n) / 100), FmtTwoDigits((TWO_64 + n) % 100);
            IsPlain(whole, Some(f)) && ExactReading(whole, f) == None
  {
    var whole, f := FormatNat((TWO_64 + n) / 100), FmtTwoDigits((TWO_64 + n) % 100);
    OverflowParts(n);
    WrittenIsTrimmed(whole, Some(f));
    PlainReadingIff(OverflowText(n), false, whole, Some(f));
  }

  lemma OverflowParts(n: nat)
    requires n <= MAX_BASIS_POINTS
    ensures var whole, f := FormatNat((TWO_64 + n) / 100), FmtTwoDigits((TWO_64 + n) % 100);
            && IsPlain(whole, Some(f)) && Hundredfold(whole, f) == TWO_64 + n
            && WrapsIntoRange(whole, f) && Hundredfold(whole, f) % 0x1_0000_0000_0000_0000 == n
  {
    NatValueOfFormat((TWO_64 + n) / 100);
    TwoDigits((TWO_64 + n) % 100);
    ModPeriod(n);
  }

  lemma WrittenIsTrimmed(whole: string, tail: Option<string>)
    requires IsPlain(whole, tail)
    ensures TrimSpace(Written(false, whole, tail)) == Written(false, whole, tail)
  {
    var text := Written(false, whole, tail);
    assert text[0] == whole[0] && IsDigit(whole[0]);
    assert text[|text| - 1] == '.' || IsDigit(text[|text| - 1]);
    TrimKeeps(text);
  }

  lemma NatValueTwo(a: char, b: char)
    requires IsDigit(a) && IsDigit(b)
    ensures AllDigits([a, b]) && NatValue([a, b]) == DigitValue(a) * 10 + DigitValue(b)
  {
    assert [a, b][..1] == [a] && [a][..0] == "";
    assert NatValue([a]) == DigitValue(a);
  }

  /** A sign after the point is accepted and shifts the price: "5.-5" reads as 4.95 percent. */
  lemma SignedFractionIsAccepted()
    ensures ParsePercent("5.-5") == Some(495)
  {
    TrimKeeps("5.-5");
    assert "5.-5" == Written(false, "5", Some("-5"));
    assert Unsigned("-5") == "5" && NatValue("5") == 5 by { assert "5"[..0] == ""; }
    ShapeParses("5.-5", false, "5", Some("-5"));
  }

  /** The text is a plain decimal, up to a leading plus. */
  ghost predicate IsPlainText(text: string) {
    exists plus, whole, tail :: IsPlain(whole, tail) && text == Written(plus, whole, tail)
  }

  /** No sign but, at most, the first character. */
  predicate NoInnerSign(text: string) {
    forall i :: 1 <= i < |text| ==> !IsSign(text[i])
  }

  lemma HeadHasNoInnerSign(plus: bool, whole: string)
    requires whole != "" && AllDigits(whole)
    ensures NoInnerSign(Written(plus, whole, None))
  {
    var head := Written(plus, whole, None);
    assert head == if plus then "+" + whole else whole;
  }

  lemma PlainHasNoInnerSign(plus: bool, whole: string, tail: Option<string>)
    requires IsPlain(whole, tail)
    ensures NoInnerSign(Written(plus, whole, tail))
  {
    HeadHasNoInnerSign(plus, whole);
    if tail.Some? {
      WrittenWithTail(plus, whole, tail.value);
    }
  }

  lemma TailWithoutSign(head: string, f: string)
    requires head != "" && TailShape(f) && NoInnerSign(head + "." + f)
    ensures AllDigits(f)
  {
    assert f != "" ==> (head + "." + f)[|head| + 1] == f[0];
  }

  /** The sign is the only oddity: an accepted text is a plain decimal exactly when no sign stands inside it. */
  lemma AcceptedIsPlainIff(value: string)
    requires ParsePercent(value).Some?
    ensures IsPlainText(TrimSpace(value)) <==> NoInnerSign(TrimSpace(value))
  {
    var text := TrimSpace(value);
    if NoInnerSign(text) {
      var plus, whole, tail := AcceptedShape(value);
      if tail.Some? {
        WrittenWithTail(plus, whole, tail.value);
        TailWithoutSign(Written(plus, whole, None), tail.value);
      }
      assert IsPlain(whole, tail);
    }
    if IsPlainText(text) {
      var plus, whole, tail :| IsPlain(whole, tail) && text == Written(plus, whole, tail);
      PlainHasNoInnerSign(plus, whole, tail);
    }
  }

  // ---------- formatting ----------

  function FmtTwoDigits(value: nat): string
    requires value < 100
  {
    if value < 10 then "0" + FormatNat(value) else FormatNat(value)
  }

  function FormatBasisPoints(value: nat): string {
    var whole, fraction := value / 100, value % 100;
    if fraction == 0 then FormatNat(whole)
    else if fraction % 10 == 0 then FormatNat(whole) + "." + FormatNat(fraction / 10)
    else FormatNat(whole) + "." + FmtTwoDigits(fraction)
  }

  lemma TwoDigits(value: nat)
    requires value < 100
    ensures |FmtTwoDigits(value)| == 2 && AllDigits(FmtTwoDigits(value))
    ensures NatValue(FmtTwoDigits(value)) == value
  {
    NatValueOfFormat(value);
    if value < 10 {
      var s := FmtTwoDigits(value);
      assert s[..1] == "0" && "0"[..0] == "";
      assert FormatNat(value) == [DigitChar(value)];
    } else {
      assert FormatNat(value) == [DigitChar(value / 10)] + [DigitChar(value % 10)];
    }
  }

  /** A number text with the given parts, all digits, is read back as those parts. */
  lemma ReadBack(points: nat, whole: string, tail: Option<string>)
    requires points <= MAX_BASIS_POINTS && IsPlain(whole, tail)
    requires Hundredfold(whole, Tail(tail)) == points
    ensures ParsePercent(Written(false, whole, tail)) == Some(points)
  {
    var text := Written(false, whole, tail);
    WrittenIsTrimmed(whole, tail);
    PlainReadingIff(text, false, whole, tail);
  }

  /** The fraction part of a formatted discount, when there is one. */
  function FormatTail(fraction: nat): Option<string>
    requires fraction < 100
  {
    if fraction == 0 then None
    else if fraction % 10 == 0 then Some(FormatNat(fraction / 10))
    else Some(FmtTwoDigits(fraction))
  }

  /** The fraction text f stands for n hundredths. */
  predicate ReadsAs(f: string, n: nat) {
    |f| <= 2 && AllDigits(f) && NatValue(Pad2(f)) == n
  }

  lemma NoTail()
    ensures ReadsAs("", 0)
  {
    NatValueTwo('0', '0');
  }

  lemma OneDigitTail(d: nat)
    requires d < 10
    ensures ReadsAs(FormatNat(d), 10 * d)
  {
    assert FormatNat(d) == [DigitChar(d)] && Pad2(FormatNat(d)) == [DigitChar(d), '0'];
    NatValueTwo(DigitChar(d), '0');
  }

  lemma TwoDigitTail(n: nat)
    requires n < 100
    ensures ReadsAs(FmtTwoDigits(n), n)
  {
    TwoDigits(n);
  }

  lemma TailReadsBack(fraction: nat)
    requires fraction < 100
    ensures ReadsAs(Tail(FormatTail(fraction)), fraction)
  {
    var f := Tail(FormatTail(fraction));
    if fraction == 0 {
      assert f == "";
      NoTail();
    } else if fraction % 10 == 0 {
      assert f == FormatNat(fraction / 10);
      OneDigitTail(fraction / 10);
    } else {
      assert f == FmtTwoDigits(fraction);
      TwoDigitTail(fraction);
    }
  }

  lemma WrittenPlainly(whole: string, f: string)
    ensures Written(false, whole, None) == whole
    ensures Written(false, whole, Some(f)) == whole + "." + f
  {
    WrittenWithTail(false, whole, f);
  }

  lemma FormatIsWritten(points: nat)
    ensures FormatBasisPoints(points) == Written(false, FormatNat(points / 100), FormatTail(points % 100))
  {
    WrittenPlainly(FormatNat(points / 100), Tail(FormatTail(points % 100)));
  }

  lemma FormatIsPlain(points: nat)
    ensures IsPlain(FormatNat(points / 100), FormatTail(points % 100))
    ensures Hundredfold(FormatNat(points / 100), Tail(FormatTail(points % 100))) == points
  {
    NatValueOfFormat(points / 100);
    TailReadsBack(points % 100);
  }

  /** parse(format(v)) == v for every valid discount. */
  lemma FormatParses(points: nat)
    requires points <= MAX_BASIS_POINTS
    ensures ParsePercent(FormatBasisPoints(points)) == Some(points)
  {
    FormatIsPlain(points);
    FormatIsWritten(points);
    ReadBack(points, FormatNat(points / 100), FormatTail(points % 100));
  }

  /** Whole percents are written without a point, and a fraction never ends in a zero. */
  lemma FormatIsShortest(points: nat)
    ensures points % 100 == 0 ==> '.' !in FormatBasisPoints(points)
    ensures points % 100 != 0 ==> var text := FormatBasisPoints(points); text != "" && text[|text| - 1] != '0'
  {
    var fraction := points % 100;
    assert AllDigits(FormatNat(points / 100));
    if fraction != 0 && fraction % 10 == 0 {
      assert FormatNat(fraction / 10) == [DigitChar(fraction / 10)];
    } else if fraction != 0 {
      LastDigit(fraction);
    }
  }

  lemma LastDigit(fraction: nat)
    requires fraction < 100
    ensures FmtTwoDigits(fraction)[|FmtTwoDigits(fraction)| - 1] == DigitChar(fraction % 10)
  {
    if fraction < 10 {
      assert FormatNat(fraction) == [DigitChar(fraction)];
    } else {
      assert FormatNat(fraction) == FormatNat(fraction / 10) + [DigitChar(fraction % 10)];
    }
  }

  /** Canonical form: accepted texts have equal canonical strings exactly when they parse equal. */
  lemma FormatIsCanonical(s: string, t: string)
    requires ParsePercent(s).Some? && ParsePercent(t).Some?
    ensures ParsePercent(s) == ParsePercent(t) <==>
            FormatBasisPoints(ParsePercent(s).value) == FormatBasisPoints(ParsePercent(t).value)
    ensures ParsePercent(FormatBasisPoints(ParsePercent(s).value)) == ParsePercent(s)
  {
    FormatParses(ParsePercent(s).value);
    FormatParses(ParsePercent(t).value);
  }

  // ---------- texts produced elsewhere ----------

  /** The JSON text of the agent's requested discount: an int when integral, else the shortest float. */
  function JsonNumberText(points: nat): string {
    if points % 100 == 0 then FormatNat(points / 100) else FormatBasisPoints(points)
  }

  /** The JSON text of the same number once the agent has stored it in a float field. */
  function JsonFloatText(points: nat): string {
    if points % 100 == 0 then FormatNat(points / 100) + ".0" else FormatBasisPoints(points)
  }

  /** The text of a DECIMAL(5, 2) column. */
  function NumericColumnText(points: nat): string {
    FormatNat(points / 100) + "." + FmtTwoDigits(points % 100)
  }

  lemma AppendZero(whole: string)
    ensures whole + ".0" == whole + "." + "0"
  {
  }

  lemma ForeignTextsAreWritten(points: nat)
    ensures points % 100 == 0 ==> JsonFloatText(points) == Written(false, FormatNat(points / 100), Some("0"))
    ensures NumericColumnText(points) == Written(false, FormatNat(points / 100), Some(FmtTwoDigits(points % 100)))
  {
    WrittenPlainly(FormatNat(points / 100), "0");
    WrittenPlainly(FormatNat(points / 100), FmtTwoDigits(points % 100));
    AppendZero(FormatNat(points / 100));
  }

  /** All three texts of a discount reach the same basis points in the Go service. */
  lemma ForeignTextsParse(points: nat)
    requires points <= MAX_BASIS_POINTS
    ensures ParsePercent(JsonNumberText(points)) == Some(points)
    ensures ParsePercent(JsonFloatText(points)) == Some(points)
    ensures ParsePercent(NumericColumnText(points)) == Some(points)
  {
    NatValueOfFormat(points / 100);
    FormatParses(points);
    ForeignTextsAreWritten(points);
    if points % 100 == 0 {
      NatValueTwo('0', '0');
      ReadBack(points, FormatNat(points / 100), Some("0"));
    }
    TwoDigits(points % 100);
    ReadBack(points, FormatNat(points / 100), Some(FmtTwoDigits(points % 100)));
  }
}
