/**
 Go's string and integer text routines, as far as the offer code depends on them:
 strings.TrimSpace, strings.Split, strconv.ParseInt and FormatInt at 64 bits.
 */
module Text {
  import opened Wrappers

  const MAX_INT64: int := 0x7FFF_FFFF_FFFF_FFFF
  const TWO_63: int := 0x8000_0000_0000_0000
  const TWO_64: int := 0x1_0000_0000_0000_0000

  /** How far an integer lies outside the int64 range. */
  function Excess64(x: int): nat {
    if x > MAX_INT64 then x - MAX_INT64 else if x < -TWO_63 then -TWO_63 - x else 0
  }

  /** The int64 value that the two's-complement machine keeps of an integer. */
  function Wrap64(x: int): (r: int)
    ensures -TWO_63 <= r <= MAX_INT64
    decreases Excess64(x)
  {
    if x > MAX_INT64 then Wrap64(x - TWO_64)
    else if x < -TWO_63 then Wrap64(x + TWO_64)
    else x
  }

  lemma {:induction false} WrapSum(x: int, y: int)
    ensures Wrap64(Wrap64(x) + y) == Wrap64(x + y)
    decreases Excess64(x)
  {
    if x > MAX_INT64 {
      WrapSum(x - TWO_64, y);
      WrapPeriod(x + y - TWO_64);
    } else if x < -TWO_63 {
      WrapSum(x + TWO_64, y);
      WrapPeriod(x + y);
    }
  }

  lemma WrapPeriod(x: int)
    ensures Wrap64(x + TWO_64) == Wrap64(x)
  {
  }

  /** Wrap64 keeps the value modulo 2^64. */
  lemma {:induction false} WrapIsCongruent(x: int)
    ensures (x - Wrap64(x)) % 0x1_0000_0000_0000_0000 == 0
    decreases Excess64(x)
  {
    if x > MAX_INT64 {
      WrapIsCongruent(x - TWO_64);
    } else if x < -TWO_63 {
      WrapIsCongruent(x + TWO_64);
    }
  }

  // ---------- white space ----------

  /** The Unicode White_Space characters, as Go's unicode.IsSpace lists them. */
  predicate IsSpace(c: char) {
    || c == ' ' || '\t' <= c <= '\r' || c == '\U{85}' || c == '\U{A0}' || c == '\U{1680}'
    || '\U{2000}' <= c <= '\U{200A}' || c == '\U{2028}' || c == '\U{2029}' || c == '\U{202F}' || c == '\U{205F}'
    || c == '\U{3000}'
  }

  function TrimLeft(s: string): string {
    if s == "" || !IsSpace(s[0]) then s else TrimLeft(s[1..])
  }

  function TrimRight(s: string): string {
    if s == "" || !IsSpace(s[|s| - 1]) then s else TrimRight(s[..|s| - 1])
  }

  function TrimSpace(s: string): string {
    TrimRight(TrimLeft(s))
  }

  /** No white space at either end. */
  predicate IsTrimmed(s: string) {
    s != "" ==> !IsSpace(s[0]) && !IsSpace(s[|s| - 1])
  }

  lemma TrimKeeps(s: string)
    requires IsTrimmed(s)
    ensures TrimSpace(s) == s
  {
  }

  lemma {:induction false} TrimRightCuts(s: string)
    ensures TrimRight(s) <= s
    ensures TrimRight(s) != "" ==> !IsSpace(TrimRight(s)[|TrimRight(s)| - 1])
  {
    if s != "" && IsSpace(s[|s| - 1]) {
      TrimRightCuts(s[..|s| - 1]);
    }
  }

  lemma {:induction false} TrimLeftCuts(s: string)
    ensures TrimLeft(s) != "" ==> !IsSpace(TrimLeft(s)[0])
  {
    if s != "" && IsSpace(s[0]) {
      TrimLeftCuts(s[1..]);
    }
  }

  lemma TrimSpaceTrims(s: string)
    ensures IsTrimmed(TrimSpace(s))
  {
    TrimLeftCuts(s);
    TrimRightCuts(TrimLeft(s));
  }

  // ---------- digits ----------

  predicate IsDigit(c: char) {
    '0' <= c <= '9'
  }

  predicate AllDigits(s: string) {
    forall i :: 0 <= i < |s| ==> IsDigit(s[i])
  }

  function DigitValue(c: char): (d: nat)
    requires IsDigit(c)
    ensures d < 10
  {
    c as int - '0' as int
  }

  function DigitChar(d: nat): (c: char)
    requires d < 10
    ensures IsDigit(c) && DigitValue(c) == d
  {
    d as char + '0'
  }

  /** The number a run of decimal digits writes; the empty run writes 0. */
  function NatValue(s: string): (n: nat)
    requires AllDigits(s)
  {
    if s == "" then 0
    else NatValue(s[..|s| - 1]) * 10 + DigitValue(s[|s| - 1])
  }

  function Pow10(n: nat): (p: nat)
    ensures p >= 1
  {
    if n == 0 then 1 else 10 * Pow10(n - 1)
  }

  function FormatNat(n: nat): (s: string)
    ensures s != "" && AllDigits(s)
  {
    if n < 10 then [DigitChar(n)] else FormatNat(n / 10) + [DigitChar(n % 10)]
  }

  function FormatInt(n: int): (s: string)
    ensures s != ""
  {
    if n < 0 then "-" + FormatNat(-n) else FormatNat(n)
  }

  lemma {:induction false} NatValueOfFormat(n: nat)
    ensures NatValue(FormatNat(n)) == n
  {
    if n >= 10 {
      NatValueOfFormat(n / 10);
      var s := FormatNat(n);
      assert s[..|s| - 1] == FormatNat(n / 10);
    }
  }

  lemma FormatNatInjective(a: nat, b: nat)
    requires FormatNat(a) == FormatNat(b)
    ensures a == b
  {
    NatValueOfFormat(a);
    NatValueOfFormat(b);
  }

  lemma SignOfFormat(n: int)
    ensures FormatInt(n)[0] == '-' <==> n < 0
    ensures n < 0 ==> FormatInt(n)[1..] == FormatNat(-n)
  {
    assert n >= 0 ==> IsDigit(FormatInt(n)[0]);
  }

  lemma FormatIntInjective(a: int, b: int)
    requires FormatInt(a) == FormatInt(b)
    ensures a == b
  {
    SignOfFormat(a);
    SignOfFormat(b);
    if a < 0 {
      FormatNatInjective(-a, -b);
    } else {
      FormatNatInjective(a, b);
    }
  }

  lemma {:induction false} NatValueBound(s: string)
    requires AllDigits(s)
    ensures NatValue(s) < Pow10(|s|)
  {
    if s != "" {
      NatValueBound(s[..|s| - 1]);
    }
  }

  lemma {:induction false} NatValueConcat(a: string, b: string)
    requires AllDigits(a) && AllDigits(b)
    ensures AllDigits(a + b)
    ensures NatValue(a + b) == NatValue(a) * Pow10(|b|) + NatValue(b)
  {
    if b == "" {
      assert a + b == a;
    } else {
      var b' := b[..|b| - 1];
      NatValueConcat(a, b');
      assert (a + b)[..|a + b| - 1] == a + b';
      calc {
        NatValue(a + b);
        NatValue(a + b') * 10 + DigitValue(b[|b| - 1]);
        (NatValue(a) * Pow10(|b'|) + NatValue(b')) * 10 + DigitValue(b[|b| - 1]);
        NatValue(a) * Pow10(|b'|) * 10 + NatValue(b);
        { MulReorder(NatValue(a), Pow10(|b'|)); }
        NatValue(a) * Pow10(|b|) + NatValue(b);
      }
    }
  }

  lemma MulReorder(x: nat, p: nat)
    ensures x * p * 10 == x * (10 * p)
  {
  }

  // ---------- strconv.ParseInt(s, 10, 64) ----------

  predicate IsSign(c: char) {
    c == '+' || c == '-'
  }

  function Unsigned(s: string): string {
    if s != "" && IsSign(s[0]) then s[1..] else s
  }

  function ParseInt64(s: string): (r: Option<int>)
    ensures r.Some? ==> -TWO_63 <= r.value <= MAX_INT64
  {
    var digits := Unsigned(s);
    if digits == "" || !AllDigits(digits) then None
    else
      var n: int := NatValue(digits);
      if s[0] == '-' then (if n <= TWO_63 then Some(-n) else None)
      else (if n <= MAX_INT64 then Some(n) else None)
  }

  // ---------- strings.Split(s, sep) and SplitN(s, sep, 2) ----------

  function Split(s: string, sep: char): (parts: seq<string>)
    ensures |parts| >= 1
  {
    if s == "" then [""]
    else
      var rest := Split(s[1..], sep);
      if s[0] == sep then [""] + rest else [[s[0]] + rest[0]] + rest[1..]
  }

  lemma {:induction false} SplitWithout(s: string, sep: char)
    requires sep !in s
    ensures Split(s, sep) == [s]
  {
    if s != "" {
      SplitWithout(s[1..], sep);
      assert s == [s[0]] + s[1..];
    }
  }

  lemma {:induction false} SplitAtFirst(a: string, sep: char, b: string)
    requires sep !in a
    ensures Split(a + [sep] + b, sep) == [a] + Split(b, sep)
  {
    var s := a + [sep] + b;
    if a == "" {
      assert s[1..] == b;
    } else {
      assert s[1..] == a[1..] + [sep] + b;
      SplitAtFirst(a[1..], sep, b);
      assert [a[0]] + a[1..] == a;
    }
  }

  lemma JoinAfter(c: char, a: string, sep: char, b: string)
    ensures [c] + (a + [sep] + b) == [c] + a + [sep] + b
  {
  }

  /** Split loses nothing: a string cut in one or two pieces is those pieces again. */
  lemma {:induction false} SplitRejoins(s: string, sep: char)
    ensures sep !in Split(s, sep)[0]
    ensures |Split(s, sep)| == 1 ==> s == Split(s, sep)[0]
    ensures |Split(s, sep)| == 2 ==>
              && s == Split(s, sep)[0] + [sep] + Split(s, sep)[1]
              && sep !in Split(s, sep)[1]
  {
    if s != "" {
      SplitRejoins(s[1..], sep);
      var parts, rest := Split(s, sep), Split(s[1..], sep);
      assert s == [s[0]] + s[1..];
      if s[0] == sep {
        assert parts == [""] + rest;
        assert "" + [sep] + rest[0] == [sep] + rest[0];
      } else {
        assert parts == [[s[0]] + rest[0]] + rest[1..];
        if |rest| == 2 {
          assert parts[1] == rest[1];
          JoinAfter(s[0], rest[0], sep, rest[1]);
        }
      }
    }
  }
}
