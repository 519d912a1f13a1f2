/** Money amounts. An order total is an integer number of minor units
    (kopecks, cents). The gateway prints totals with
    `number_format(total, 2, '.', '')`, reads the provider's `orderSum`
    through PHP's `(float)` cast, and truncates receipt amounts with
    `intval`; this module gives each of those an exact integer meaning. */
module Amounts {

  predicate IsDigit(c: char) {
    '0' <= c <= '9'
  }

  predicate AllDigits(s: string) {
    forall i :: 0 <= i < |s| ==> IsDigit(s[i])
  }

  function DigitChar(d: nat): (c: char)
    requires d < 10
    ensures IsDigit(c) && c as int == '0' as int + d
  {
    ('0' as int + d) as char
  }

  function DigitValue(c: char): (d: nat)
    requires IsDigit(c)
    ensures d < 10 && DigitChar(d) == c
  {
    c as int - '0' as int
  }

  /** The number a run of decimal digits spells. */
  function DigitsValue(s: string): nat
    requires AllDigits(s)
    decreases |s|
  {
    if s == [] then 0 else DigitsValue(s[..|s| - 1]) * 10 + DigitValue(s[|s| - 1])
  }

  function Pow10(n: nat): nat {
    if n == 0 then 1 else 10 * Pow10(n - 1)
  }

  /** Decimal notation of a natural number, without leading zeros. */
  function NatToString(n: nat): (r: string)
    ensures |r| > 0 && AllDigits(r)
    ensures DigitsValue(r) == n
    ensures r[0] == '0' ==> r == "0"
    decreases n
  {
    if n < 10 then [DigitChar(n)]
    else
      var head := NatToString(n / 10);
      var r := head + [DigitChar(n % 10)];
      assert r[..|r| - 1] == head;
      r
  }

  /** `number_format(total, 2, '.', '')` for a total of `cents` minor units. */
  function FormatAmount(cents: int): (r: string)
    ensures |r| >= 4 && r[|r| - 3] == '.' && IsDigit(r[|r| - 2]) && IsDigit(r[|r| - 1])
    ensures r[0] == '-' <==> cents < 0
  {
    var m := if cents < 0 then -cents else cents;
    (if cents < 0 then "-" else "") + NatToString(m / 100) + "." + [DigitChar(m % 100 / 10), DigitChar(m % 10)]
  }

  /** A decimal number `units / 10^scale`. */
  datatype Decimal = Decimal(units: int, scale: nat)

  /** The longest run of digits at the start of `s`. */
  function LeadingDigits(s: string): (r: string)
    ensures |r| <= |s| && r == s[..|r|] && AllDigits(r)
    ensures |r| < |s| ==> !IsDigit(s[|r|])
    decreases |s|
  {
    if |s| > 0 && IsDigit(s[0]) then
      var rest := LeadingDigits(s[1..]);
      assert s[..|rest| + 1] == [s[0]] + s[1..][..|rest|];
      [s[0]] + rest
    else ""
  }

  /** An unsigned decimal: digits, then optionally a point and digits;
      reading stops at the first other character. */
  function ReadUnsigned(body: string): (d: Decimal)
    ensures d.units >= 0
  {
    var whole := LeadingDigits(body);
    var rest := body[|whole|..];
    var frac := if |rest| > 0 && rest[0] == '.' then LeadingDigits(rest[1..]) else "";
    Decimal(DigitsValue(whole + frac), |frac|)
  }

  /** PHP's `(float)` cast of a string, read exactly: an optional sign,
      then `ReadUnsigned`; a string without leading digits reads as 0. */
  function ToDecimal(s: string): (r: Decimal)
    ensures r.units < 0 ==> |s| > 0 && s[0] == '-'
    ensures |s| > 0 && s[0] == '-' ==> r.units <= 0
  {
    if |s| > 0 && s[0] == '-' then
      var d := ReadUnsigned(s[1..]);
      Decimal(-d.units, d.scale)
    else if |s| > 0 && s[0] == '+' then ReadUnsigned(s[1..])
    else ReadUnsigned(s)
  }

  /** The decimal `d` equals the amount of `cents` minor units. */
  predicate SameAmount(cents: int, d: Decimal) {
    d.units * 100 == cents * Pow10(d.scale)
  }

  lemma Regroup(x: int, p: int, y: int, d: int)
    ensures (x * p + y) * 10 + d == x * (10 * p) + (y * 10 + d)
  {
  }

  lemma {:induction false} DigitsValueAppend(a: string, b: string)
    requires AllDigits(a) && AllDigits(b)
    ensures AllDigits(a + b)
    ensures DigitsValue(a + b) == DigitsValue(a) * Pow10(|b|) + DigitsValue(b)
    decreases |b|
  {
    var ab := a + b;
    assert AllDigits(ab);
    if b == [] {
      assert ab == a;
    } else {
      var b' := b[..|b| - 1];
      assert ab[..|ab| - 1] == a + b';
      assert ab[|ab| - 1] == b[|b| - 1];
      DigitsValueAppend(a, b');
      Regroup(DigitsValue(a), Pow10(|b'|), DigitsValue(b'), DigitValue(b[|b| - 1]));
    }
  }

  lemma {:induction false} LeadingDigitsOfDigitsThenOther(a: string, rest: string)
    requires AllDigits(a)
    requires |rest| > 0 && !IsDigit(rest[0])
    ensures LeadingDigits(a + rest) == a
    decreases |a|
  {
    if a != [] {
      assert (a + rest)[1..] == a[1..] + rest;
      LeadingDigitsOfDigitsThenOther(a[1..], rest);
      assert a == [a[0]] + a[1..];
    }
  }

  lemma {:induction false} LeadingDigitsOfDigits(a: string)
    requires AllDigits(a)
    ensures LeadingDigits(a) == a
    decreases |a|
  {
    if a != [] {
      LeadingDigitsOfDigits(a[1..]);
      assert a == [a[0]] + a[1..];
    }
  }

  /** Reading back a number printed as whole digits, a point and two
      fraction digits. */
  lemma ReadPlainAmount(w: string, f: string)
    requires AllDigits(w) && |f| == 2 && AllDigits(f)
    ensures ReadUnsigned(w + "." + f) == Decimal(DigitsValue(w) * 100 + DigitsValue(f), 2)
  {
    var tail := "." + f;
    var body := w + tail;
    assert w + "." + f == body;
    assert !IsDigit(tail[0]);
    LeadingDigitsOfDigitsThenOther(w, tail);
    var rest := body[|w|..];
    assert rest == tail;
    assert rest[1..] == f;
    LeadingDigitsOfDigits(f);
    DigitsValueAppend(w, f);
    assert Pow10(2) == 100;
  }

  lemma TwoDigitsValue(hi: nat, lo: nat)
    requires hi < 10 && lo < 10
    ensures DigitsValue([DigitChar(hi), DigitChar(lo)]) == hi * 10 + lo
  {
    var f := [DigitChar(hi), DigitChar(lo)];
    var f1 := f[..1];
    assert f1 == [DigitChar(hi)];
    assert f1[..0] == [];
    assert DigitValue(DigitChar(hi)) == hi;
    assert DigitValue(DigitChar(lo)) == lo;
    assert DigitsValue(f1) == hi;
    assert DigitsValue(f) == DigitsValue(f1) * 10 + lo;
  }

  lemma SplitCents(m: nat)
    ensures m / 100 * 100 + (m % 100 / 10 * 10 + m % 10) == m
  {
  }

  /** An unsigned total printed with two fraction digits reads back as
      itself, and its text starts with a digit. */
  lemma PlainAmountReadsBack(m: nat)
    ensures var body := NatToString(m / 100) + "." + [DigitChar(m % 100 / 10), DigitChar(m % 10)];
            ReadUnsigned(body) == Decimal(m, 2) && IsDigit(body[0])
  {
    var w := NatToString(m / 100);
    var f := [DigitChar(m % 100 / 10), DigitChar(m % 10)];
    ReadPlainAmount(w, f);
    TwoDigitsValue(m % 100 / 10, m % 10);
    SplitCents(m);
    assert (w + "." + f)[0] == w[0];
  }

  /** What the provider echoes back as `orderSum` reads as exactly the
      total that was formatted. */
  lemma FormatAmountRoundTrip(cents: int)
    ensures ToDecimal(FormatAmount(cents)) == Decimal(cents, 2)
  {
    var m := if cents < 0 then -cents else cents;
    var body := NatToString(m / 100) + "." + [DigitChar(m % 100 / 10), DigitChar(m % 10)];
    PlainAmountReadsBack(m);
    if cents < 0 {
      assert FormatAmount(cents) == "-" + body;
      NegatedReadsNegative(body);
    } else {
      assert FormatAmount(cents) == body;
    }
  }

  lemma NegatedReadsNegative(body: string)
    ensures var d := ReadUnsigned(body);
            ToDecimal("-" + body) == Decimal(-d.units, d.scale)
  {
    assert ("-" + body)[1..] == body;
  }

  /** A formatted total matches exactly the total it was formatted from. */
  lemma FormattedSumMatchesOnlyItsTotal(cents: int, total: int)
    ensures SameAmount(total, ToDecimal(FormatAmount(cents))) <==> total == cents
  {
    FormatAmountRoundTrip(cents);
  }

  /** `intval` of an amount given in minor units: the whole part,
      truncated toward zero. */
  function IntVal(cents: int): (r: int)
    ensures cents >= 0 ==> 0 <= r && r * 100 <= cents < r * 100 + 100
    ensures cents < 0 ==> r <= 0 && r * 100 - 100 < cents <= r * 100
  {
    if cents >= 0 then cents / 100 else -((-cents) / 100)
  }
}
