/**
 * Money and percent utilities of the deal engine: rounding to whole dirhams, percent
 * and rate conversion, the text forms shown in the UI ("1,234,567 AED", "24.3%") and
 * the forgiving parsers that read such text back.
 *
 * `parseFloat`, `Intl.NumberFormat('en-US')` and `Number.prototype.toFixed` are part of
 * the JavaScript runtime; they are modelled here on exact reals as far as the engine
 * uses them.
 */
module Money {
  import opened Wrappers

  // ---------------------------------------------------------------------------------
  // Rounding and rates

  predicate IsWhole(x: real) {
    x == x.Floor as real
  }

  /** The whole number nearest to `x`, a half going up. */
  function RoundToInt(x: real): (n: int)
    ensures x - 0.5 < n as real <= x + 0.5
  {
    (x + 0.5).Floor
  }

  /** `Math.round`: the nearest whole number, a half going up (so -1.5 becomes -1). */
  function RoundMoney(x: real): (r: real)
    ensures IsWhole(r)
    ensures x - 0.5 < r <= x + 0.5
  {
    RoundToInt(x) as real
  }

  /** Rounding is determined by its contract: one whole number lies in (x - 1/2, x + 1/2]. */
  lemma RoundMoneyUnique(x: real, r: real)
    requires IsWhole(r) && x - 0.5 < r <= x + 0.5
    ensures RoundMoney(x) == r
  {
    var ki, ri := (x + 0.5).Floor, r.Floor;
    assert ki as real <= x + 0.5 < ki as real + 1.0;
    assert ri as real <= x + 0.5 < ri as real + 1.0;
    assert ri <= ki && ki <= ri;
  }

  /** Equal amounts round alike (stated for amounts the solver only knows to be equal). */
  lemma RoundMoneyCongruent(x: real, y: real)
    requires x == y
    ensures RoundMoney(x) == RoundMoney(y)
  {
  }

  lemma RoundMoneyOfWhole(x: real)
    requires IsWhole(x)
    ensures RoundMoney(x) == x
  {
    RoundMoneyUnique(x, x);
  }

  /** Rounding is idempotent. */
  lemma RoundMoneyIdempotent(x: real)
    ensures RoundMoney(RoundMoney(x)) == RoundMoney(x)
  {
    RoundMoneyOfWhole(RoundMoney(x));
  }

  /** Shifting by a whole amount shifts the rounded value by the same amount. */
  lemma RoundMoneyShift(x: real, k: real)
    requires IsWhole(k)
    ensures RoundMoney(x + k) == RoundMoney(x) + k
  {
    var r := RoundMoney(x) + k;
    assert r.Floor == RoundMoney(x).Floor + k.Floor;
    RoundMoneyUnique(x + k, r);
  }

  /** Sums and differences of whole amounts are whole. */
  lemma WholeArith(a: real, b: real)
    requires IsWhole(a) && IsWhole(b)
    ensures IsWhole(a + b) && IsWhole(a - b)
  {
    var ka, kb := a.Floor, b.Floor;
    assert a == ka as real && b == kb as real;
    assert (a + b).Floor == ka + kb;
    assert (a - b).Floor == ka - kb;
  }

  /** A product of two non-negative amounts is non-negative. */
  lemma ProductNonNegative(x: real, y: real)
    requires x >= 0.0 && y >= 0.0
    ensures x * y >= 0.0
  {
  }

  /** Rounding preserves order. */
  lemma RoundMoneyMonotone(x: real, y: real)
    requires x <= y
    ensures RoundMoney(x) <= RoundMoney(y)
  {
    var kx, ky := (x + 0.5).Floor, (y + 0.5).Floor;
    assert kx as real <= x + 0.5 <= y + 0.5 < ky as real + 1.0;
    assert kx < ky + 1;
  }

  /** The rounding cases of the money formatting tests. */
  lemma RoundMoneyExamples()
    ensures RoundMoney(1234.567) == 1235.0
    ensures RoundMoney(1234.4) == 1234.0
    ensures RoundMoney(-1234.567) == -1235.0
    ensures RoundMoney(-1.5) == -1.0
  {
    RoundMoneyUnique(1234.567, 1235.0);
    RoundMoneyUnique(1234.4, 1234.0);
    RoundMoneyUnique(-1234.567, -1235.0);
    RoundMoneyUnique(-1.5, -1.0);
  }

  /** A percentage of the UI (0..100) as a rate (0..1). */
  function ToRate(pct: real): (rate: real)
    ensures rate * 100.0 == pct
  {
    pct / 100.0
  }

  /** A rate (0..1) as a percentage of the UI (0..100). */
  function ToPct(rate: real): (pct: real)
    ensures pct / 100.0 == rate
  {
    rate * 100.0
  }

  /** The two conversions are inverse to each other, in both orders. */
  lemma RateRoundTrip(pct: real, rate: real)
    ensures ToPct(ToRate(pct)) == pct
    ensures ToRate(ToPct(rate)) == rate
  {
  }

  /** The rate conversion cases of the percent formatting tests. */
  lemma RateExamples()
    ensures ToRate(100.0) == 1.0 && ToRate(50.0) == 0.5 && ToRate(4.0) == 0.04
    ensures ToPct(1.0) == 100.0 && ToPct(0.5) == 50.0 && ToPct(0.04) == 4.0
  {
  }

  // ---------------------------------------------------------------------------------
  // Decimal digits

  predicate IsDigit(c: char) {
    '0' <= c <= '9'
  }

  predicate AllDigits(s: string) {
    forall i :: 0 <= i < |s| ==> IsDigit(s[i])
  }

  function DigitValue(c: char): (d: nat)
    requires IsDigit(c)
    ensures d < 10
  {
    c as int - '0' as int
  }

  function DigitChar(d: nat): (c: char)
    requires d < 10
    ensures IsDigit(c) && DigitValue(c) == d
  {
    ('0' as int + d) as char
  }

  /** The number a digit string denotes, read most significant digit first. */
  function Value(ds: string): nat
    requires AllDigits(ds)
  {
    if |ds| == 0 then 0 else Value(ds[..|ds| - 1]) * 10 + DigitValue(ds[|ds| - 1])
  }

  function Pow10(n: nat): (r: nat)
    ensures r >= 1
  {
    if n == 0 then 1 else 10 * Pow10(n - 1)
  }

  /** 10 raised to a whole exponent of either sign. */
  function Scale10(e: int): (r: real)
    ensures r > 0.0
    ensures e == 0 ==> r == 1.0
  {
    if e >= 0 then Pow10(e) as real else 1.0 / Pow10(-e) as real
  }

  /** The shortest decimal numeral of `n`: no leading zero except for 0 itself. */
  function Digits(n: nat): (ds: string)
    ensures |ds| >= 1 && AllDigits(ds)
    ensures Value(ds) == n
    ensures ds[0] == '0' <==> n == 0
  {
    if n < 10 then [DigitChar(n)]
    else
      var prefix := Digits(n / 10);
      var ds := prefix + [DigitChar(n % 10)];
      assert ds[..|ds| - 1] == prefix;
      ds
  }

  /** An integer as JavaScript writes it into a template string: "-" and the digits. */
  function IntText(n: int): (s: string)
    ensures |s| > 0
    ensures s[0] == '-' <==> n < 0
  {
    if n < 0 then "-" + Digits(-n) else Digits(n)
  }

  /** `parseFloat` reads an integer's text back as that integer. */
  lemma IntTextRoundTrip(n: int)
    ensures ParseFloat(IntText(n)) == Some(n as real)
  {
    if n < 0 {
      ParseNegativeDigits(Digits(-n));
    } else {
      ParseDigits(Digits(n));
    }
  }

  /** Leading zeros do not change the value of a digit string. */
  lemma {:induction false} ValueLeadingZero(ds: string)
    requires AllDigits(ds)
    ensures AllDigits("0" + ds) && Value("0" + ds) == Value(ds)
  {
    var zs := "0" + ds;
    if |ds| > 0 {
      assert zs[..|zs| - 1] == "0" + ds[..|ds| - 1];
      ValueLeadingZero(ds[..|ds| - 1]);
    }
  }

  // ---------------------------------------------------------------------------------
  // parseFloat

  /** The end of the run of digits that starts at `i`. */
  function DigitRun(s: string, i: nat): (j: nat)
    requires i <= |s|
    ensures i <= j <= |s|
    ensures forall k :: i <= k < j ==> IsDigit(s[k])
    ensures j == |s| || !IsDigit(s[j])
    decreases |s| - i
  {
    if i < |s| && IsDigit(s[i]) then DigitRun(s, i + 1) else i
  }

  /** A run of digits that stops at `j` ends at `j`. */
  lemma {:induction false} DigitRunEndsAt(s: string, i: nat, j: nat)
    requires i <= j <= |s|
    requires forall k :: i <= k < j ==> IsDigit(s[k])
    requires j == |s| || !IsDigit(s[j])
    ensures DigitRun(s, i) == j
    decreases j - i
  {
    if i < j {
      DigitRunEndsAt(s, i + 1, j);
    }
  }

  /** Length of an optional leading sign. */
  function SignLength(s: string): (n: nat)
    ensures n <= |s|
    ensures n == 1 <==> |s| > 0 && (s[0] == '+' || s[0] == '-')
  {
    if |s| > 0 && (s[0] == '+' || s[0] == '-') then 1 else 0
  }

  /** The signed decimal exponent introduced by `e` or `E` at `i`, 0 when there is none. */
  function ExponentAt(s: string, i: nat): int
    requires i <= |s|
  {
    if i < |s| && (s[i] == 'e' || s[i] == 'E') then
      var rest := s[i + 1..];
      var start := SignLength(rest);
      var end := DigitRun(rest, start);
      if end == start then 0
      else if start == 1 && rest[0] == '-' then 0 - Value(rest[start..end])
      else Value(rest[start..end])
    else 0
  }

  /**
   * Whether `parseFloat` finds a number at the start of `s`: after an optional sign
   * comes a digit, or a dot followed by a digit.
   */
  predicate StartsNumber(s: string) {
    var n := SignLength(s);
    (n < |s| && IsDigit(s[n])) || (n + 1 < |s| && s[n] == '.' && IsDigit(s[n + 1]))
  }

  /** The parts of the numeral `parseFloat` reads: sign, integer digits, fraction digits, exponent. */
  datatype Numeral = Numeral(negative: bool, intDigits: string, fracDigits: string, exponent: int)

  /**
   * The longest prefix of `s` of the form sign? digits? (. digits?)? ((e|E) sign? digits)?,
   * split into its parts.
   */
  function ScanNumeral(s: string): (n: Numeral)
    ensures AllDigits(n.intDigits) && AllDigits(n.fracDigits)
    ensures |n.intDigits| > 0 <==> SignLength(s) < |s| && IsDigit(s[SignLength(s)])
    ensures |n.intDigits| == 0 ==>
      (|n.fracDigits| > 0 <==> SignLength(s) + 1 < |s| && s[SignLength(s)] == '.' && IsDigit(s[SignLength(s) + 1]))
  {
    var start := SignLength(s);
    var intEnd := DigitRun(s, start);
    var hasDot := intEnd < |s| && s[intEnd] == '.';
    var fracEnd := if hasDot then DigitRun(s, intEnd + 1) else intEnd;
    Numeral(start == 1 && s[0] == '-', s[start..intEnd],
            if hasDot then s[intEnd + 1..fracEnd] else "", ExponentAt(s, fracEnd))
  }

  /** The number a numeral denotes. */
  function NumeralValue(n: Numeral): real
    requires AllDigits(n.intDigits) && AllDigits(n.fracDigits)
  {
    var fraction := Value(n.fracDigits) as real / Pow10(|n.fracDigits|) as real;
    var magnitude := (Value(n.intDigits) as real + fraction) * Scale10(n.exponent);
    if n.negative then -magnitude else magnitude
  }

  /**
   * `parseFloat` on text that starts with the number itself: the value of the numeral at
   * the start, None (NaN) when it has no digit at all.
   */
  function ParseFloat(s: string): (r: Option<real>)
    ensures r.Some? <==> StartsNumber(s)
  {
    var n := ScanNumeral(s);
    if |n.intDigits| == 0 && |n.fracDigits| == 0 then None else Some(NumeralValue(n))
  }

  /** A digit string alone, unsigned, parses to its value. */
  lemma ParseDigits(ds: string)
    requires |ds| > 0 && AllDigits(ds)
    ensures ParseFloat(ds) == Some(Value(ds) as real)
  {
    DigitRunEndsAt(ds, 0, |ds|);
    assert ds[0..|ds|] == ds;
    assert ScanNumeral(ds) == Numeral(false, ds, "", 0);
  }

  /** A minus sign followed by a digit string parses to the negated value. */
  lemma ParseNegativeDigits(ds: string)
    requires |ds| > 0 && AllDigits(ds)
    ensures ParseFloat("-" + ds) == Some(-(Value(ds) as real))
  {
    ScanNegativeDigits(ds);
    WholeNumeralValue(true, ds);
  }

  lemma ScanNegativeDigits(ds: string)
    requires |ds| > 0 && AllDigits(ds)
    ensures ScanNumeral("-" + ds) == Numeral(true, ds, "", 0)
  {
    var s := "-" + ds;
    assert SignLength(s) == 1;
    DigitRunEndsAt(s, 1, |s|);
    assert s[1..|s|] == ds;
  }

  /** A numeral without fraction or exponent denotes its integer digits. */
  lemma WholeNumeralValue(negative: bool, ds: string)
    requires AllDigits(ds)
    ensures NumeralValue(Numeral(negative, ds, "", 0)) == if negative then -(Value(ds) as real) else Value(ds) as real
  {
    assert Value("") == 0 && Pow10(0) == 1 && Scale10(0) == 1.0;
  }

  /** The numeral of `int "." d`, possibly signed, followed by text that cannot extend it. */
  lemma ScanOneDecimal(sign: string, ip: string, d: char, tail: string)
    requires sign == "" || sign == "-"
    requires |ip| > 0 && AllDigits(ip) && IsDigit(d)
    requires tail == "" || (!IsDigit(tail[0]) && tail[0] != 'e' && tail[0] != 'E')
    ensures ScanNumeral(sign + ip + "." + [d] + tail) == Numeral(sign == "-", ip, [d], 0)
  {
    var s := sign + ip + "." + [d] + tail;
    var start := |sign|;
    var intEnd := start + |ip|;
    OneDecimalLayout(sign, ip, d, tail);
    DigitRunEndsAt(s, start, intEnd);
    DigitRunEndsAt(s, intEnd + 1, intEnd + 2);
  }

  /** Where the parts of `sign int "." d tail` sit. */
  lemma OneDecimalLayout(sign: string, ip: string, d: char, tail: string)
    requires sign == "" || sign == "-"
    requires |ip| > 0 && AllDigits(ip) && IsDigit(d)
    requires tail == "" || (!IsDigit(tail[0]) && tail[0] != 'e' && tail[0] != 'E')
    ensures var s := sign + ip + "." + [d] + tail;
      var intEnd := |sign| + |ip|;
      && SignLength(s) == |sign| && intEnd + 2 <= |s|
      && (forall k :: |sign| <= k < intEnd ==> IsDigit(s[k]))
      && s[intEnd] == '.' && IsDigit(s[intEnd + 1])
      && (intEnd + 2 == |s| || !IsDigit(s[intEnd + 2]))
      && s[|sign|..intEnd] == ip && s[intEnd + 1..intEnd + 2] == [d]
      && ExponentAt(s, intEnd + 2) == 0
  {
    var s := sign + ip + "." + [d] + tail;
    var start := |sign|;
    var intEnd := start + |ip|;
    assert s == sign + (ip + ("." + ([d] + tail)));
    assert s[start] == ip[0];
    assert sign == "-" ==> s[0] == '-';
    assert SignLength(s) == start;
    assert forall k :: 0 <= k < |ip| ==> s[start + k] == ip[k];
    assert s[intEnd] == '.' && s[intEnd + 1] == d;
    assert s[intEnd + 2..] == tail;
    assert intEnd + 2 < |s| ==> s[intEnd + 2] == tail[0];
    assert s[start..intEnd] == ip;
  }

  /** `int "." d`, possibly signed, parses to int + d/10. */
  lemma ParseOneDecimal(sign: string, ip: string, d: char, tail: string)
    requires sign == "" || sign == "-"
    requires |ip| > 0 && AllDigits(ip) && IsDigit(d)
    requires tail == "" || (!IsDigit(tail[0]) && tail[0] != 'e' && tail[0] != 'E')
    ensures var m := Value(ip) as real + DigitValue(d) as real / 10.0;
      ParseFloat(sign + ip + "." + [d] + tail) == Some(if sign == "" then m else -m)
  {
    ScanOneDecimal(sign, ip, d, tail);
    OneDecimalValue(sign == "-", ip, d);
  }

  /** The numeral of a string that is an optional sign, digits, a dot and one digit. */
  lemma ScanDecimalText(s: string, dot: nat)
    requires SignLength(s) < dot && dot + 2 == |s|
    requires forall k :: SignLength(s) <= k < dot ==> IsDigit(s[k])
    requires s[dot] == '.' && IsDigit(s[dot + 1])
    ensures ScanNumeral(s) ==
      Numeral(SignLength(s) == 1 && s[0] == '-', s[SignLength(s)..dot], [s[dot + 1]], 0)
  {
    DigitRunEndsAt(s, SignLength(s), dot);
    DigitRunEndsAt(s, dot + 1, dot + 2);
    assert s[dot + 1..dot + 2] == [s[dot + 1]];
  }

  lemma OneDecimalValue(negative: bool, ip: string, d: char)
    requires AllDigits(ip) && IsDigit(d)
    ensures var m := Value(ip) as real + DigitValue(d) as real / 10.0;
      NumeralValue(Numeral(negative, ip, [d], 0)) == if negative then -m else m
  {
    assert [d][..0] == "";
    assert Value([d]) == DigitValue(d);
    assert Pow10(1) == 10;
  }

  // ---------------------------------------------------------------------------------
  // Parsing UI text

  /** The characters the parsers keep: digits, the dot and the ASCII minus. */
  predicate Kept(c: char) {
    IsDigit(c) || c == '.' || c == '-'
  }

  /** Removes every character that is not a digit, a dot or an ASCII minus. */
  function Filter(s: string): (r: string)
    ensures forall i :: 0 <= i < |r| ==> Kept(r[i])
    ensures |r| <= |s|
  {
    if |s| == 0 then ""
    else (if Kept(s[0]) then [s[0]] else []) + Filter(s[1..])
  }

  /** Text made only of kept characters passes the filter unchanged. */
  lemma {:induction false} FilterAllKept(s: string)
    requires forall i :: 0 <= i < |s| ==> Kept(s[i])
    ensures Filter(s) == s
  {
    if |s| > 0 {
      FilterAllKept(s[1..]);
    }
  }

  /** Filtering distributes over concatenation. */
  lemma {:induction false} FilterConcat(a: string, b: string)
    ensures Filter(a + b) == Filter(a) + Filter(b)
  {
    if |a| > 0 {
      assert (a + b)[1..] == a[1..] + b;
      FilterConcat(a[1..], b);
    } else {
      assert a + b == b;
    }
  }

  /** Filtering a string of removed characters leaves nothing. */
  lemma {:induction false} FilterNone(s: string)
    requires forall i :: 0 <= i < |s| ==> !Kept(s[i])
    ensures Filter(s) == ""
  {
    if |s| > 0 {
      FilterNone(s[1..]);
    }
  }

  /** `parseMoney`: unparseable text reads as 0, anything else is money-rounded. */
  function ParseMoney(s: string): (r: real)
    ensures IsWhole(r)
    ensures ParseFloat(Filter(s)).None? ==> r == 0.0
    ensures ParseFloat(Filter(s)).Some? ==> r == RoundMoney(ParseFloat(Filter(s)).value)
  {
    match ParseFloat(Filter(s))
    case None => 0.0
    case Some(v) => RoundMoney(v)
  }

  /** `parsePct`: unparseable text reads as 0; the value is not rounded. */
  function ParsePct(s: string): (r: real)
    ensures ParseFloat(Filter(s)).None? ==> r == 0.0
    ensures ParseFloat(Filter(s)).Some? ==> r == ParseFloat(Filter(s)).value
  {
    match ParseFloat(Filter(s))
    case None => 0.0
    case Some(v) => v
  }

  /** The parsing cases of the money formatting tests. */
  lemma ParseMoneyExamples()
    ensures ParseMoney("1,234,567") == 1234567.0
  {
    FilterCommasExample();
    ParseDigitsExample();
  }

  lemma FilterCommasExample()
    ensures Filter("1,234,567") == "1234567"
  {
    var ds := Digits(1234567);
    GroupMillion();
    DigitsOf1234567();
    UngroupThousands(ds);
  }

  lemma ParseDigitsExample()
    ensures ParseFloat("1234567") == Some(1234567.0)
    ensures RoundMoney(1234567.0) == 1234567.0
  {
    DigitsOf1234567();
    ParseDigits("1234567");
    RoundMoneyOfWhole(1234567.0);
  }

  /** The parsing cases of the percent formatting tests. */
  lemma ParsePctExamples()
    ensures ParsePct("100") == 100.0
    ensures ParsePct("4.5") == 4.5
  {
    ParsePctWhole();
    ParsePctHalf();
  }

  lemma ParsePctWhole()
    ensures ParsePct("100") == 100.0
  {
    FilterAllKept("100");
    assert Value("100") == 100 by {
      assert Digits(100) == "100" by {
        assert Digits(1) == "1";
        assert Digits(10) == "10";
      }
    }
    ParseDigits("100");
  }

  lemma ParsePctHalf()
    ensures ParsePct("4.5") == 4.5
  {
    FilterAllKept("4.5");
    ParseFourAndAHalf();
  }

  lemma ParseFourAndAHalf()
    ensures ParseFloat("4.5") == Some(4.5)
  {
    assert "" + "4" + "." + ['5'] + "" == "4.5";
    ParseOneDecimal("", "4", '5', "");
    assert Value("4") == 4 && DigitValue('5') == 5;
  }

  // ---------------------------------------------------------------------------------
  // Formatting

  /** The typographic minus sign (U+2212) that `fmtMoney` puts before a negative amount. */
  const Minus: char := '−'

  /** en-US thousands grouping of a digit string: a comma before every third digit from the right. */
  function GroupThousands(ds: string): (g: string)
    requires |ds| >= 1 && AllDigits(ds)
    ensures |g| == |ds| + (|ds| - 1) / 3
    ensures forall i :: 0 <= i < |g| ==> IsDigit(g[i]) || g[i] == ','
  {
    if |ds| <= 3 then ds
    else GroupThousands(ds[..|ds| - 3]) + "," + ds[|ds| - 3..]
  }

  /** The commas sit exactly at every fourth place counted from the right end. */
  lemma {:induction false} GroupThousandsCommas(ds: string)
    requires |ds| >= 1 && AllDigits(ds)
    ensures forall i :: 0 <= i < |GroupThousands(ds)| ==>
      (GroupThousands(ds)[i] == ',' <==> (|GroupThousands(ds)| - i) % 4 == 0)
  {
    var g := GroupThousands(ds);
    if |ds| <= 3 {
      assert g == ds;
      forall i | 0 <= i < |g|
        ensures g[i] == ',' <==> (|g| - i) % 4 == 0
      {
        assert IsDigit(ds[i]);
      }
    } else {
      var head, tail := ds[..|ds| - 3], ds[|ds| - 3..];
      assert AllDigits(head) && AllDigits(tail);
      var h := GroupThousands(head);
      assert g == h + "," + tail;
      GroupThousandsCommas(head);
      forall i | 0 <= i < |g|
        ensures g[i] == ',' <==> (|g| - i) % 4 == 0
      {
        if i < |h| {
          assert g[i] == h[i];
          assert h[i] == ',' <==> (|h| - i) % 4 == 0;
          assert (|g| - i) % 4 == (|h| - i) % 4 by {
            assert |g| - i == (|h| - i) + 4;
          }
        } else if i == |h| {
          assert g[i] == ',';
        } else {
          assert g[i] == tail[i - |h| - 1];
          assert IsDigit(tail[i - |h| - 1]);
          assert 1 <= |g| - i <= 3;
        }
      }
    }
  }

  /** Removing the grouping commas gives back the digits. */
  lemma {:induction false} UngroupThousands(ds: string)
    requires |ds| >= 1 && AllDigits(ds)
    ensures Filter(GroupThousands(ds)) == ds
  {
    if |ds| <= 3 {
      FilterAllKept(ds);
    } else {
      var head, tail := ds[..|ds| - 3], ds[|ds| - 3..];
      assert AllDigits(head) && AllDigits(tail);
      var g := GroupThousands(head);
      assert GroupThousands(ds) == g + "," + tail;
      UngroupThousands(head);
      FilterGroupStep(g, tail);
      assert head + tail == ds;
    }
  }

  /** The filter drops a grouping comma and keeps the digit group after it. */
  lemma FilterGroupStep(g: string, tail: string)
    requires AllDigits(tail)
    ensures Filter(g + "," + tail) == Filter(g) + tail
  {
    assert Filter(g + ",") == Filter(g) by {
      FilterConcat(g, ",");
      assert Filter(",") == "";
    }
    assert Filter(g + "," + tail) == Filter(g + ",") + tail by {
      FilterConcat(g + ",", tail);
      FilterAllKept(tail);
    }
  }

  /** `fmtMoney`: the rounded amount, grouped, a typographic minus when negative, then " AED". */
  function FmtMoney(x: real): (s: string)
    ensures |s| > 0 && (s[0] == Minus <==> RoundMoney(x) < 0.0)
    ensures |s| >= 4 && s[|s| - 4..] == " AED"
  {
    (if RoundMoney(x) < 0.0 then [Minus] else "") + GroupThousands(ShownDigits(x)) + " AED"
  }

  /** The digits `FmtMoney` shows: the absolute value of the rounded amount. */
  function ShownDigits(x: real): (ds: string)
    ensures |ds| >= 1 && AllDigits(ds)
    ensures Value(ds) as real == (if RoundMoney(x) < 0.0 then -RoundMoney(x) else RoundMoney(x))
  {
    var n := RoundToInt(x);
    Digits(if n < 0 then -n else n)
  }

  /** The parsers see only the ASCII digits of a formatted amount. */
  lemma FilterFmtMoney(x: real)
    ensures Filter(FmtMoney(x)) == ShownDigits(x)
  {
    var sign: string := if RoundMoney(x) < 0.0 then [Minus] else "";
    FilterGroupedAmount(sign, ShownDigits(x));
  }

  /** A grouped amount with an optional typographic minus and the unit filters to its digits. */
  lemma FilterGroupedAmount(sign: string, ds: string)
    requires sign == "" || sign == [Minus]
    requires |ds| >= 1 && AllDigits(ds)
    ensures Filter(sign + GroupThousands(ds) + " AED") == ds
  {
    UngroupThousands(ds);
    FilterFramed(sign, GroupThousands(ds), ds);
  }

  /** The filter drops the sign glyph and the currency suffix around an amount. */
  lemma FilterFramed(sign: string, g: string, ds: string)
    requires sign == "" || sign == [Minus]
    requires Filter(g) == ds
    ensures Filter(sign + g + " AED") == ds
  {
    SuffixFiltered();
    if sign != "" {
      MinusFiltered();
    }
    FilterAround(sign, g, " AED");
  }

  /** Text whose outer parts the filter removes filters to what its middle does. */
  lemma FilterAround(a: string, b: string, c: string)
    requires Filter(a) == "" && Filter(c) == ""
    ensures Filter(a + b + c) == Filter(b)
  {
    FilterConcat(a + b, c);
    FilterConcat(a, b);
    assert Filter(a + b) + "" == Filter(a + b);
    assert "" + Filter(b) == Filter(b);
  }

  /** The filter keeps a prefix it keeps whole and removes a suffix it drops. */
  lemma FilterKeepAround(a: string, b: string, c: string)
    requires Filter(a) == a && Filter(c) == ""
    ensures Filter(a + b + c) == a + Filter(b)
  {
    FilterConcat(a + b, c);
    FilterConcat(a, b);
    assert Filter(a + b) + "" == Filter(a + b);
  }

  /** The currency suffix is filtered out. */
  lemma SuffixFiltered()
    ensures Filter(" AED") == ""
  {
    FilterNone(" AED");
  }

  /** The typographic minus sign is filtered out. */
  lemma MinusFiltered()
    ensures Filter([Minus]) == ""
  {
    FilterNone([Minus]);
  }

  /** The grouping cases of the money formatting tests. */
  lemma FmtMoneyExamples()
    ensures FmtMoney(1234567.0) == "1,234,567 AED"
    ensures FmtMoney(1000.0) == "1,000 AED"
    ensures FmtMoney(0.0) == "0 AED"
  {
    FmtMoneyMillion();
    FmtMoneyThousand();
    FmtMoneyZero();
  }

  lemma GroupMillion()
    ensures GroupThousands(Digits(1234567)) == "1,234,567"
  {
    DigitsOf1234567();
    assert "1234567"[..4] == "1234" && "1234567"[4..] == "567";
    assert "1234"[..1] == "1" && "1234"[1..] == "234";
    assert GroupThousands("1") == "1";
    assert GroupThousands("1234") == "1,234";
  }

  lemma FmtMoneyMillion()
    ensures FmtMoney(1234567.0) == "1,234,567 AED"
  {
    RoundMoneyOfWhole(1234567.0);
    assert RoundToInt(1234567.0) == 1234567;
    var ds := ShownDigits(1234567.0);
    assert ds == Digits(1234567);
    GroupMillion();
    assert GroupThousands(ds) == "1,234,567";
    assert FmtMoney(1234567.0) == "" + GroupThousands(ds) + " AED";
  }

  lemma FmtMoneyThousand()
    ensures FmtMoney(1000.0) == "1,000 AED"
  {
    RoundMoneyOfWhole(1000.0);
    assert RoundToInt(1000.0) == 1000;
    var ds := ShownDigits(1000.0);
    assert ds == Digits(1000);
    GroupThousand();
    assert GroupThousands(ds) == "1,000";
    assert FmtMoney(1000.0) == "" + GroupThousands(ds) + " AED";
  }

  lemma GroupThousand()
    ensures GroupThousands(Digits(1000)) == "1,000"
  {
    assert Digits(1) == "1";
    assert Digits(10) == "10";
    assert Digits(100) == "100";
    assert Digits(1000) == "1000";
    assert "1000"[..1] == "1" && "1000"[1..] == "000";
    assert GroupThousands("1") == "1";
  }

  lemma FmtMoneyZero()
    ensures FmtMoney(0.0) == "0 AED"
  {
    RoundMoneyOfWhole(0.0);
  }

  lemma DigitsOf1234567()
    ensures Digits(1234567) == "1234567"
  {
    assert Digits(1) == "1";
    assert Digits(12) == "12";
    assert Digits(123) == "123";
    assert Digits(1234) == "1234";
    assert Digits(12345) == "12345";
    assert Digits(123456) == "123456";
  }

  /** A non-negative amount survives formatting and parsing back, as its rounded value. */
  lemma MoneyRoundTrip(x: real)
    requires RoundMoney(x) >= 0.0
    ensures ParseMoney(FmtMoney(x)) == RoundMoney(x)
  {
    FilterFmtMoney(x);
    ParseDigits(ShownDigits(x));
    RoundMoneyOfWhole(RoundMoney(x));
  }

  /** The number of tenths `ToFixed1` shows for a non-negative x, a tie going up. */
  function Tenths(x: real): (t: nat)
    requires x >= 0.0
    ensures 10.0 * x - 0.5 < t as real <= 10.0 * x + 0.5
  {
    (10.0 * x + 0.5).Floor
  }

  /** The digits of a count of tenths, with a leading zero below one unit. */
  function TenthsDigits(t: nat): (ds: string)
    ensures |ds| >= 2 && AllDigits(ds)
    ensures Value(ds) == t
  {
    var ds := Digits(t);
    if |ds| < 2 then ValueLeadingZero(ds); "0" + ds else ds
  }

  /** A count of tenths written with one decimal place. */
  function TenthsText(t: nat): (s: string)
    ensures |s| >= 3 && s[|s| - 2] == '.' && IsDigit(s[0])
  {
    var ds := TenthsDigits(t);
    ds[..|ds| - 1] + "." + [ds[|ds| - 1]]
  }

  /** `toFixed(1)` on an exact real: one decimal, a tie going away from zero, "-" when negative. */
  function ToFixed1(x: real): (s: string)
    ensures |s| >= 3 && s[|s| - 2] == '.'
    ensures (s[0] == '-') <==> x < 0.0
  {
    if x < 0.0 then "-" + TenthsText(Tenths(-x)) else TenthsText(Tenths(x))
  }

  /** The value `ToFixed1` renders: x to one decimal place, a tie going away from zero. */
  function Round1(x: real): (r: real)
    ensures x >= 0.0 ==> x - 0.05 < r <= x + 0.05
    ensures x < 0.0 ==> x - 0.05 <= r < x + 0.05
  {
    if x < 0.0 then -(Tenths(-x) as real / 10.0) else Tenths(x) as real / 10.0
  }

  /** `fmtPct`: one decimal place and a percent sign. */
  function FmtPct(x: real): (s: string)
    ensures |s| >= 4 && s[|s| - 1] == '%' && s[|s| - 3] == '.'
  {
    ToFixed1(x) + "%"
  }

  /** Where the parts of a count of tenths sit in its text. */
  lemma TenthsTextLayout(t: nat)
    ensures var ds := TenthsDigits(t); var text := TenthsText(t);
      |text| == |ds| + 1 && text[..|ds| - 1] == ds[..|ds| - 1] &&
      text[|ds| - 1] == '.' && text[|ds|] == ds[|ds| - 1]
  {
  }

  /** Every character of a count of tenths in text, with either sign, passes the filter. */
  lemma TenthsTextKept(sign: string, t: nat)
    requires sign == "" || sign == "-"
    ensures Filter(sign + TenthsText(t)) == sign + TenthsText(t)
  {
    var ds, text := TenthsDigits(t), TenthsText(t);
    TenthsTextLayout(t);
    forall i | 0 <= i < |sign + text|
      ensures Kept((sign + text)[i])
    {
      if i >= |sign| {
        var j := i - |sign|;
        assert (sign + text)[i] == text[j];
        if j < |ds| - 1 {
          assert text[j] == text[..|ds| - 1][j] == ds[j];
        }
      }
    }
    FilterAllKept(sign + text);
  }

  /** Where the parts of a signed count of tenths sit in its text. */
  lemma SignedTenthsLayout(sign: string, t: nat)
    requires sign == "" || sign == "-"
    ensures var ds, s := TenthsDigits(t), sign + TenthsText(t);
      var dot := |sign| + |ds| - 1;
      && SignLength(s) == |sign| && dot + 2 == |s|
      && s[|sign|..dot] == ds[..|ds| - 1]
      && (forall k :: |sign| <= k < dot ==> IsDigit(s[k]))
      && s[dot] == '.' && s[dot + 1] == ds[|ds| - 1]
  {
    var ds, text := TenthsDigits(t), TenthsText(t);
    var s := sign + text;
    var dot := |sign| + |ds| - 1;
    TenthsTextLayout(t);
    assert s[|sign|..dot] == text[..|ds| - 1];
    forall k | |sign| <= k < dot
      ensures IsDigit(s[k])
    {
      assert s[k] == s[|sign|..dot][k - |sign|];
    }
  }

  /** The last digit of a count of tenths and the digits before it make up the count. */
  lemma TenthsSplit(t: nat)
    ensures var ds := TenthsDigits(t);
      Value(ds[..|ds| - 1]) * 10 + DigitValue(ds[|ds| - 1]) == t
  {
  }

  /** The text of a count of tenths parses back to the count divided by ten, with either sign. */
  lemma ParseTenthsText(sign: string, t: nat)
    requires sign == "" || sign == "-"
    ensures ParseFloat(sign + TenthsText(t)) == Some(if sign == "" then t as real / 10.0 else -(t as real / 10.0))
  {
    var ds := TenthsDigits(t);
    var n := Numeral(sign == "-", ds[..|ds| - 1], [ds[|ds| - 1]], 0);
    ScanTenthsText(sign, t);
    TenthsNumeralValue(sign == "-", t);
    assert |n.fracDigits| == 1;
  }

  /** The text of a count of tenths scans as its leading digits, a dot and its last digit. */
  lemma ScanTenthsText(sign: string, t: nat)
    requires sign == "" || sign == "-"
    ensures var ds := TenthsDigits(t);
      ScanNumeral(sign + TenthsText(t)) == Numeral(sign == "-", ds[..|ds| - 1], [ds[|ds| - 1]], 0)
  {
    var ds := TenthsDigits(t);
    var s := sign + TenthsText(t);
    var dot := |sign| + |ds| - 1;
    SignedTenthsLayout(sign, t);
    ScanDecimalText(s, dot);
    assert SignLength(s) == 1 && s[0] == '-' <==> sign == "-";
  }

  /** Leading digits, a dot and the last digit of a count of tenths are worth a tenth of it. */
  lemma TenthsNumeralValue(negative: bool, t: nat)
    ensures var ds := TenthsDigits(t);
      NumeralValue(Numeral(negative, ds[..|ds| - 1], [ds[|ds| - 1]], 0))
        == if negative then -(t as real / 10.0) else t as real / 10.0
  {
    var ds := TenthsDigits(t);
    var ip, d := ds[..|ds| - 1], ds[|ds| - 1];
    OneDecimalValue(negative, ip, d);
    TenthsSplit(t);
    var m := Value(ip) as real + DigitValue(d) as real / 10.0;
    assert m == t as real / 10.0;
  }

  /** A signed count of tenths followed by a percent sign filters to the count's text. */
  lemma FilterSignedPct(sign: string, t: nat)
    requires sign == "" || sign == "-"
    ensures Filter(sign + TenthsText(t) + "%") == sign + TenthsText(t)
  {
    TenthsTextKept(sign, t);
    FilterConcat(sign + TenthsText(t), "%");
    FilterNone("%");
  }

  /** The percent sign is dropped and everything else of a formatted percentage is kept. */
  lemma FilterFmtPct(x: real)
    ensures Filter(FmtPct(x)) == ToFixed1(x)
  {
    if x < 0.0 {
      FilterSignedPct("-", Tenths(-x));
    } else {
      FilterSignedPct("", Tenths(x));
      assert "" + TenthsText(Tenths(x)) == ToFixed1(x);
    }
  }

  /** Parsing a formatted percentage gives the value rounded to one decimal place. */
  lemma PctRoundTrip(x: real)
    ensures ParsePct(FmtPct(x)) == Round1(x)
  {
    FilterFmtPct(x);
    if x < 0.0 {
      ParseTenthsText("-", Tenths(-x));
    } else {
      ParseTenthsText("", Tenths(x));
      assert "" + TenthsText(Tenths(x)) == ToFixed1(x);
    }
  }

  /** The percent cases of the formatting tests. */
  lemma FmtPctExamples()
    ensures FmtPct(24.267) == "24.3%"
    ensures FmtPct(100.0) == "100.0%"
    ensures FmtPct(0.0) == "0.0%"
  {
    FmtPctTenths();
    FmtPctHundred();
    FmtPctZero();
  }

  lemma FmtPctTenths()
    ensures FmtPct(24.267) == "24.3%"
  {
    assert Tenths(24.267) == 243;
    assert Digits(243) == "243" by {
      assert Digits(2) == "2";
      assert Digits(24) == "24";
    }
  }

  lemma FmtPctHundred()
    ensures FmtPct(100.0) == "100.0%"
  {
    assert Tenths(100.0) == 1000;
    assert Digits(1000) == "1000" by {
      assert Digits(1) == "1";
      assert Digits(10) == "10";
      assert Digits(100) == "100";
    }
  }

  lemma FmtPctZero()
    ensures FmtPct(0.0) == "0.0%"
  {
    assert Tenths(0.0) == 0;
    assert Digits(0) == "0";
  }

  // ---------------------------------------------------------------------------------
  // Negative amounts

  /** `parseMoney` reads a formatted negative amount as its absolute value: the
   *  typographic minus is not an ASCII minus, so the filter drops it. */
  lemma NegativeMoneyLosesSign(x: real)
    requires RoundMoney(x) < 0.0
    ensures ParseMoney(FmtMoney(x)) == -RoundMoney(x)
    ensures ParseMoney(FmtMoney(x)) != RoundMoney(x)
  {
    FilterFmtMoney(x);
    ParseDigits(ShownDigits(x));
    RoundMoneyOfWhole(-RoundMoney(x));
  }

  /** The concrete case: the formatted -1,234,567 parses back as +1,234,567. */
  lemma NegativeMoneyExample()
    ensures ParseMoney(FmtMoney(-1234567.0)) == 1234567.0
  {
    RoundMoneyOfWhole(-1234567.0);
    NegativeMoneyLosesSign(-1234567.0);
  }

  /** Reads the typographic minus as an ASCII one, leaving every other character alone. */
  function NormalizeMinus(s: string): (r: string)
    ensures |r| == |s|
  {
    if |s| == 0 then "" else [if s[0] == Minus then '-' else s[0]] + NormalizeMinus(s[1..])
  }

  /** `parseMoney` that also accepts the minus sign `fmtMoney` writes. */
  function ParseMoneySigned(s: string): (r: real)
    ensures IsWhole(r)
  {
    ParseMoney(NormalizeMinus(s))
  }

  /** On text without the typographic minus the corrected parser agrees with `parseMoney`. */
  lemma ParseMoneySignedAgrees(s: string)
    requires forall i :: 0 <= i < |s| ==> s[i] != Minus
    ensures ParseMoneySigned(s) == ParseMoney(s)
  {
    NormalizeMinusNone(s);
  }

  /** Normalising distributes over concatenation. */
  lemma {:induction false} NormalizeMinusConcat(a: string, b: string)
    ensures NormalizeMinus(a + b) == NormalizeMinus(a) + NormalizeMinus(b)
  {
    if |a| > 0 {
      assert (a + b)[1..] == a[1..] + b;
      NormalizeMinusConcat(a[1..], b);
    } else {
      assert a + b == b;
    }
  }

  /** Each typographic minus becomes an ASCII one and every other character stays. */
  lemma {:induction false} NormalizeMinusAt(s: string, i: nat)
    requires i < |s|
    ensures NormalizeMinus(s)[i] == (if s[i] == Minus then '-' else s[i])
  {
    if i > 0 {
      NormalizeMinusAt(s[1..], i - 1);
    }
  }

  /** Text without the typographic minus is left as it is. */
  lemma {:induction false} NormalizeMinusNone(s: string)
    requires forall i :: 0 <= i < |s| ==> s[i] != Minus
    ensures NormalizeMinus(s) == s
  {
    if |s| > 0 {
      NormalizeMinusNone(s[1..]);
    }
  }

  /** The corrected parser's view of a formatted amount, before filtering. */
  lemma NormalizedFmtMoney(x: real)
    ensures NormalizeMinus(FmtMoney(x)) ==
      (if RoundMoney(x) < 0.0 then "-" else "") + GroupThousands(ShownDigits(x)) + " AED"
  {
    var signIn: string := if RoundMoney(x) < 0.0 then [Minus] else "";
    var g := GroupThousands(ShownDigits(x));
    NormalizeMinusConcat(signIn + g, " AED");
    NormalizeMinusConcat(signIn, g);
    NormalizeMinusNone(g);
    NormalizeMinusNone(" AED");
    if RoundMoney(x) < 0.0 {
      NormalizeMinusAt(signIn, 0);
    }
  }

  /** A signed, grouped amount with its unit passes the filter as the sign and the digits. */
  lemma FilterSignedGrouped(sign: string, ds: string)
    requires sign == "" || sign == "-"
    requires |ds| >= 1 && AllDigits(ds)
    ensures Filter(sign + GroupThousands(ds) + " AED") == sign + ds
  {
    UngroupThousands(ds);
    FilterSignedFramed(sign, GroupThousands(ds), ds);
  }

  /** The filter keeps an ASCII minus sign and drops the currency suffix around an amount. */
  lemma FilterSignedFramed(sign: string, g: string, ds: string)
    requires sign == "" || sign == "-"
    requires Filter(g) == ds
    ensures Filter(sign + g + " AED") == sign + ds
  {
    SuffixFiltered();
    FilterAllKept(sign);
    FilterKeepAround(sign, g, " AED");
  }

  /** What the corrected parser sees of a formatted amount: an ASCII minus when negative, then the digits. */
  lemma FilterNormalizedFmtMoney(x: real)
    ensures Filter(NormalizeMinus(FmtMoney(x))) ==
      (if RoundMoney(x) < 0.0 then "-" else "") + ShownDigits(x)
  {
    NormalizedFmtMoney(x);
    FilterSignedGrouped(if RoundMoney(x) < 0.0 then "-" else "", ShownDigits(x));
  }

  /** With the typographic minus understood, every amount survives formatting and parsing back. */
  lemma SignedMoneyRoundTrip(x: real)
    ensures ParseMoneySigned(FmtMoney(x)) == RoundMoney(x)
  {
    FilterNormalizedFmtMoney(x);
    if RoundMoney(x) < 0.0 {
      ParseNegativeDigits(ShownDigits(x));
    } else {
      assert "" + ShownDigits(x) == ShownDigits(x);
      ParseDigits(ShownDigits(x));
    }
    RoundMoneyOfWhole(RoundMoney(x));
  }
}
