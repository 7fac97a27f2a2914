/**
 * Amounts. The source keeps money in Python floats; this model keeps it in integer cents,
 * which is exact. `ParseFloat` stands for Python's float() on an amount column, and
 * `Magnitude` for the two-decimal rendering f"{abs(x):.2f}".
 */
module Decimal {
  import opened Wrappers
  import opened Text

  predicate IsDigit(c: char) {
    '0' <= c <= '9'
  }

  predicate AllDigits(s: string) {
    forall i :: 0 <= i < |s| ==> IsDigit(s[i])
  }

  function DigitValue(c: char): nat
    requires IsDigit(c)
  {
    c as int - '0' as int
  }

  function DigitChar(d: nat): (c: char)
    requires d < 10
    ensures IsDigit(c) && DigitValue(c) == d
  {
    ('0' as int + d) as char
  }

  /** The number a string of decimal digits denotes (the empty string denotes 0). */
  function DigitsValue(s: string): nat
    requires AllDigits(s)
  {
    if s == [] then 0 else 10 * DigitsValue(s[..|s| - 1]) + DigitValue(s[|s| - 1])
  }

  /** The decimal numeral of n without leading zeros; reading it back gives n. */
  function NatToDigits(n: nat): (s: string)
    ensures s != [] && AllDigits(s)
    ensures DigitsValue(s) == n
  {
    if n < 10 then [DigitChar(n)]
    else
      var s := NatToDigits(n / 10) + [DigitChar(n % 10)];
      assert s[..|s| - 1] == NatToDigits(n / 10);
      s
  }

  /** Exactly two digits for a number below 100, with a leading zero when needed. */
  function TwoDigits(n: nat): (s: string)
    requires n < 100
    ensures |s| == 2 && AllDigits(s)
    ensures DigitsValue(s) == n
  {
    var s := [DigitChar(n / 10), DigitChar(n % 10)];
    assert s[..1][..0] == [];
    assert DigitsValue(s[..1]) == DigitValue(s[0]);
    s
  }

  /** f"{x:.2f}" for a non-negative amount of `cents`. */
  function Magnitude(cents: nat): string {
    NatToDigits(cents / 100) + "." + TwoDigits(cents % 100)
  }

  /** The cents a fraction of at most two digits stands for ("5" is 50, "05" is 5). */
  function FractionCents(f: string): nat
    requires AllDigits(f) && |f| <= 2
  {
    if |f| == 0 then 0
    else if |f| == 1 then 10 * DigitValue(f[0])
    else 10 * DigitValue(f[0]) + DigitValue(f[1])
  }

  /** Digits, optionally a '.' and at most two more digits, with at least one digit in all. */
  function ParseUnsigned(t: string): (r: Option<int>)
    ensures r.Some? ==> r.value >= 0
  {
    var (whole, fraction) := SplitFirst(t, '.');
    if !AllDigits(whole) then None
    else
      match fraction {
        case None =>
          if whole == [] then None else Some(100 * DigitsValue(whole))
        case Some(f) =>
          if !AllDigits(f) || |f| > 2 || (whole == [] && f == []) then None
          else Some(100 * DigitsValue(whole) + FractionCents(f))
      }
  }

  /** An optional '+' or '-' before an unsigned decimal. */
  function ParseSigned(t: string): Option<int> {
    if t != [] && (t[0] == '+' || t[0] == '-') then
      match ParseUnsigned(t[1..]) {
        case None => None
        case Some(v) => Some(if t[0] == '-' then -v else v)
      }
    else ParseUnsigned(t)
  }

  /**
   * The blanks float() drops around a number: the six ASCII blanks " \t\n\v\f\r", and every
   * character from U+0080 on that str.isspace() accepts, which float() first turns into ' '.
   * The separators U+001C to U+001F are whitespace to str.isspace() but not to float().
   */
  predicate IsFloatBlank(c: char) {
    c == ' ' || ('\t' <= c <= '\r') || ('\U{80}' <= c && IsSpace(c))
  }

  /** The trimming float() does: blanks are dropped from either end until none is left. */
  function FloatStrip(s: string): (r: string)
    ensures |r| <= |s|
    ensures r != [] ==> !IsFloatBlank(r[0]) && !IsFloatBlank(r[|r| - 1])
    decreases |s|
  {
    if s != [] && IsFloatBlank(s[0]) then FloatStrip(s[1..])
    else if s != [] && IsFloatBlank(s[|s| - 1]) then FloatStrip(s[..|s| - 1])
    else s
  }

  /** float()'s trimming keeps every character that is not one of its blanks. */
  lemma {:induction false} FloatStripKeeps(s: string, c: char)
    requires c in s && !IsFloatBlank(c)
    ensures c in FloatStrip(s)
    decreases |s|
  {
    if s != [] && IsFloatBlank(s[0]) {
      assert s == [s[0]] + s[1..];
      FloatStripKeeps(s[1..], c);
    } else if s != [] && IsFloatBlank(s[|s| - 1]) {
      assert s == s[..|s| - 1] + [s[|s| - 1]];
      FloatStripKeeps(s[..|s| - 1], c);
    }
  }

  /**
   * Where float() and str.strip() part: float() trims exactly what strip() trims once the
   * separators U+001C to U+001F are out of the picture, and "\x1c1", which strip() turns
   * into "1", is rejected by float().
   */
  lemma {:induction false} FloatStripIsStrip(s: string)
    requires forall i :: 0 <= i < |s| ==> !('\U{1C}' <= s[i] <= '\U{1F}')
    ensures FloatStrip(s) == Strip(s)
    decreases |s|
  {
    if s != [] && IsSpace(s[0]) {
      FloatStripIsStrip(s[1..]);
    } else if s != [] && IsSpace(s[|s| - 1]) {
      FloatStripIsStrip(s[..|s| - 1]);
    }
  }

  /** The separator U+001C: blank to strip(), a ValueError to float(). */
  lemma SeparatorRejected()
    ensures Strip("\U{1C}1") == "1"
    ensures ParseFloat("\U{1C}1") == None
  {
    var s := "\U{1C}1";
    assert s[1..] == "1";
    assert FloatStrip(s) == s;
  }

  /** Python's float(s) on an amount column, in cents; None where float() raises ValueError. */
  function ParseFloat(s: string): Option<int> {
    ParseSigned(FloatStrip(s))
  }

  /** A character float() can accept in an amount. */
  predicate NumeralChar(c: char) {
    IsDigit(c) || c == '.' || c == '+' || c == '-'
  }

  /** What ParseUnsigned accepts is made of digits and at most one '.'. */
  lemma UnsignedChars(t: string)
    requires ParseUnsigned(t).Some?
    ensures forall i :: 0 <= i < |t| ==> NumeralChar(t[i])
  {
    var (whole, fraction) := SplitFirst(t, '.');
    if fraction.Some? {
      var f := fraction.value;
      assert t == whole + ['.'] + f;
      forall i | 0 <= i < |t| ensures NumeralChar(t[i]) {
        if i < |whole| {
          assert t[i] == whole[i];
        } else if i > |whole| {
          assert t[i] == f[i - |whole| - 1];
        }
      }
    }
  }

  /** What float() accepts, once stripped, is made of digits, '.', '+' and '-'. */
  lemma SignedChars(t: string)
    requires ParseSigned(t).Some?
    ensures forall i :: 0 <= i < |t| ==> NumeralChar(t[i])
  {
    if t != [] && (t[0] == '+' || t[0] == '-') {
      UnsignedChars(t[1..]);
      forall i | 1 <= i < |t| ensures NumeralChar(t[i]) {
        assert t[i] == t[1..][i - 1];
      }
    } else {
      UnsignedChars(t);
    }
  }

  /** Whatever float() accepts contains neither '$' nor ','. */
  lemma AcceptedHasNoSymbols(s: string)
    requires ParseFloat(s).Some?
    ensures '$' !in s && ',' !in s
  {
    var t := FloatStrip(s);
    SignedChars(t);
    if '$' in s {
      FloatStripKeeps(s, '$');
    }
    if ',' in s {
      FloatStripKeeps(s, ',');
    }
  }

  /**
   * The amount parsing of categorize_transaction: float() of the text, and when that raises,
   * float() of the text with every '$' and then every ',' deleted. None means the second
   * float() raised too.
   */
  function ParseAmountField(s: string): Option<int> {
    match ParseFloat(s) {
      case Some(v) => Some(v)
      case None => ParseFloat(RemoveAll(RemoveAll(s, '$'), ','))
    }
  }

  /** The retry never changes an answer: the amount is always float() of the text without '$' and ','. */
  lemma AmountFieldIsCleanedParse(s: string)
    ensures ParseAmountField(s) == ParseFloat(RemoveAll(RemoveAll(s, '$'), ','))
  {
    if ParseFloat(s).Some? {
      AcceptedHasNoSymbols(s);
      RemoveAllAbsent(s, '$');
      RemoveAllAbsent(s, ',');
    }
  }

  /** The example the program's comments are about: a dollar sign and a thousands separator. */
  lemma DollarsAndCommasStripped()
    ensures ParseFloat("$1,200.00") == None
    ensures ParseAmountField("$1,200.00") == Some(120000)
  {
    DollarTextRejected();
    DollarRemoved();
    CommaRemoved();
    PlainTwelveHundred();
  }

  lemma DollarTextRejected()
    ensures ParseFloat("$1,200.00") == None
  {
    var raw := "$1,200.00";
    assert raw[0] == '$';
    if ParseFloat(raw).Some? {
      AcceptedHasNoSymbols(raw);
    }
  }

  lemma DollarRemoved()
    ensures RemoveAll("$1,200.00", '$') == "1,200.00"
  {
    assert "$1,200.00" == [] + ['$'] + "1,200.00";
    RemoveOne([], '$', "1,200.00");
    assert [] + "1,200.00" == "1,200.00";
  }

  lemma CommaRemoved()
    ensures RemoveAll("1,200.00", ',') == "1200.00"
  {
    var head, tail := "1", "200.00";
    assert "1,200.00" == head + [','] + tail;
    assert head + tail == "1200.00";
    RemoveOne(head, ',', tail);
  }

  lemma TwelveHundredDigits()
    ensures NatToDigits(1200) == "1200"
  {
    assert NatToDigits(1) == "1";
    assert NatToDigits(12) == "1" + "2";
    assert NatToDigits(120) == "12" + "0";
  }

  lemma TwelveHundredMagnitude()
    ensures Magnitude(120000) == "1200.00"
  {
    TwelveHundredDigits();
  }

  lemma PlainTwelveHundred()
    ensures ParseFloat("1200.00") == Some(120000)
  {
    TwelveHundredMagnitude();
    MagnitudeRoundTrip(120000);
  }

  /** Python's abs() on a whole number of cents. */
  function Abs(x: int): nat {
    if x < 0 then -x else x
  }

  /** format_amount on a number: "+$" and the magnitude when positive, "-$" and the magnitude otherwise. */
  function FormatCents(cents: int): string {
    (if cents > 0 then "+$" else "-$") + Magnitude(Abs(cents))
  }

  /** The magnitude reads back as the same number of cents. */
  lemma {:induction false} UnsignedMagnitude(n: nat)
    ensures ParseUnsigned(Magnitude(n)) == Some(n)
  {
    var whole, fraction := NatToDigits(n / 100), TwoDigits(n % 100);
    assert Magnitude(n) == whole + ['.'] + fraction;
    assert '.' !in whole by {
      forall i | 0 <= i < |whole| ensures whole[i] != '.' {
        assert IsDigit(whole[i]);
      }
    }
    SplitFirstJoined(whole, '.', fraction);
    assert FractionCents(fraction) == n % 100 by {
      assert fraction[..1] == [fraction[0]] && [fraction[0]][..0] == [];
    }
  }

  /** Magnitude and float() are inverse: the two-decimal text parses back to the exact amount. */
  lemma MagnitudeRoundTrip(n: nat)
    ensures ParseFloat(Magnitude(n)) == Some(n)
  {
    var m := Magnitude(n);
    MagnitudeDigitEnds(n);
    assert FloatStrip(m) == m;
    assert ParseSigned(m) == ParseUnsigned(m) by {
      assert m[0] != '+' && m[0] != '-';
    }
    UnsignedMagnitude(n);
  }

  /** The rendering starts and ends with a digit, so there is nothing for strip() or a sign test to see. */
  lemma MagnitudeDigitEnds(n: nat)
    ensures |Magnitude(n)| >= 4
    ensures IsDigit(Magnitude(n)[0]) && IsDigit(Magnitude(n)[|Magnitude(n)| - 1])
    ensures '$' !in Magnitude(n) && ',' !in Magnitude(n)
  {
    var whole, fraction := NatToDigits(n / 100), TwoDigits(n % 100);
    var m := whole + "." + fraction;
    assert m == Magnitude(n);
    assert m[0] == whole[0];
    assert m[|m| - 1] == fraction[1];
    assert IsDigit(whole[0]) && IsDigit(fraction[1]);
    forall i | 0 <= i < |m| ensures m[i] != '$' && m[i] != ',' {
      if i < |whole| {
        assert m[i] == whole[i];
      } else if i > |whole| {
        assert m[i] == fraction[i - |whole| - 1];
      }
    }
  }

  /**
   * format_amount is inverted by the amount parsing of categorize_transaction: float() rejects
   * the "$" in the text, and the retry without '$' and ',' recovers the exact signed amount.
   */
  lemma FormatCentsRoundTrip(cents: int)
    ensures ParseFloat(FormatCents(cents)) == None
    ensures ParseAmountField(FormatCents(cents)) == Some(cents)
  {
    var sign: char := if cents > 0 then '+' else '-';
    var n := Abs(cents);
    var m := Magnitude(n);
    var text := FormatCents(cents);
    FormatCentsShape(cents);
    assert text[1] == '$';
    if ParseFloat(text).Some? {
      AcceptedHasNoSymbols(text);
    }
    MagnitudeDigitEnds(n);
    RemoveOne([sign], '$', m);
    RemoveAllAbsent([sign] + m, ',');
    SignedMagnitude(sign, n);
  }

  /**
   * The unsigned "$d.cc" text of the report's subtotal cells: float() rejects it as well, and
   * the retry without '$' and ',' recovers the magnitude.
   */
  lemma DollarMagnitudeRoundTrip(n: nat)
    ensures ParseFloat("$" + Magnitude(n)) == None
    ensures ParseAmountField("$" + Magnitude(n)) == Some(n)
  {
    DollarPrefixRejected(Magnitude(n));
    DollarMagnitudeCleaned(n);
    MagnitudeRoundTrip(n);
  }

  /** float() rejects any text that starts with '$'. */
  lemma DollarPrefixRejected(m: string)
    ensures ParseFloat("$" + m) == None
  {
    assert ("$" + m)[0] == '$';
    if ParseFloat("$" + m).Some? {
      AcceptedHasNoSymbols("$" + m);
    }
  }

  /** Dropping '$' and ',' from "$d.cc" leaves the magnitude. */
  lemma DollarMagnitudeCleaned(n: nat)
    ensures RemoveAll(RemoveAll("$" + Magnitude(n), '$'), ',') == Magnitude(n)
  {
    var m := Magnitude(n);
    MagnitudeDigitEnds(n);
    RemoveOne([], '$', m);
    assert [] + ['$'] + m == "$" + m;
    assert [] + m == m;
    RemoveAllAbsent(m, ',');
  }

  /** The pieces format_amount puts together: a sign, a dollar sign and the magnitude. */
  lemma FormatCentsShape(cents: int)
    ensures FormatCents(cents) == [if cents > 0 then '+' else '-'] + ['$'] + Magnitude(Abs(cents))
  {
    if cents > 0 {
      assert "+$" == ['+'] + ['$'];
    } else {
      assert "-$" == ['-'] + ['$'];
    }
  }

  /** A sign followed by a magnitude reads back as the signed amount. */
  lemma SignedMagnitude(sign: char, n: nat)
    requires sign == '+' || sign == '-'
    ensures ParseFloat([sign] + Magnitude(n)) == Some(if sign == '-' then -(n as int) else n as int)
  {
    var m := Magnitude(n);
    var clean := [sign] + m;
    MagnitudeDigitEnds(n);
    assert clean[|clean| - 1] == m[|m| - 1];
    assert FloatStrip(clean) == clean;
    assert clean[1..] == m;
    UnsignedMagnitude(n);
  }

  /** The sign rule of format_amount: "+$" exactly for positive amounts, so zero renders "-$0.00". */
  lemma FormatCentsSign(cents: int)
    ensures FormatCents(cents)[0] == '+' <==> cents > 0
    ensures FormatCents(cents)[1] == '$'
    ensures FormatCents(0) == "-$0.00"
  {
    assert NatToDigits(0) == "0";
    assert TwoDigits(0) == "00";
  }

  /**
   * format_amount on a string: a numeric string is re-rendered with its sign and two
   * decimals (and the rendering parses back to the same amount); anything float() rejects
   * comes back unchanged.
   */
  function FormatAmount(s: string): (r: string)
    ensures ParseFloat(s).None? ==> r == s
    ensures ParseFloat(s).Some? ==> ParseAmountField(r) == ParseFloat(s)
    ensures ParseFloat(s).Some? ==> (r[0] == '+' <==> ParseFloat(s).value > 0)
  {
    match ParseFloat(s) {
      case None => s
      case Some(c) =>
        FormatCentsRoundTrip(c);
        FormatCentsSign(c);
        FormatCents(c)
    }
  }
}
