/** The parse that handleWidthChange applies to the animated width: parseFloat, then the
    unit as the input with the printed number removed (String.prototype.replace with a
    string pattern removes its first occurrence only). The model covers a restricted
    grammar, where parseFloat reads an integer or nothing at all:
      - an optional sign, 1 to MaxDigits decimal digits, then a unit that cannot continue
        a number literal (it does not start with a digit, with '.', or with an exponent
        such as "e5" or "e+5");
      - or a non-numeric string (empty, or starting with an ASCII letter other than the
        'I' of "Infinity"), for which parseFloat gives NaN. */
module Width {

  /** Numbers that parseFloat can give on the grammar: NaN, or an integer. */
  datatype Number = NaN | Int(value: int)

  /** Digit runs of at most 15 digits stay below 2^53, so parseFloat reads them exactly
      and toString prints them back without an exponent. */
  const MaxDigits: nat := 15

  predicate IsDigit(c: char) {
    '0' <= c <= '9'
  }

  function DigitValue(c: char): nat
    requires IsDigit(c)
  {
    c as int - '0' as int
  }

  function DigitChar(d: nat): char
    requires d < 10
  {
    ('0' as int + d) as char
  }

  predicate IsAsciiLetter(c: char) {
    ('a' <= c <= 'z') || ('A' <= c <= 'Z')
  }

  /** Number.prototype.toString of a non-negative integer below 10^21. */
  function NatToString(n: nat): (r: string)
    decreases n
  {
    if n < 10 then [DigitChar(n)] else NatToString(n / 10) + [DigitChar(n % 10)]
  }

  function IntToString(n: int): string {
    if n < 0 then "-" + NatToString(-n) else NatToString(n)
  }

  function NumberToString(x: Number): string {
    match x
    case NaN => "NaN"
    case Int(v) => IntToString(v)
  }

  /** Length of the run of digits that s starts with. */
  function DigitRun(s: string): (r: nat)
    ensures r <= |s|
  {
    if s != [] && IsDigit(s[0]) then 1 + DigitRun(s[1..]) else 0
  }

  /** The value of a string of digits. */
  function DigitsValue(d: string): nat
    requires forall k :: 0 <= k < |d| ==> IsDigit(d[k])
  {
    if d == [] then 0
    else DigitsValue(d[..|d| - 1]) * 10 + DigitValue(d[|d| - 1])
  }

  function SignLength(s: string): (r: nat)
    ensures r <= |s|
  {
    if s != [] && (s[0] == '-' || s[0] == '+') then 1 else 0
  }

  /** parseFloat would go on reading an exponent: "e" or "E", an optional sign, a digit. */
  predicate ExponentFollows(u: string) {
    |u| >= 2 && (u[0] == 'e' || u[0] == 'E')
    && (IsDigit(u[1]) || (|u| >= 3 && (u[1] == '+' || u[1] == '-') && IsDigit(u[2])))
  }

  /** A unit that ends the number literal before it. */
  predicate UnitOk(u: string) {
    u == [] || (!IsDigit(u[0]) && u[0] != '.' && !ExponentFollows(u))
  }

  /** The digits parseFloat reads after the optional sign. */
  function Digits(s: string): (d: string)
    ensures forall j :: 0 <= j < |d| ==> IsDigit(d[j])
  {
    var k := SignLength(s);
    DigitRunDigits(s[k..]);
    s[k..k + DigitRun(s[k..])]
  }

  predicate NumericForm(s: string) {
    1 <= |Digits(s)| <= MaxDigits && UnitOk(s[SignLength(s) + |Digits(s)|..])
  }

  predicate NonNumericForm(s: string) {
    s == [] || (IsAsciiLetter(s[0]) && s[0] != 'I')
  }

  predicate InGrammar(s: string) {
    NumericForm(s) || NonNumericForm(s)
  }

  /** parseFloat on the grammar. */
  function ParseFloat(s: string): Number
    requires InGrammar(s)
  {
    if NumericForm(s) then
      var v: int := DigitsValue(Digits(s));
      Int(if SignLength(s) == 1 && s[0] == '-' then -v else v)
    else
      NaN
  }

  /** s.replace(pattern, ""): the first occurrence of pattern removed, if any. */
  function ReplaceFirst(s: string, pattern: string): string
    decreases |s|
  {
    if pattern <= s then s[|pattern|..]
    else if s == [] then s
    else [s[0]] + ReplaceFirst(s[1..], pattern)
  }

  /** The unit handleWidthChange compares with "vw". */
  function Unit(s: string): string
    requires InGrammar(s)
  {
    ReplaceFirst(s, NumberToString(ParseFloat(s)))
  }

  /** The test of handleWidthChange: unit "vw" and number at least 100 (NaN >= 100 is false). */
  predicate IsFullWidth(s: string)
    requires InGrammar(s)
  {
    Unit(s) == "vw" && ParseFloat(s).Int? && ParseFloat(s).value >= 100
  }

  lemma DigitRunDigits(s: string)
    ensures forall j :: 0 <= j < DigitRun(s) ==> IsDigit(s[j])
  {
    if s != [] && IsDigit(s[0]) {
      DigitRunDigits(s[1..]);
    }
  }

  /** The printed form of n is a non-empty run of digits worth n. */
  lemma {:induction false} NatToStringDigits(n: nat)
    ensures |NatToString(n)| >= 1
    ensures forall j :: 0 <= j < |NatToString(n)| ==> IsDigit(NatToString(n)[j])
    ensures DigitsValue(NatToString(n)) == n
    decreases n
  {
    if n >= 10 {
      NatToStringDigits(n / 10);
      var p, c := NatToString(n / 10), DigitChar(n % 10);
      assert NatToString(n) == p + [c];
      assert (p + [c])[..|p + [c]| - 1] == p;
    }
  }

  /** The digit run of a printed number followed by a unit is the printed number. */
  lemma {:induction false} DigitRunOfPrefix(p: string, u: string)
    requires forall j :: 0 <= j < |p| ==> IsDigit(p[j])
    requires u == [] || !IsDigit(u[0])
    ensures DigitRun(p + u) == |p|
    decreases |p|
  {
    if p != [] {
      assert (p + u)[1..] == p[1..] + u;
      DigitRunOfPrefix(p[1..], u);
    } else {
      assert p + u == u;
    }
  }

  /** The digits of a printed integer n followed by a unit u are the digits of |n|. */
  lemma DigitsOfCanonical(n: int, u: string)
    requires u == [] || !IsDigit(u[0])
    ensures var m: nat := if n < 0 then -n else n;
      SignLength(IntToString(n) + u) == (if n < 0 then 1 else 0)
      && Digits(IntToString(n) + u) == NatToString(m)
      && (IntToString(n) + u)[SignLength(IntToString(n) + u) + |NatToString(m)|..] == u
  {
    var m: nat := if n < 0 then -n else n;
    var p := NatToString(m);
    NatToStringDigits(m);
    DigitRunOfPrefix(p, u);
    var s := IntToString(n) + u;
    var k := if n < 0 then 1 else 0;
    assert s == IntToString(n)[..k] + (p + u);
    assert s[k..] == p + u;
    assert (p + u)[..|p|] == p;
    assert s[k + |p|..] == u;
  }

  /** Split of a canonical width: the printed integer n, of at most MaxDigits digits,
      followed by a unit u that ends the number, is read back as n by parseFloat, and the
      unit left by replace is exactly u. */
  lemma ParseCanonical(n: int, u: string)
    requires |NatToString(if n < 0 then -n else n)| <= MaxDigits && UnitOk(u)
    ensures InGrammar(IntToString(n) + u)
    ensures ParseFloat(IntToString(n) + u) == Int(n)
    ensures Unit(IntToString(n) + u) == u
  {
    var m: nat := if n < 0 then -n else n;
    NatToStringDigits(m);
    DigitsOfCanonical(n, u);
    var s := IntToString(n) + u;
    assert NumericForm(s);
    assert DigitsValue(Digits(s)) == m;
    assert n < 0 ==> s[0] == '-';
    assert ParseFloat(s) == Int(n);
    assert IntToString(n) <= s;
  }

  /** replace with a pattern that is not a prefix keeps the first character. */
  lemma ReplaceKeepsHead(s: string, pattern: string)
    requires s != [] && !(pattern <= s)
    ensures ReplaceFirst(s, pattern) != [] && ReplaceFirst(s, pattern)[0] == s[0]
  {
  }

  /** The widths handleWidthChange treats as full are exactly the canonical "<n>vw" with
      100 <= n: a sign, a leading zero or any other text before the number leaves a unit
      other than "vw". */
  lemma FullWidthIff(s: string)
    requires InGrammar(s)
    ensures IsFullWidth(s) <==> exists n: int :: 100 <= n && s == IntToString(n) + "vw"
  {
    if IsFullWidth(s) {
      var n := ParseFloat(s).value;
      var p := IntToString(n);
      assert NumericForm(s);
      assert s[0] != 'v' by {
        if SignLength(s) == 0 {
          assert IsDigit(Digits(s)[0]);
        }
      }
      if !(p <= s) {
        ReplaceKeepsHead(s, p);
        assert false;
      }
      assert s == p + "vw";
    }
    if exists n: int :: 100 <= n && s == IntToString(n) + "vw" {
      var n: int :| 100 <= n && s == IntToString(n) + "vw";
      DigitsOfCanonical(n, "vw");
      ParseCanonical(n, "vw");
    }
  }

  /** The two widths the scroll animation starts and ends with. */
  lemma KnownWidths()
    ensures InGrammar("100vw") && ParseFloat("100vw") == Int(100) && Unit("100vw") == "vw"
    ensures IsFullWidth("100vw")
    ensures InGrammar("16rem") && ParseFloat("16rem") == Int(16) && Unit("16rem") == "rem"
    ensures !IsFullWidth("16rem")
  {
    assert IntToString(100) == "100" by {
      assert NatToString(1) == "1";
      assert NatToString(10) == "10";
    }
    assert IntToString(16) == "16" by {
      assert NatToString(1) == "1";
    }
    assert "100vw" == IntToString(100) + "vw";
    assert "16rem" == IntToString(16) + "rem";
    ParseCanonical(100, "vw");
    ParseCanonical(16, "rem");
  }

  /** A plain number (no unit) handed to the callback is never a full width. */
  lemma NumberIsNotFull(n: int)
    requires |NatToString(if n < 0 then -n else n)| <= MaxDigits
    ensures InGrammar(IntToString(n)) && !IsFullWidth(IntToString(n))
  {
    assert IntToString(n) + "" == IntToString(n);
    ParseCanonical(n, "");
  }

  /** A width with no number in front never counts as full. */
  lemma NonNumericIsNotFull(s: string)
    requires NonNumericForm(s)
    ensures InGrammar(s) && ParseFloat(s) == NaN && !IsFullWidth(s)
  {
  }
}
