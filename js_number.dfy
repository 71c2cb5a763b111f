/** The numeric parsing every calculator applies to its text fields
    (`toNumber`: strip everything but digits, `.` and `-`, then `parseFloat`,
    0 on failure), and `String(n)` for the amount MaxOffer writes back into a
    text field. Numbers are exact reals; IEEE-754 rounding is not modelled. */
module JsNumber {
  import opened Results

  predicate IsDigit(c: char) {
    '0' <= c <= '9'
  }

  predicate AllDigits(s: string) {
    forall i :: 0 <= i < |s| ==> IsDigit(s[i])
  }

  function DigitValue(c: char): (d: nat)
    requires IsDigit(c)
    ensures d < 10
  {
    c as int - '0' as int
  }

  function DigitChar(d: nat): (c: char)
    requires d < 10
    ensures IsDigit(c) && DigitValue(c) == d
  {
    ('0' as int + d) as char
  }

  /** The integer a digit string denotes, most significant digit first. */
  function WholeValue(ds: string): nat
    requires AllDigits(ds)
    decreases |ds|
  {
    if ds == [] then 0 else WholeValue(ds[..|ds| - 1]) * 10 + DigitValue(ds[|ds| - 1])
  }

  /** The value of the digits after a decimal point: ".d1d2..." */
  function FractionValue(ds: string): (r: real)
    requires AllDigits(ds)
    ensures 0.0 <= r < 1.0
  {
    if ds == [] then 0.0 else (DigitValue(ds[0]) as real + FractionValue(ds[1..])) / 10.0
  }

  /** `String(n)` for a non-negative integer: its decimal digits, no leading zero. */
  function NatToDecimal(n: nat): (r: string)
    ensures AllDigits(r) && r != []
    ensures r[0] == '0' ==> n == 0
  {
    if n < 10 then [DigitChar(n)] else NatToDecimal(n / 10) + [DigitChar(n % 10)]
  }

  /** The digits of `n` read back give `n`. */
  lemma {:induction false} NatToDecimalValue(n: nat)
    ensures WholeValue(NatToDecimal(n)) == n
  {
    if n >= 10 {
      NatToDecimalValue(n / 10);
      var r := NatToDecimal(n);
      assert r[..|r| - 1] == NatToDecimal(n / 10);
    }
  }

  lemma NatToDecimalInjective(a: nat, b: nat)
    ensures NatToDecimal(a) == NatToDecimal(b) ==> a == b
  {
    NatToDecimalValue(a);
    NatToDecimalValue(b);
  }

  /** `String(i)` for an integer, such as a project id. */
  function IntToString(i: int): (r: string)
    ensures r != [] && (r[0] == '-' <==> i < 0)
  {
    if i < 0 then "-" + NatToDecimal(-i) else NatToDecimal(i)
  }

  /** Distinct ids have distinct strings, so comparing `String(id)` compares ids. */
  lemma IntToStringInjective(a: int, b: int)
    ensures IntToString(a) == IntToString(b) <==> a == b
  {
    if IntToString(a) == IntToString(b) {
      if a < 0 {
        assert IntToString(a)[1..] == NatToDecimal(-a);
        assert IntToString(b)[1..] == NatToDecimal(-b);
        NatToDecimalInjective(-a, -b);
      } else {
        NatToDecimalInjective(a, b);
      }
    }
  }

  // ---------------------------------------------------------------------------
  // Cleaning: String(v).replace(/[^0-9.-]/g, "")

  /** The characters the cleaning regular expression keeps. */
  predicate Kept(c: char) {
    IsDigit(c) || c == '.' || c == '-'
  }

  predicate AllKept(s: string) {
    forall i :: 0 <= i < |s| ==> Kept(s[i])
  }

  /** `s.replace(/[^0-9.-]/g, "")`: every other character removed, one at a time. */
  function Clean(s: string): (r: string)
    ensures AllKept(r) && |r| <= |s|
  {
    if s == [] then []
    else (if Kept(s[0]) then [s[0]] else []) + Clean(s[1..])
  }

  /** Cleaning keeps a string that has nothing to remove. */
  lemma {:induction false} CleanKeepsClean(s: string)
    requires AllKept(s)
    ensures Clean(s) == s
  {
    if s != [] {
      CleanKeepsClean(s[1..]);
      assert s == [s[0]] + s[1..];
    }
  }

  lemma CleanIdempotent(s: string)
    ensures Clean(Clean(s)) == Clean(s)
  {
    CleanKeepsClean(Clean(s));
  }

  /** Cleaning works piecewise: the kept characters stay in their order. */
  lemma {:induction false} CleanAppend(a: string, b: string)
    ensures Clean(a + b) == Clean(a) + Clean(b)
  {
    if a != [] {
      assert (a + b)[1..] == a[1..] + b;
      CleanAppend(a[1..], b);
    } else {
      assert a + b == b;
    }
  }

  /** The length of the longest run of non-kept characters at the start. */
  function RunToDrop(s: string): (n: nat)
    ensures n <= |s|
    ensures forall i :: 0 <= i < n ==> !Kept(s[i])
    ensures n < |s| ==> Kept(s[n])
  {
    if s != [] && !Kept(s[0]) then 1 + RunToDrop(s[1..]) else 0
  }

  /** `s.replace(/[^0-9.-]+/g, "")`, the form ProfitCalc writes: every maximal
      run of other characters removed at once. */
  function CleanRuns(s: string): (r: string)
    ensures AllKept(r)
    decreases |s|
  {
    if s == [] then []
    else if Kept(s[0]) then [s[0]] + CleanRuns(s[1..])
    else CleanRuns(s[RunToDrop(s)..])
  }

  /** Removing runs and removing characters give the same string. */
  lemma {:induction false} CleanRunsIsClean(s: string)
    ensures CleanRuns(s) == Clean(s)
    decreases |s|
  {
    if s != [] {
      if Kept(s[0]) {
        CleanRunsIsClean(s[1..]);
      } else {
        var n := RunToDrop(s);
        CleanRunsIsClean(s[n..]);
        DropNotKept(s, n);
      }
    }
  }

  lemma {:induction false} DropNotKept(s: string, n: nat)
    requires n <= |s| && forall i :: 0 <= i < n ==> !Kept(s[i])
    ensures Clean(s) == Clean(s[n..])
  {
    if n > 0 {
      DropNotKept(s[1..], n - 1);
      assert s[1..][n - 1..] == s[n..];
    }
  }

  // ---------------------------------------------------------------------------
  // parseFloat on a cleaned string

  /** The length of the longest run of digits at the start of `s`. */
  function DigitRun(s: string): (n: nat)
    ensures n <= |s| && AllDigits(s[..n])
    ensures n < |s| ==> !IsDigit(s[n])
  {
    if s != [] && IsDigit(s[0]) then 1 + DigitRun(s[1..]) else 0
  }

  /** The decimal literal `parseFloat` reads: a sign, the digits before the
      point and the digits after it. */
  datatype Numeral = Numeral(negative: bool, whole: string, fraction: string)

  /** The text of a numeral: "-" if negative, the whole digits, then "." and
      the fraction digits when there are any. */
  function Spell(n: Numeral): string {
    (if n.negative then "-" else "") + n.whole + FractionText(n.fraction)
  }

  predicate WellFormed(n: Numeral) {
    AllDigits(n.whole) && AllDigits(n.fraction) && (n.whole != [] || n.fraction != [])
  }

  function NumeralValue(n: Numeral): real
    requires WellFormed(n)
  {
    var v := WholeValue(n.whole) as real + FractionValue(n.fraction);
    if n.negative then -v else v
  }

  /** A string of digits, `.` and `-` starts a number when, after at most one
      `-`, it starts with a digit or with `.` and a digit. */
  predicate StartsNumber(s: string) {
    var body := Unsigned(s);
    (body != [] && IsDigit(body[0])) || (|body| >= 2 && body[0] == '.' && IsDigit(body[1]))
  }

  /** `s` without its leading `-`, if it has one. */
  function Unsigned(s: string): string {
    if s != [] && s[0] == '-' then s[1..] else s
  }

  /** The fraction digits read after the integer digits: a `.` and the digits
      that follow it, or none when `rest` does not start with `.`. */
  function FractionAfter(rest: string): (r: string)
    ensures AllDigits(r)
    ensures r != [] <==> |rest| >= 2 && rest[0] == '.' && IsDigit(rest[1])
  {
    if rest != [] && rest[0] == '.' then rest[1..][..DigitRun(rest[1..])] else []
  }

  /** The longest prefix of `s` of the form `-?digits(.digits*)?` or
      `-?.digits+`, or None when there is none (parseFloat's NaN). A cleaned
      string has no white space, `+`, exponent or "Infinity" for parseFloat
      to accept. */
  function ScanNumeral(s: string): (r: Option<Numeral>)
    requires AllKept(s)
    ensures r.None? <==> !StartsNumber(s)
    ensures r.Some? ==> WellFormed(r.value)
  {
    var body := Unsigned(s);
    var w := DigitRun(body);
    var frac := FractionAfter(body[w..]);
    if w == 0 && frac == [] then None
    else Some(Numeral(s != [] && s[0] == '-', body[..w], frac))
  }

  /** `parseFloat(s)` for a cleaned string; None stands for NaN. */
  function ParseFloat(s: string): Option<real>
    requires AllKept(s)
  {
    match ScanNumeral(s)
    case None => None
    case Some(n) => Some(NumeralValue(n))
  }

  /** `toNumber(v)` of RehabCalc and MaxOffer: 0 for null or undefined,
      otherwise parseFloat of the cleaned text, 0 when that is NaN. */
  function ToNumber(v: Option<string>): (r: real)
    ensures v.None? ==> r == 0.0
    ensures v.Some? && !StartsNumber(Clean(v.value)) ==> r == 0.0
  {
    match v
    case None => 0.0
    case Some(s) => ParseFloat(Clean(s)).GetOr(0.0)
  }

  /** `toNumber(val)` of ProfitCalc: it first returns 0 for any falsy value
      other than the number 0 (null, undefined, ""), and removes runs rather
      than single characters. */
  function ToNumberProfit(v: Option<string>): (r: real)
    ensures v.None? ==> r == 0.0
    ensures v.Some? && !StartsNumber(Clean(v.value)) ==> r == 0.0
  {
    if v.None? || v.value == "" then 0.0
    else
      CleanRunsIsClean(v.value);
      ParseFloat(CleanRuns(v.value)).GetOr(0.0)
  }

  /** The two definitions of `toNumber` agree on every input. */
  lemma ToNumberVariantsAgree(v: Option<string>)
    ensures ToNumberProfit(v) == ToNumber(v)
  {
    if v.Some? {
      CleanRunsIsClean(v.value);
      if v.value == "" {
        assert ScanNumeral(Clean("")).None?;
      }
    }
  }

  /** Characters outside `[0-9.-]` never change the parsed value. */
  lemma ToNumberIgnoresNoise(s: string)
    ensures ToNumber(Some(s)) == ToNumber(Some(Clean(s)))
  {
    CleanIdempotent(s);
  }

  lemma {:induction false} DigitRunOfDigits(w: string, t: string)
    requires AllDigits(w)
    requires t == [] || !IsDigit(t[0])
    ensures DigitRun(w + t) == |w|
  {
    if w != [] {
      assert (w + t)[1..] == w[1..] + t;
      DigitRunOfDigits(w[1..], t);
    } else {
      assert w + t == t;
    }
  }

  /** The characters after the whole digits of a numeral's text. */
  function FractionText(fraction: string): string {
    if fraction == [] then "" else "." + fraction
  }

  lemma FractionAfterText(fraction: string)
    requires AllDigits(fraction)
    ensures FractionAfter(FractionText(fraction)) == fraction
  {
    if fraction != [] {
      var t := FractionText(fraction);
      assert t[1..] == fraction;
      DigitRunOfDigits(fraction, []);
      assert fraction + [] == fraction;
    }
  }

  lemma UnsignedSpell(n: Numeral)
    requires WellFormed(n)
    ensures Unsigned(Spell(n)) == n.whole + FractionText(n.fraction)
    ensures (Spell(n) != [] && Spell(n)[0] == '-') == n.negative
  {
    var body := n.whole + FractionText(n.fraction);
    assert Spell(n) == (if n.negative then "-" else "") + body;
    assert body != [] && body[0] != '-' by {
      if n.whole != [] { assert body[0] == n.whole[0]; } else { assert body[0] == '.'; }
    }
    if n.negative {
      assert Spell(n)[1..] == body;
    }
  }

  lemma AllKeptSpell(n: Numeral)
    requires WellFormed(n)
    ensures AllKept(Spell(n))
  {
    var sign := if n.negative then "-" else "";
    var t := FractionText(n.fraction);
    assert Spell(n) == sign + n.whole + t;
    assert AllKept(sign) && AllKept(n.whole) && AllKept(t);
  }

  /** parseFloat reads a well-formed numeral back exactly. */
  lemma ScanSpell(n: Numeral)
    requires WellFormed(n)
    ensures AllKept(Spell(n)) && ScanNumeral(Spell(n)) == Some(n)
  {
    AllKeptSpell(n);
    UnsignedSpell(n);
    var tail := FractionText(n.fraction);
    var body := n.whole + tail;
    DigitRunOfDigits(n.whole, tail);
    assert body[..|n.whole|] == n.whole;
    assert body[|n.whole|..] == tail;
    FractionAfterText(n.fraction);
  }

  /** What may follow a numeral's text without extending it: no digit, and,
      when the numeral has no fraction digits, no `.` followed by a digit. */
  predicate NumeralStops(n: Numeral, rest: string) {
    && (rest == [] || !IsDigit(rest[0]))
    && (n.fraction == [] ==> !(|rest| >= 2 && rest[0] == '.' && IsDigit(rest[1])))
  }

  /** parseFloat reads a numeral followed by anything that does not extend
      it as that numeral: the rest of the string is ignored. */
  lemma ScanNumeralOfPrefix(n: Numeral, t: string)
    requires WellFormed(n) && AllKept(t) && NumeralStops(n, t)
    ensures AllKept(Spell(n) + t) && ScanNumeral(Spell(n) + t) == Some(n)
  {
    AllKeptSpell(n);
    var tail := FractionText(n.fraction) + t;
    var body := n.whole + tail;
    UnsignedOfPrefix(n, t);
    DigitRunOfDigits(n.whole, tail);
    assert body[..|n.whole|] == n.whole;
    assert body[|n.whole|..] == tail;
    FractionAfterPrefix(n, t);
  }

  lemma UnsignedOfPrefix(n: Numeral, t: string)
    requires WellFormed(n)
    ensures Unsigned(Spell(n) + t) == n.whole + (FractionText(n.fraction) + t)
    ensures (Spell(n) + t != [] && (Spell(n) + t)[0] == '-') == n.negative
  {
    var sign := if n.negative then "-" else "";
    var body := n.whole + (FractionText(n.fraction) + t);
    var s := Spell(n) + t;
    assert s == sign + body;
    assert body != [] && body[0] != '-' by {
      if n.whole != [] { assert body[0] == n.whole[0]; } else { assert body[0] == '.'; }
    }
    if n.negative {
      assert s[1..] == body;
    }
  }

  lemma FractionAfterPrefix(n: Numeral, t: string)
    requires WellFormed(n) && NumeralStops(n, t)
    ensures FractionAfter(FractionText(n.fraction) + t) == n.fraction
  {
    var tail := FractionText(n.fraction) + t;
    if n.fraction != [] {
      assert tail[1..] == n.fraction + t;
      DigitRunOfDigits(n.fraction, t);
      assert (n.fraction + t)[..|n.fraction|] == n.fraction;
    } else {
      assert tail == t;
    }
  }

  /** Conversely, what parseFloat reads is a numeral at the start of the
      string that the rest does not extend: the longest numeric prefix. */
  lemma ScanNumeralSplits(s: string)
    requires AllKept(s) && ScanNumeral(s).Some?
    ensures var n := ScanNumeral(s).value;
      Spell(n) <= s && NumeralStops(n, s[|Spell(n)|..])
  {
    var n := ScanNumeral(s).value;
    var body := Unsigned(s);
    var w := DigitRun(body);
    assert n.whole == body[..w] && n.fraction == FractionAfter(body[w..]);
    var used := FractionTextUsed(body, w, n.fraction);
    SpellSplit(s, n, body, used);
  }

  lemma SpellSplit(s: string, n: Numeral, body: string, used: nat)
    requires body == Unsigned(s) && n.negative == (s != [] && s[0] == '-')
    requires used <= |body| && body[..used] == n.whole + FractionText(n.fraction)
    ensures Spell(n) <= s && s[|Spell(n)|..] == body[used..]
  {
    var sign := if n.negative then "-" else "";
    assert s == sign + body by {
      if n.negative { assert s == [s[0]] + s[1..]; }
    }
    assert Spell(n) == sign + body[..used];
  }

  /** After the whole digits `body[..w]`, the fraction parseFloat reads takes
      up `used - w` characters, and what follows stops the numeral. */
  lemma FractionTextUsed(body: string, w: nat, frac: string) returns (used: nat)
    requires w == DigitRun(body) && frac == FractionAfter(body[w..])
    ensures used <= |body| && body[..used] == body[..w] + FractionText(frac)
    ensures NumeralStops(Numeral(false, body[..w], frac), body[used..])
  {
    var r := body[w..];
    if frac == [] {
      used := w;
    } else {
      var k := DigitRun(r[1..]);
      used := w + 1 + k;
      assert frac == r[1..][..k];
      assert body[..used] == body[..w] + r[..1 + k];
      assert r[..1 + k] == "." + frac;
      assert body[used..] == r[1..][k..];
    }
  }

  /** toNumber reads the longest numeral at the start of the cleaned text and
      ignores what follows it, so "100-" reads as 100 and "1.2.3" as 1.2. */
  lemma ToNumberOfNumeralPrefix(n: Numeral, t: string)
    requires WellFormed(n) && NumeralStops(n, Clean(t))
    ensures ToNumber(Some(Spell(n) + t)) == NumeralValue(n)
  {
    AllKeptSpell(n);
    CleanAppend(Spell(n), t);
    CleanKeepsClean(Spell(n));
    ScanNumeralOfPrefix(n, Clean(t));
  }

  /** A trailing minus, a trailing point, a second point and a minus inside
      the digits all end the number. */
  lemma ToNumberPrefixExamples()
    ensures ToNumber(Some("100-")) == 100.0
    ensures ToNumber(Some("5.")) == 5.0
    ensures ToNumber(Some("1.2.3")) == 1.2
    ensures ToNumber(Some("12-3")) == 12.0
  {
    TrailingMinusExample();
    TrailingPointExample();
    SecondPointExample();
    InnerMinusExample();
  }

  lemma TrailingMinusExample()
    ensures ToNumber(Some("100-")) == 100.0
  {
    var hundred := Numeral(false, "100", "");
    assert "100"[..2] == "10" && "10"[..1] == "1" && "1"[..0] == "";
    assert WholeValue("10") == 10;
    assert NumeralValue(hundred) == 100.0;
    assert Spell(hundred) + "-" == "100-";
    PrefixExample(hundred, "-", "100-", 100.0);
  }

  lemma TrailingPointExample()
    ensures ToNumber(Some("5.")) == 5.0
  {
    var five := Numeral(false, "5", "");
    assert "5"[..0] == "";
    assert Spell(five) + "." == "5.";
    PrefixExample(five, ".", "5.", 5.0);
  }

  lemma SecondPointExample()
    ensures ToNumber(Some("1.2.3")) == 1.2
  {
    var onePointTwo := Numeral(false, "1", "2");
    assert "2"[1..] == "" && "1"[..0] == "";
    assert NumeralValue(onePointTwo) == 1.2;
    assert Spell(onePointTwo) + ".3" == "1.2.3";
    PrefixExample(onePointTwo, ".3", "1.2.3", 1.2);
  }

  lemma InnerMinusExample()
    ensures ToNumber(Some("12-3")) == 12.0
  {
    var twelve := Numeral(false, "12", "");
    assert "12"[..1] == "1" && "1"[..0] == "";
    assert NumeralValue(twelve) == 12.0;
    assert Spell(twelve) + "-3" == "12-3";
    PrefixExample(twelve, "-3", "12-3", 12.0);
  }

  lemma PrefixExample(n: Numeral, t: string, s: string, v: real)
    requires WellFormed(n) && AllKept(t) && NumeralStops(n, t)
    requires Spell(n) + t == s && NumeralValue(n) == v
    ensures ToNumber(Some(s)) == v
  {
    CleanKeepsClean(t);
    ToNumberOfNumeralPrefix(n, t);
  }

  /** toNumber of the text of a numeral is the numeral's value. */
  lemma ToNumberOfNumeral(n: Numeral)
    requires WellFormed(n)
    ensures ToNumber(Some(Spell(n))) == NumeralValue(n)
  {
    ScanSpell(n);
    CleanKeepsClean(Spell(n));
  }

  /** toNumber inverts `String(n)` on the non-negative integers. */
  lemma ToNumberOfNatToDecimal(k: nat)
    ensures ToNumber(Some(NatToDecimal(k))) == k as real
  {
    var n := Numeral(false, NatToDecimal(k), "");
    assert Spell(n) == NatToDecimal(k);
    ToNumberOfNumeral(n);
    NatToDecimalValue(k);
  }

  /** A currency-formatted amount parses to its value. */
  lemma ToNumberCurrencyExample()
    ensures ToNumber(Some("$45,000.50")) == 45000.5
  {
    CleanCurrencyExample();
    var n := Numeral(false, "45000", "50");
    assert Spell(n) == "45000.50";
    ToNumberOfCleanNumeral("$45,000.50", n);
    NumeralValueExample();
  }

  /** Text that cleans to a numeral's spelling parses to its value. */
  lemma ToNumberOfCleanNumeral(s: string, n: Numeral)
    requires WellFormed(n) && Clean(s) == Spell(n)
    ensures ToNumber(Some(s)) == NumeralValue(n)
  {
    ToNumberOfNumeral(n);
    CleanIdempotent(s);
  }

  lemma NumeralValueExample()
    ensures WellFormed(Numeral(false, "45000", "50"))
    ensures NumeralValue(Numeral(false, "45000", "50")) == 45000.5
  {
    WholeValueExample();
    assert "50"[1..] == "0" && "0"[1..] == "";
  }

  lemma CleanCurrencyExample()
    ensures Clean("$45,000.50") == "45000.50"
  {
    CleanDropsChar('$');
    CleanDropsChar(',');
    CleanPieces("$", "45", ",", "000.50");
    assert "$45,000.50" == "$" + ("45" + ("," + "000.50"));
    assert "45" + "000.50" == "45000.50";
  }

  lemma CleanDropsChar(c: char)
    requires !Kept(c)
    ensures Clean([c]) == []
  {
    assert [c][1..] == [];
  }

  lemma CleanPieces(a: string, b: string, c: string, d: string)
    requires Clean(a) == [] && Clean(c) == [] && AllKept(b) && AllKept(d)
    ensures Clean(a + (b + (c + d))) == b + d
  {
    var cd := c + d;
    var bcd := b + cd;
    CleanAppend(c, d);
    CleanKeepsClean(d);
    assert Clean(cd) == d;
    CleanAppend(b, cd);
    CleanKeepsClean(b);
    assert Clean(bcd) == b + d;
    CleanAppend(a, bcd);
    assert Clean(a + bcd) == [] + (b + d);
  }

  lemma WholeValueExample()
    ensures WholeValue("45000") == 45000
  {
    assert "45000"[..4] == "4500" && "4500"[..3] == "450" && "450"[..2] == "45" && "45"[..1] == "4";
  }

  /** Text without digits, the empty string and a missing value all give 0. */
  lemma ToNumberZeroExamples()
    ensures ToNumber(Some("abc")) == 0.0
    ensures ToNumber(Some("")) == 0.0 && ToNumber(None) == 0.0
  {
    assert Clean("abc") == "";
  }

  // ---------------------------------------------------------------------------
  // String(x) for an amount

  predicate IsInteger(x: real) {
    x.Floor as real == x
  }

  /** `x` has at most `k` digits after the decimal point: `x * 10^k` is an integer. */
  predicate HasDecimals(x: real, k: nat)
    decreases k
  {
    if k == 0 then IsInteger(x) else HasDecimals(x * 10.0, k - 1)
  }

  lemma IntegerDifference(x: real, y: real)
    requires IsInteger(x) && IsInteger(y)
    ensures IsInteger(x - y)
  {
    assert x - y == (x.Floor - y.Floor) as real;
  }

  /** Subtracting an integer keeps the number of decimals. */
  lemma {:induction false} HasDecimalsMinusInteger(x: real, d: int, k: nat)
    requires HasDecimals(x, k)
    ensures HasDecimals(x - d as real, k)
    decreases k
  {
    if k == 0 {
      IntegerDifference(x, d as real);
    } else {
      assert (x - d as real) * 10.0 == x * 10.0 - (d * 10) as real;
      HasDecimalsMinusInteger(x * 10.0, d * 10, k - 1);
    }
  }

  /** Negation keeps the number of decimals. */
  lemma {:induction false} HasDecimalsNegate(x: real, k: nat)
    requires HasDecimals(x, k)
    ensures HasDecimals(-x, k)
    decreases k
  {
    if k == 0 {
      IntegerDifference(0.0, x);
      assert 0.0 - x == -x;
    } else {
      assert (-x) * 10.0 == -(x * 10.0);
      HasDecimalsNegate(x * 10.0, k - 1);
    }
  }

  /** How many fraction digits `String(x)` writes at most in this model. */
  const FractionDigitLimit: nat := 20

  /** The decimal digits of a fraction `0 <= f < 1`, without trailing zeros,
      cut off after `fuel` digits. */
  function FractionDigits(f: real, fuel: nat): (r: string)
    requires 0.0 <= f < 1.0
    ensures AllDigits(r) && |r| <= fuel
    ensures f != 0.0 && fuel > 0 ==> r != []
    decreases fuel
  {
    if f == 0.0 || fuel == 0 then []
    else
      var d := (f * 10.0).Floor;
      [DigitChar(d)] + FractionDigits(f * 10.0 - d as real, fuel - 1)
  }

  /** The numeral `String(x)` writes for an amount: sign, integer digits and
      fraction digits. */
  function NumberNumeral(x: real): (n: Numeral)
    ensures WellFormed(n)
  {
    var a := if x < 0.0 then -x else x;
    var w := a.Floor;
    Numeral(x < 0.0 && a != 0.0, NatToDecimal(w), FractionDigits(a - w as real, FractionDigitLimit))
  }

  /** `String(x)` in plain decimal notation. */
  function NumberToString(x: real): (r: string)
    ensures r != [] && AllKept(r)
    ensures r[0] == '-' <==> x < 0.0
  {
    var n := NumberNumeral(x);
    AllKeptSpell(n);
    UnsignedSpell(n);
    Spell(n)
  }

  /** The fraction digits read back give the fraction, when it has no more
      digits than were written. */
  lemma {:induction false} FractionDigitsValue(f: real, fuel: nat)
    requires 0.0 <= f < 1.0 && HasDecimals(f, fuel)
    ensures FractionValue(FractionDigits(f, fuel)) == f
    decreases fuel
  {
    if f != 0.0 {
      assert fuel != 0;
      var d := (f * 10.0).Floor;
      var g := f * 10.0 - d as real;
      HasDecimalsMinusInteger(f * 10.0, d, fuel - 1);
      FractionDigitsValue(g, fuel - 1);
      var r := FractionDigits(f, fuel);
      assert r[0] == DigitChar(d) && r[1..] == FractionDigits(g, fuel - 1);
    }
  }

  /** toNumber inverts `String(x)` for every amount with at most
      `FractionDigitLimit` fraction digits. */
  lemma ToNumberOfNumberToString(x: real)
    requires HasDecimals(x, FractionDigitLimit)
    ensures ToNumber(Some(NumberToString(x))) == x
  {
    var n := NumberNumeral(x);
    var a := if x < 0.0 then -x else x;
    var w := a.Floor;
    if x < 0.0 {
      HasDecimalsNegate(x, FractionDigitLimit);
    }
    HasDecimalsMinusInteger(a, w, FractionDigitLimit);
    FractionDigitsValue(a - w as real, FractionDigitLimit);
    NatToDecimalValue(w);
    ToNumberOfNumeral(n);
  }
}
