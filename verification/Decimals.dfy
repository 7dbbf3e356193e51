/** Exact decimals, as a coefficient and a count of fraction digits, with their text. */
module Decimals {
  import opened Prelude
  import opened Calendar

  datatype Decimal = Decimal(unscaled: int, scale: nat)

  function Pow10(n: nat): (p: nat)
    ensures p > 0
  {
    if n == 0 then 1 else 10 * Pow10(n - 1)
  }

  /** The number itself: 1.5 and 1.50 are different decimals with one value. */
  function Value(d: Decimal): real {
    d.unscaled as real / Pow10(d.scale) as real
  }

  /** How many digits `s` starts with. */
  function DigitRun(s: string): (n: nat)
    ensures n <= |s| && AllDigits(s[..n])
    ensures n < |s| ==> !IsDigit(s[n])
  {
    if |s| > 0 && IsDigit(s[0]) then
      assert s[..1 + DigitRun(s[1..])] == [s[0]] + s[1..][..DigitRun(s[1..])];
      1 + DigitRun(s[1..])
    else 0
  }

  /** Length of digits and optionally `.` and more digits; 0 if there are none. */
  function UnsignedLength(s: string): (n: nat)
    ensures n <= |s|
  {
    var whole := DigitRun(s);
    if whole == 0 then 0
    else whole + FractionPart(s[whole..])
  }

  function FractionPart(s: string): (n: nat)
    ensures n <= |s|
  {
    if |s| > 0 && s[0] == '.' && DigitRun(s[1..]) > 0 then 1 + DigitRun(s[1..]) else 0
  }

  /** Length of an optional minus, digits, and optionally `.` and digits; 0 if there is no number. */
  function NumberLength(s: string): (n: nat)
    ensures n <= |s|
  {
    if |s| > 0 && s[0] == '-' then
      var n := UnsignedLength(s[1..]);
      if n == 0 then 0 else 1 + n
    else UnsignedLength(s)
  }

  function ParseUnsigned(s: string): (d: Decimal)
    requires 0 < |s| == UnsignedLength(s)
    ensures d.unscaled >= 0
  {
    var whole := DigitRun(s);
    var fraction := if whole == |s| then "" else s[whole + 1..];
    Decimal(NatOf(s[..whole] + fraction), |fraction|)
  }

  function ParseDecimal(s: string): Decimal
    requires 0 < |s| == NumberLength(s)
  {
    if s[0] == '-' then
      var d := ParseUnsigned(s[1..]);
      d.(unscaled := -d.unscaled)
    else ParseUnsigned(s)
  }

  function DigitsOf(n: nat): (s: string)
    ensures |s| > 0 && AllDigits(s) && NatOf(s) == n
  {
    if n < 10 then [Digit(n)] else DigitsOf(n / 10) + [Digit(n)]
  }

  /** Leading zeros up to a width: they never change the number read back. */
  function Padded(s: string, width: nat): (r: string)
    requires AllDigits(s)
    ensures AllDigits(r) && NatOf(r) == NatOf(s) && |r| >= width && |r| >= |s|
    decreases width - |s|
  {
    if |s| >= width then s else
      LeadingZero(s);
      Padded("0" + s, width)
  }

  lemma {:induction false} LeadingZero(s: string)
    requires AllDigits(s)
    ensures AllDigits("0" + s) && NatOf("0" + s) == NatOf(s)
  {
    if s != "" {
      LeadingZero(s[..|s| - 1]);
      assert ("0" + s)[..|s|] == "0" + s[..|s| - 1];
    } else {
      assert ("0" + s)[..0] == "";
    }
  }

  function Abs(n: int): nat {
    if n < 0 then -n else n
  }

  /** The digits of a decimal on each side of its point. */
  function Cut(d: Decimal): (r: (string, string))
    ensures AllDigits(r.0) && AllDigits(r.1) && r.0 != "" && |r.1| == d.scale
    ensures NatOf(r.0 + r.1) == Abs(d.unscaled)
  {
    var digits := Padded(DigitsOf(Abs(d.unscaled)), d.scale + 1);
    var point := |digits| - d.scale;
    assert digits == digits[..point] + digits[point..];
    (digits[..point], digits[point..])
  }

  function Sign(d: Decimal): string {
    if d.unscaled < 0 then "-" else ""
  }

  /** The text of an unsigned number cut at its point. */
  function UnsignedText(whole: string, fraction: string): string {
    whole + (if fraction == "" then "" else "." + fraction)
  }

  function DecimalText(d: Decimal): string {
    Sign(d) + UnsignedText(Cut(d).0, Cut(d).1)
  }

  /** What may follow a number without becoming part of it. */
  predicate EndsNumber(rest: string) {
    rest == "" || (!IsDigit(rest[0]) && rest[0] != '.')
  }

  lemma {:induction false} DigitRunStops(digits: string, rest: string)
    requires AllDigits(digits)
    requires rest == "" || !IsDigit(rest[0])
    ensures DigitRun(digits + rest) == |digits|
  {
    if digits == "" {
      assert digits + rest == rest;
    } else {
      DigitRunStops(digits[1..], rest);
      assert (digits + rest)[1..] == digits[1..] + rest;
    }
  }

  lemma UnsignedTextLength(whole: string, fraction: string, rest: string)
    requires AllDigits(whole) && AllDigits(fraction) && whole != "" && EndsNumber(rest)
    ensures UnsignedLength(UnsignedText(whole, fraction) + rest) == |UnsignedText(whole, fraction)|
  {
    var tail := (if fraction == "" then "" else "." + fraction) + rest;
    var s := whole + tail;
    assert UnsignedText(whole, fraction) + rest == s;
    DigitRunStops(whole, tail);
    assert s[|whole|..] == tail;
    if fraction != "" {
      assert tail[1..] == fraction + rest;
      DigitRunStops(fraction, rest);
    } else {
      assert tail == rest;
    }
  }

  lemma UnsignedTextParses(whole: string, fraction: string)
    requires AllDigits(whole) && AllDigits(fraction) && whole != ""
    ensures var s := UnsignedText(whole, fraction);
            0 < |s| == UnsignedLength(s) && ParseUnsigned(s) == Decimal(NatOf(whole + fraction), |fraction|)
  {
    var s := UnsignedText(whole, fraction);
    UnsignedTextLength(whole, fraction, "");
    assert s + "" == s;
    var tail := if fraction == "" then "" else "." + fraction;
    DigitRunStops(whole, tail);
    assert s[..|whole|] == whole;
    assert fraction != "" ==> s[|whole| + 1..] == fraction;
  }

  lemma SignedTextLength(d: Decimal, u: string, rest: string)
    requires u != "" && IsDigit(u[0]) && UnsignedLength(u + rest) == |u|
    ensures NumberLength(Sign(d) + u + rest) == |Sign(d) + u|
  {
    if d.unscaled < 0 {
      assert ("-" + u + rest)[1..] == u + rest;
    } else {
      assert "" + u + rest == u + rest;
      assert (u + rest)[0] == u[0];
    }
  }

  lemma SignedTextParses(d: Decimal, u: string)
    requires 0 < |u| == UnsignedLength(u) && IsDigit(u[0]) && ParseUnsigned(u) == Decimal(Abs(d.unscaled), d.scale)
    ensures 0 < |Sign(d) + u| == NumberLength(Sign(d) + u) && ParseDecimal(Sign(d) + u) == d
  {
    if d.unscaled < 0 {
      assert ("-" + u)[1..] == u;
    } else {
      assert "" + u == u;
    }
  }

  lemma UnsignedStart(whole: string, fraction: string)
    requires whole != ""
    ensures UnsignedText(whole, fraction) != "" && UnsignedText(whole, fraction)[0] == whole[0]
  {
  }

  /** A decimal's text is one number token wherever it is followed by something that ends a number. */
  lemma DecimalTextLength(d: Decimal, rest: string)
    requires EndsNumber(rest)
    ensures 0 < |DecimalText(d)| == NumberLength(DecimalText(d) + rest)
  {
    var (whole, fraction) := Cut(d);
    UnsignedStart(whole, fraction);
    UnsignedTextLength(whole, fraction, rest);
    SignedTextLength(d, UnsignedText(whole, fraction), rest);
  }

  /** Printing a decimal and reading it back gives the same coefficient and scale. */
  lemma DecimalTextParses(d: Decimal)
    ensures 0 < |DecimalText(d)| == NumberLength(DecimalText(d)) && ParseDecimal(DecimalText(d)) == d
  {
    var (whole, fraction) := Cut(d);
    UnsignedStart(whole, fraction);
    UnsignedTextParses(whole, fraction);
    SignedTextParses(d, UnsignedText(whole, fraction));
  }

  // ---- what a decimal text may look like elsewhere ----------------------------------------

  function TrimLeft(s: string): string {
    if s != "" && IsSpace(s[0]) then TrimLeft(s[1..]) else s
  }

  function TrimRight(s: string): string {
    if s != "" && IsSpace(s[|s| - 1]) then TrimRight(s[..|s| - 1]) else s
  }

  function WithoutUnderscores(s: string): string {
    if s == "" then "" else (if s[0] == '_' then "" else [s[0]]) + WithoutUnderscores(s[1..])
  }

  /** The decimal times a power of ten. */
  function Shifted(d: Decimal, exponent: int): Decimal {
    if exponent <= d.scale then Decimal(d.unscaled, d.scale - exponent)
    else Decimal(d.unscaled * Pow10(exponent - d.scale), 0)
  }

  function ReadSigned(s: string): Option<int> {
    var digits := if s != "" && s[0] in {'+', '-'} then s[1..] else s;
    if digits == "" || !AllDigits(digits) then None
    else Some(if s[0] == '-' then 0 - NatOf(digits) else NatOf(digits))
  }

  /** Nothing, or an e and a whole number. */
  function ReadExponent(s: string): Option<int> {
    if s == "" then Some(0) else if s[0] in {'e', 'E'} then ReadSigned(s[1..]) else None
  }

  /** Digits with a point anywhere among or around them, and the text after them. */
  function ReadMantissa(s: string): (r: Option<(Decimal, string)>)
    ensures r.Some? ==> r.value.0.unscaled >= 0
  {
    var whole := DigitRun(s);
    var tail := s[whole..];
    if tail != "" && tail[0] == '.' then
      var fraction := DigitRun(tail[1..]);
      if whole + fraction == 0 then None
      else Some((Decimal(NatOf(s[..whole] + tail[1..][..fraction]), fraction), tail[1..][fraction..]))
    else if whole == 0 then None
    else Some((Decimal(NatOf(s[..whole]), 0), tail))
  }

  function ReadUnsigned(s: string): Option<Decimal> {
    var (d, rest) :- ReadMantissa(s);
    var exponent :- ReadExponent(rest);
    Some(Shifted(d, exponent))
  }

  /** What Python's `Decimal` reads from a text, when that is a finite number. */
  function ReadDecimal(s: string): Option<Decimal> {
    var t := WithoutUnderscores(TrimRight(TrimLeft(s)));
    if t == "" then None
    else
      var d :- ReadUnsigned(if t[0] in {'+', '-'} then t[1..] else t);
      Some(if t[0] == '-' then d.(unscaled := -d.unscaled) else d)
  }

  /** White space around a number is ignored. */
  lemma {:induction false} PaddingIsIgnored(before: string, s: string, after: string)
    requires (forall i :: 0 <= i < |before| ==> IsSpace(before[i])) && forall i :: 0 <= i < |after| ==> IsSpace(after[i])
    requires s != "" && !IsSpace(s[0]) && !IsSpace(s[|s| - 1])
    ensures ReadDecimal(before + s + after) == ReadDecimal(s)
    decreases |before| + |after|
  {
    hide WithoutUnderscores, ReadUnsigned;
    var t := before + s + after;
    if before != "" {
      assert t[1..] == before[1..] + s + after;
      PaddingIsIgnored(before[1..], s, after);
    } else if after != "" {
      assert TrimLeft(t) == t && TrimLeft(s) == s;
      var less := before + s + after[..|after| - 1];
      assert t[..|t| - 1] == less && TrimLeft(less) == less;
      PaddingIsIgnored(before, s, after[..|after| - 1]);
    } else {
      assert t == s;
    }
  }

  lemma {:induction false} NothingToRemove(s: string)
    requires forall i :: 0 <= i < |s| ==> s[i] != '_'
    ensures WithoutUnderscores(s) == s
  {
    if s != "" {
      NothingToRemove(s[1..]);
      assert s == [s[0]] + s[1..];
    }
  }

  lemma MantissaReads(whole: string, fraction: string)
    requires AllDigits(whole) && AllDigits(fraction) && whole != ""
    ensures ReadMantissa(UnsignedText(whole, fraction)) == Some((Decimal(NatOf(whole + fraction), |fraction|), ""))
  {
    hide DigitRun, NatOf;
    var s := UnsignedText(whole, fraction);
    var tail := if fraction == "" then "" else "." + fraction;
    assert s == whole + tail;
    DigitRunStops(whole, tail);
    assert s[..|whole|] == whole && s[|whole|..] == tail;
    if fraction != "" {
      assert tail[1..] == fraction && fraction + "" == fraction;
      DigitRunStops(fraction, "");
      assert fraction[..|fraction|] == fraction && fraction[|fraction|..] == "";
    } else {
      assert whole + fraction == whole;
    }
  }

  lemma UnsignedTextReads(whole: string, fraction: string)
    requires AllDigits(whole) && AllDigits(fraction) && whole != ""
    ensures ReadUnsigned(UnsignedText(whole, fraction)) == Some(Decimal(NatOf(whole + fraction), |fraction|))
  {
    hide ReadMantissa, UnsignedText, NatOf;
    MantissaReads(whole, fraction);
  }

  /** What a printed decimal is made of: digits, a point, and a minus only in front. */
  lemma PrintedEnds(d: Decimal)
    ensures var s := DecimalText(d);
            && s != "" && (IsDigit(s[0]) || s[0] == '-') && IsDigit(s[|s| - 1]) && forall i :: 0 <= i < |s| ==> s[i] != '_'
  {
    hide NatOf;
    var (whole, fraction) := Cut(d);
    var u := UnsignedText(whole, fraction);
    assert u[0] == whole[0];
    assert u[|u| - 1] == if fraction == "" then whole[|whole| - 1] else fraction[|fraction| - 1];
  }

  lemma NothingToTrim(s: string)
    requires s != "" && !IsSpace(s[0]) && !IsSpace(s[|s| - 1])
    ensures TrimRight(TrimLeft(s)) == s
  {
  }

  /** A printed decimal is read back the same by the wider rules too. */
  lemma PrintedDecimalReads(d: Decimal)
    ensures ReadDecimal(DecimalText(d)) == Some(d)
  {
    hide ReadUnsigned, Cut, WithoutUnderscores, TrimLeft, TrimRight, NatOf, UnsignedText;
    var (whole, fraction) := Cut(d);
    var u := UnsignedText(whole, fraction);
    var s := Sign(d) + u;
    PrintedEnds(d);
    NothingToTrim(s);
    NothingToRemove(s);
    UnsignedStart(whole, fraction);
    UnsignedTextReads(whole, fraction);
    if d.unscaled < 0 {
      assert s[0] == '-' && s[1..] == u;
    } else {
      assert s == u;
    }
  }

  lemma {:induction false} PowersAdd(m: nat, n: nat)
    ensures Pow10(m + n) == Pow10(m) * Pow10(n)
  {
    if m > 0 {
      PowersAdd(m - 1, n);
      assert Pow10(m + n) == 10 * Pow10(m - 1 + n);
    }
  }

  /** An exponent multiplies the number by its power of ten. */
  lemma ShiftScales(d: Decimal, e: nat)
    ensures Value(Shifted(d, e)) == Value(d) * Pow10(e) as real
  {
    hide Pow10;
    if e <= d.scale {
      ShiftWithin(d, e);
    } else {
      ShiftBeyond(d, e);
    }
  }

  lemma ShiftWithin(d: Decimal, e: nat)
    requires e <= d.scale
    ensures Value(Decimal(d.unscaled, d.scale - e)) == Value(d) * Pow10(e) as real
  {
    hide Pow10;
    PowersAdd(d.scale - e, e);
    Cancels(d.unscaled, Pow10(d.scale - e), Pow10(e));
  }

  lemma ShiftBeyond(d: Decimal, e: nat)
    requires e > d.scale
    ensures Value(Decimal(d.unscaled * Pow10(e - d.scale), 0)) == Value(d) * Pow10(e) as real
  {
    hide Pow10;
    var a, b, p := Pow10(e - d.scale), Pow10(d.scale), Pow10(e);
    PowersAdd(e - d.scale, d.scale);
    assert p == a * b;
    Multiplies(d.unscaled, a, b);
    PowerOfNothing();
    ByOne(d.unscaled * a);
  }

  lemma ByOne(n: int)
    ensures n as real / 1 as real == n as real
  {
  }

  lemma ShiftDownScales(d: Decimal, e: nat)
    ensures Value(Shifted(d, 0 - e)) * Pow10(e) as real == Value(d)
  {
    hide Pow10;
    PowersAdd(d.scale, e);
    Cancels(d.unscaled, Pow10(d.scale), Pow10(e));
  }

  lemma PowerOfNothing()
    ensures Pow10(0) == 1
  {
  }

  lemma Cancels(u: int, a: int, b: int)
    requires a > 0 && b > 0
    ensures u as real / (a * b) as real * b as real == u as real / a as real
  {
    var x, y, z := u as real, a as real, b as real;
    assert (a * b) as real == y * z;
    assert x / (y * z) * z == x / y;
  }

  lemma Multiplies(u: int, a: int, b: int)
    requires a > 0 && b > 0
    ensures (u * a) as real == u as real / b as real * (a * b) as real
  {
    var x, y, z := u as real, a as real, b as real;
    assert (a * b) as real == y * z && (u * a) as real == x * y;
    assert x / z * (y * z) == x * y;
  }
}
