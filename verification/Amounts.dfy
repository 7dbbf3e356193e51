/** The amount texts the worker accepts, as a grammar, and that its reader accepts exactly those. */
module Amounts {
  import opened Prelude
  import opened Calendar
  import opened Decimals

  /** Digits with at most one point, and at least one digit somewhere. */
  predicate Mantissa(m: string, whole: string, fraction: string) {
    && AllDigits(whole) && AllDigits(fraction) && whole + fraction != ""
    && (m == whole + "." + fraction || (m == whole && fraction == ""))
  }

  /** A number of its own, with or without a sign. */
  predicate SignedNumber(t: string, sign: string, digits: string) {
    sign in {"", "+", "-"} && digits != "" && AllDigits(digits) && t == sign + digits
  }

  ghost predicate IsWhole(t: string, n: int) {
    exists sign, digits :: SignedNumber(t, sign, digits) && n == if sign == "-" then 0 - NatOf(digits) else NatOf(digits)
  }

  ghost predicate Exponent(t: string, e: int) {
    (t == "" && e == 0) || (t != "" && t[0] in {'e', 'E'} && IsWhole(t[1..], e))
  }

  /** An unsigned amount: digits with a point among or around them, then perhaps a power of ten. */
  ghost predicate Unsigned(t: string, d: Decimal) {
    exists whole, fraction, e, n: nat ::
      && n <= |t| && Mantissa(t[..n], whole, fraction) && Exponent(t[n..], e)
      && d == Shifted(Decimal(NatOf(whole + fraction), |fraction|), e)
  }

  /** A sign may come first. */
  ghost predicate Amount(t: string, d: Decimal) {
    || Unsigned(t, d)
    || (t != "" && t[0] == '+' && Unsigned(t[1..], d))
    || (t != "" && t[0] == '-' && Unsigned(t[1..], d.(unscaled := -d.unscaled)))
  }

  lemma SignedExactly(s: string, n: int)
    ensures ReadSigned(s) == Some(n) <==> IsWhole(s, n)
  {
    hide NatOf;
    if ReadSigned(s) == Some(n) {
      if s[0] in {'+', '-'} {
        assert s == [s[0]] + s[1..] && SignedNumber(s, [s[0]], s[1..]);
      } else {
        assert s == "" + s && SignedNumber(s, "", s);
      }
    }
    forall sign, digits | SignedNumber(s, sign, digits)
      ensures ReadSigned(s) == Some(if sign == "-" then 0 - NatOf(digits) else NatOf(digits))
    {
      assert IsDigit(digits[0]);
      if sign != "" {
        assert s[1..] == digits && s[0] == sign[0];
      } else {
        assert s == digits;
      }
    }
  }

  lemma ExponentExactly(t: string, e: int)
    ensures ReadExponent(t) == Some(e) <==> Exponent(t, e)
  {
    hide ReadSigned, IsWhole;
    if t != "" {
      SignedExactly(t[1..], e);
    }
  }

  /** What the reader takes for the mantissa of a text is one, and the text after it starts with no digit. */
  lemma MantissaTaken(s: string)
    ensures var r := ReadMantissa(s);
            r.Some? ==>
              exists whole, fraction, n: nat ::
                && n <= |s| && Mantissa(s[..n], whole, fraction) && s[n..] == r.value.1
                && r.value.0 == Decimal(NatOf(whole + fraction), |fraction|)
  {
    hide NatOf;
    var w := DigitRun(s);
    var whole, tail := s[..w], s[w..];
    if ReadMantissa(s).Some? {
      if tail != "" && tail[0] == '.' {
        var f := DigitRun(tail[1..]);
        var fraction := tail[1..][..f];
        assert s[..w + 1 + f] == whole + "." + fraction && s[w + 1 + f..] == tail[1..][f..];
        assert Mantissa(s[..w + 1 + f], whole, fraction);
      } else {
        assert whole + "" == whole && Mantissa(s[..w], whole, "");
      }
    }
  }

  lemma DigitRunIs(s: string, w: nat)
    requires w <= |s| && AllDigits(s[..w]) && (w == |s| || !IsDigit(s[w]))
    ensures DigitRun(s) == w
  {
    hide DigitRun;
    assert s == s[..w] + s[w..];
    DigitRunStops(s[..w], s[w..]);
  }

  lemma WithPoint(s: string, w: nat, n: nat)
    requires w < n <= |s| && n > 1 && s[w] == '.' && AllDigits(s[..w]) && AllDigits(s[w + 1..n]) && (n == |s| || !IsDigit(s[n]))
    ensures AllDigits(s[..w] + s[w + 1..n])
    ensures ReadMantissa(s) == Some((Decimal(NatOf(s[..w] + s[w + 1..n]), n - w - 1), s[n..]))
  {
    hide NatOf, DigitRun, AllDigits;
    var tail, after := s[w..], s[w + 1..];
    assert after[..n - w - 1] == s[w + 1..n] && after[n - w - 1..] == s[n..] && tail[1..] == after;
    assert n < |s| ==> after[n - w - 1] == s[n];
    assert !IsDigit('.');
    DigitRunIs(s, w);
    DigitRunIs(after, n - w - 1);
    Joined(s[..w], s[w + 1..n]);
  }

  lemma Joined(a: string, b: string)
    requires AllDigits(a) && AllDigits(b)
    ensures AllDigits(a + b)
  {
  }

  lemma WithoutPoint(s: string, n: nat)
    requires 0 < n <= |s| && AllDigits(s[..n]) && (n == |s| || (!IsDigit(s[n]) && s[n] != '.'))
    ensures ReadMantissa(s) == Some((Decimal(NatOf(s[..n]), 0), s[n..]))
  {
    hide NatOf, DigitRun, AllDigits;
    DigitRunIs(s, n);
  }

  /** A mantissa that is followed by nothing or by an exponent is taken as a whole. */
  lemma MantissaIsTaken(s: string, n: nat, whole: string, fraction: string)
    requires n <= |s| && Mantissa(s[..n], whole, fraction) && (n == |s| || s[n] in {'e', 'E'})
    ensures ReadMantissa(s) == Some((Decimal(NatOf(whole + fraction), |fraction|), s[n..]))
  {
    hide NatOf, ReadMantissa;
    var m := s[..n];
    if m == whole + "." + fraction {
      assert s[..|whole|] == m[..|whole|] == whole && s[|whole|] == m[|whole|] == '.';
      assert s[|whole| + 1..n] == m[|whole| + 1..] == fraction;
      WithPoint(s, |whole|, n);
    } else {
      assert whole + fraction == whole;
      WithoutPoint(s, n);
    }
  }

  lemma UnsignedExactly(t: string, d: Decimal)
    ensures ReadUnsigned(t) == Some(d) <==> Unsigned(t, d)
  {
    hide ReadMantissa, ReadExponent, Shifted, NatOf, IsWhole;
    if ReadUnsigned(t) == Some(d) {
      MantissaTaken(t);
      var rest := ReadMantissa(t).value.1;
      ExponentExactly(rest, ReadExponent(rest).value);
    }
    if Unsigned(t, d) {
      var whole, fraction, e, n: nat :|
        && n <= |t| && Mantissa(t[..n], whole, fraction) && Exponent(t[n..], e)
        && d == Shifted(Decimal(NatOf(whole + fraction), |fraction|), e);
      MantissaIsTaken(t, n, whole, fraction);
      ExponentExactly(t[n..], e);
    }
  }

  lemma UnsignedStarts(t: string, d: Decimal)
    requires Unsigned(t, d)
    ensures t != "" && t[0] !in {'+', '-'} && d.unscaled >= 0
  {
    hide NatOf, Exponent;
  }

  /** After white space around it and underscores inside it are taken out, a text is read as an amount exactly when the
    * grammar says it spells that amount. */
  lemma ReadsExactly(s: string, d: Decimal)
    ensures ReadDecimal(s) == Some(d) <==> Amount(WithoutUnderscores(TrimRight(TrimLeft(s))), d)
  {
    hide Unsigned, ReadUnsigned, WithoutUnderscores, TrimLeft, TrimRight;
    var t := WithoutUnderscores(TrimRight(TrimLeft(s)));
    if t != "" {
      var flipped := d.(unscaled := -d.unscaled);
      UnsignedExactly(t, d);
      UnsignedExactly(t[1..], d);
      UnsignedExactly(t[1..], flipped);
      if Unsigned(t, d) {
        UnsignedStarts(t, d);
      }
      assert ReadUnsigned(t[1..]).Some? && ReadUnsigned(t[1..]).value.(unscaled := -ReadUnsigned(t[1..]).value.unscaled) == d
             ==> ReadUnsigned(t[1..]).value == flipped;
    } else if Unsigned(t, d) {
      UnsignedStarts(t, d);
    }
  }

  // ---- underscores -----------------------------------------------------------------------

  lemma {:induction false} UnderscoresJoin(a: string, b: string)
    ensures WithoutUnderscores(a + b) == WithoutUnderscores(a) + WithoutUnderscores(b)
  {
    if a == "" {
      assert a + b == b;
    } else {
      assert (a + b)[1..] == a[1..] + b;
      UnderscoresJoin(a[1..], b);
    }
  }

  lemma {:induction false} TrimsLeft(a: string, b: string)
    requires a != "" && !IsSpace(a[|a| - 1])
    ensures TrimLeft(a) != "" && TrimLeft(a)[|TrimLeft(a)| - 1] == a[|a| - 1] && TrimLeft(a + b) == TrimLeft(a) + b
  {
    if IsSpace(a[0]) {
      TrimsLeft(a[1..], b);
      assert (a + b)[1..] == a[1..] + b;
    }
  }

  lemma {:induction false} TrimsRight(a: string, b: string)
    requires b != "" && !IsSpace(b[0])
    ensures TrimRight(a + b) == a + TrimRight(b)
  {
    if IsSpace(b[|b| - 1]) {
      TrimsRight(a, b[..|b| - 1]);
      assert (a + b)[..|a + b| - 1] == a + b[..|b| - 1];
    }
  }

  /** An underscore inside a number means nothing. */
  lemma UnderscoreIsIgnored(a: string, b: string)
    requires a != "" && !IsSpace(a[|a| - 1]) && b != "" && !IsSpace(b[0])
    ensures ReadDecimal(a + "_" + b) == ReadDecimal(a + b)
  {
    hide ReadUnsigned, TrimLeft, TrimRight, WithoutUnderscores;
    var left, right := TrimLeft(a), TrimRight(b);
    TrimsLeft(a, b);
    TrimsLeft(a, "_" + b);
    assert a + "_" + b == a + ("_" + b) && left + ("_" + b) == (left + "_") + b;
    TrimsRight(left, b);
    TrimsRight(left + "_", b);
    UnderscoresJoin(left, right);
    UnderscoresJoin(left + "_", right);
    UnderscoresJoin(left, "_");
    OnlyAnUnderscore();
    assert WithoutUnderscores(left) + "" == WithoutUnderscores(left);
  }

  lemma OnlyAnUnderscore()
    ensures WithoutUnderscores("_") == ""
  {
  }
}
