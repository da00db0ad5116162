/**
  Exact decimal values for the numeric strings the worker hands to Python's
  `float()`.  Every number the parsing helpers produce comes from such a
  string, so the model keeps them as exact `real`s.
*/
module Decimals {
  import opened Text
  import opened Wrappers

  function Pow10(n: nat): (r: nat)
    ensures r >= 1
  {
    if n == 0 then 1 else 10 * Pow10(n - 1)
  }

  function DigitValue(c: char): (r: nat)
    requires IsDigit(c)
    ensures r < 10
  {
    c as int - '0' as int
  }

  predicate AllDigits(s: string) {
    forall i | 0 <= i < |s| :: IsDigit(s[i])
  }

  /** The value of a run of decimal digits; the empty run is 0. */
  function DigitsValue(ds: string): (r: nat)
    requires AllDigits(ds)
    ensures r < Pow10(|ds|)
  {
    if ds == [] then 0 else DigitsValue(ds[..|ds| - 1]) * 10 + DigitValue(ds[|ds| - 1])
  }

  /** The unsigned forms `D+`, `D+.D*` and `.D+` that `float()` reads. */
  predicate IsUnsignedDecimal(u: string) {
    var a := RunEnd(u, 0, IsDigit);
    if a == |u| then a > 0
    else u[a] == '.' && RunEnd(u, a + 1, IsDigit) == |u| && (a > 0 || |u| > a + 1)
  }

  function UnsignedValue(u: string): (r: real)
    requires IsUnsignedDecimal(u)
    ensures r >= 0.0
  {
    var a := RunEnd(u, 0, IsDigit);
    if a == |u| then DigitsValue(u) as real
    else DigitsValue(u[..a]) as real + DigitsValue(u[a + 1..]) as real / Pow10(|u| - a - 1) as real
  }

  /**
    `float(s)` on decimal strings: surrounding whitespace is ignored, an
    optional sign precedes an unsigned decimal; anything else is the
    `ValueError` path, `None` here.
  */
  function ParseFloat(s: string): (r: Option<real>)
  {
    var t := Strip(s);
    if |t| > 0 && (t[0] == '-' || t[0] == '+') && IsUnsignedDecimal(t[1..]) then
      Some(if t[0] == '-' then -UnsignedValue(t[1..]) else UnsignedValue(t[1..]))
    else if IsUnsignedDecimal(t) then Some(UnsignedValue(t))
    else None
  }

  /** `float()` accepts digits, a point and digits, as the unsigned decimal they spell. */
  lemma ParseDecimal(u: string, ip: string, fp: string)
    requires ip != [] && AllDigits(ip) && AllDigits(fp) && u == ip + "." + fp
    ensures IsUnsignedDecimal(u)
    ensures ParseFloat(u) == Some(UnsignedValue(u))
  {
    DecimalValue(u, ip, fp);
    DecimalEnds(u, ip, fp);
    StripUnchanged(u);
    ParseUnsigned(u);
  }

  lemma DecimalEnds(u: string, ip: string, fp: string)
    requires ip != [] && AllDigits(ip) && AllDigits(fp) && u == ip + "." + fp
    ensures u != [] && IsDigit(u[0]) && !IsSpace(u[|u| - 1])
  {
    assert u[0] == ip[0];
    if fp != [] {
      assert u[|u| - 1] == fp[|fp| - 1];
    }
  }

  /** The value of digits, a point and digits: the integer part plus the fraction. */
  lemma DecimalValue(u: string, ip: string, fp: string)
    requires AllDigits(ip) && AllDigits(fp) && u == ip + "." + fp
    ensures IsUnsignedDecimal(u) || ip == []
    ensures ip != [] ==> UnsignedValue(u) == DigitsValue(ip) as real + DigitsValue(fp) as real / Pow10(|fp|) as real
  {
    DecimalRuns(u, ip, fp);
    var a := |ip|;
    assert u[..a] == ip;
    assert u[a + 1..] == fp;
    assert |u| - a - 1 == |fp|;
  }

  /** Digits, a point and digits hold no character but digits and the point. */
  lemma DecimalChars(u: string, ip: string, fp: string)
    requires AllDigits(ip) && AllDigits(fp) && u == ip + "." + fp
    ensures forall c | c in u :: IsDigit(c) || c == '.'
  {
    forall c | c in u ensures IsDigit(c) || c == '.' {
      var k :| 0 <= k < |u| && u[k] == c;
      if k < |ip| {
        assert u[k] == ip[k];
      } else if k > |ip| {
        assert u[k] == fp[k - |ip| - 1];
      }
    }
  }

  /** In digits, a point and digits, the first digit run ends at the point and the second at the end. */
  lemma DecimalRuns(u: string, ip: string, fp: string)
    requires AllDigits(ip) && AllDigits(fp) && u == ip + "." + fp
    ensures RunEnd(u, 0, IsDigit) == |ip| && u[|ip|] == '.' && RunEnd(u, |ip| + 1, IsDigit) == |u|
  {
    forall k | 0 <= k < |ip| ensures IsDigit(u[k]) {
      assert u[k] == ip[k];
    }
    forall k | |ip| + 1 <= k < |u| ensures IsDigit(u[k]) {
      assert u[k] == fp[k - |ip| - 1];
    }
    RunEndAt(u, 0, |ip|, IsDigit);
    RunEndAt(u, |ip| + 1, |u|, IsDigit);
  }

  lemma ParseUnsigned(u: string)
    requires u != [] && IsDigit(u[0]) && Strip(u) == u && IsUnsignedDecimal(u)
    ensures ParseFloat(u) == Some(UnsignedValue(u))
  {
  }

  /** Without a minus sign the parsed value is never negative. */
  lemma ParseFloatUnsigned(s: string)
    requires '-' !in s
    ensures ParseFloat(s).Some? ==> ParseFloat(s).value >= 0.0
  {
    StripShape(s);
  }

  /** A string `float()` accepts holds at least one digit: ",", "." and "" are rejected. */
  lemma {:induction false} ParseFloatNeedsDigit(s: string)
    requires ParseFloat(s).Some?
    ensures exists i | 0 <= i < |s| :: IsDigit(s[i])
  {
    var t := Strip(s);
    var u := if |t| > 0 && (t[0] == '-' || t[0] == '+') && IsUnsignedDecimal(t[1..]) then t[1..] else t;
    assert IsUnsignedDecimal(u);
    var a := RunEnd(u, 0, IsDigit);
    var k := if a > 0 then 0 else a + 1;
    assert IsDigit(u[k]);
    StripShape(s);
    assert u[k] in t;
    assert u[k] in s;
  }
}
