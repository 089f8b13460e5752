/** Decimal text for integers: `Number.prototype.toString()` on an integral
    number and `parseInt(s, 10)` as section 19.2.5 of ECMA-262 defines it.
    The session expiration is stored with the first and read back with the
    second. */
module Decimal {
  import opened Common

  predicate IsDigit(c: char) {
    '0' <= c <= '9'
  }

  predicate AllDigits(s: string) {
    forall i :: 0 <= i < |s| ==> IsDigit(s[i])
  }

  function DigitValue(c: char): nat
    requires IsDigit(c)
  {
    (c as int) - ('0' as int)
  }

  function DigitChar(d: nat): (c: char)
    requires d < 10
    ensures IsDigit(c) && DigitValue(c) == d
  {
    (('0' as int) + d) as char
  }

  /** The number a run of digits denotes, most significant digit first. */
  function DigitsValue(ds: string): nat
    requires AllDigits(ds)
  {
    if ds == [] then 0 else DigitsValue(ds[..|ds| - 1]) * 10 + DigitValue(ds[|ds| - 1])
  }

  /** Shortest decimal numeral of `n`: no sign, no leading zero except for `0` itself. */
  function NatToString(n: nat): (s: string)
    ensures |s| > 0 && AllDigits(s)
    ensures s[0] == '0' ==> n == 0
  {
    if n < 10 then [DigitChar(n)] else NatToString(n / 10) + [DigitChar(n % 10)]
  }

  /** `n.toString()` for an integral JavaScript number. */
  function IntToString(n: int): (s: string)
    ensures |s| > 0 && (s[0] == '-' || IsDigit(s[0]))
    ensures s[0] == '-' <==> n < 0
  {
    if n < 0 then "-" + NatToString(-n) else NatToString(n)
  }

  /** StrWhiteSpaceChar of ECMA-262: the WhiteSpace and LineTerminator code points. */
  predicate IsStrWhiteSpace(c: char) {
    var n := c as int;
    || n == 0x09 || n == 0x0B || n == 0x0C || n == 0x20 || n == 0xA0 || n == 0xFEFF
    || n == 0x1680 || (0x2000 <= n <= 0x200A) || n == 0x202F || n == 0x205F || n == 0x3000
    || n == 0x0A || n == 0x0D || n == 0x2028 || n == 0x2029
  }

  /** The string with its leading white space removed. */
  function TrimStart(s: string): (t: string)
    ensures |t| <= |s| && t == s[|s| - |t|..]
    ensures forall i :: 0 <= i < |s| - |t| ==> IsStrWhiteSpace(s[i])
    ensures t != [] ==> !IsStrWhiteSpace(t[0])
  {
    if s != [] && IsStrWhiteSpace(s[0]) then TrimStart(s[1..]) else s
  }

  /** The longest prefix of `s` made only of decimal digits. */
  function DigitPrefix(s: string): (p: string)
    ensures |p| <= |s| && p == s[..|p|] && AllDigits(p)
    ensures |p| < |s| ==> !IsDigit(s[|p|])
  {
    if s != [] && IsDigit(s[0]) then [s[0]] + DigitPrefix(s[1..]) else []
  }

  /** `parseInt(s, 10)`: `None` stands for NaN. White space is skipped, one
      sign is read, then the longest run of digits; anything after it is
      ignored, and no digits at all gives NaN. */
  function ParseInt(s: string): (r: Option<int>)
    ensures r.None? <==> DigitPrefix(Unsigned(TrimStart(s))) == []
  {
    var t := TrimStart(s);
    var negative := t != [] && t[0] == '-';
    var digits := DigitPrefix(Unsigned(t));
    if digits == [] then None
    else
      var v: int := DigitsValue(digits);
      Some(if negative then -v else v)
  }

  /** Step 5 of the algorithm: a leading `+` or `-` is dropped. */
  function Unsigned(t: string): string {
    if t != [] && (t[0] == '-' || t[0] == '+') then t[1..] else t
  }

  lemma {:induction false} DigitsValueOfNatToString(n: nat)
    ensures DigitsValue(NatToString(n)) == n
    decreases n
  {
    var s := NatToString(n);
    if n < 10 {
      assert s[..|s| - 1] == [];
    } else {
      DigitsValueOfNatToString(n / 10);
      assert s[..|s| - 1] == NatToString(n / 10);
    }
  }

  /** Leading white space is skipped up to the first other character. */
  lemma {:induction false} TrimStartSkipsBlank(ws: string, t: string)
    requires forall i :: 0 <= i < |ws| ==> IsStrWhiteSpace(ws[i])
    requires t == [] || !IsStrWhiteSpace(t[0])
    ensures TrimStart(ws + t) == t
  {
    if ws == [] {
      assert ws + t == t;
    } else {
      assert (ws + t)[0] == ws[0];
      assert (ws + t)[1..] == ws[1..] + t;
      TrimStartSkipsBlank(ws[1..], t);
    }
  }

  /** The value `parseInt` gives any numeral: white space, an optional sign,
      a run of digits, and text that does not continue the run. */
  lemma ParseIntOfNumeral(ws: string, sign: string, ds: string, rest: string)
    requires forall i :: 0 <= i < |ws| ==> IsStrWhiteSpace(ws[i])
    requires sign == "" || sign == "+" || sign == "-"
    requires ds != [] && AllDigits(ds)
    requires rest == [] || !IsDigit(rest[0])
    ensures ParseInt(ws + sign + ds + rest) == Some(if sign == "-" then -(DigitsValue(ds) as int) else DigitsValue(ds) as int)
  {
    var u := ds + rest;
    var t := sign + u;
    assert ws + sign + ds + rest == ws + t;
    assert u[0] == ds[0];
    UnsignedDropsSign(sign, u);
    TrimStartSkipsBlank(ws, t);
    DigitPrefixOfDigitsThen(ds, rest);
    ParseIntByStages(ws + t, t, ds);
  }

  /** `parseInt` read off its stages: the trimmed text, and the digits after the sign. */
  lemma ParseIntByStages(s: string, t: string, ds: string)
    requires TrimStart(s) == t && DigitPrefix(Unsigned(t)) == ds && ds != []
    ensures ParseInt(s) == Some(if t[0] == '-' then -(DigitsValue(ds) as int) else DigitsValue(ds) as int)
  {
  }

  /** Step 5 on a signed numeral: the sign is dropped, it is negative iff
      it is `-`, and it does not start with white space. */
  lemma UnsignedDropsSign(sign: string, u: string)
    requires sign == "" || sign == "+" || sign == "-"
    requires u != [] && IsDigit(u[0])
    ensures Unsigned(sign + u) == u
    ensures (sign + u)[0] == '-' <==> sign == "-"
    ensures !IsStrWhiteSpace((sign + u)[0])
  {
    if sign == "" {
      assert sign + u == u;
    } else {
      assert (sign + u)[1..] == u;
    }
  }

  /** Text after the numeral that does not start with a digit is ignored, so
      "1700000000000abc" parses like "1700000000000". */
  lemma ParseIntIgnoresTrailingText(n: int, rest: string)
    requires rest == [] || !IsDigit(rest[0])
    ensures ParseInt(IntToString(n) + rest) == Some(n)
  {
    var m := if n < 0 then -n else n;
    var ds := NatToString(m);
    var sign := if n < 0 then "-" else "";
    assert DigitsValue(ds) == m by { DigitsValueOfNatToString(m); }
    assert IntToString(n) + rest == [] + sign + ds + rest by {
      assert IntToString(n) == sign + ds;
    }
    ParseIntOfNumeral([], sign, ds, rest);
  }

  /** Writing an integer in decimal and parsing it back gives the integer again. */
  lemma ParseIntOfIntToString(n: int)
    ensures ParseInt(IntToString(n)) == Some(n)
  {
    ParseIntIgnoresTrailingText(n, []);
    assert IntToString(n) + [] == IntToString(n);
  }

  lemma {:induction false} DigitPrefixOfDigitsThen(ds: string, rest: string)
    requires AllDigits(ds)
    requires rest == [] || !IsDigit(rest[0])
    ensures DigitPrefix(ds + rest) == ds
  {
    if ds != [] {
      assert (ds + rest)[1..] == ds[1..] + rest;
      DigitPrefixOfDigitsThen(ds[1..], rest);
    } else {
      assert ds + rest == rest;
    }
  }
}
