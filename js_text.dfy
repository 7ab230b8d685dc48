/** The JavaScript text built-ins the score protocol relies on:
    `String(n)` for an integer, `String.prototype.trim` and `parseInt(s)`
    without a radix, as ECMAScript 2024 specifies them (section 22.1.3.32
    for trim, section 19.2.5 for parseInt). */
module JsText {
  import opened Wrappers

  /** WhiteSpace and LineTerminator code points of ECMAScript (section 12.2
      and 12.3): TAB, VT, FF, ZWNBSP, every Zs space, LF, CR, LS and PS. */
  predicate IsJsSpace(c: char) {
    c == '\t' || c == '\U{0B}' || c == '\U{0C}' || c == '\U{FEFF}' ||
    c == ' ' || c == '\U{A0}' || c == '\U{1680}' ||
    ('\U{2000}' <= c <= '\U{200A}') || c == '\U{202F}' || c == '\U{205F}' || c == '\U{3000}' ||
    c == '\n' || c == '\r' || c == '\U{2028}' || c == '\U{2029}'
  }

  /** Removes leading white space. */
  function TrimStart(s: string): (r: string)
    ensures |r| <= |s| && r == s[|s| - |r|..]
    ensures r == [] || !IsJsSpace(r[0])
    ensures forall i :: 0 <= i < |s| - |r| ==> IsJsSpace(s[i])
  {
    if s != [] && IsJsSpace(s[0]) then TrimStart(s[1..]) else s
  }

  /** Removes trailing white space. */
  function TrimEnd(s: string): (r: string)
    ensures |r| <= |s| && r == s[..|r|]
    ensures r == [] || !IsJsSpace(r[|r| - 1])
    ensures forall i :: |r| <= i < |s| ==> IsJsSpace(s[i])
  {
    if s != [] && IsJsSpace(s[|s| - 1]) then TrimEnd(s[..|s| - 1]) else s
  }

  /** `String.prototype.trim`: both ends. */
  function Trim(s: string): (r: string)
    ensures |r| <= |s|
    ensures r == [] || (!IsJsSpace(r[0]) && !IsJsSpace(r[|r| - 1]))
    ensures (s == [] || (!IsJsSpace(s[0]) && !IsJsSpace(s[|s| - 1]))) ==> r == s
  {
    var t := TrimStart(s);
    var r := TrimEnd(t);
    assert r != [] ==> r[0] == t[0];
    assert s != [] && !IsJsSpace(s[0]) ==> t == s;
    r
  }

  /** `.trim()` removes white space at both ends and nothing else: the
      result is the slice of the input between a run of leading and a run
      of trailing white space. */
  lemma TrimRemovesOnlySpace(s: string)
    ensures var r, k := Trim(s), |s| - |TrimStart(s)|;
      k + |r| <= |s| && r == s[k..k + |r|] &&
      (forall i :: 0 <= i < k ==> IsJsSpace(s[i])) &&
      (forall i :: k + |r| <= i < |s| ==> IsJsSpace(s[i]))
  {
    var t := TrimStart(s);
    var k := |s| - |t|;
    TrimEndOfSuffix(s, t, k);
  }

  /** The trailing trim of a suffix `t == s[k..]`, read back in `s`. */
  lemma TrimEndOfSuffix(s: string, t: string, k: nat)
    requires k <= |s| && t == s[k..]
    ensures var r := TrimEnd(t);
      k + |r| <= |s| && r == s[k..k + |r|] &&
      (forall i :: k + |r| <= i < |s| ==> IsJsSpace(s[i]))
  {
    var r := TrimEnd(t);
    assert r == t[..|r|];
    assert s[k..k + |r|] == t[..|r|];
    forall i | k + |r| <= i < |s|
      ensures IsJsSpace(s[i])
    {
      assert s[i] == t[i - k];
    }
  }

  /** `.length` of a JavaScript string: UTF-16 code units, so a code point
      above U+FFFF counts twice. */
  function Utf16Length(s: string): (n: nat)
    ensures |s| <= n <= 2 * |s|
    ensures (forall i :: 0 <= i < |s| ==> s[i] as int < 0x10000) ==> n == |s|
  {
    if s == [] then 0
    else (if s[0] as int < 0x10000 then 1 else 2) + Utf16Length(s[1..])
  }

  /** A character counts one code unit up to U+FFFF and two above. */
  lemma Utf16LengthChar(c: char)
    ensures Utf16Length([c]) == if c as int < 0x10000 then 1 else 2
  {
    assert [c][1..] == [];
  }

  /** The length of a concatenation is the sum of the lengths, so with
      Utf16LengthChar it fixes the length of every string. */
  lemma {:induction false} Utf16LengthConcat(a: string, b: string)
    ensures Utf16Length(a + b) == Utf16Length(a) + Utf16Length(b)
  {
    if a == [] {
      assert a + b == b;
    } else {
      assert (a + b)[1..] == a[1..] + b;
      Utf16LengthConcat(a[1..], b);
    }
  }

  /** The value of `c` as a digit of base `radix` (10 or 16), or -1. */
  function DigitValue(c: char, radix: nat): (v: int)
    ensures -1 <= v < radix
    ensures radix == 10 ==> (v >= 0 <==> '0' <= c <= '9')
  {
    var d :=
      if '0' <= c <= '9' then c as int - '0' as int
      else if 'a' <= c <= 'z' then c as int - 'a' as int + 10
      else if 'A' <= c <= 'Z' then c as int - 'A' as int + 10
      else -1;
    if d < radix then d else -1
  }

  predicate IsDigit(c: char, radix: nat) {
    DigitValue(c, radix) >= 0
  }

  /** Length of the longest prefix of `s` made of base-`radix` digits. */
  function DigitRun(s: string, radix: nat): (n: nat)
    ensures n <= |s|
    ensures forall i :: 0 <= i < n ==> IsDigit(s[i], radix)
    ensures n < |s| ==> !IsDigit(s[n], radix)
  {
    if s != [] && IsDigit(s[0], radix) then 1 + DigitRun(s[1..], radix) else 0
  }

  /** The number a run of digits denotes, most significant digit first. */
  function DigitsValue(ds: string, radix: nat): (v: nat)
    requires forall i :: 0 <= i < |ds| ==> IsDigit(ds[i], radix)
  {
    if ds == [] then 0
    else
      var front := ds[..|ds| - 1];
      assert forall i :: 0 <= i < |front| ==> front[i] == ds[i];
      assert IsDigit(ds[|ds| - 1], radix);
      DigitsValue(front, radix) * radix + DigitValue(ds[|ds| - 1], radix)
  }

  /** The text after one optional sign, and whether that sign was '-'. */
  function SplitSign(t: string): (r: (bool, string))
    ensures r.1 == t || (t != [] && r.1 == t[1..])
    ensures r.0 <==> t != [] && t[0] == '-'
  {
    if t != [] && (t[0] == '-' || t[0] == '+') then (t[0] == '-', t[1..]) else (false, t)
  }

  /** The radix `parseInt` picks when none is given, and the digits that
      follow the "0x" or "0X" prefix if there is one. */
  function SplitRadix(u: string): (r: (nat, string))
    ensures r.0 == 10 || r.0 == 16
    ensures r.0 == 10 ==> r.1 == u
  {
    if |u| >= 2 && u[0] == '0' && (u[1] == 'x' || u[1] == 'X') then (16, u[2..]) else (10, u)
  }

  /** `parseInt(s)` with no radix: skip leading white space, take one sign,
      switch to base 16 after "0x" or "0X", then read the longest run of
      digits; an empty run is NaN (`None`). JavaScript's -0 is returned as 0,
      the value it compares and prints as. */
  function ParseInt(s: string): (r: Option<int>)
    ensures r.Some? ==> TrimStart(s) != []
    ensures r.Some? ==> IsDigit(TrimStart(s)[0], 10) || TrimStart(s)[0] == '+' || TrimStart(s)[0] == '-'
    ensures r.Some? && r.value < 0 ==> TrimStart(s)[0] == '-'
  {
    var (negative, unsigned) := SplitSign(TrimStart(s));
    var (radix, body) := SplitRadix(unsigned);
    var n := DigitRun(body, radix);
    if n == 0 then None
    else
      assert IsDigit(body[0], radix);
      var m: int := DigitsValue(body[..n], radix);
      Some(if negative then -m else m)
  }

  function DigitChar(d: nat): (c: char)
    requires d < 10
    ensures DigitValue(c, 10) == d
  {
    ('0' as int + d) as char
  }

  /** From this magnitude on, `String(n)` switches to exponent form
      ("1e+21"), which this model does not cover. */
  const ExponentFormFrom := 1_000_000_000_000_000_000_000

  /** `String(n)` for a non-negative integer below 10^21: its decimal
      digits, without leading zeros. */
  function DecimalString(n: nat): (r: string)
    requires n < ExponentFormFrom
    ensures r != []
    ensures forall i :: 0 <= i < |r| ==> IsDigit(r[i], 10)
    ensures r[0] == '0' ==> n == 0 && |r| == 1
  {
    if n < 10 then [DigitChar(n)] else DecimalString(n / 10) + [DigitChar(n % 10)]
  }

  /** `String(n)` for any integer below 10^21 in magnitude. */
  function NumberText(n: int): (r: string)
    requires -ExponentFormFrom < n < ExponentFormFrom
    ensures r != [] && !IsJsSpace(r[0])
    ensures (r[0] == '-') <==> n < 0
    ensures forall i :: (if n < 0 then 1 else 0) <= i < |r| ==> IsDigit(r[i], 10)
  {
    if n < 0 then "-" + DecimalString(-n) else DecimalString(n)
  }

  lemma {:induction false} DecimalValue(n: nat)
    requires n < ExponentFormFrom
    ensures DigitsValue(DecimalString(n), 10) == n
  {
    if n >= 10 {
      var s := DecimalString(n / 10);
      var t := DecimalString(n);
      assert t[..|t| - 1] == s;
      DecimalValue(n / 10);
    }
  }

  /** `parseInt(String(n)) == n`: what one side sends as a number, the
      other side reads back unchanged. */
  lemma ParseNumberText(n: int)
    requires -ExponentFormFrom < n < ExponentFormFrom
    ensures ParseInt(NumberText(n)) == Some(n)
  {
    var digits := DecimalString(if n < 0 then -n else n);
    var t := NumberText(n);
    assert TrimStart(t) == t;
    assert SplitSign(t) == (n < 0, digits);
    assert SplitRadix(digits) == (10, digits);
    DigitRunPrefix(digits, []);
    assert digits + [] == digits;
    assert digits[..|digits|] == digits;
    DecimalValue(if n < 0 then -n else n);
  }

  /** `ParseInt` stops at the first non-digit: trailing text is ignored. */
  lemma ParseIgnoresSuffix(n: nat, suffix: string)
    requires n < ExponentFormFrom
    requires suffix == [] || !IsDigit(suffix[0], 10)
    requires n == 0 ==> suffix == [] || (suffix[0] != 'x' && suffix[0] != 'X')
    ensures ParseInt(DecimalString(n) + suffix) == Some(n)
  {
    var digits := DecimalString(n);
    var t := digits + suffix;
    assert t[0] == digits[0];
    assert TrimStart(t) == t;
    assert SplitSign(t) == (false, t);
    if |digits| == 1 && |t| >= 2 {
      assert t[1] == suffix[0];
    }
    assert SplitRadix(t) == (10, t);
    DigitRunPrefix(digits, suffix);
    assert t[..|digits|] == digits;
    DecimalValue(n);
  }

  lemma {:induction false} DigitRunPrefix(digits: string, suffix: string)
    requires forall i :: 0 <= i < |digits| ==> IsDigit(digits[i], 10)
    requires suffix == [] || !IsDigit(suffix[0], 10)
    ensures DigitRun(digits + suffix, 10) == |digits|
  {
    if digits != [] {
      assert (digits + suffix)[1..] == digits[1..] + suffix;
      DigitRunPrefix(digits[1..], suffix);
    } else {
      assert digits + suffix == suffix;
    }
  }

  /** Text that starts with anything but white space, a sign or a decimal
      digit is NaN: "abc", "undefined", "null", "NaN", "true". */
  lemma ParseRejectsNonNumeric(s: string)
    requires s != [] && !IsJsSpace(s[0]) && !IsDigit(s[0], 10)
    requires s[0] != '+' && s[0] != '-'
    ensures ParseInt(s) == None
  {
  }
}
