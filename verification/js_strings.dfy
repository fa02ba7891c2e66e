/** The part of JavaScript's string semantics the dashboard relies on:
    `String.prototype.trim`, `toLowerCase`, `includes`, the decimal
    `toString` of an integer and `parseInt` called without a radix. */
module JsStrings {
  import opened Wrappers

  /** The WhiteSpace and LineTerminator code points of ECMA-262: what `trim`
      strips and what `parseInt` skips before the number. */
  predicate IsSpace(c: char) {
    || c == '\t' || c == '\n' || c == '\U{000B}' || c == '\U{000C}' || c == '\r'
    || c == ' ' || c == '\U{00A0}' || c == '\U{1680}' || ('\U{2000}' <= c <= '\U{200A}')
    || c == '\U{2028}' || c == '\U{2029}' || c == '\U{202F}' || c == '\U{205F}'
    || c == '\U{3000}' || c == '\U{FEFF}'
  }

  predicate AllSpace(s: string) {
    forall k | 0 <= k < |s| :: IsSpace(s[k])
  }

  // ---------------------------------------------------------------- trim

  /** How many white-space characters `s` starts with. */
  function LeadingSpaces(s: string): (n: nat)
    ensures n <= |s|
    ensures forall k | 0 <= k < n :: IsSpace(s[k])
    ensures n < |s| ==> !IsSpace(s[n])
  {
    if |s| > 0 && IsSpace(s[0]) then 1 + LeadingSpaces(s[1..]) else 0
  }

  /** How many white-space characters `s` ends with. */
  function TrailingSpaces(s: string): (n: nat)
    ensures n <= |s|
    ensures forall k | |s| - n <= k < |s| :: IsSpace(s[k])
    ensures n < |s| ==> !IsSpace(s[|s| - 1 - n])
  {
    if |s| > 0 && IsSpace(s[|s| - 1]) then 1 + TrailingSpaces(s[..|s| - 1]) else 0
  }

  /** `s` without its leading white space. */
  function TrimStart(s: string): (r: string)
    ensures |r| <= |s| && forall k | 0 <= k < |r| :: r[k] == s[|s| - |r| + k]
    ensures forall k | 0 <= k < |s| - |r| :: IsSpace(s[k])
    ensures r == [] || !IsSpace(r[0])
  {
    s[LeadingSpaces(s)..]
  }

  /** `r` sits in `s` at `i` with only white space before and after it. */
  ghost predicate TrimmedAt(s: string, r: string, i: int) {
    && 0 <= i <= |s| - |r|
    && (forall k | 0 <= k < |r| :: r[k] == s[i + k])
    && (forall k | 0 <= k < i :: IsSpace(s[k]))
    && (forall k | i + |r| <= k < |s| :: IsSpace(s[k]))
  }

  /** `s.trim()`: the middle of `s` between white space on both sides.
      When `s` is all white space, both runs cover all of it. */
  function Trim(s: string): (r: string)
    ensures TrimmedAt(s, r, LeadingSpaces(s))
    ensures r == [] || (!IsSpace(r[0]) && !IsSpace(r[|r| - 1]))
  {
    var i := LeadingSpaces(s);
    var j := |s| - TrailingSpaces(s);
    if j <= i then [] else s[i..j]
  }

  /** A string trims to nothing exactly when it is all white space. */
  lemma {:induction false} TrimEmptyIffAllSpace(s: string)
    ensures Trim(s) == [] <==> AllSpace(s)
  {
    var r := Trim(s);
    var i := LeadingSpaces(s);
    if r != [] {
      assert !IsSpace(s[i]);
    }
  }

  // ------------------------------------------------------- toLowerCase

  /** Lower-case mapping of one character (the ASCII letters; every other
      character maps to itself). */
  function LowerChar(c: char): (d: char)
    ensures 'A' <= c <= 'Z' ==> 'a' <= d <= 'z' && d as int - c as int == 32
    ensures !('A' <= c <= 'Z') ==> d == c
  {
    if 'A' <= c <= 'Z' then (c as int + 32) as char else c
  }

  /** `s.toLowerCase()`. */
  function ToLower(s: string): (r: string)
    ensures |r| == |s|
    ensures forall i :: 0 <= i < |s| ==> r[i] == LowerChar(s[i])
  {
    seq(|s|, i requires 0 <= i < |s| => LowerChar(s[i]))
  }

  /** Lower-casing works character by character. */
  lemma ToLowerAppend(a: string, b: string)
    ensures ToLower(a + b) == ToLower(a) + ToLower(b)
  {
    var l := ToLower(a + b);
    var r := ToLower(a) + ToLower(b);
    forall i | 0 <= i < |a| + |b| ensures l[i] == r[i] {
      if i < |a| {
        assert (a + b)[i] == a[i];
      } else {
        assert (a + b)[i] == b[i - |a|];
      }
    }
  }

  /** A string without capital letters is its own lower case. */
  lemma ToLowerNoCapitals(s: string)
    requires forall i | 0 <= i < |s| :: !('A' <= s[i] <= 'Z')
    ensures ToLower(s) == s
  {
  }

  /** Lower-casing twice is lower-casing once. */
  lemma ToLowerIdempotent(s: string)
    ensures ToLower(ToLower(s)) == ToLower(s)
  {
  }

  // ---------------------------------------------------------- includes

  /** `t` occurs in `s` starting at index `i`. */
  predicate OccursAt(s: string, t: string, i: nat) {
    i + |t| <= |s| && s[i..i + |t|] == t
  }

  /** `s.includes(t)`: `t` occurs in `s` at some offset. */
  predicate Includes(s: string, t: string) {
    exists i | 0 <= i <= |s| :: OccursAt(s, t, i)
  }

  /** Every string includes the empty string. */
  lemma IncludesEmpty(s: string)
    ensures Includes(s, [])
  {
    assert OccursAt(s, [], 0);
  }

  // ------------------------------------------------ integer to string

  predicate IsDigit(c: char) {
    '0' <= c <= '9'
  }

  predicate IsHexDigit(c: char) {
    IsDigit(c) || 'a' <= c <= 'f' || 'A' <= c <= 'F'
  }

  /** A digit of base 16 when `hex`, of base 10 otherwise. */
  predicate IsRadixDigit(c: char, hex: bool) {
    if hex then IsHexDigit(c) else IsDigit(c)
  }

  function DigitValue(c: char, hex: bool): (v: nat)
    requires IsRadixDigit(c, hex)
    ensures v < Radix(hex)
  {
    if IsDigit(c) then c as int - '0' as int
    else if 'a' <= c <= 'f' then c as int - 'a' as int + 10
    else c as int - 'A' as int + 10
  }

  function Radix(hex: bool): nat {
    if hex then 16 else 10
  }

  function DigitChar(d: nat): (c: char)
    requires d < 10
    ensures IsDigit(c) && DigitValue(c, false) == d
  {
    ('0' as int + d) as char
  }

  /** The decimal numeral of `n`, without leading zeros. */
  function NatToString(n: nat): (r: string)
    ensures |r| >= 1
    ensures forall i :: 0 <= i < |r| ==> IsDigit(r[i])
    ensures r[0] == '0' ==> n == 0 && |r| == 1
  {
    if n < 10 then [DigitChar(n)] else NatToString(n / 10) + [DigitChar(n % 10)]
  }

  /** `String(n)` for an integer `n`. */
  function IntToString(n: int): (r: string)
    ensures |r| >= 1 && (r[0] == '-' <==> n < 0)
  {
    if n < 0 then "-" + NatToString(-n) else NatToString(n)
  }

  // ---------------------------------------------------------- parseInt

  /** The longest prefix of `s` made of digits of the radix. */
  function DigitRun(s: string, hex: bool): (r: string)
    ensures |r| <= |s| && r == s[..|r|]
    ensures forall i :: 0 <= i < |r| ==> IsRadixDigit(r[i], hex)
    ensures |r| < |s| ==> !IsRadixDigit(s[|r|], hex)
  {
    if |s| > 0 && IsRadixDigit(s[0], hex) then [s[0]] + DigitRun(s[1..], hex) else []
  }

  /** The value of a numeral, most significant digit first. */
  function RunValue(d: string, hex: bool): nat
    requires forall i :: 0 <= i < |d| ==> IsRadixDigit(d[i], hex)
  {
    if d == [] then 0 else RunValue(d[..|d| - 1], hex) * Radix(hex) + DigitValue(d[|d| - 1], hex)
  }

  /** `parseInt(s)` with `NaN` as `None`: skip white space, take one optional
      sign, read base 16 after a `0x`/`0X` prefix and base 10 otherwise, and
      stop at the first character that is not a digit. Without a digit the
      result is `NaN`. */
  function ParseInt(s: string): (r: Option<int>)
    ensures r.Some? ==> exists i :: 0 <= i < |s| && IsHexDigit(s[i])
  {
    var t := TrimStart(s);
    HexDigitInSuffix(s, |s| - |t|);
    ParseSigned(t)
  }

  /** A hex digit of a suffix is one of the whole string. */
  lemma HexDigitInSuffix(s: string, k: nat)
    requires k <= |s|
    ensures (exists i :: 0 <= i < |s| - k && IsHexDigit(s[k..][i])) ==> exists i :: 0 <= i < |s| && IsHexDigit(s[i])
  {
    if exists i :: 0 <= i < |s| - k && IsHexDigit(s[k..][i]) {
      var i :| 0 <= i < |s| - k && IsHexDigit(s[k..][i]);
      assert s[k..][i] == s[k + i];
    }
  }

  /** `parseInt` after the white space: an optional sign, then the number. */
  function ParseSigned(t: string): (r: Option<int>)
    ensures r.Some? ==> exists i :: 0 <= i < |t| && IsHexDigit(t[i])
  {
    if |t| > 0 && (t[0] == '-' || t[0] == '+') then
      match ParseUnsigned(t[1..])
      case None => None
      case Some(v) =>
        HexDigitInSuffix(t, 1);
        Some(if t[0] == '-' then -(v as int) else v as int)
    else
      match ParseUnsigned(t)
      case None => None
      case Some(v) => Some(v as int)
  }

  /** `parseInt` after the sign: base 16 after `0x`/`0X`, base 10
      otherwise, up to the first character that is not a digit. */
  function ParseUnsigned(u: string): (r: Option<nat>)
    ensures r.Some? ==> exists i :: 0 <= i < |u| && IsHexDigit(u[i])
  {
    var hex := |u| >= 2 && u[0] == '0' && (u[1] == 'x' || u[1] == 'X');
    var body := if hex then u[2..] else u;
    var d := DigitRun(body, hex);
    if d == [] then None
    else
      assert body[0] == u[|u| - |body|];
      Some(RunValue(d, hex))
  }

  /** A run of digits is read back as the whole numeral. */
  lemma DigitRunOfDigits(s: string, hex: bool)
    requires forall i :: 0 <= i < |s| ==> IsRadixDigit(s[i], hex)
    ensures DigitRun(s, hex) == s
  {
  }

  lemma {:induction false} NatToStringValue(n: nat)
    ensures RunValue(NatToString(n), false) == n
  {
    if n >= 10 {
      var a := NatToString(n / 10);
      var s := a + [DigitChar(n % 10)];
      assert s[..|s| - 1] == a;
      NatToStringValue(n / 10);
    }
  }

  /** A decimal numeral without leading zeros reads back as its value. */
  lemma ParseNumeral(u: string)
    requires |u| >= 1 && (forall i :: 0 <= i < |u| ==> IsDigit(u[i])) && !(|u| >= 2 && u[0] == '0')
    ensures ParseSigned(u) == Some(RunValue(u, false) as int)
  {
    ParseDecimal(u);
    ParseUnsignedSign(u);
  }

  /** Without a sign, `parseInt` reads the number directly. */
  lemma ParseUnsignedSign(u: string)
    requires |u| > 0 && IsDigit(u[0])
    ensures ParseSigned(u) == match ParseUnsigned(u) case None => None case Some(v) => Some(v as int)
  {
  }

  /** A minus sign negates what follows it. */
  lemma ParseMinus(t: string)
    requires |t| > 0 && t[0] == '-'
    ensures ParseSigned(t) == match ParseUnsigned(t[1..]) case None => None case Some(v) => Some(-(v as int))
  {
  }

  lemma ParseDecimal(u: string)
    requires |u| >= 1 && (forall i :: 0 <= i < |u| ==> IsDigit(u[i])) && !(|u| >= 2 && u[0] == '0')
    ensures ParseUnsigned(u) == Some(RunValue(u, false))
  {
    DigitRunOfDigits(u, false);
  }

  /** A string starting with a digit or a minus has no white space to skip. */
  lemma NoSpaceBeforeDigit(s: string)
    requires |s| > 0 && (IsDigit(s[0]) || s[0] == '-')
    ensures ParseInt(s) == ParseSigned(s)
  {
    assert LeadingSpaces(s) == 0;
    assert TrimStart(s) == s;
  }

  /** `parseInt(String(n)) === n`: the decimal numeral reads back as the
      integer it was printed from. */
  lemma ParseIntToString(n: int)
    ensures ParseInt(IntToString(n)) == Some(n)
  {
    var s := IntToString(n);
    var m: nat := if n < 0 then -n else n;
    var u := NatToString(m);
    NatToStringValue(m);
    NoSpaceBeforeDigit(s);
    if n < 0 {
      ParseDecimal(u);
      ParseMinus(s);
      assert s[1..] == u;
    } else {
      ParseNumeral(u);
    }
  }

  /** The decimal numeral determines the integer. */
  lemma IntToStringInjective(a: int, b: int)
    ensures IntToString(a) == IntToString(b) ==> a == b
  {
    ParseIntToString(a);
    ParseIntToString(b);
  }

  /** White space in front of `x` adds to the white space `x` starts with. */
  lemma {:induction false} LeadingSpacesAfterSpace(w: string, x: string)
    requires AllSpace(w)
    ensures LeadingSpaces(w + x) == |w| + LeadingSpaces(x)
  {
    if w != [] {
      assert (w + x)[0] == w[0];
      assert (w + x)[1..] == w[1..] + x;
      LeadingSpacesAfterSpace(w[1..], x);
    } else {
      assert w + x == x;
    }
  }

  /** `parseInt` skips the white space in front of the number. */
  lemma {:induction false} ParseIntAfterSpace(w: string, t: string)
    requires AllSpace(w)
    requires t == [] || !IsSpace(t[0])
    ensures ParseInt(w + t) == ParseSigned(t)
  {
    assert LeadingSpaces(t) == 0;
    LeadingSpacesAfterSpace(w, t);
    assert (w + t)[|w|..] == t;
  }

  /** The digit run of a numeral followed by a non-digit is the numeral. */
  lemma {:induction false} DigitRunStopsAtTail(d: string, tail: string, hex: bool)
    requires forall i :: 0 <= i < |d| ==> IsRadixDigit(d[i], hex)
    requires tail == [] || !IsRadixDigit(tail[0], hex)
    ensures DigitRun(d + tail, hex) == d
  {
    if d != [] {
      assert (d + tail)[0] == d[0];
      assert (d + tail)[1..] == d[1..] + tail;
      DigitRunStopsAtTail(d[1..], tail, hex);
    } else {
      assert d + tail == tail;
    }
  }

  /** A decimal numeral followed by a non-digit reads as the numeral. A
      lone `0` followed by `x` or `X` would start a hex number instead. */
  lemma {:induction false} ParseUnsignedDecimal(d: string, tail: string)
    requires |d| >= 1 && forall i :: 0 <= i < |d| ==> IsDigit(d[i])
    requires tail == [] || !IsDigit(tail[0])
    requires !(|d| == 1 && d[0] == '0' && |tail| > 0 && (tail[0] == 'x' || tail[0] == 'X'))
    ensures ParseUnsigned(d + tail) == Some(RunValue(d, false))
  {
    var u := d + tail;
    assert u[0] == d[0];
    assert |u| >= 2 ==> u[1] == (if |d| >= 2 then d[1] else tail[0]);
    DigitRunStopsAtTail(d, tail, false);
  }

  /** Text that starts with neither a digit nor a sign reads as `NaN`. */
  lemma ParseUnsignedNaN(u: string)
    requires u == [] || !(IsDigit(u[0]) || u[0] == '-' || u[0] == '+')
    ensures ParseSigned(u) == None
  {
    if u != [] {
      assert DigitRun(u, false) == [];
    }
  }

  /** A plus sign changes nothing. */
  lemma ParsePlus(t: string)
    requires |t| > 0 && t[0] == '+'
    ensures ParseSigned(t) == match ParseUnsigned(t[1..]) case None => None case Some(v) => Some(v as int)
  {
  }

  /** An optional sign, a decimal numeral and a non-digit: the numeral's
      value, negated after a minus sign. */
  lemma {:induction false} ParseSignedDecimal(sign: seq<char>, d: string, tail: string)
    requires sign == [] || sign == ['-'] || sign == ['+']
    requires |d| >= 1 && forall i :: 0 <= i < |d| ==> IsDigit(d[i])
    requires tail == [] || !IsDigit(tail[0])
    requires !(|d| == 1 && d[0] == '0' && |tail| > 0 && (tail[0] == 'x' || tail[0] == 'X'))
    ensures ParseSigned(sign + (d + tail)) ==
            Some(if sign == ['-'] then -(RunValue(d, false) as int) else RunValue(d, false) as int)
  {
    var u := d + tail;
    ParseUnsignedDecimal(d, tail);
    if sign == [] {
      assert sign + u == u && u[0] == d[0];
      ParseUnsignedSign(u);
    } else if sign == ['-'] {
      assert (sign + u)[0] == '-' && (sign + u)[1..] == u;
      ParseMinus(sign + u);
    } else {
      assert (sign + u)[0] == '+' && (sign + u)[1..] == u;
      ParsePlus(sign + u);
    }
  }

  /** `parseInt` of white space, an optional sign, a decimal numeral and
      then anything that does not continue the numeral: the numeral's value,
      negated after a minus sign. */
  lemma {:induction false} ParseIntDecimal(w: string, sign: seq<char>, d: string, tail: string)
    requires AllSpace(w)
    requires sign == [] || sign == ['-'] || sign == ['+']
    requires |d| >= 1 && forall i :: 0 <= i < |d| ==> IsDigit(d[i])
    requires tail == [] || !IsDigit(tail[0])
    requires !(|d| == 1 && d[0] == '0' && |tail| > 0 && (tail[0] == 'x' || tail[0] == 'X'))
    ensures ParseInt(w + sign + d + tail) ==
            Some(if sign == ['-'] then -(RunValue(d, false) as int) else RunValue(d, false) as int)
  {
    var t := sign + (d + tail);
    assert w + sign + d + tail == w + t;
    assert t[0] == if sign == [] then d[0] else sign[0];
    ParseIntAfterSpace(w, t);
    ParseSignedDecimal(sign, d, tail);
  }

  /** `parseInt` of white space and an optional sign followed by neither a
      digit nor more white space or signs: `NaN`. */
  lemma {:induction false} ParseIntNaN(w: string, sign: seq<char>, tail: string)
    requires AllSpace(w)
    requires sign == [] || sign == ['-'] || sign == ['+']
    requires tail == [] || !(IsDigit(tail[0]) || IsSpace(tail[0]) || tail[0] == '-' || tail[0] == '+')
    ensures ParseInt(w + sign + tail) == None
  {
    var t := sign + tail;
    assert w + sign + tail == w + t;
    assert t == [] || t[0] == if sign == [] then tail[0] else sign[0];
    ParseIntAfterSpace(w, t);
    ParseUnsignedNaN(tail);
    if sign != [] {
      assert t[1..] == tail;
      if tail != [] {
        assert DigitRun(tail, false) == [];
      }
    } else {
      assert t == tail;
    }
  }

  /** A string holding no digit at all parses as `NaN`. */
  lemma ParseIntWithoutDigits(s: string)
    requires forall i :: 0 <= i < |s| ==> !IsHexDigit(s[i])
    ensures ParseInt(s) == None
  {
  }
}
