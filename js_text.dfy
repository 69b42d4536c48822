/**
 * The few JavaScript built-ins on strings and numbers that the wallet's logic
 * depends on: `String.prototype.trim`, `Number.prototype.toString` for
 * integers, `parseInt(s)` with no radix, and `toString(16)` of one digit.
 */
module JsText {

  /** ECMAScript WhiteSpace and LineTerminator code points: what `trim` and `parseInt` skip. */
  predicate IsWhitespace(c: char) {
    || c == '\t' || c == '\U{000B}' || c == '\U{000C}' || c == ' '
    || c == '\U{00A0}' || c == '\U{FEFF}' || c == '\U{1680}'
    || ('\U{2000}' <= c <= '\U{200A}')
    || c == '\U{202F}' || c == '\U{205F}' || c == '\U{3000}'
    || c == '\n' || c == '\r' || c == '\U{2028}' || c == '\U{2029}'
  }

  /** `trimStart`. */
  function TrimStart(s: string): (r: string)
    ensures |r| <= |s|
  {
    if s != [] && IsWhitespace(s[0]) then TrimStart(s[1..]) else s
  }

  /** `trimEnd`. */
  function TrimEnd(s: string): (r: string)
    ensures |r| <= |s|
  {
    if s != [] && IsWhitespace(s[|s| - 1]) then TrimEnd(s[..|s| - 1]) else s
  }

  /** `trimStart` keeps a suffix of its input that does not start with whitespace. */
  lemma {:induction false} TrimStartSlice(s: string)
    ensures TrimStart(s) == s[|s| - |TrimStart(s)|..]
    ensures TrimStart(s) == [] || !IsWhitespace(TrimStart(s)[0])
  {
    if s != [] && IsWhitespace(s[0]) {
      TrimStartSlice(s[1..]);
    }
  }

  /** Everything `trimStart` drops is whitespace. */
  lemma {:induction false} TrimStartDrops(s: string)
    ensures forall i :: 0 <= i < |s| - |TrimStart(s)| ==> IsWhitespace(s[i])
  {
    if s != [] && IsWhitespace(s[0]) {
      TrimStartDrops(s[1..]);
      assert forall i :: 1 <= i < |s| ==> s[1..][i - 1] == s[i];
    }
  }

  /** `trimEnd` keeps a prefix of its input that does not end with whitespace. */
  lemma {:induction false} TrimEndSlice(s: string)
    ensures TrimEnd(s) == s[..|TrimEnd(s)|]
    ensures TrimEnd(s) == [] || !IsWhitespace(TrimEnd(s)[|TrimEnd(s)| - 1])
  {
    if s != [] && IsWhitespace(s[|s| - 1]) {
      TrimEndSlice(s[..|s| - 1]);
    }
  }

  /** Everything `trimEnd` drops is whitespace. */
  lemma {:induction false} TrimEndDrops(s: string)
    ensures forall i :: |TrimEnd(s)| <= i < |s| ==> IsWhitespace(s[i])
  {
    if s != [] && IsWhitespace(s[|s| - 1]) {
      TrimEndDrops(s[..|s| - 1]);
    }
  }

  /** `String.prototype.trim`. */
  function Trim(s: string): (r: string)
  {
    TrimEnd(TrimStart(s))
  }

  /** How many whitespace characters `trim` removes from the front. */
  function LeadingWhitespace(s: string): nat
  {
    |s| - |TrimStart(s)|
  }

  /** `trim` cuts one contiguous piece out of the input, starting after the leading whitespace. */
  lemma TrimIsSlice(s: string)
    ensures LeadingWhitespace(s) + |Trim(s)| <= |s|
    ensures Trim(s) == s[LeadingWhitespace(s)..LeadingWhitespace(s) + |Trim(s)|]
    ensures Trim(s) == [] || (!IsWhitespace(Trim(s)[0]) && !IsWhitespace(Trim(s)[|Trim(s)| - 1]))
  {
    var t := TrimStart(s);
    var r := TrimEnd(t);
    var i := |s| - |t|;
    TrimStartSlice(s);
    TrimEndSlice(t);
    assert t == s[i..];
    assert r == t[..|r|];
    assert s[i..i + |r|] == t[..|r|];
    if r != [] {
      assert r[0] == t[0];
    }
  }

  /** Everything `trim` removes, before and after the piece it keeps, is whitespace. */
  lemma TrimRemovesOnlyWhitespace(s: string)
    ensures LeadingWhitespace(s) + |Trim(s)| <= |s|
    ensures forall k :: 0 <= k < LeadingWhitespace(s) ==> IsWhitespace(s[k])
    ensures forall k :: LeadingWhitespace(s) + |Trim(s)| <= k < |s| ==> IsWhitespace(s[k])
  {
    var t := TrimStart(s);
    var r := TrimEnd(t);
    var i := |s| - |t|;
    TrimStartSlice(s);
    TrimStartDrops(s);
    TrimEndDrops(t);
    assert t == s[i..];
    forall k | i + |r| <= k < |s| ensures IsWhitespace(s[k]) {
      assert s[k] == t[k - i];
    }
  }

  // ---------------------------------------------------------------- decimal digits

  predicate IsDigit(c: char) { '0' <= c <= '9' }

  predicate AllDigits(s: string) { forall i :: 0 <= i < |s| ==> IsDigit(s[i]) }

  function DigitChar(d: int): (c: char)
    requires 0 <= d < 10
    ensures IsDigit(c) && c as int - '0' as int == d
  {
    ('0' as int + d) as char
  }

  /** The value of a decimal digit (and 0 for any other character, which the callers never pass). */
  function DigitValue(c: char): nat
  {
    if IsDigit(c) then c as int - '0' as int else 0
  }

  function Pow10(k: nat): (p: nat)
    ensures p >= 1
  {
    if k == 0 then 1 else 10 * Pow10(k - 1)
  }

  /** The shortest decimal numeral of `n`: digits only, no leading zero. */
  function NatToDecimal(n: nat): (s: string)
    ensures |s| >= 1 && AllDigits(s)
    ensures |s| > 1 ==> s[0] != '0'
  {
    if n < 10 then [DigitChar(n)] else NatToDecimal(n / 10) + [DigitChar(n % 10)]
  }

  /** The value of a numeral, most significant digit first. */
  function DecimalValue(s: string): nat
  {
    if s == [] then 0 else 10 * DecimalValue(s[..|s| - 1]) + DigitValue(s[|s| - 1])
  }

  lemma {:induction false} DecimalRoundTrip(n: nat)
    ensures DecimalValue(NatToDecimal(n)) == n
  {
    if n >= 10 {
      var s := NatToDecimal(n);
      DecimalRoundTrip(n / 10);
      assert s[..|s| - 1] == NatToDecimal(n / 10);
    }
  }

  /** A number with `k` decimal digits prints as exactly `k` characters. */
  lemma {:induction false} DecimalLength(n: nat, k: nat)
    requires 1 <= k && n < Pow10(k) && (k == 1 || Pow10(k - 1) <= n)
    ensures |NatToDecimal(n)| == k
  {
    if n >= 10 {
      assert k > 1;
      assert Pow10(k) == 10 * Pow10(k - 1);
      assert n / 10 < Pow10(k - 1);
      if k > 2 {
        assert Pow10(k - 1) == 10 * Pow10(k - 2);
        assert Pow10(k - 2) <= n / 10;
      }
      DecimalLength(n / 10, k - 1);
    }
  }

  // ---------------------------------------------------------------- JavaScript numbers

  /** An integral JavaScript number, or NaN (what `parseInt` gives for a string with no digits). */
  datatype JsNumber = Int(value: int) | NaN

  /**
   * `Number.prototype.toString()` on an integral number. It agrees with
   * JavaScript on the safe integers; exponent notation from 10^21 up is not
   * modelled.
   */
  function NumberToString(x: JsNumber): string
  {
    match x
    case NaN => "NaN"
    case Int(n) => if n < 0 then "-" + NatToDecimal(-n) else NatToDecimal(n)
  }

  predicate IsHexDigit(c: char) { IsDigit(c) || 'a' <= c <= 'f' || 'A' <= c <= 'F' }

  /** The value of a hexadecimal digit (and 0 for any other character, which the callers never pass). */
  function HexDigitValue(c: char): nat
  {
    if IsDigit(c) then DigitValue(c)
    else if 'a' <= c <= 'f' then c as int - 'a' as int + 10
    else if 'A' <= c <= 'F' then c as int - 'A' as int + 10
    else 0
  }

  function HexValue(s: string): nat
  {
    if s == [] then 0 else 16 * HexValue(s[..|s| - 1]) + HexDigitValue(s[|s| - 1])
  }

  /** The longest prefix of `s` whose characters all satisfy `p`. */
  function LongestPrefix(s: string, p: char -> bool): string
  {
    if s != [] && p(s[0]) then [s[0]] + LongestPrefix(s[1..], p) else []
  }

  /** It is a prefix, all its characters satisfy `p`, and the next character, if any, does not. */
  lemma {:induction false} LongestPrefixSpec(s: string, p: char -> bool)
    ensures |LongestPrefix(s, p)| <= |s| && LongestPrefix(s, p) == s[..|LongestPrefix(s, p)|]
    ensures forall i :: 0 <= i < |LongestPrefix(s, p)| ==> p(LongestPrefix(s, p)[i])
    ensures |LongestPrefix(s, p)| == |s| || !p(s[|LongestPrefix(s, p)|])
  {
    if s != [] && p(s[0]) {
      var rest := LongestPrefix(s[1..], p);
      LongestPrefixSpec(s[1..], p);
      assert [s[0]] + rest == s[..1 + |rest|];
    }
  }

  /**
   * `parseInt(s)` with the radix left out: skip leading whitespace, take one
   * optional sign, read hexadecimal after a `0x`/`0X` prefix and decimal
   * otherwise, stop at the first character that is not a digit, and give NaN
   * when no digit was read.
   */
  function ParseInt(s: string): JsNumber
  {
    var t := TrimStart(s);
    if t != [] && t[0] == '-' then ParseUnsigned(t[1..], -1)
    else if t != [] && t[0] == '+' then ParseUnsigned(t[1..], 1)
    else ParseUnsigned(t, 1)
  }

  /** The digits after the sign: hexadecimal behind `0x`/`0X`, decimal otherwise. */
  function ParseUnsigned(u: string, sign: int): JsNumber
  {
    if |u| >= 2 && u[0] == '0' && (u[1] == 'x' || u[1] == 'X') then
      var z := LongestPrefix(u[2..], IsHexDigit);
      if z == [] then NaN else Int(sign * HexValue(z))
    else
      var z := LongestPrefix(u, IsDigit);
      if z == [] then NaN else Int(sign * DecimalValue(z))
  }

  /** Characters satisfying `p` followed by one that does not: exactly those characters are taken. */
  lemma {:induction false} LongestPrefixStops(x: string, y: string, p: char -> bool)
    requires forall i :: 0 <= i < |x| ==> p(x[i])
    requires y != [] && !p(y[0])
    ensures LongestPrefix(x + y, p) == x
  {
    if x == [] {
      assert x + y == y;
    } else {
      LongestPrefixStops(x[1..], y, p);
      assert (x + y)[1..] == x[1..] + y;
    }
  }

  lemma TrimStartKeeps(s: string)
    requires s == [] || !IsWhitespace(s[0])
    ensures TrimStart(s) == s
  {
  }

  lemma {:induction false} LongestPrefixOfAll(s: string, p: char -> bool)
    requires forall i :: 0 <= i < |s| ==> p(s[i])
    ensures LongestPrefix(s, p) == s
  {
    if s != [] {
      LongestPrefixOfAll(s[1..], p);
    }
  }

  /** `parseInt` of a bare numeral without leading zeros reads back its value. */
  lemma ParseNumeral(d: string, negative: bool)
    requires AllDigits(d) && |d| >= 1 && (|d| > 1 ==> d[0] != '0')
    ensures ParseInt(if negative then "-" + d else d) == Int((if negative then -1 else 1) * DecimalValue(d))
  {
    LongestPrefixOfAll(d, IsDigit);
    assert ParseUnsigned(d, if negative then -1 else 1) == Int((if negative then -1 else 1) * DecimalValue(d));
    if negative {
      var s := "-" + d;
      TrimStartKeeps(s);
      assert s[1..] == d;
    } else {
      assert IsDigit(d[0]);
      TrimStartKeeps(d);
    }
  }

  /** What `toString` prints, `parseInt` reads back: the stored selected index survives a reload. */
  lemma ParseIntRoundTrip(x: JsNumber)
    ensures ParseInt(NumberToString(x)) == x
  {
    match x
    case NaN =>
      var s := "NaN";
      assert TrimStart(s) == s;
      assert LongestPrefix(s, IsDigit) == [];
    case Int(n) =>
      var m: nat := if n < 0 then -n else n;
      DecimalRoundTrip(m);
      ParseNumeral(NatToDecimal(m), n < 0);
  }

  // ---------------------------------------------------------------- string length

  /**
   * `String.prototype.length`: the number of UTF-16 code units. A character
   * outside the Basic Multilingual Plane is a surrogate pair and counts twice.
   */
  function Utf16Length(s: string): nat
  {
    if s == [] then 0 else Utf16Length(s[..|s| - 1]) + (if s[|s| - 1] as int >= 0x10000 then 2 else 1)
  }

  /** A string is at least as long in code units as in characters, and at most twice as long. */
  lemma {:induction false} Utf16LengthBounds(s: string)
    ensures |s| <= Utf16Length(s) <= 2 * |s|
  {
    if s != [] {
      Utf16LengthBounds(s[..|s| - 1]);
    }
  }

  /** On text from the Basic Multilingual Plane the two lengths agree. */
  lemma {:induction false} Utf16LengthOfBmp(s: string)
    requires forall i :: 0 <= i < |s| ==> s[i] as int < 0x10000
    ensures Utf16Length(s) == |s|
  {
    if s != [] {
      Utf16LengthOfBmp(s[..|s| - 1]);
    }
  }

  // ---------------------------------------------------------------- hexadecimal output

  predicate IsLowerHex(c: char) { IsDigit(c) || 'a' <= c <= 'f' }

  /** `d.toString(16)` for one digit `d` in [0, 16). */
  function HexChar(d: int): (c: char)
    requires 0 <= d < 16
    ensures IsLowerHex(c) && HexDigitValue(c) == d
  {
    if d < 10 then DigitChar(d) else ('a' as int + (d - 10)) as char
  }
}
