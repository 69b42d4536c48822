/**
 * The byte/Base64 conversions the vault codec performs on its salt, IV and
 * ciphertext: `btoa(String.fromCharCode(...bytes))` on the way out and
 * `Uint8Array.from(atob(text), c => c.charCodeAt(0))` on the way back.
 * Encoding is the padded alphabet of section 4 of RFC 4648; decoding follows
 * the "forgiving-base64 decode" steps that `atob` uses (ASCII whitespace is
 * ignored, the padding may be left out, stray bits in the last character are
 * dropped).
 */
module Base64 {
  import opened Wrappers

  type Byte = x: int | 0 <= x < 256
  type Bytes = seq<Byte>

  /** One Base64 digit: six bits. */
  type Sextet = x: int | 0 <= x < 64

  predicate InAlphabet(c: char) {
    'A' <= c <= 'Z' || 'a' <= c <= 'z' || '0' <= c <= '9' || c == '+' || c == '/'
  }

  function SextetOf(c: char): Sextet
    requires InAlphabet(c)
  {
    if 'A' <= c <= 'Z' then c as int - 'A' as int
    else if 'a' <= c <= 'z' then c as int - 'a' as int + 26
    else if '0' <= c <= '9' then c as int - '0' as int + 52
    else if c == '+' then 62
    else 63
  }

  /** The character for a six-bit value, and its inverse. */
  function CharOf(x: Sextet): (c: char)
    ensures InAlphabet(c) && SextetOf(c) == x
  {
    if x < 26 then ('A' as int + x) as char
    else if x < 52 then ('a' as int + (x - 26)) as char
    else if x < 62 then ('0' as int + (x - 52)) as char
    else if x == 62 then '+'
    else '/'
  }

  // ---------------------------------------------------------------- encoding

  /** Three bytes as four sextets, most significant bits first. */
  function Group(p: Byte, q: Byte, r: Byte): seq<Sextet>
  {
    [p / 4, (p % 4) * 16 + q / 16, (q % 16) * 4 + r / 64, r % 64]
  }

  /** Each full group of three bytes becomes four sextets; a final one or two bytes become two or three. */
  function ToSextets(b: Bytes): seq<Sextet>
    decreases |b|
  {
    if |b| == 0 then []
    else if |b| == 1 then [b[0] / 4, (b[0] % 4) * 16]
    else if |b| == 2 then [b[0] / 4, (b[0] % 4) * 16 + b[1] / 16, (b[1] % 16) * 4]
    else Group(b[0], b[1], b[2]) + ToSextets(b[3..])
  }

  /** Four sextets per full group, and two or three for a final partial group. */
  lemma {:induction false} SextetCount(b: Bytes)
    ensures |ToSextets(b)| == 4 * (|b| / 3) + (if |b| % 3 == 0 then 0 else |b| % 3 + 1)
    decreases |b|
  {
    if |b| >= 3 {
      SextetCount(b[3..]);
    }
  }

  function Chars(x: seq<Sextet>): (s: string)
    ensures |s| == |x|
    ensures forall i :: 0 <= i < |x| ==> s[i] == CharOf(x[i])
  {
    seq(|x|, i requires 0 <= i < |x| => CharOf(x[i]))
  }

  function Padding(n: nat): string
  {
    if n % 3 == 1 then "==" else if n % 3 == 2 then "=" else ""
  }

  /** `btoa` of the bytes. */
  function Encode(b: Bytes): string
  {
    Chars(ToSextets(b)) + Padding(|b|)
  }

  /** The output of `btoa` is four characters for every started group of three bytes. */
  lemma EncodeLength(b: Bytes)
    ensures |Encode(b)| == 4 * ((|b| + 2) / 3)
  {
    SextetCount(b);
  }

  /** Every character `btoa` outputs is from the alphabet or is `=`. */
  lemma EncodeAlphabet(b: Bytes)
    ensures forall i :: 0 <= i < |Encode(b)| ==> InAlphabet(Encode(b)[i]) || Encode(b)[i] == '='
  {
  }

  // ---------------------------------------------------------------- decoding

  predicate IsAsciiWhitespace(c: char) {
    c == '\t' || c == '\n' || c == '\U{000C}' || c == '\r' || c == ' '
  }

  function RemoveWhitespace(s: string): string
  {
    if s == [] then []
    else if IsAsciiWhitespace(s[0]) then RemoveWhitespace(s[1..])
    else [s[0]] + RemoveWhitespace(s[1..])
  }

  /** When the length is a multiple of four, one or two trailing `=` are dropped. */
  function StripPadding(s: string): string
  {
    if |s| % 4 == 0 && |s| >= 2 && s[|s| - 2] == '=' && s[|s| - 1] == '=' then s[..|s| - 2]
    else if |s| % 4 == 0 && |s| >= 1 && s[|s| - 1] == '=' then s[..|s| - 1]
    else s
  }

  function Sextets(s: string): (r: Option<seq<Sextet>>)
    ensures r.Some? ==> |r.value| == |s|
  {
    if s == [] then Some([])
    else if !InAlphabet(s[0]) then None
    else match Sextets(s[1..])
         case None => None
         case Some(rest) => Some([SextetOf(s[0])] + rest)
  }

  /** Four sextets give three bytes; a final two or three give one or two, and their leftover bits are dropped. */
  function FromSextets(x: seq<Sextet>): Bytes
    requires |x| % 4 != 1
    decreases |x|
  {
    if |x| == 0 then []
    else
      var b0: Byte := (x[0] as int) * 4 + x[1] / 16;
      if |x| == 2 then [b0]
      else
        var b1: Byte := (x[1] as int % 16) * 16 + x[2] / 4;
        if |x| == 3 then [b0, b1]
        else
          var b2: Byte := (x[2] as int % 4) * 64 + x[3];
          [b0, b1, b2] + FromSextets(x[4..])
  }

  /**
   * `atob`, then each character's code as a byte. None is the
   * InvalidCharacterError `atob` throws: a length that leaves remainder 1
   * once whitespace and padding are gone, or a character outside the alphabet.
   */
  function Decode(s: string): Option<Bytes>
  {
    var d := StripPadding(RemoveWhitespace(s));
    if |d| % 4 == 1 then None
    else match Sextets(d)
         case None => None
         case Some(x) => Some(FromSextets(x))
  }

  /** Whitespace removal leaves no whitespace. */
  lemma {:induction false} RemoveWhitespaceRemoves(s: string)
    ensures forall i :: 0 <= i < |RemoveWhitespace(s)| ==> !IsAsciiWhitespace(RemoveWhitespace(s)[i])
  {
    if s != [] {
      RemoveWhitespaceRemoves(s[1..]);
    }
  }

  /** A text converts to sextets exactly when every character is in the alphabet, each to its own value. */
  lemma {:induction false} SextetsSpec(s: string)
    ensures Sextets(s).Some? <==> forall i :: 0 <= i < |s| ==> InAlphabet(s[i])
    ensures Sextets(s).Some? ==> forall i :: 0 <= i < |s| ==> Sextets(s).value[i] == SextetOf(s[i])
  {
    if s != [] {
      SextetsSpec(s[1..]);
      assert forall i :: 1 <= i < |s| ==> s[1..][i - 1] == s[i];
    }
  }

  // ---------------------------------------------------------------- round trip

  /** Splitting three bytes into four sextets and joining them again gives the bytes back. */
  lemma JoinSplitGroup(p: Byte, q: Byte, r: Byte)
    ensures (p / 4) * 4 + ((p % 4) * 16 + q / 16) / 16 == p
    ensures (((p % 4) * 16 + q / 16) % 16) * 16 + ((q % 16) * 4 + r / 64) / 4 == q
    ensures (((q % 16) * 4 + r / 64) % 4) * 64 + r % 64 == r
  {
  }

  /** Joining the four sextets of a group gives its three bytes. */
  lemma GroupRoundTrip(p: Byte, q: Byte, r: Byte)
    ensures FromSextets(Group(p, q, r)) == [p, q, r]
  {
    JoinSplitGroup(p, q, r);
    assert Group(p, q, r)[4..] == [];
  }

  /** A full group in front is joined on its own. */
  lemma FromSextetsAppend(g: seq<Sextet>, rest: seq<Sextet>)
    requires |g| == 4 && |rest| % 4 != 1
    ensures FromSextets(g + rest) == FromSextets(g) + FromSextets(rest)
  {
    assert (g + rest)[4..] == rest;
    assert g[4..] == [];
  }

  lemma {:induction false} FromToSextets(b: Bytes)
    ensures |ToSextets(b)| % 4 != 1
    ensures FromSextets(ToSextets(b)) == b
    decreases |b|
  {
    if |b| >= 3 {
      var g := Group(b[0], b[1], b[2]);
      var rest := ToSextets(b[3..]);
      FromToSextets(b[3..]);
      FromSextetsAppend(g, rest);
      GroupRoundTrip(b[0], b[1], b[2]);
      assert b == [b[0], b[1], b[2]] + b[3..];
    } else if |b| >= 1 {
      JoinSplitGroup(b[0], if |b| == 2 then b[1] else 0, 0);
    }
  }

  lemma {:induction false} SextetsOfChars(x: seq<Sextet>)
    ensures Sextets(Chars(x)) == Some(x)
  {
    if x != [] {
      var s := Chars(x);
      SextetsOfChars(x[1..]);
      assert s[1..] == Chars(x[1..]);
      assert InAlphabet(s[0]) && SextetOf(s[0]) == x[0];
      assert x == [x[0]] + x[1..];
    }
  }

  lemma {:induction false} RemoveWhitespaceKeeps(s: string)
    requires forall i :: 0 <= i < |s| ==> !IsAsciiWhitespace(s[i])
    ensures RemoveWhitespace(s) == s
  {
    if s != [] {
      RemoveWhitespaceKeeps(s[1..]);
    }
  }

  lemma StripPaddingOf(body: string, pad: string)
    requires pad == "" || pad == "=" || pad == "=="
    requires |body + pad| % 4 == 0 && |body| >= |pad|
    requires forall i :: 0 <= i < |body| ==> body[i] != '='
    ensures StripPadding(body + pad) == body
  {
    var s := body + pad;
    if pad == "==" {
      assert s[..|s| - 2] == body;
    } else if pad == "=" {
      assert s[|s| - 2] == body[|body| - 1];
      assert s[..|s| - 1] == body;
    } else {
      assert s == body;
    }
  }

  /** With `m` sextets for `n` bytes, the padding fills the last group of four and is never longer than the sextets. */
  lemma PaddedLength(n: nat, m: nat)
    requires m == 4 * (n / 3) + (if n % 3 == 0 then 0 else n % 3 + 1)
    ensures (m + |Padding(n)|) % 4 == 0 && m >= |Padding(n)|
  {
    var q, r := n / 3, n % 3;
    assert m + |Padding(n)| == 4 * q + (if r == 0 then 0 else 4);
  }

  /** No Base64 digit is the padding character. */
  lemma CharsHaveNoPadding(x: seq<Sextet>)
    ensures forall i :: 0 <= i < |Chars(x)| ==> Chars(x)[i] != '='
  {
    forall i | 0 <= i < |Chars(x)|
      ensures Chars(x)[i] != '='
    {
      assert InAlphabet(Chars(x)[i]);
    }
  }

  lemma StripPaddingOfEncode(b: Bytes)
    ensures StripPadding(Encode(b)) == Chars(ToSextets(b))
  {
    var x := ToSextets(b);
    SextetCount(b);
    PaddedLength(|b|, |x|);
    CharsHaveNoPadding(x);
    StripPaddingOf(Chars(x), Padding(|b|));
  }

  /** Section 4 of RFC 4648: decoding what was encoded gives back the bytes. */
  lemma DecodeEncode(b: Bytes)
    ensures Decode(Encode(b)) == Some(b)
  {
    var s := Encode(b);
    var x := ToSextets(b);
    EncodeAlphabet(b);
    StripPaddingOfEncode(b);
    FromToSextets(b);
    DecodeOfClean(s, x);
  }

  /** Text with no whitespace that is, once its padding is stripped, the characters of some sextets decodes to their bytes. */
  lemma DecodeOfClean(s: string, x: seq<Sextet>)
    requires forall i :: 0 <= i < |s| ==> InAlphabet(s[i]) || s[i] == '='
    requires StripPadding(s) == Chars(x) && |x| % 4 != 1
    ensures Decode(s) == Some(FromSextets(x))
  {
    RemoveWhitespaceKeeps(s);
    SextetsOfChars(x);
  }

  /** Decoding fails outright on a stripped length that leaves remainder 1, and on any character outside the alphabet. */
  lemma DecodeRejects(s: string)
    ensures var d := StripPadding(RemoveWhitespace(s));
            (|d| % 4 == 1 || exists i :: 0 <= i < |d| && !InAlphabet(d[i])) ==> Decode(s) == None
  {
    SextetsSpec(StripPadding(RemoveWhitespace(s)));
  }
}
