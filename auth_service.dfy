/**
 * The demonstration second-factor service of services/authService.ts: an
 * in-memory store holding the last e-mailed one-time code, its verifier with
 * a universal test code, a TOTP check that accepts only that test code, and
 * a fixed TOTP secret with its enrolment URI.
 */
module AuthService {
  import opened Wrappers
  import JsText

  /** The code `verifyEmailOTP` accepts for every address and every store. */
  const EMAIL_TEST_CODE := "123456"

  /** The only token `verifyTOTP` accepts. */
  const TOTP_TEST_CODE := "123456"

  const TOTP_SECRET := "JBSWY3DPEHPK3PXP"
  const TOTP_LABEL := "SuperWallet"
  const TOTP_ISSUER := "Fluid"
  const QR_SERVICE := "https://api.qrserver.com/v1/create-qr-code/?size=150x150&data="

  /** `Math.floor(Math.random() * 900000)`: the random part of an e-mailed code. */
  type CodeDraw = x: int | 0 <= x < 900000

  /** The contents of `demoStore`; `None` is the `null` it starts with. */
  datatype OtpState = OtpState(emailCode: Option<string>, email: Option<string>)

  const EMPTY_STORE := OtpState(None, None)

  /** The code `sendEmailOTP` issues: the decimal numeral of 100000 plus the draw, six digits with no leading zero. */
  function IssuedCode(draw: CodeDraw): (code: string)
    ensures |code| == 6 && JsText.AllDigits(code) && code[0] != '0'
    ensures JsText.DecimalValue(code) == 100000 + draw
  {
    var n := 100000 + draw;
    assert JsText.Pow10(5) == 100000 && JsText.Pow10(6) == 1000000 by {
      assert JsText.Pow10(2) == 100;
      assert JsText.Pow10(4) == 10000;
    }
    JsText.DecimalLength(n, 6);
    JsText.DecimalRoundTrip(n);
    JsText.NatToDecimal(n)
  }

  /** The store after `sendEmailOTP(email)`: whatever it held before is replaced. */
  function Issue(email: string, draw: CodeDraw): (s: OtpState)
    ensures s.email == Some(email) && s.emailCode == Some(IssuedCode(draw))
  {
    OtpState(Some(IssuedCode(draw)), Some(email))
  }

  /** `verifyEmailOTP(email, code)` against a store. */
  predicate Verifies(s: OtpState, email: string, code: string)
  {
    code == EMAIL_TEST_CODE || (s.email == Some(email) && s.emailCode == Some(code))
  }

  /** Before any code was issued, only the test code verifies. */
  lemma OnlyTestCodeBeforeIssue(email: string, code: string)
    ensures Verifies(EMPTY_STORE, email, code) <==> code == EMAIL_TEST_CODE
  {
  }

  /**
   * After a code is issued, a code verifies for an address exactly when it is
   * the test code, or it is the code just issued and the address it went to;
   * every earlier code is forgotten.
   */
  lemma VerifiesAfterIssue(email: string, draw: CodeDraw, address: string, code: string)
    ensures Verifies(Issue(email, draw), address, code)
            <==> code == EMAIL_TEST_CODE || (address == email && code == IssuedCode(draw))
  {
  }

  /** The store behind `sendEmailOTP` and `verifyEmailOTP`. */
  class DemoStore {
    var emailCode: Option<string>
    var email: Option<string>

    function State(): OtpState
      reads this
    {
      OtpState(emailCode, email)
    }

    constructor ()
      ensures State() == EMPTY_STORE
    {
      emailCode := None;
      email := None;
    }

    /**
     * `sendEmailOTP(address)` with its random draw passed in: overwrites the
     * store with the new code and the address, and reports success. The
     * delivery (a console line and an alert) is not modelled.
     */
    method SendEmailOTP(address: string, draw: CodeDraw) returns (sent: bool)
      modifies this
      ensures sent
      ensures State() == Issue(address, draw)
    {
      emailCode := Some(IssuedCode(draw));
      email := Some(address);
      sent := true;
    }

    /** `verifyEmailOTP(address, code)`: reads the store and leaves it as it was. */
    method VerifyEmailOTP(address: string, code: string) returns (valid: bool)
      ensures valid <==> code == EMAIL_TEST_CODE || (email == Some(address) && emailCode == Some(code))
    {
      valid := code == EMAIL_TEST_CODE;
      if !valid {
        valid := email == Some(address) && emailCode == Some(code);
      }
    }
  }

  /** `verifyTOTP(token)`: no time step or secret is involved; the token is compared with the test code. */
  predicate VerifyTOTP(token: string)
  {
    token == TOTP_TEST_CODE
  }

  /** Every token the authenticator check accepts is accepted by the e-mail check too, for any store and address. */
  lemma TotpAcceptedByEmailCheck(token: string, s: OtpState, email: string)
    requires VerifyTOTP(token)
    ensures Verifies(s, email, token)
  {
  }

  // ---------------------------------------------------------------- TOTP enrolment

  /** The alphabet of section 6 of RFC 4648 (Base32). */
  predicate IsBase32Char(c: char) { 'A' <= c <= 'Z' || '2' <= c <= '7' }

  function OtpauthUri(account: string, secret: string, issuer: string): string
  {
    "otpauth://totp/" + account + "?secret=" + secret + "&issuer=" + issuer
  }

  datatype TotpEnrolment = TotpEnrolment(secret: string, qrCode: string)

  /**
   * `generateTOTPSecret()`: always the same Base32 secret, whose sixteen
   * characters encode ten bytes without padding, and a QR-code service URL
   * whose text ends with the otpauth URI for it.
   */
  function GenerateTOTPSecret(): (e: TotpEnrolment)
    ensures e.secret == TOTP_SECRET
    ensures |e.secret| == 16 && forall i :: 0 <= i < |e.secret| ==> IsBase32Char(e.secret[i])
    ensures e.qrCode == QR_SERVICE + OtpauthUri(TOTP_LABEL, e.secret, TOTP_ISSUER)
  {
    TotpEnrolment(TOTP_SECRET, QR_SERVICE + OtpauthUri(TOTP_LABEL, TOTP_SECRET, TOTP_ISSUER))
  }

  // ---------------------------------------------------------------- reading the QR code URL

  /** The characters `encodeURIComponent` leaves as they are. */
  predicate IsUnreserved(c: char) {
    || 'A' <= c <= 'Z' || 'a' <= c <= 'z' || '0' <= c <= '9'
    || c == '-' || c == '_' || c == '.' || c == '!' || c == '~' || c == '*' || c == '\'' || c == '(' || c == ')'
  }

  predicate AllAscii(s: string) {
    forall i :: 0 <= i < |s| ==> s[i] as int < 128
  }

  lemma AllAsciiConcat(a: string, b: string)
    requires AllAscii(a) && AllAscii(b)
    ensures AllAscii(a + b)
  {
    assert forall i :: |a| <= i < |a + b| ==> (a + b)[i] == b[i - |a|];
  }

  /** An upper-case hexadecimal digit, as percent-encoding writes it. */
  function UpperHexChar(d: int): (c: char)
    requires 0 <= d < 16
    ensures JsText.IsHexDigit(c) && JsText.HexDigitValue(c) == d && c != '&'
  {
    if d < 10 then JsText.DigitChar(d) else ('A' as int + (d - 10)) as char
  }

  /** One ASCII character as `encodeURIComponent` writes it. */
  function EncodeChar(c: char): string
    requires c as int < 128
  {
    if IsUnreserved(c) then [c] else ['%', UpperHexChar(c as int / 16), UpperHexChar(c as int % 16)]
  }

  /** `encodeURIComponent` of ASCII text. */
  function PercentEncode(s: string): string
    requires AllAscii(s)
  {
    if s == [] then [] else EncodeChar(s[0]) + PercentEncode(s[1..])
  }

  /**
   * How a form field's value is read: `+` is a space, `%` and two
   * hexadecimal digits is the character of that code, anything else stands
   * for itself.
   */
  function PercentDecode(s: string): string
  {
    if s == [] then []
    else if |s| >= 3 && s[0] == '%' && JsText.IsHexDigit(s[1]) && JsText.IsHexDigit(s[2]) then
      [(16 * JsText.HexDigitValue(s[1]) + JsText.HexDigitValue(s[2])) as char] + PercentDecode(s[3..])
    else if s[0] == '+' then [' '] + PercentDecode(s[1..])
    else [s[0]] + PercentDecode(s[1..])
  }

  predicate NotAmpersand(c: char) { c != '&' }

  /**
   * The text the QR service draws for a URL addressed to it: the value of
   * its `data` field, which is the last field named before the value, so it
   * runs up to the next `&` that starts another field, percent-decoded.
   */
  function QrPayload(url: string): Option<string>
  {
    if QR_SERVICE <= url then Some(PercentDecode(JsText.LongestPrefix(url[|QR_SERVICE|..], NotAmpersand))) else None
  }

  /** Text in which no character is read specially: no `&`, `%` or `+`. */
  predicate Plain(s: string) {
    forall i :: 0 <= i < |s| ==> NotAmpersand(s[i]) && s[i] != '%' && s[i] != '+'
  }

  lemma PlainConcat(a: string, b: string)
    requires Plain(a) && Plain(b)
    ensures Plain(a + b)
  {
    assert forall i :: |a| <= i < |a + b| ==> (a + b)[i] == b[i - |a|];
  }

  /** Plain text reads as itself. */
  lemma {:induction false} PercentDecodePlain(s: string)
    requires Plain(s)
    ensures PercentDecode(s) == s
  {
    if s != [] {
      assert Plain(s[1..]) by {
        assert forall i :: 0 <= i < |s[1..]| ==> s[1..][i] == s[i + 1];
      }
      PercentDecodePlain(s[1..]);
    }
  }

  /** Encoded text contains no `&`, so it stays inside one field. */
  lemma {:induction false} PercentEncodeHasNoAmpersand(s: string)
    requires AllAscii(s)
    ensures forall i :: 0 <= i < |PercentEncode(s)| ==> NotAmpersand(PercentEncode(s)[i])
  {
    if s != [] {
      PercentEncodeHasNoAmpersand(s[1..]);
      var e := EncodeChar(s[0]);
      assert forall i :: 0 <= i < |e| ==> e[i] != '&';
    }
  }

  /** Reading what was encoded gives back the text. */
  lemma {:induction false} PercentDecodeOfEncode(s: string)
    requires AllAscii(s)
    ensures PercentDecode(PercentEncode(s)) == s
  {
    if s != [] {
      var c, rest := s[0], PercentEncode(s[1..]);
      PercentDecodeOfEncode(s[1..]);
      var t := EncodeChar(c) + rest;
      if IsUnreserved(c) {
        assert t[0] == c && t[1..] == rest;
      } else {
        var hi, lo := c as int / 16, c as int % 16;
        assert t[..3] == ['%', UpperHexChar(hi), UpperHexChar(lo)] && t[3..] == rest;
        assert 16 * hi + lo == c as int;
      }
      assert s == [c] + s[1..];
    }
  }

  /** A URL built from the service address and the encoded text yields exactly that text. */
  lemma EncodedPayload(s: string)
    requires AllAscii(s)
    ensures QrPayload(QR_SERVICE + PercentEncode(s)) == Some(s)
  {
    var e := PercentEncode(s);
    assert (QR_SERVICE + e)[|QR_SERVICE|..] == e;
    PercentEncodeHasNoAmpersand(s);
    JsText.LongestPrefixOfAll(e, NotAmpersand);
    PercentDecodeOfEncode(s);
  }

  /**
   * As written, the otpauth URI is pasted into the URL unencoded, so its
   * `&issuer=Fluid` becomes a field of the QR service's own query: the QR
   * code holds the URI without its issuer.
   */
  lemma QrCodeDropsIssuer()
    ensures QrPayload(GenerateTOTPSecret().qrCode) == Some("otpauth://totp/" + TOTP_LABEL + "?secret=" + TOTP_SECRET)
    ensures QrPayload(GenerateTOTPSecret().qrCode) != Some(OtpauthUri(TOTP_LABEL, TOTP_SECRET, TOTP_ISSUER))
  {
    var p1, p2, p3, p4 := "otpauth://totp/", TOTP_LABEL, "?secret=", TOTP_SECRET;
    var x := p1 + p2 + p3 + p4;
    var y := "&issuer=" + TOTP_ISSUER;
    var url := GenerateTOTPSecret().qrCode;
    assert OtpauthUri(TOTP_LABEL, TOTP_SECRET, TOTP_ISSUER) == x + y;
    assert url[|QR_SERVICE|..] == x + y;
    assert Plain(p1) && Plain(p2) && Plain(p3) && Plain(p4);
    PlainConcat(p1, p2);
    PlainConcat(p1 + p2, p3);
    PlainConcat(p1 + p2 + p3, p4);
    JsText.LongestPrefixStops(x, y, NotAmpersand);
    PercentDecodePlain(x);
    assert |x + y| > |x|;
  }

  /** `generateTOTPSecret` with the otpauth URI passed through `encodeURIComponent`: the QR code holds the whole URI. */
  function GenerateTOTPSecretEncoded(): (e: TotpEnrolment)
    ensures e.secret == TOTP_SECRET
    ensures QrPayload(e.qrCode) == Some(OtpauthUri(TOTP_LABEL, TOTP_SECRET, TOTP_ISSUER))
  {
    var p1, p2, p3, p4 := "otpauth://totp/" + TOTP_LABEL, "?secret=" + TOTP_SECRET, "&issuer=", TOTP_ISSUER;
    assert AllAscii(p1) && AllAscii(p2) && AllAscii(p3) && AllAscii(p4);
    AllAsciiConcat(p1, p2);
    AllAsciiConcat(p1 + p2, p3);
    AllAsciiConcat(p1 + p2 + p3, p4);
    var uri := OtpauthUri(TOTP_LABEL, TOTP_SECRET, TOTP_ISSUER);
    assert uri == p1 + p2 + p3 + p4;
    EncodedPayload(uri);
    TotpEnrolment(TOTP_SECRET, QR_SERVICE + PercentEncode(uri))
  }
}
