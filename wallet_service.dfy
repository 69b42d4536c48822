/**
 * services/walletService.ts: the simulated transaction record a send
 * produces, and the WalletConnect pairing check. The random hash digits, the
 * clock and the locale-formatted dates are parameters.
 */
module WalletService {
  import opened Wrappers
  import JsText

  const WC_PREFIX := "wc:"
  const INVALID_URI := "Invalid WalletConnect URI"
  const SESSION_ID_PREFIX := "wc_"
  const SPONSORED_GAS := "0.00 (Sponsored)"
  const PAID_GAS := "0.00042 ETH"
  const SESSION_NAME := "WalletConnect App"
  const SESSION_URL := "https://walletconnect.com"
  const SESSION_ICON := "https://raw.githubusercontent.com/WalletConnect/walletconnect-assets/master/Logo/Blue%20(Default)/Logo.png"

  /** `Math.floor(Math.random() * 16)`: one random hexadecimal digit. */
  type Nibble = x: int | 0 <= x < 16

  datatype TxType = Send | Receive | Approve | ContractCall | Stake | Swap
  datatype TxStatus = Pending | Completed | Failed

  /** The `Transaction` record of types.ts; `None` is an absent optional field. */
  datatype Transaction = Transaction(
    id: string, txType: TxType, amount: Option<string>, symbol: Option<string>, to: Option<string>,
    from: Option<string>, date: string, status: TxStatus, hash: string, gasUsed: Option<string>,
    gasPriceGwei: Option<real>, isGasless: Option<bool>)

  datatype SessionStatus = Active | Expired

  /** The `WCSession` record of types.ts. */
  datatype WCSession = WCSession(id: string, name: string, url: string, icon: string, connectedAt: string, status: SessionStatus)

  /** A transaction hash: `0x` and exactly 64 lower-case hexadecimal digits. */
  predicate IsTxHash(h: string) {
    |h| == 66 && h[..2] == "0x" && forall i :: 2 <= i < 66 ==> JsText.IsLowerHex(h[i])
  }

  /** The hash of 64 random digits, each written with `toString(16)`; the digits can be read back from it. */
  function TxHash(nibbles: seq<Nibble>): (h: string)
    requires |nibbles| == 64
    ensures IsTxHash(h)
    ensures forall i :: 0 <= i < 64 ==> JsText.HexDigitValue(h[2 + i]) == nibbles[i]
  {
    var digits := seq(64, i requires 0 <= i < 64 => JsText.HexChar(nibbles[i]));
    assert ("0x" + digits)[..2] == "0x";
    "0x" + digits
  }

  /** Different digit draws give different hashes. */
  lemma TxHashInjective(a: seq<Nibble>, b: seq<Nibble>)
    requires |a| == 64 && |b| == 64 && TxHash(a) == TxHash(b)
    ensures a == b
  {
    forall i | 0 <= i < 64
      ensures a[i] == b[i]
    {
      assert JsText.HexDigitValue(TxHash(a)[2 + i]) == a[i];
    }
  }

  /**
   * `sendTransaction(amount, symbol, to, isSmart)` with its random digits and
   * date passed in: a completed send whose id is its hash, carrying the
   * amount, symbol and recipient unchanged, gasless exactly when the account
   * is a smart account.
   */
  function SendTransaction(amount: string, symbol: string, to: string, isSmart: bool,
                           nibbles: seq<Nibble>, date: string): (t: Transaction)
    requires |nibbles| == 64
    ensures IsTxHash(t.hash) && t.hash == TxHash(nibbles) && t.id == t.hash
    ensures t.txType == Send && t.status == Completed && t.date == date
    ensures t.amount == Some(amount) && t.symbol == Some(symbol) && t.to == Some(to) && t.from.None?
    ensures t.isGasless == Some(isSmart)
    ensures t.gasUsed.Some? && (t.gasUsed == Some(SPONSORED_GAS) <==> isSmart)
    ensures !isSmart ==> t.gasUsed == Some(PAID_GAS)
  {
    var txHash := TxHash(nibbles);
    Transaction(txHash, Send, Some(amount), Some(symbol), Some(to), None, date, Completed, txHash,
                Some(if isSmart then SPONSORED_GAS else PAID_GAS), None, Some(isSmart))
  }

  /**
   * `createSession(uri)` with `Date.now()` and the date text passed in: a URI
   * not starting with `wc:` is rejected; an accepted one gives an active
   * session whose id is `wc_` followed by the clock reading, which reads back.
   */
  function CreateSession(uri: string, now: nat, date: string): (r: Result<WCSession, string>)
    ensures r.Failure? <==> !(WC_PREFIX <= uri)
    ensures r.Failure? ==> r.error == INVALID_URI
    ensures r.Success? ==>
              && r.value.status == Active && r.value.connectedAt == date
              && SESSION_ID_PREFIX <= r.value.id
              && JsText.ParseInt(r.value.id[|SESSION_ID_PREFIX|..]) == JsText.Int(now)
  {
    if !(WC_PREFIX <= uri) then Failure(INVALID_URI)
    else
      var id := SESSION_ID_PREFIX + JsText.NumberToString(JsText.Int(now));
      assert id[|SESSION_ID_PREFIX|..] == JsText.NumberToString(JsText.Int(now));
      JsText.ParseIntRoundTrip(JsText.Int(now));
      Success(WCSession(id, SESSION_NAME, SESSION_URL, SESSION_ICON, date, Active))
  }
}
