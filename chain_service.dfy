/**
 * services/chainService.ts: how wallets are built (random, from a social
 * login, or imported from a phrase or key), the retry schedule around RPC
 * calls, and the balance lookup for a list of assets.
 *
 * ethers (phrase and key checking, address derivation, keccak256, unit
 * formatting) and the JSON-RPC provider are function values the model does
 * not look inside; randomness and network answers are parameters.
 */
module ChainService {
  import opened Wrappers
  import JsText

  const IMPORT_ERROR := "Invalid Mnemonic or Private Key"
  const SOCIAL_SALT := "SUPERWALLET_SALT_"
  const DEFAULT_RETRIES := 2
  const DEFAULT_DELAY := 1000
  const ETHER_DECIMALS := 18
  const DEFAULT_TOKEN_DECIMALS := 18
  /** What a lookup that failed after every retry reports. */
  const SOFT_FAILURE_BALANCE := "0.0"
  /** What an asset with neither the ETH symbol nor a contract address reports. */
  const NO_SOURCE_BALANCE := "0"

  /** The wallet record the service returns; `None` is a `null` or `undefined` mnemonic. */
  datatype WalletData = WalletData(address: string, mnemonic: Option<string>, privateKey: string)

  /** An ethers `Wallet`: its address, its private key and `mnemonic?.phrase`. */
  datatype EthersWallet = EthersWallet(address: string, privateKey: string, phrase: Option<string>)

  /** A private key as ethers prints it: `0x` and 64 lower-case hexadecimal digits. */
  predicate IsKeyHex(k: string) {
    |k| == 66 && k[..2] == "0x" && forall i :: 2 <= i < 66 ==> JsText.IsLowerHex(k[i])
  }

  /** The order n of the secp256k1 group (section 2.4.1 of SEC 2). */
  const SECP256K1_ORDER := 0xFFFF_FFFF_FFFF_FFFF_FFFF_FFFF_FFFF_FFFE_BAAE_DCE6_AF48_A03B_BFD2_5E8C_D036_4141

  /** A key `new ethers.Wallet` accepts: well-formed, with a value from 1 to n - 1. */
  predicate IsSigningKey(k: string) {
    IsKeyHex(k) && 0 < JsText.HexValue(k[2..]) < SECP256K1_ORDER
  }

  /**
   * `fromPhrase` is `ethers.Wallet.fromPhrase` and `fromKey` is `new
   * ethers.Wallet(key)`, `None` where they throw; `keccak256Utf8(s)` is
   * `ethers.keccak256(ethers.toUtf8Bytes(s))`.
   */
  datatype Ethers = Ethers(
    fromPhrase: string -> Option<EthersWallet>,
    fromKey: string -> Option<EthersWallet>,
    keccak256Utf8: string -> string)
  {
    /**
     * A keccak digest is a well-formed key; a signing key gives a wallet
     * holding exactly that key, and a well-formed key of value 0 or at least
     * n is refused.
     */
    ghost predicate Lawful() {
      && (forall s :: IsKeyHex(keccak256Utf8(s)))
      && (forall k :: IsSigningKey(k) ==> fromKey(k).Some? && fromKey(k).value.privateKey == k)
      && (forall k :: IsKeyHex(k) && !IsSigningKey(k) ==> fromKey(k).None?)
    }
  }

  /** `createWallet()`, with the wallet `ethers.Wallet.createRandom()` drew passed in. */
  function CreateWallet(random: EthersWallet): (w: WalletData)
    ensures w.address == random.address && w.privateKey == random.privateKey && w.mnemonic == random.phrase
  {
    WalletData(random.address, random.phrase, random.privateKey)
  }

  /**
   * `createWalletFromSocial(userId)`: the private key is the keccak256 digest
   * of the salted user id, so the same user always gets the same wallet; it
   * never has a mnemonic. `None` is the throw of `new ethers.Wallet`, which
   * a lawful ethers takes exactly when the digest is not a signing key.
   */
  function CreateWalletFromSocial(e: Ethers, userId: string): (r: Option<WalletData>)
    ensures r.Some? ==> r.value.mnemonic.None?
    ensures e.Lawful() ==> (r.Some? <==> IsSigningKey(e.keccak256Utf8(SOCIAL_SALT + userId)))
    ensures e.Lawful() && r.Some? ==> r.value.privateKey == e.keccak256Utf8(SOCIAL_SALT + userId)
  {
    var hash := e.keccak256Utf8(SOCIAL_SALT + userId);
    match e.fromKey(hash)
    case None => None
    case Some(w) => Some(WalletData(w.address, None, w.privateKey))
  }

  /**
   * `importWallet(input)`: an input containing a space is read as a phrase,
   * anything else as a private key; a key import never carries a mnemonic,
   * and every failure is reported as the one import error.
   */
  function ImportWallet(e: Ethers, input: string): (r: Result<WalletData, string>)
    ensures r.Failure? ==> r.error == IMPORT_ERROR
    ensures ' ' in input ==>
              && (r.Success? <==> e.fromPhrase(input).Some?)
              && (r.Success? ==> var w := e.fromPhrase(input).value;
                                 r.value == WalletData(w.address, w.phrase, w.privateKey))
    ensures ' ' !in input ==>
              && (r.Success? <==> e.fromKey(input).Some?)
              && (r.Success? ==> var w := e.fromKey(input).value;
                                 r.value == WalletData(w.address, None, w.privateKey))
  {
    if ' ' in input then
      match e.fromPhrase(input)
      case None => Failure(IMPORT_ERROR)
      case Some(w) => Success(WalletData(w.address, w.phrase, w.privateKey))
    else
      match e.fromKey(input)
      case None => Failure(IMPORT_ERROR)
      case Some(w) => Success(WalletData(w.address, None, w.privateKey))
  }

  // ---------------------------------------------------------------- retries

  /** The calls after the first: the outcome of call `i` of the shifted sequence is that of call `i + 1`. */
  function Shift<T>(attempt: nat -> T): nat -> T
  {
    (i: nat) => attempt(i + 1)
  }

  /** How many times `retryCall` calls the function: until a call succeeds or the retries run out. */
  function Calls<T, E>(attempt: nat -> Result<T, E>, retries: nat): (n: nat)
    ensures 1 <= n <= retries + 1
    decreases retries
  {
    if attempt(0).Success? || retries == 0 then 1 else 1 + Calls(Shift(attempt), retries - 1)
  }

  /** What `retryCall` returns, or the error it rethrows. */
  function Outcome<T, E>(attempt: nat -> Result<T, E>, retries: nat): Result<T, E>
    decreases retries
  {
    if attempt(0).Success? || retries == 0 then attempt(0) else Outcome(Shift(attempt), retries - 1)
  }

  /**
   * `retryCall` returns the outcome of its last call; every call before the
   * last failed; it gives up, rethrowing the last error, only after
   * `retries + 1` calls; and it succeeds exactly when one of the first
   * `retries + 1` calls does.
   */
  lemma {:induction false} OutcomeIsFirstSuccess<T, E>(attempt: nat -> Result<T, E>, retries: nat)
    ensures Outcome(attempt, retries) == attempt(Calls(attempt, retries) - 1)
    ensures forall j :: 0 <= j < Calls(attempt, retries) - 1 ==> attempt(j).Failure?
    ensures Outcome(attempt, retries).Failure? ==> Calls(attempt, retries) == retries + 1
    ensures Outcome(attempt, retries).Success? <==> exists i :: 0 <= i <= retries && attempt(i).Success?
    decreases retries
  {
    if !(attempt(0).Success? || retries == 0) {
      var next := Shift(attempt);
      OutcomeIsFirstSuccess(next, retries - 1);
      assert forall j: nat :: next(j) == attempt(j + 1);
      forall j | 0 <= j < Calls(attempt, retries) - 1
        ensures attempt(j).Failure?
      {
        if j > 0 {
          assert next(j - 1) == attempt(j);
        }
      }
      if Outcome(attempt, retries).Success? {
        assert attempt(Calls(next, retries - 1)).Success?;
      } else {
        forall i | 0 <= i <= retries
          ensures attempt(i).Failure?
        {
          if i > 0 {
            assert next(i - 1) == attempt(i);
          }
        }
      }
    }
  }

  function Pow2(i: nat): (p: nat)
    ensures p >= 1
  {
    if i == 0 then 1 else 2 * Pow2(i - 1)
  }

  /**
   * `retryCall(fn, retries, delay)`. The outcome of each call of `fn` is
   * given by `attempt`; `waits` lists the pauses taken between calls:
   * `delay`, then twice as long, and so on, one fewer than the calls made.
   */
  method RetryCall<T, E>(attempt: nat -> Result<T, E>, retries: nat, delay: nat) returns (r: Result<T, E>, waits: seq<nat>)
    ensures r == Outcome(attempt, retries)
    ensures |waits| == Calls(attempt, retries) - 1
    ensures forall i :: 0 <= i < |waits| ==> waits[i] == delay * Pow2(i)
    decreases retries
  {
    r := attempt(0);
    waits := [];
    if r.Failure? && retries > 0 {
      var later;
      r, later := RetryCall(Shift(attempt), retries - 1, delay * 2);
      waits := [delay] + later;
      forall i | 0 < i < |waits|
        ensures waits[i] == delay * Pow2(i)
      {
        assert waits[i] == (delay * 2) * Pow2(i - 1);
      }
    }
  }

  // ---------------------------------------------------------------- balances

  /** An entry of the asset list, as types.ts declares it; the numbers are the JavaScript numbers shown in the UI. */
  datatype Asset = Asset(symbol: string, name: string, balance: real, valueUsd: real, change24h: real,
                         icon: string, contractAddress: Option<string>, decimals: Option<int>)

  /** `asset.contractAddress` is truthy: present and not empty. */
  predicate HasContract(a: Asset) {
    a.contractAddress.Some? && a.contractAddress.value != ""
  }

  /**
   * The provider's answers. `getBalance(k, owner, i)` and `balanceOf(k,
   * contract, owner, i)` are what attempt `i` of the balance lookup for entry
   * `k` of the list returns (a failure also stands for a contract address
   * ethers rejects); `formatUnits(v, d)` is `ethers.formatUnits`.
   */
  datatype Rpc = Rpc(
    getBalance: (nat, string, nat) -> Result<int, string>,
    balanceOf: (nat, string, string, nat) -> Result<int, string>,
    formatUnits: (int, int) -> string)

  function NativeAttempts(rpc: Rpc, k: nat, owner: string): nat -> Result<int, string>
  {
    (i: nat) => rpc.getBalance(k, owner, i)
  }

  function TokenAttempts(rpc: Rpc, k: nat, owner: string, contract: string): nat -> Result<int, string>
  {
    (i: nat) => rpc.balanceOf(k, contract, owner, i)
  }

  /** The text a lookup yields: the formatted amount of the first successful attempt, or the soft failure. */
  function Formatted(rpc: Rpc, answer: Result<int, string>, decimals: int): string
  {
    match answer
    case Success(v) => rpc.formatUnits(v, decimals)
    case Failure(_) => SOFT_FAILURE_BALANCE
  }

  /** The text that entry `k` of the list gets: ETH asks for the native balance, a token its contract, anything else gets "0". */
  function BalanceText(rpc: Rpc, k: nat, owner: string, a: Asset): (s: string)
    ensures a.symbol != "ETH" && !HasContract(a) ==> s == NO_SOURCE_BALANCE
  {
    if a.symbol == "ETH" then
      Formatted(rpc, Outcome(NativeAttempts(rpc, k, owner), DEFAULT_RETRIES), ETHER_DECIMALS)
    else if HasContract(a) then
      Formatted(rpc, Outcome(TokenAttempts(rpc, k, owner, a.contractAddress.value), DEFAULT_RETRIES),
                a.decimals.GetOr(DEFAULT_TOKEN_DECIMALS))
    else NO_SOURCE_BALANCE
  }

  /** `getNativeBalance(owner)` for entry `k`: the ETH balance, or "0.0" when every attempt failed. */
  method GetNativeBalance(rpc: Rpc, k: nat, owner: string) returns (s: string)
    ensures s == Formatted(rpc, Outcome(NativeAttempts(rpc, k, owner), DEFAULT_RETRIES), ETHER_DECIMALS)
  {
    var answer, _ := RetryCall(NativeAttempts(rpc, k, owner), DEFAULT_RETRIES, DEFAULT_DELAY);
    match answer
    case Success(v) => s := rpc.formatUnits(v, ETHER_DECIMALS);
    case Failure(_) => s := SOFT_FAILURE_BALANCE;
  }

  /** `getTokenBalance(owner, contract, decimals)` for entry `k`. */
  method GetTokenBalance(rpc: Rpc, k: nat, owner: string, contract: string, decimals: int) returns (s: string)
    ensures s == Formatted(rpc, Outcome(TokenAttempts(rpc, k, owner, contract), DEFAULT_RETRIES), decimals)
  {
    var answer, _ := RetryCall(TokenAttempts(rpc, k, owner, contract), DEFAULT_RETRIES, DEFAULT_DELAY);
    match answer
    case Success(v) => s := rpc.formatUnits(v, decimals);
    case Failure(_) => s := SOFT_FAILURE_BALANCE;
  }

  /**
   * `fetchBalances(owner, assets)`: the same entries in the same order, each
   * unchanged except for its balance, which is `parseFloat` of the text its
   * lookup yields.
   */
  method FetchBalances(rpc: Rpc, parseFloat: string -> real, owner: string, assets: seq<Asset>) returns (result: seq<Asset>)
    ensures |result| == |assets|
    ensures forall k :: 0 <= k < |assets| ==>
              result[k] == assets[k].(balance := parseFloat(BalanceText(rpc, k, owner, assets[k])))
  {
    result := [];
    var k := 0;
    while k < |assets|
      invariant 0 <= k <= |assets| && |result| == k
      invariant forall j :: 0 <= j < k ==>
                  result[j] == assets[j].(balance := parseFloat(BalanceText(rpc, j, owner, assets[j])))
    {
      var asset := assets[k];
      var balanceStr := NO_SOURCE_BALANCE;
      if asset.symbol == "ETH" {
        balanceStr := GetNativeBalance(rpc, k, owner);
      } else if HasContract(asset) {
        balanceStr := GetTokenBalance(rpc, k, owner, asset.contractAddress.value, asset.decimals.GetOr(DEFAULT_TOKEN_DECIMALS));
      }
      result := result + [asset.(balance := parseFloat(balanceStr))];
      k := k + 1;
    }
  }
}
