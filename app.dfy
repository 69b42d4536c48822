/**
 * App.tsx: the wallet's session state and the data it keeps on the device.
 *
 * The component holds whether the wallet is locked, whether a vault exists,
 * the password (kept in memory only while unlocked), the account list and the
 * selected index, and it reads and writes `localStorage`, modelled here as a
 * map from key to text. The effect that saves on every change of accounts,
 * selection or password is modelled as a synchronous write at the end of each
 * handler whose update would trigger it; the random salt and IV that write
 * draws are the handler's parameters.
 */
module App {
  import opened Wrappers
  import opened JsText
  import Json
  import Base64
  import CryptoService
  import ChainService

  const VAULT := "sw_vault"
  const SELECTED_INDEX := "sw_selected_index"
  const LEGACY_ACCOUNTS := "sw_accounts"
  const LEGACY_ADDRESS := "sw_address"
  const LEGACY_KEY := "sw_priv"

  const FIRST_ACCOUNT_NAME := "Account 1"

  type Storage = map<string, string>

  /** An entry of the account list; `None` is a `null` mnemonic. */
  datatype Account = Account(name: string, address: string, privateKey: string, mnemonic: Option<string>)

  /** `localStorage.getItem(key)` is truthy: the key is stored with a non-empty value. */
  predicate Present(st: Storage, key: string) {
    key in st && st[key] != ""
  }

  /** A JavaScript `string | null` used as a condition: a non-empty string. */
  predicate Truthy(s: Option<string>) {
    s.Some? && s.value != ""
  }

  /** What `handleUnlock` throws: "No Vault Found", the SyntaxError of `JSON.parse`, or the error of `decryptVault`. */
  datatype UnlockError = NoVaultFound | MalformedVault | VaultError(message: string)

  /** What the component renders. */
  datatype Screen = LockScreenView | OnboardingView | WalletView

  /** The state `checkStorage` leaves behind. */
  datatype Startup = Startup(hasVault: bool, isLocked: bool, storage: Storage)

  /**
   * `checkStorage`, the mount effect: with a vault stored the wallet is
   * locked behind it; otherwise it is unlocked for onboarding and, when
   * legacy accounts or a legacy address are stored, the three legacy keys are
   * removed. Nothing is ever added or rewritten.
   */
  function CheckStorage(st: Storage): (r: Startup)
    ensures r.hasVault == Present(st, VAULT) && r.isLocked == r.hasVault
    ensures r.storage.Keys <= st.Keys && forall k :: k in r.storage ==> r.storage[k] == st[k]
    ensures !r.hasVault && (Present(st, LEGACY_ACCOUNTS) || Present(st, LEGACY_ADDRESS)) ==>
              r.storage.Keys == st.Keys - {LEGACY_ACCOUNTS, LEGACY_ADDRESS, LEGACY_KEY}
    ensures r.hasVault || !(Present(st, LEGACY_ACCOUNTS) || Present(st, LEGACY_ADDRESS)) ==> r.storage == st
  {
    if Present(st, VAULT) then Startup(true, true, st)
    else if Present(st, LEGACY_ACCOUNTS) || Present(st, LEGACY_ADDRESS) then
      Startup(false, false, st - {LEGACY_ACCOUNTS, LEGACY_ADDRESS, LEGACY_KEY})
    else Startup(false, false, st)
  }

  /**
   * The legacy plaintext key `sw_priv` is removed only together with the
   * other legacy keys: stored on its own, or beside a vault, it stays.
   */
  lemma LegacyKeyOnlyRemovedWithOthers(st: Storage)
    requires LEGACY_KEY in st
    ensures LEGACY_KEY in CheckStorage(st).storage
            <==> Present(st, VAULT) || !(Present(st, LEGACY_ACCOUNTS) || Present(st, LEGACY_ADDRESS))
  {
  }

  /** The name `handleCreateAccount` gives the account it appends as the n-th. */
  function AccountName(n: nat): string
  {
    "Account " + NumberToString(Int(n))
  }

  /** The name is "Account " followed by a numeral that reads back as `n`; so distinct positions get distinct names. */
  lemma AccountNameNumbers(n: nat)
    ensures var s := AccountName(n); |s| > 8 && s[..8] == "Account " && ParseInt(s[8..]) == Int(n)
  {
    ParseIntRoundTrip(Int(n));
    var s := AccountName(n);
    assert s[8..] == NumberToString(Int(n));
  }

  /** The first account created after onboarding's "Account 1" is "Account 2", and so on: no name repeats. */
  lemma AccountNamesDistinct(m: nat, n: nat)
    ensures AccountName(m) == AccountName(n) <==> m == n
  {
    AccountNameNumbers(m);
    AccountNameNumbers(n);
    if AccountName(m) == AccountName(n) {
      assert AccountName(m)[8..] == AccountName(n)[8..];
    }
  }

  /** The account list, password, selection and random draws of one save. */
  datatype Snapshot = Snapshot(accounts: seq<Account>, password: string, index: JsNumber,
                               salt: CryptoService.Salt, iv: CryptoService.Iv)
  {
    /** The selection points into the list. */
    predicate WellFormed() {
      index.Int? && 0 <= index.value < |accounts|
    }
  }

  /**
   * What the model assumes of the primitives: the cipher and both JSON
   * codecs are lawful, and the JSON text of a vault object is never empty
   * (it is at least `{}`).
   */
  ghost predicate Laws(crypto: CryptoService.Primitives, accountsJson: Json.Codec<seq<Account>, Base64.Bytes>,
                       vaultJson: Json.Codec<CryptoService.VaultBlob, string>)
  {
    crypto.Lawful() && accountsJson.Lawful() && vaultJson.Lawful() && forall v :: vaultJson.encode(v) != ""
  }

  class App {
    var isLocked: bool
    var hasVault: bool
    var password: Option<string>
    var accounts: seq<Account>
    var selectedAccountIndex: JsNumber
    var storage: Storage

    /** WebCrypto, `JSON.stringify`/`JSON.parse` of the account list (as UTF-8), and of the vault object. */
    const crypto: CryptoService.Primitives
    const accountsJson: Json.Codec<seq<Account>, Base64.Bytes>
    const vaultJson: Json.Codec<CryptoService.VaultBlob, string>

    /** The `encryptVault` and `decryptVault` this component imports, bound to the vault codec over the primitives above. */
    const encryptVault: (seq<Account>, string, CryptoService.Salt, CryptoService.Iv) -> CryptoService.VaultBlob
    const decryptVault: (CryptoService.VaultBlob, string) -> Result<seq<Account>, string>

    /** The global `parseInt`, called with one argument. */
    const parseInt: string -> JsNumber

    /** The last snapshot the save effect wrote, while its vault is in storage. */
    ghost var saved: Option<Snapshot>

    /**
     * The invariant every handler keeps: a locked wallet holds no accounts
     * and no password in memory, and accounts are only held once a vault
     * exists.
     */
    ghost predicate Valid()
      reads this`isLocked, this`accounts, this`password, this`hasVault
    {
      && Wired()
      && (isLocked ==> accounts == [] && password.None?)
      && (accounts != [] ==> hasVault)
    }

    /** The imported vault functions are those of the crypto service, and `parseInt` is the built-in. */
    ghost predicate Wired() {
      && (forall a, p, salt, iv {:trigger CryptoService.EncryptVault(crypto, accountsJson, a, p, salt, iv)} ::
            encryptVault(a, p, salt, iv) == CryptoService.EncryptVault(crypto, accountsJson, a, p, salt, iv))
      && (forall v, p {:trigger CryptoService.DecryptVault(crypto, accountsJson, v, p)} ::
            decryptVault(v, p) == CryptoService.DecryptVault(crypto, accountsJson, v, p))
      && (forall t {:trigger ParseInt(t)} :: parseInt(t) == ParseInt(t))
    }

    /**
     * Storage agrees with memory: the stored vault and index are those of
     * the last save, which selected an existing account; while accounts and a
     * password are held, they are what was last saved; and an unlocked wallet
     * holds accounts, with the selection pointing into them.
     */
    ghost predicate Consistent()
      reads this
    {
      && (match saved
          case None => !Present(storage, VAULT)
          case Some(s) => Holds(storage, s) && s.WellFormed())
      && (accounts != [] ==> selectedAccountIndex.Int? && 0 <= selectedAccountIndex.value < |accounts|)
      && (accounts != [] && Truthy(password) ==>
            saved.Some? && saved.value.accounts == accounts && saved.value.password == password.value
            && saved.value.index == selectedAccountIndex)
      && (hasVault && !isLocked ==> accounts != [])
    }

    /** `JSON.stringify(await encryptVault(accounts, password))` for a snapshot. */
    function Sealed(s: Snapshot): string
    {
      vaultJson.encode(encryptVault(s.accounts, s.password, s.salt, s.iv))
    }

    /** Storage holds the vault and selected index written for a snapshot. */
    predicate Holds(st: Storage, s: Snapshot)
    {
      VAULT in st && st[VAULT] == Sealed(s) && SELECTED_INDEX in st && st[SELECTED_INDEX] == NumberToString(s.index)
    }

    /** The two writes of the save effect; every other key keeps its value. */
    function Persist(st: Storage, s: Snapshot): (r: Storage)
      ensures Holds(r, s)
      ensures r.Keys == st.Keys + {VAULT, SELECTED_INDEX}
      ensures forall k :: k in st && k != VAULT && k != SELECTED_INDEX ==> r[k] == st[k]
    {
      st[VAULT := Sealed(s)][SELECTED_INDEX := NumberToString(s.index)]
    }

    /** Storage after the save effect: written only when there are accounts and a truthy password. */
    function AfterSave(st: Storage, accounts: seq<Account>, password: Option<string>, index: JsNumber,
                       salt: CryptoService.Salt, iv: CryptoService.Iv): Storage
    {
      if accounts != [] && Truthy(password) then Persist(st, Snapshot(accounts, password.value, index, salt, iv))
      else st
    }

    /**
     * Steps 109-113 of `handleUnlock`: read the vault, parse it, decrypt it.
     * It fails with "No Vault Found" exactly when no vault is stored.
     */
    function ReadVault(st: Storage, pwd: string): (r: Result<seq<Account>, UnlockError>)
      ensures r == Failure(NoVaultFound) <==> !Present(st, VAULT)
    {
      if !Present(st, VAULT) then Failure(NoVaultFound)
      else
        match vaultJson.decode(st[VAULT])
        case None => Failure(MalformedVault)
        case Some(blob) =>
          match decryptVault(blob, pwd)
          case Failure(message) => Failure(VaultError(message))
          case Success(restored) => Success(restored)
    }

    /** The only message a failed decryption carries is the vault error. */
    lemma VaultErrorMessage(st: Storage, pwd: string)
      requires Wired()
      ensures ReadVault(st, pwd).Failure? && ReadVault(st, pwd).error.VaultError? ==>
                ReadVault(st, pwd).error.message == CryptoService.VAULT_ERROR
    {
      if Present(st, VAULT) && vaultJson.decode(st[VAULT]).Some? {
        var blob := vaultJson.decode(st[VAULT]).value;
        assert decryptVault(blob, pwd) == CryptoService.DecryptVault(crypto, accountsJson, blob, pwd);
      }
    }

    /**
     * A vault the save effect wrote opens under a password exactly when that
     * password derives the same key, and then gives back the saved accounts;
     * the stored index reads back as the saved one.
     */
    lemma OpenPersisted(st: Storage, s: Snapshot, pwd: string)
      requires Wired() && Laws(crypto, accountsJson, vaultJson) && Holds(st, s)
      ensures ReadVault(st, pwd)
              == if CryptoService.DeriveKey(crypto, pwd, s.salt) == CryptoService.DeriveKey(crypto, s.password, s.salt)
                 then Success(s.accounts)
                 else Failure(VaultError(CryptoService.VAULT_ERROR))
      ensures Present(st, SELECTED_INDEX) && ParseInt(st[SELECTED_INDEX]) == s.index
    {
      var blob := CryptoService.EncryptVault(crypto, accountsJson, s.accounts, s.password, s.salt, s.iv);
      assert encryptVault(s.accounts, s.password, s.salt, s.iv) == blob;
      assert vaultJson.RoundTrips(blob);
      assert decryptVault(blob, pwd) == CryptoService.DecryptVault(crypto, accountsJson, blob, pwd);
      CryptoService.OpenSealedVault(crypto, accountsJson, s.accounts, s.password, pwd, s.salt, s.iv);
      ParseIntRoundTrip(s.index);
    }

    /**
     * Unlocking a vault the save effect wrote (with a selection into its
     * accounts) restores exactly the saved accounts and the saved index.
     */
    lemma UnlockRestoresSaved(st: Storage, s: Snapshot, pwd: string)
      requires Wired() && Laws(crypto, accountsJson, vaultJson) && Holds(st, s) && s.WellFormed()
      requires ReadVault(st, pwd).Success?
      ensures ReadVault(st, pwd).value == s.accounts && s.accounts != []
      ensures Present(st, SELECTED_INDEX) && parseInt(st[SELECTED_INDEX]) == s.index
    {
      OpenPersisted(st, s, pwd);
      assert parseInt(st[SELECTED_INDEX]) == ParseInt(st[SELECTED_INDEX]);
    }

    /** The render logic. */
    function Route(): Screen
      reads this`hasVault, this`isLocked, this`accounts
    {
      if hasVault && isLocked then LockScreenView
      else if !hasVault && accounts == [] then OnboardingView
      else WalletView
    }

    /**
     * Under the invariant the three screens are told apart by the vault flag
     * and the lock alone: the onboarding test's `accounts.length === 0` never
     * decides anything, as accounts are only held once a vault exists.
     */
    lemma RouteCases()
      requires Valid()
      ensures Route() == LockScreenView <==> hasVault && isLocked
      ensures Route() == OnboardingView <==> !hasVault
      ensures Route() == WalletView <==> hasVault && !isLocked
    {
    }

    /** The wallet screen always has a current account: `accounts[selectedAccountIndex]` exists. */
    lemma WalletHasCurrentAccount()
      requires Valid() && Consistent() && Route() == WalletView
      ensures hasVault && !isLocked && accounts != []
      ensures selectedAccountIndex.Int? && 0 <= selectedAccountIndex.value < |accounts|
    {
    }

    /**
     * Mounting the component: the initial state, then `checkStorage`. When
     * the stored vault, if any, is one a save wrote (described by the ghost
     * `stored`), storage and memory start out consistent.
     */
    constructor (crypto: CryptoService.Primitives, accountsJson: Json.Codec<seq<Account>, Base64.Bytes>,
                 vaultJson: Json.Codec<CryptoService.VaultBlob, string>, initial: Storage, ghost stored: Snapshot)
      ensures Valid()
      ensures this.crypto == crypto && this.accountsJson == accountsJson && this.vaultJson == vaultJson
      ensures var r := CheckStorage(initial); hasVault == r.hasVault && isLocked == r.isLocked && storage == r.storage
      ensures accounts == [] && password == None && selectedAccountIndex == Int(0)
      ensures Route() == if Present(initial, VAULT) then LockScreenView else OnboardingView
      ensures !Present(initial, VAULT) || (Holds(initial, stored) && stored.WellFormed()) ==> Consistent()
    {
      this.crypto := crypto;
      this.accountsJson := accountsJson;
      this.vaultJson := vaultJson;
      encryptVault := (a: seq<Account>, p: string, salt: CryptoService.Salt, iv: CryptoService.Iv) => CryptoService.EncryptVault(crypto, accountsJson, a, p, salt, iv);
      decryptVault := (v, p) => CryptoService.DecryptVault(crypto, accountsJson, v, p);
      parseInt := ParseInt;
      accounts := [];
      password := None;
      selectedAccountIndex := Int(0);
      var r := CheckStorage(initial);
      hasVault := r.hasVault;
      isLocked := r.isLocked;
      storage := r.storage;
      saved := if Present(initial, VAULT) then Some(stored) else None;
    }

    /** The save effect: encrypt the whole account list and store it with the selected index. */
    method Save(salt: CryptoService.Salt, iv: CryptoService.Iv)
      modifies this`storage, this`saved
      ensures storage == AfterSave(old(storage), accounts, password, selectedAccountIndex, salt, iv)
      ensures saved == if accounts != [] && Truthy(password)
                       then Some(Snapshot(accounts, password.value, selectedAccountIndex, salt, iv))
                       else old(saved)
    {
      if accounts != [] && Truthy(password) {
        var s := Snapshot(accounts, password.value, selectedAccountIndex, salt, iv);
        storage := Persist(storage, s);
        saved := Some(s);
      }
    }

    /**
     * `handleUnlock(pwd)`, reached from the lock screen. On any failure it
     * throws and changes nothing. On success it holds the decrypted accounts
     * and the password, unlocks, restores the stored index when there is one
     * (with `parseInt` and no bounds check), and the save effect re-encrypts.
     */
    method HandleUnlock(pwd: string, salt: CryptoService.Salt, iv: CryptoService.Iv) returns (r: Result<(), UnlockError>)
      requires Valid() && hasVault && isLocked
      modifies this`accounts, this`password, this`isLocked, this`selectedAccountIndex, this`storage, this`saved
      ensures Valid() && hasVault
      ensures ReadVault(old(storage), pwd).Failure? ==>
                && r == Failure(ReadVault(old(storage), pwd).error)
                && accounts == old(accounts) && password == old(password) && isLocked
                && selectedAccountIndex == old(selectedAccountIndex) && storage == old(storage) && saved == old(saved)
      ensures ReadVault(old(storage), pwd).Success? ==>
                && r.Success? && accounts == ReadVault(old(storage), pwd).value
                && password == Some(pwd) && !isLocked && Route() == WalletView
                && selectedAccountIndex == (if Present(old(storage), SELECTED_INDEX)
                                            then parseInt(old(storage)[SELECTED_INDEX])
                                            else old(selectedAccountIndex))
                && storage == AfterSave(old(storage), accounts, password, selectedAccountIndex, salt, iv)
      ensures old(Consistent()) && Laws(crypto, accountsJson, vaultJson) ==> Consistent()
    {
      var read := ReadVault(storage, pwd);
      if read.Failure? {
        return Failure(read.error);
      }
      var restored := if Present(storage, SELECTED_INDEX) then parseInt(storage[SELECTED_INDEX]) else selectedAccountIndex;
      ghost var wasConsistent := Consistent() && Laws(crypto, accountsJson, vaultJson);
      if wasConsistent {
        UnlockRestoresSaved(storage, saved.value, pwd);
      }
      accounts := read.value;
      password := Some(pwd);
      isLocked := false;
      selectedAccountIndex := restored;
      Save(salt, iv);
      r := Success(());
    }

    /**
     * `handleOnboardingComplete(addr, mnemonic, priv, pwd)`: exactly one
     * account, "Account 1", selected, a vault marked as present, unlocked,
     * the password held; the save effect writes the vault.
     */
    method HandleOnboardingComplete(addr: string, mnemonic: Option<string>, priv: string, pwd: string,
                                    salt: CryptoService.Salt, iv: CryptoService.Iv)
      requires Valid()
      modifies this`accounts, this`password, this`selectedAccountIndex, this`hasVault, this`isLocked,
               this`storage, this`saved
      ensures Valid()
      ensures accounts == [Account(FIRST_ACCOUNT_NAME, addr, priv, mnemonic)]
      ensures password == Some(pwd) && selectedAccountIndex == Int(0) && hasVault && !isLocked
      ensures storage == AfterSave(old(storage), accounts, password, selectedAccountIndex, salt, iv)
      ensures Route() == WalletView
      ensures old(Consistent()) ==> Consistent()
    {
      accounts := [Account(FIRST_ACCOUNT_NAME, addr, priv, mnemonic)];
      password := Some(pwd);
      selectedAccountIndex := Int(0);
      hasVault := true;
      isLocked := false;
      Save(salt, iv);
    }

    /**
     * `handleCreateAccount()`, with the wallet `createWallet` drew passed in:
     * appends one account named after the new length, keeps the earlier ones,
     * selects the new one; the save effect writes the vault.
     */
    method HandleCreateAccount(random: ChainService.EthersWallet, salt: CryptoService.Salt, iv: CryptoService.Iv)
      requires Valid() && Route() == WalletView
      modifies this`accounts, this`selectedAccountIndex, this`storage, this`saved
      ensures Valid()
      ensures var w := ChainService.CreateWallet(random);
              accounts == old(accounts) + [Account(AccountName(|old(accounts)| + 1), w.address, w.privateKey,
                                                   if Truthy(w.mnemonic) then w.mnemonic else None)]
      ensures selectedAccountIndex == Int(|accounts| - 1)
      ensures storage == AfterSave(old(storage), accounts, password, selectedAccountIndex, salt, iv)
      ensures old(Consistent()) ==> Consistent()
    {
      assert hasVault && !isLocked;
      var w := ChainService.CreateWallet(random);
      var account := Account(AccountName(|accounts| + 1), w.address, w.privateKey,
                             if Truthy(w.mnemonic) then w.mnemonic else None);
      accounts := accounts + [account];
      selectedAccountIndex := Int(|accounts| - 1);
      Save(salt, iv);
      if Truthy(password) {
        assert saved == Some(Snapshot(accounts, password.value, selectedAccountIndex, salt, iv));
        assert Holds(storage, saved.value) && saved.value.WellFormed();
      }
    }

    /**
     * `handleSwitchAccount(index)`: only an index into the list is taken;
     * anything else changes nothing. The save effect runs only if the
     * selection actually changed.
     */
    method HandleSwitchAccount(index: int, salt: CryptoService.Salt, iv: CryptoService.Iv)
      requires Valid()
      modifies this`selectedAccountIndex, this`storage, this`saved
      ensures Valid()
      ensures 0 <= index < |accounts| ==> selectedAccountIndex == Int(index)
      ensures !(0 <= index < |accounts|) ==> selectedAccountIndex == old(selectedAccountIndex)
      ensures storage == if 0 <= index < |accounts| && Int(index) != old(selectedAccountIndex)
                         then AfterSave(old(storage), accounts, password, selectedAccountIndex, salt, iv)
                         else old(storage)
      ensures old(Consistent()) ==> Consistent()
    {
      if 0 <= index < |accounts| {
        var changed := Int(index) != selectedAccountIndex;
        selectedAccountIndex := Int(index);
        if changed {
          Save(salt, iv);
          if Truthy(password) {
            assert saved == Some(Snapshot(accounts, password.value, selectedAccountIndex, salt, iv));
            assert Holds(storage, saved.value) && saved.value.WellFormed();
          }
        }
      }
    }

    /**
     * `handleLogout()`, where `confirmed` is the answer to `window.confirm`:
     * locks and forgets the accounts and the password; storage is left as is.
     */
    method HandleLogout(confirmed: bool)
      requires Valid()
      modifies this`isLocked, this`accounts, this`password
      ensures Valid()
      ensures confirmed ==> isLocked && accounts == [] && password == None
      ensures !confirmed ==> isLocked == old(isLocked) && accounts == old(accounts) && password == old(password)
      ensures confirmed && old(Route()) == WalletView ==> Route() == LockScreenView
      ensures old(Consistent()) ==> Consistent()
    {
      if confirmed {
        isLocked := true;
        accounts := [];
        password := None;
      }
    }

    /**
     * `handleReset()`, with the answer to `window.confirm`: removes the vault
     * and the stored index, forgets accounts and password, and shows
     * onboarding.
     */
    method HandleReset(confirmed: bool)
      requires Valid()
      modifies this`storage, this`accounts, this`password, this`hasVault, this`isLocked, this`saved
      ensures Valid()
      ensures confirmed ==> storage == old(storage) - {VAULT, SELECTED_INDEX} && accounts == [] && password == None
                            && !hasVault && !isLocked && Route() == OnboardingView
      ensures !confirmed ==> storage == old(storage) && accounts == old(accounts) && password == old(password)
                             && hasVault == old(hasVault) && isLocked == old(isLocked)
      ensures old(Consistent()) ==> Consistent()
    {
      if confirmed {
        storage := storage - {VAULT, SELECTED_INDEX};
        accounts := [];
        password := None;
        hasVault := false;
        isLocked := false;
        saved := None;
      }
    }
  }
}
