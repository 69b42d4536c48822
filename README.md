# fluidwallet: session, unlock and vault model

A Dafny model of the logic of the fluidwallet browser wallet. The wallet keeps
its accounts in an encrypted vault in `localStorage` and unlocks them behind a
password and an optional second factor.

The model covers these parts:

- **App** (`app.dfy`): the session state machine of `App.tsx`. It is a class
  holding the lock, vault flag, password, account list, selected index and a
  `map<string, string>` for `localStorage`. It models the mount-time storage
  check, the save-on-change effect and every handler, and proves that the
  handlers keep a consistency invariant between memory and storage.
- **LockScreen** (`lock_screen.dfy`): the two-step unlock of
  `components/LockScreen.tsx`. The vault is decrypted first. Then a second
  factor is chosen: the authenticator app takes precedence over e-mail. Then
  `onUnlock` is called, which is the App's `HandleUnlock`.
- **AuthService** (`auth_service.dfy`): the demonstration second-factor
  service. It has the e-mailed code store, the universal test code `123456`,
  the TOTP check (which only compares with that code), the fixed TOTP
  secret, and how the QR service reads the URL the secret is sent in (see
  "## Findings").
- **CryptoService** (`crypto_service.dfy`): the vault codec.
  - TextEncoder, PBKDF2 and AES-GCM are abstract primitives with stated laws.
  - The JSON codecs (`json.dfy`) are a pair of functions with a round-trip law.
  - The Base64 steps (`base64.dfy`) are concrete: `btoa` and the forgiving
    decode of `atob`, with a proved round trip.
- **Onboarding** (`onboarding.dfy`): the first-run step machine of
  `components/Onboarding.tsx`, and its password rule.
- **ChainService** (`chain_service.dfy`): wallet creation and import dispatch
  over abstract ethers primitives, the retry schedule of `retryCall`, and
  `fetchBalances`.
- **WalletService** (`wallet_service.dfy`): the simulated transaction record
  and the WalletConnect URI check.
- **JsText** (`js_text.dfy`): the JavaScript built-ins whose behaviour matters
  to these parts:
  - `trim`;
  - `toString` and `parseInt` on the selected index;
  - `.length` in UTF-16 code units;
  - `toString(16)` of one digit.

Randomness, the clock and the user's answers are parameters of the operations
that use them:

- the salt and IV of each save;
- the e-mailed code;
- the random wallet;
- the social user id suffix;
- the 64 hash digits;
- `Date.now()`;
- `window.confirm`.

Several things the code does are stated as proved properties:

- The save effect is a synchronous write at the end of each handler whose state
  change would trigger it. It writes exactly when there are accounts and a
  non-empty password (`App.App.Save`).
- While the invariant `Consistent` holds, the stored vault opens under the held
  password and gives back the held accounts. `Consistent` holds from mounting
  on, given lawful primitives and storage writes and encryptions that never
  fail (see "## Left out").
- The `catch` branch around `onUnlock` in `handlePasswordSubmit` is never
  taken, and neither is a rejection of `onUnlock` in `handle2FASubmit`. Both
  components read the same stored vault with the same password the App then
  reads, so `HandleUnlock` cannot fail there (`LockScreen.LockScreen.HandlePasswordSubmit`).
- The `if (walletData)` guard of `handleComplete` is always true on the
  password steps (`Onboarding.Onboarding.Valid`).

Some behaviour of the code that is kept as written:

- `handleReset` is never passed to any component, so nothing in the interface
  reaches it. It is modelled anyway.
- The selected index restored on unlock is `parseInt` of the stored text, with
  no bounds check (`App.App.HandleUnlock`). Under `Consistent` it is the index
  last saved, which is in range.
- The legacy plaintext key `sw_priv` is removed only when legacy accounts or a
  legacy address are also stored (`App.LegacyKeyOnlyRemovedWithOthers`).
- If `new ethers.Wallet` throws inside the social-login timer, the spinner
  stays on and the social button stays disabled (`Onboarding.Onboarding.SocialLoginTimer`).
- The password length check counts UTF-16 code units, so two characters
  outside the Basic Multilingual Plane pass it (`Onboarding.TwoAstralCharactersAccepted`).
- The number of second-factor attempts is not limited.

## Model

| member | source | states |
|---|---|---|
| `App.CheckStorage` | App.tsx:41-68 | the wallet is locked behind a vault exactly when a non-empty vault is stored; otherwise the three legacy keys are removed when legacy accounts or a legacy address are stored, and storage is untouched in every other case; nothing is added |
| `App.LegacyKeyOnlyRemovedWithOthers` | App.tsx:47-65 | a stored `sw_priv` survives the storage check exactly when a vault is stored or neither other legacy key is |
| `App.AccountNameNumbers` | App.tsx:146 | the name of the n-th account is "Account " followed by a numeral that `parseInt` reads back as n |
| `App.AccountNamesDistinct` | App.tsx:143-155 | two account positions get the same name exactly when they are the same position |
| `App.App.Persist` | App.tsx:75-77 | the save writes the vault text and the index text, adds no other key and keeps every other key's value |
| `App.App.ReadVault` | App.tsx:109-113 | reading the vault fails with "No Vault Found" exactly when no non-empty vault is stored |
| `App.App.VaultErrorMessage` | App.tsx:112-113 | a decryption failure during unlock carries the single vault error message |
| `App.App.OpenPersisted` | App.tsx:71-84 | a vault the save wrote opens under a password exactly when it derives the same key, and then gives the saved accounts; the stored index reads back as the saved one |
| `App.App.UnlockRestoresSaved` | App.tsx:108-120 | a successful unlock of a saved vault yields the saved, non-empty account list, and the index it restores is the saved one |
| `App.App.Route` | App.tsx:186-194 | the render conditions of the App: lock screen, onboarding or wallet; `RouteCases` states each view's condition under the invariant |
| `App.App.RouteCases` | App.tsx:186-194 | under the invariant the lock screen shows exactly when a vault exists and is locked, onboarding exactly when no vault exists, and the wallet otherwise |
| `App.App.WalletHasCurrentAccount` | App.tsx:87 | whenever the wallet screen shows, the selected index points into a non-empty account list |
| `App.App.constructor` | App.tsx:29-68 | mounting starts locked with no accounts and no password, then applies the storage check; it routes to the lock screen exactly when a vault is stored |
| `App.App.Save` | App.tsx:71-84 | the save effect re-encrypts the whole list and writes it with the selected index exactly when accounts are held and the password is non-empty, and otherwise leaves storage alone |
| `App.App.HandleUnlock` | App.tsx:108-122 | on any read, parse or decrypt failure it throws that error and changes nothing; on success it holds the decrypted accounts and the password, unlocks, restores the stored index only if one is stored, saves, and keeps the consistency invariant |
| `App.App.HandleOnboardingComplete` | App.tsx:124-141 | exactly one account "Account 1" with the given address, key and mnemonic, index 0, vault present, unlocked, password held, saved, wallet screen |
| `App.App.HandleCreateAccount` | App.tsx:143-155 | appends exactly one account named after the new length, keeps earlier ones, selects the new last index, saves |
| `App.App.HandleSwitchAccount` | App.tsx:157-162 | the selection changes only for an index into the list, and otherwise nothing changes; storage is rewritten only when the selection actually changed |
| `App.App.HandleLogout` | App.tsx:164-170 | a confirmed lock empties the accounts, forgets the password and locks, and storage is untouched; unconfirmed, nothing changes |
| `App.App.HandleReset` | App.tsx:172-181 | a confirmed reset removes exactly the vault and index keys, forgets accounts and password, and shows onboarding; unconfirmed, nothing changes |
| `LockScreen.LoadConfig` | components/LockScreen.tsx:23-28 | each second-factor setting is loaded exactly when its key is stored with a non-empty value, and is then its parsed value |
| `LockScreen.SecondFactor` | components/LockScreen.tsx:44-56 | the authenticator app is chosen exactly when it is enabled, whatever the e-mail setting; e-mail exactly when only it is enabled; none otherwise |
| `LockScreen.LockScreen.constructor` | components/LockScreen.tsx:11-28 | mounting starts on the password step with empty fields and the settings loaded from storage |
| `LockScreen.LockScreen.EnterPassword` | components/LockScreen.tsx:142 | the password field takes the typed value |
| `LockScreen.LockScreen.EnterOtpCode` | components/LockScreen.tsx:102 | the code field takes the typed value |
| `LockScreen.LockScreen.HandlePasswordSubmit` | components/LockScreen.tsx:30-62 | a missing, unparsable or unopenable vault gives "Incorrect password" on the password step and leaves App and code store alone; a correct password leads to the chosen factor's step (an e-mail code is issued to the configured address), or with no factor unlocks the App directly; the App is unlocked only with a password that opens the vault |
| `LockScreen.LockScreen.Handle2FASubmit` | components/LockScreen.tsx:64-82 | the App is unlocked exactly when the chosen factor accepts the code; otherwise "Invalid Code", the second-factor step stays and further attempts are possible |
| `LockScreen.LockScreen.Cancel` | components/LockScreen.tsx:117 | Cancel returns to the password step and clears the password |
| `AuthService.IssuedCode` | services/authService.ts:18 | an issued code is six decimal digits with no leading zero, of value 100000 plus the draw, so between 100000 and 999999 |
| `AuthService.Issue` | services/authService.ts:19-20 | issuing stores exactly the new code and the address, replacing what was there |
| `AuthService.OnlyTestCodeBeforeIssue` | services/authService.ts:5-43 | on the initial empty store only "123456" verifies |
| `AuthService.VerifiesAfterIssue` | services/authService.ts:13-43 | after an issue a code verifies for an address exactly when it is "123456", or it is the code just issued and the address it went to |
| `AuthService.DemoStore.constructor` | services/authService.ts:5-11 | the store starts with no code and no address |
| `AuthService.DemoStore.SendEmailOTP` | services/authService.ts:13-30 | overwrites the store with the new code and address and returns true |
| `AuthService.DemoStore.VerifyEmailOTP` | services/authService.ts:32-43 | true exactly for "123456" or an exact match of both address and code; the store is not modified |
| `AuthService.Verifies` | services/authService.ts:32-43 | the e-mail check on a code store: the test code, or the code issued to that address; `OnlyTestCodeBeforeIssue` and `VerifiesAfterIssue` state what it accepts |
| `AuthService.VerifyTOTP` | services/authService.ts:61-67 | accepts only the test code; `TotpAcceptedByEmailCheck` relates it to the e-mail check |
| `AuthService.TotpAcceptedByEmailCheck` | services/authService.ts:61-67 | every token the TOTP check accepts (only "123456") is accepted by the e-mail check for any store and address |
| `AuthService.GenerateTOTPSecret` | services/authService.ts:45-59 | always the fixed 16-character Base32 secret, and a QR service URL followed by `otpauth://totp/SuperWallet?secret=<secret>&issuer=Fluid` |
| `AuthService.PercentEncode` | services/authService.ts:53 | `encodeURIComponent` of ASCII text, the encoding the URL needs; `PercentDecodeOfEncode` proves `PercentDecode` its inverse |
| `AuthService.PercentDecode` | services/authService.ts:53 | how the QR service reads a query field's value; `PercentDecodePlain` and `PercentDecodeOfEncode` state what it gives |
| `AuthService.QrPayload` | services/authService.ts:53 | the `data` field of a QR service URL, up to the next `&`, decoded; `EncodedPayload` and `QrCodeDropsIssuer` state it for the two URLs |
| `AuthService.PercentDecodePlain` | services/authService.ts:53 | text with no `&`, `%` or `+` reads back as itself from a query field |
| `AuthService.PercentEncodeHasNoAmpersand` | services/authService.ts:53 | `encodeURIComponent` of ASCII text leaves no `&`, so the text cannot end its query field early |
| `AuthService.PercentDecodeOfEncode` | services/authService.ts:53 | reading a query field back undoes `encodeURIComponent` on every ASCII text |
| `AuthService.EncodedPayload` | services/authService.ts:53 | the QR service URL followed by the encoded text carries exactly that text as its `data` field |
| `AuthService.QrCodeDropsIssuer` | services/authService.ts:53 | as written, the QR code's `data` field is `otpauth://totp/SuperWallet?secret=JBSWY3DPEHPK3PXP`: the URI without its `&issuer=Fluid`, which is not the otpauth URI |
| `AuthService.GenerateTOTPSecretEncoded` | services/authService.ts:45-59 | with the URI encoded, the same secret, and a QR code whose `data` field is the whole otpauth URI, issuer included |
| `JsText.LongestPrefixStops` | services/authService.ts:53 | scanning up to the first character that fails a test stops exactly before it: the run of passing characters is the prefix |
| `CryptoService.DeriveKey` | services/cryptoService.ts:2-23 | the key bits are PBKDF2 with SHA-256, 100000 iterations and 256 bits of the UTF-8 password and the salt, so the key is a function of password and salt alone; a non-extractable 256-bit AES-GCM key for encrypt and decrypt, 32 bytes under the laws |
| `CryptoService.EncryptVault` | services/cryptoService.ts:25-42 | `encryptVault` with its salt and IV drawn outside: the blob of Base64 fields; its contents are stated by `EncryptedFields` and `EncryptedFieldLengths`, and its inverse is `DecryptVault` (`VaultRoundTrip`) |
| `CryptoService.EncryptedFields` | services/cryptoService.ts:25-42 | the blob has the three fields, which decode to the salt, the IV and the data sealed under the key derived from password and salt |
| `CryptoService.EncryptedFieldLengths` | services/cryptoService.ts:37-41 | the stored salt is 24 Base64 characters and the stored IV 16 |
| `CryptoService.DecryptVault` | services/cryptoService.ts:44-61 | every failure is the single error "Invalid Password or Corrupted Vault" |
| `CryptoService.DecryptUsesStoredFields` | services/cryptoService.ts:46-57 | a successful decryption decoded the stored salt, IV and ciphertext and opened the ciphertext under the key from the stored salt and the stored IV |
| `CryptoService.DecryptOfFields` | services/cryptoService.ts:50-60 | once the fields decode, decryption is opening under the derived key and parsing the plaintext, each failure being the vault error |
| `CryptoService.OpenSealedVault` | services/cryptoService.ts:25-61 | opening a sealed vault with some password succeeds exactly when that password derives the sealing key, and then gives back the data; otherwise the vault error |
| `CryptoService.VaultRoundTrip` | services/cryptoService.ts:25-61 | decrypting what was encrypted under the same password gives back the data |
| `CryptoService.WrongPasswordFails` | services/cryptoService.ts:50-60 | a password deriving a different key fails with the vault error |
| `Base64.Encode` | services/cryptoService.ts:38-40 | `btoa` of bytes; `EncodeLength` and `EncodeAlphabet` state its shape and `DecodeEncode` its inverse |
| `Base64.Decode` | services/cryptoService.ts:46-48 | the forgiving decode of `atob`; `DecodeOfClean`, `DecodeRejects` and `DecodeEncode` state what it accepts and gives |
| `Base64.EncodeLength` | services/cryptoService.ts:38-40 | `btoa` gives four characters per started group of three bytes |
| `Base64.EncodeAlphabet` | services/cryptoService.ts:38-40 | every character `btoa` gives is in the alphabet of section 4 of RFC 4648 or is `=` |
| `Base64.SextetsSpec` | services/cryptoService.ts:46-48 | text converts to six-bit values exactly when every character is in the alphabet, each to its own value |
| `Base64.RemoveWhitespaceRemoves` | services/cryptoService.ts:46-48 | `atob`'s whitespace removal leaves no ASCII whitespace |
| `Base64.FromToSextets` | services/cryptoService.ts:38-48 | joining the six-bit groups of some bytes gives the bytes back, and no group count leaves remainder 1 |
| `Base64.DecodeOfClean` | services/cryptoService.ts:46-48 | text with no whitespace that is, once padding is stripped, the characters of some groups decodes to their bytes |
| `Base64.DecodeEncode` | services/cryptoService.ts:38-48 | decoding what `btoa` gave returns the original bytes |
| `Base64.DecodeRejects` | services/cryptoService.ts:46-48 | a stripped length with remainder 1, or a character outside the alphabet, makes decoding fail |
| `Onboarding.PasswordRule` | components/Onboarding.tsx:68-76 | accepted exactly when both entries match and the password is at least four UTF-16 code units; the mismatch message exactly when they differ (checked first); the too-short message exactly when they match but are short |
| `Onboarding.AcceptedPasswordIsTruthy` | components/Onboarding.tsx:68-80 | an accepted password has at least two characters, so it is non-empty and the App's save writes the vault |
| `Onboarding.FourCharactersSuffice` | components/Onboarding.tsx:73-76 | any matching password of four characters or more is accepted |
| `Onboarding.ShortBmpPasswordRejected` | components/Onboarding.tsx:73-76 | a matching password of fewer than four characters from the Basic Multilingual Plane is too short |
| `Onboarding.TwoAstralCharactersAccepted` | components/Onboarding.tsx:73-76 | two characters outside the Basic Multilingual Plane count as four and are accepted |
| `Onboarding.Onboarding.constructor` | components/Onboarding.tsx:27-36 | mounting starts on the welcome step with no wallet and empty fields |
| `Onboarding.Onboarding.HandleCreate` | components/Onboarding.tsx:39-43 | the created wallet is kept and the create step shows it |
| `Onboarding.Onboarding.HandleSocialLogin` | components/Onboarding.tsx:45-47 | the social button shows the spinner and a timer starts |
| `Onboarding.Onboarding.SocialLoginTimer` | components/Onboarding.tsx:48-55 | the timer keeps the social wallet of "user_" plus the suffix, stops the spinner and moves to the social password step; under lawful ethers, when the digest of the salted id is a valid secp256k1 key, that digest is the key and there is no mnemonic; a throw leaves everything but the timer as it was |
| `Onboarding.Onboarding.ShowImport` | components/Onboarding.tsx:141 | welcome to import |
| `Onboarding.Onboarding.ContinueToPassword` | components/Onboarding.tsx:178 | create to password |
| `Onboarding.Onboarding.Back` | components/Onboarding.tsx:197 | import back to welcome |
| `Onboarding.Onboarding.EnterImportInput` | components/Onboarding.tsx:192 | the import field takes the typed value |
| `Onboarding.Onboarding.EnterPassword` | components/Onboarding.tsx:224 | the password field takes the typed value |
| `Onboarding.Onboarding.EnterConfirmPassword` | components/Onboarding.tsx:235 | the confirmation field takes the typed value |
| `Onboarding.Onboarding.HandleImport` | components/Onboarding.tsx:58-66 | the trimmed input is imported; success keeps the wallet and moves to the password step, failure alerts the import message and changes neither step nor wallet |
| `Onboarding.Onboarding.HandleComplete` | components/Onboarding.tsx:68-80 | a rejected pair alerts its message and leaves the App alone; an accepted one completes onboarding with exactly the wallet's address, key and mnemonic and the chosen password, and the vault is written under that password |
| `ChainService.CreateWallet` | services/chainService.ts:27-34 | the new wallet's address, key and phrase are those of the random ethers wallet |
| `ChainService.CreateWalletFromSocial` | services/chainService.ts:36-44 | no mnemonic; under lawful ethers it succeeds exactly when keccak256 of "SUPERWALLET_SALT_" plus the user id is a key from 1 to n - 1 of secp256k1, and that digest is then the key, so the wallet depends on the user id alone |
| `ChainService.ImportWallet` | services/chainService.ts:46-66 | input with a space takes the phrase branch and carries the phrase; any other input takes the key branch with no mnemonic; each succeeds exactly when its ethers call does; every failure is "Invalid Mnemonic or Private Key" |
| `ChainService.Calls` | services/chainService.ts:15-25 | `retryCall` calls the function at least once and at most retries + 1 times |
| `ChainService.Outcome` | services/chainService.ts:15-25 | the result of `retryCall` over the attempts' outcomes; `OutcomeIsFirstSuccess` and `Calls` state it |
| `ChainService.OutcomeIsFirstSuccess` | services/chainService.ts:15-25 | the result is the last call's; every earlier call failed; a failure is rethrown only after retries + 1 calls; success exactly when one of the first retries + 1 calls succeeds |
| `ChainService.RetryCall` | services/chainService.ts:15-25 | returns that outcome, pausing delay, 2·delay, 4·delay, … between calls, one pause fewer than the calls made |
| `ChainService.BalanceText` | services/chainService.ts:89-96 | an asset that is neither ETH nor has a contract address gets "0" |
| `ChainService.GetNativeBalance` | services/chainService.ts:68-76 | the formatted ETH balance of the first successful attempt, or "0.0" when all fail |
| `ChainService.GetTokenBalance` | services/chainService.ts:78-87 | the formatted token balance with the given decimals, or "0.0" when all fail |
| `ChainService.FetchBalances` | services/chainService.ts:89-102 | same length and order; each entry unchanged except its balance, which is `parseFloat` of what its lookup (native, token or none) yields |
| `WalletService.TxHash` | services/walletService.ts:13 | "0x" and exactly 64 lower-case hexadecimal digits, from which the drawn digits read back |
| `WalletService.TxHashInjective` | services/walletService.ts:13 | different digit draws give different hashes |
| `WalletService.SendTransaction` | services/walletService.ts:6-27 | id equals the hash; a completed send; amount, symbol and recipient copied; gasless exactly when smart, with the sponsored gas text exactly then and the paid one otherwise |
| `WalletService.CreateSession` | services/walletService.ts:29-42 | fails with "Invalid WalletConnect URI" exactly when the URI does not start with "wc:"; otherwise an active session whose id is "wc_" and a numeral reading back as the clock |
| `JsText.Trim` | components/Onboarding.tsx:60 | `String.prototype.trim`; `TrimIsSlice` and `TrimRemovesOnlyWhitespace` state its result |
| `JsText.NumberToString` | App.tsx:77 | `toString` of an integral number or NaN, as the selected index is stored; `ParseIntRoundTrip` proves `ParseInt` reads it back |
| `JsText.ParseInt` | App.tsx:120 | `parseInt` with no radix: whitespace, one sign, hexadecimal behind `0x`, decimal digits up to the first other character, NaN without digits; `LongestPrefixSpec`, `ParseNumeral` and `ParseIntRoundTrip` state what it reads |
| `JsText.TrimStartSlice` | components/Onboarding.tsx:60 | `trimStart` keeps a suffix of its input that does not start with whitespace |
| `JsText.TrimStartDrops` | components/Onboarding.tsx:60 | everything `trimStart` drops is whitespace |
| `JsText.TrimEndSlice` | components/Onboarding.tsx:60 | `trimEnd` keeps a prefix of its input that does not end with whitespace |
| `JsText.TrimEndDrops` | components/Onboarding.tsx:60 | everything `trimEnd` drops is whitespace |
| `JsText.TrimIsSlice` | components/Onboarding.tsx:60 | `trim` keeps one contiguous piece starting after the leading whitespace, which neither starts nor ends with whitespace |
| `JsText.TrimRemovesOnlyWhitespace` | components/Onboarding.tsx:60 | everything `trim` drops before and after that piece is whitespace |
| `JsText.NatToDecimal` | App.tsx:77 | `toString` of a non-negative integer is digits only with no leading zero |
| `JsText.DecimalRoundTrip` | App.tsx:77 | the decimal numeral of n has value n |
| `JsText.DecimalLength` | services/authService.ts:18 | a number with k decimal digits prints as exactly k characters |
| `JsText.LongestPrefixSpec` | App.tsx:120 | the digits `parseInt` reads are the longest prefix of digits |
| `JsText.ParseNumeral` | App.tsx:120 | `parseInt` of a numeral without leading zeros, with an optional minus, reads its value |
| `JsText.ParseIntRoundTrip` | App.tsx:119-120 | `parseInt(n.toString())` is n for every integer the model's number holds and for NaN, so the stored index survives a reload (exact JavaScript numbers only for safe integers: see "## Left out") |
| `JsText.Utf16LengthBounds` | components/Onboarding.tsx:73 | `.length` is at least the number of characters and at most twice it |
| `JsText.Utf16LengthOfBmp` | components/Onboarding.tsx:73 | on Basic Multilingual Plane text `.length` is the number of characters |
| `JsText.HexChar` | services/walletService.ts:13 | `toString(16)` of a digit below 16 is a lower-case hexadecimal digit of that value |

## Left out

- Asynchrony and timing: `await`, the simulated delays, React's batching of
  state updates and effect scheduling, and the chance that two save effects
  race. Each handler runs to completion, and the save effect is a write at the
  end of the handler whose state change triggers it.
- The ways out of the browser: `alert` (a returned message), `console`,
  `navigator.clipboard` and the "copied" flag, `showPassword`, and
  `currentView` (it is set but never read by the routing).
- The price and balance polling effect of `App.tsx` (lines 86-104) and its
  float arithmetic.
- The asset list reset in `handleCreateAccount` and `handleSwitchAccount`.
- `sendNativeToken`, the price service, Google Drive, passkeys and the
  rendering components.
- The internals of PBKDF2, SHA-256, AES-GCM, TextEncoder, keccak256, BIP-39
  and secp256k1. They are abstract functions whose laws are hypotheses of the
  lemmas that need them.
- JSON: `JSON.stringify` and `JSON.parse` are an abstract codec with a
  round-trip law. Stored text that is not an object with `cipher`, `salt` and
  `iv` fields fails to decode, and unlocking reports `MalformedVault`. In the
  code, text that parses as JSON but lacks those fields reaches
  `decryptVault`, whose `catch` reports "Invalid Password or Corrupted Vault";
  only text that does not parse is the separate `JSON.parse` error.
- Storage writes and vault encryption are assumed never to fail. The code's
  save effect (`App.tsx`, lines 74-80) wraps `encryptVault` and both
  `localStorage.setItem` calls in a `try` whose `catch` only logs. A rejected
  encryption or a full storage quota therefore leaves the old vault, or a new
  vault with a stale index. `App.App.Save` always writes both keys, and every
  promise that rests on `Consistent` depends on this assumption.
- `JsText.JsNumber`: integers are unbounded. JavaScript numbers are doubles,
  so integers above 2^53 are not exact, `toString` prints an exponent from
  10^21 up, and `parseInt` rounds long numerals. `JsText.NumberToString`,
  `JsText.ParseInt` and `JsText.ParseIntRoundTrip` are exact only for safe
  integers, which is every index and clock reading the code stores.
- `ChainService.CreateWalletFromSocial` and `Onboarding.Onboarding.SocialLoginTimer`:
  success is promised only when the keccak256 digest is a signing key, from
  1 to n - 1 of secp256k1. A digest of 0 or at least n makes `new ethers.Wallet`
  throw. No user id is known to give one, and the model keeps that branch.
- `String.fromCharCode(...bytes)`: for a very large ciphertext the spread can
  exceed the engine's argument limit. Nothing bounds the size here.
- `LockScreen.LoadConfig`: the stored second-factor settings are parsed by a
  total abstract function, so a `JSON.parse` that throws on a malformed
  setting is not modelled.
- `App.App.constructor`: the ghost parameter `stored` describes the vault
  already stored, when there is one. `Consistent` is promised only when it
  matches.
- The App's `encryptVault`, `decryptVault` and `parseInt` are constant
  function values that the invariant `Wired` ties to `CryptoService` and
  `JsText`. This keeps the handlers' proofs from unfolding the codec.
- Unmounting: after an unlock or an onboarding completion the App routes
  away from the LockScreen or Onboarding component. The model does not
  destroy those objects, and no operation of theirs can be called then.
- A social-login timer firing after Onboarding has been unmounted.
- `ChainService.RetryCall`: the pauses are returned as a list, not slept.
- `ChainService.FetchBalances`: the balances are looked up one after another,
  not concurrently through `Promise.all`. Attempt outcomes are indexed by the
  entry's position.
- `WalletService.SendTransaction` and `WalletService.CreateSession`: the
  locale-formatted date texts are parameters.
- `AuthService.PercentEncode` covers ASCII text only, which is all the
  otpauth URI holds. `AuthService.QrPayload` reads only the `data` field of
  the QR service's query, as the last field named before it; the other
  fields and the drawing of the QR code are not modelled.

## Findings

| source | as written | input that shows it | evidently intended | confidence | as-written member | corrected member |
|---|---|---|---|---|---|---|
| services/authService.ts:53 | the otpauth URI is pasted unencoded into the `data` field of the QR service URL | `generateTOTPSecret()`: its `&issuer=Fluid` starts a new field of the service's query, so the QR code holds `otpauth://totp/SuperWallet?secret=JBSWY3DPEHPK3PXP` | the QR code holds the whole otpauth URI, with the URI passed through `encodeURIComponent` | medium, not executed | `AuthService.QrCodeDropsIssuer` | `AuthService.GenerateTOTPSecretEncoded` |
