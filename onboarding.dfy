/**
 * components/Onboarding.tsx: the first-run screen that produces the first
 * account. From the welcome step a wallet is created (its recovery phrase is
 * shown before the password step), drawn from a social login (after a
 * simulated 1.5 s delay, straight to the password step), or imported from a
 * phrase or key. The password step checks the password pair and hands the
 * wallet and password to `onComplete`, which is `App.HandleOnboardingComplete`.
 * The random wallet, the random part of the social user id and the salt and
 * IV of the save that follows are parameters; `alert` is a returned message.
 */
module Onboarding {
  import opened Wrappers
  import JsText
  import App
  import ChainService

  const PASSWORD_MISMATCH := "Passwords do not match"
  const PASSWORD_TOO_SHORT := "Password too short"
  const INVALID_IMPORT := "Invalid Mnemonic or Private Key"

  /** The shortest accepted password, counted as `.length` counts: in UTF-16 code units. */
  const MIN_PASSWORD_LENGTH := 4

  /** The mock user id of a social login is this prefix and a random base-36 suffix. */
  const USER_ID_PREFIX := "user_"

  /** `'welcome' | 'create' | 'import' | 'password' | 'social_password'`. */
  datatype Step = Welcome | Create | Import | SetPassword | SocialPassword

  /**
   * The checks of `handleComplete`, in their order: the two fields must
   * match, then the password must be at least four code units long. `None`
   * is acceptance; otherwise the message alerted.
   */
  function PasswordRule(password: string, confirmation: string): (r: Option<string>)
    ensures r.None? <==> password == confirmation && JsText.Utf16Length(password) >= MIN_PASSWORD_LENGTH
    ensures r == Some(PASSWORD_MISMATCH) <==> password != confirmation
    ensures r == Some(PASSWORD_TOO_SHORT) <==> password == confirmation && JsText.Utf16Length(password) < MIN_PASSWORD_LENGTH
  {
    if password != confirmation then Some(PASSWORD_MISMATCH)
    else if JsText.Utf16Length(password) < MIN_PASSWORD_LENGTH then Some(PASSWORD_TOO_SHORT)
    else None
  }

  /**
   * An accepted password has at least two characters, so it is truthy and
   * the save effect of the App writes the vault under it.
   */
  lemma AcceptedPasswordIsTruthy(password: string, confirmation: string)
    ensures PasswordRule(password, confirmation).None? ==> |password| >= 2 && App.Truthy(Some(password))
  {
    JsText.Utf16LengthBounds(password);
  }

  /** Four characters or more always pass the length check, whatever they are. */
  lemma FourCharactersSuffice(password: string)
    requires |password| >= MIN_PASSWORD_LENGTH
    ensures PasswordRule(password, password).None?
  {
    JsText.Utf16LengthBounds(password);
  }

  /** Below four characters from the Basic Multilingual Plane, the password is too short. */
  lemma ShortBmpPasswordRejected(password: string)
    requires |password| < MIN_PASSWORD_LENGTH
    requires forall i :: 0 <= i < |password| ==> password[i] as int < 0x10000
    ensures PasswordRule(password, password) == Some(PASSWORD_TOO_SHORT)
  {
    JsText.Utf16LengthOfBmp(password);
  }

  /** Two characters outside the Basic Multilingual Plane are four code units, which is enough. */
  lemma TwoAstralCharactersAccepted()
    ensures PasswordRule("\U{1F511}\U{1F511}", "\U{1F511}\U{1F511}").None?
  {
    var p := "\U{1F511}\U{1F511}";
    assert p[..1] == "\U{1F511}";
    assert p[..1][..0] == "";
    assert JsText.Utf16Length(p[..1]) == 2;
  }

  class Onboarding {
    var step: Step
    var walletData: Option<ChainService.WalletData>
    var importInput: string
    var password: string
    var confirmPassword: string
    var isSocialLoading: bool

    /** Whether the social login's timer is still to fire. */
    ghost var timerPending: bool

    /** `onComplete` is this App's `HandleOnboardingComplete`. */
    const app: App.App
    const ethers: ChainService.Ethers

    /**
     * The screen is mounted while the App routes to it; every step after the
     * welcome step has a wallet to show or to save, and a wallet reached by
     * social login has no recovery phrase. A pending timer keeps the social
     * button disabled.
     */
    ghost predicate Valid()
      reads this, app
    {
      && app.Valid() && app.Route() == App.OnboardingView
      && (step != Welcome && step != Import ==> walletData.Some?)
      && (step == SocialPassword ==> walletData.Some? && walletData.value.mnemonic.None?)
      && (timerPending ==> isSocialLoading)
    }

    /** Mounting: the welcome step, no wallet, every field empty. */
    constructor (app: App.App, ethers: ChainService.Ethers)
      requires app.Valid() && app.Route() == App.OnboardingView
      ensures this.app == app && this.ethers == ethers
      ensures step == Welcome && walletData.None? && !isSocialLoading && !timerPending
      ensures importInput == "" && password == "" && confirmPassword == ""
      ensures Valid()
    {
      this.app := app;
      this.ethers := ethers;
      step := Welcome;
      walletData := None;
      importInput := "";
      password := "";
      confirmPassword := "";
      isSocialLoading := false;
      timerPending := false;
    }

    /** `handleCreate`, with the wallet `createWallet` drew passed in: it is shown on the create step. */
    method HandleCreate(random: ChainService.EthersWallet)
      requires Valid() && step == Welcome
      modifies this`walletData, this`step
      ensures walletData == Some(ChainService.CreateWallet(random)) && step == Create
      ensures Valid()
    {
      walletData := Some(ChainService.CreateWallet(random));
      step := Create;
    }

    /** The first half of `handleSocialLogin`: the button shows a spinner and a timer is started. */
    method HandleSocialLogin()
      requires Valid() && step == Welcome && !isSocialLoading
      modifies this`isSocialLoading, this`timerPending
      ensures isSocialLoading && timerPending
      ensures Valid()
    {
      isSocialLoading := true;
      timerPending := true;
    }

    /**
     * The timer of `handleSocialLogin` firing, on whatever step the screen is
     * on by then: the wallet of the user id `"user_" + suffix` is stored and
     * the screen moves to the social password step. When `new ethers.Wallet`
     * throws instead, the callback ends there and the spinner stays on, so
     * the social button stays disabled.
     */
    method SocialLoginTimer(suffix: string)
      requires Valid() && timerPending
      modifies this`walletData, this`isSocialLoading, this`step, this`timerPending
      ensures !timerPending
      ensures var w := ChainService.CreateWalletFromSocial(ethers, USER_ID_PREFIX + suffix);
              && (w.Some? ==> walletData == w && !isSocialLoading && step == SocialPassword)
              && (w.None? ==> walletData == old(walletData) && isSocialLoading && step == old(step))
      ensures ethers.Lawful() && ChainService.IsSigningKey(ethers.keccak256Utf8(ChainService.SOCIAL_SALT + (USER_ID_PREFIX + suffix))) ==>
                && step == SocialPassword && walletData.Some? && walletData.value.mnemonic.None?
                && walletData.value.privateKey == ethers.keccak256Utf8(ChainService.SOCIAL_SALT + (USER_ID_PREFIX + suffix))
      ensures Valid()
    {
      timerPending := false;
      var w := ChainService.CreateWalletFromSocial(ethers, USER_ID_PREFIX + suffix);
      if w.Some? {
        walletData := w;
        isSocialLoading := false;
        step := SocialPassword;
      }
    }

    /** "I have a wallet". */
    method ShowImport()
      requires Valid() && step == Welcome
      modifies this`step
      ensures step == Import && Valid()
    {
      step := Import;
    }

    /** "I Saved It": from the recovery phrase to the password step. */
    method ContinueToPassword()
      requires Valid() && step == Create
      modifies this`step
      ensures step == SetPassword && Valid()
    {
      step := SetPassword;
    }

    /** The import step's Back. */
    method Back()
      requires Valid() && step == Import
      modifies this`step
      ensures step == Welcome && Valid()
    {
      step := Welcome;
    }

    /** The import field's `onChange`. */
    method EnterImportInput(value: string)
      requires Valid() && step == Import
      modifies this`importInput
      ensures importInput == value && Valid()
    {
      importInput := value;
    }

    /** The password field's `onChange`. */
    method EnterPassword(value: string)
      requires Valid() && (step == SetPassword || step == SocialPassword)
      modifies this`password
      ensures password == value && Valid()
    {
      password := value;
    }

    /** The confirmation field's `onChange`. */
    method EnterConfirmPassword(value: string)
      requires Valid() && (step == SetPassword || step == SocialPassword)
      modifies this`confirmPassword
      ensures confirmPassword == value && Valid()
    {
      confirmPassword := value;
    }

    /**
     * `handleImport`: the trimmed input is imported; on success the wallet is
     * kept and the password step follows, on failure the one import message
     * is alerted and nothing changes.
     */
    method HandleImport() returns (alert: Option<string>)
      requires Valid() && step == Import
      modifies this`walletData, this`step
      ensures var r := ChainService.ImportWallet(ethers, JsText.Trim(importInput));
              && (r.Success? ==> walletData == Some(r.value) && step == SetPassword && alert.None?)
              && (r.Failure? ==> walletData == old(walletData) && step == Import && alert == Some(INVALID_IMPORT))
      ensures Valid()
    {
      var r := ChainService.ImportWallet(ethers, JsText.Trim(importInput));
      if r.Success? {
        walletData := Some(r.value);
        step := SetPassword;
        alert := None;
      } else {
        alert := Some(INVALID_IMPORT);
      }
    }

    /**
     * `handleComplete`: a rejected password pair is alerted and changes
     * nothing. An accepted one always finds a wallet (the `if (walletData)`
     * guard never fails on these steps) and completes onboarding: the App
     * holds that wallet as "Account 1", unlocked and selected, and its save
     * effect has written the vault under the chosen password.
     */
    method HandleComplete(salt: App.CryptoService.Salt, iv: App.CryptoService.Iv) returns (alert: Option<string>)
      requires Valid() && (step == SetPassword || step == SocialPassword)
      modifies app
      ensures alert == PasswordRule(password, confirmPassword)
      ensures alert.Some? ==> unchanged(app) && Valid()
      ensures alert.None? ==>
                && walletData.Some?
                && app.accounts == [App.Account(App.FIRST_ACCOUNT_NAME, walletData.value.address,
                                                walletData.value.privateKey, walletData.value.mnemonic)]
                && app.password == Some(password) && app.selectedAccountIndex == JsText.Int(0)
                && app.Route() == App.WalletView
                && app.Holds(app.storage, App.Snapshot(app.accounts, password, JsText.Int(0), salt, iv))
                && (forall k :: k in old(app.storage) && k != App.VAULT && k != App.SELECTED_INDEX ==>
                      k in app.storage && app.storage[k] == old(app.storage)[k])
      ensures app.Valid()
      ensures old(app.Consistent()) ==> app.Consistent()
    {
      alert := PasswordRule(password, confirmPassword);
      if alert.Some? {
        return;
      }
      AcceptedPasswordIsTruthy(password, confirmPassword);
      var w := walletData.value;
      app.HandleOnboardingComplete(w.address, w.mnemonic, w.privateKey, password, salt, iv);
    }
  }
}
