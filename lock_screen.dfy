/**
 * components/LockScreen.tsx: the two-step unlock in front of a stored vault.
 *
 * The password step checks the password against the vault on its own, then
 * picks a second factor from the settings stored on the device (the
 * authenticator app wins over e-mail), and only when none is enabled calls
 * `onUnlock`, which is `App.HandleUnlock`. The second-factor step calls
 * `onUnlock` once the code verifies. The screen holds its `App` and the
 * in-memory code store of the auth service; the random draw of an e-mailed
 * code and the salt and IV of the save that follows an unlock are parameters.
 */
module LockScreen {
  import opened Wrappers
  import App
  import AuthService

  /** The storage keys of the second-factor settings. */
  const EMAIL_2FA_KEY := "sw_email_2fa"
  const GOOGLE_2FA_KEY := "sw_google_2fa"

  const INCORRECT_PASSWORD := "Incorrect password"
  const INVALID_CODE := "Invalid Code"

  datatype Step = PasswordStep | TwoFactorStep

  /** `'none' | 'email' | 'totp'`. */
  datatype AuthType = NoAuth | EmailAuth | TotpAuth

  /** A parsed second-factor setting: whether it is on, and (for e-mail) the address codes go to. */
  datatype TwoFactorConfig = TwoFactorConfig(enabled: bool, email: string)

  /** `config?.enabled` on a possibly-null setting. */
  predicate Enabled(c: Option<TwoFactorConfig>) {
    c.Some? && c.value.enabled
  }

  /**
   * The mount effect: each setting is parsed when its key is stored with a
   * non-empty value, and left `null` otherwise.
   */
  function LoadConfig(st: App.Storage, parse: string -> TwoFactorConfig): (r: (Option<TwoFactorConfig>, Option<TwoFactorConfig>))
    ensures r.0.Some? <==> App.Present(st, EMAIL_2FA_KEY)
    ensures r.1.Some? <==> App.Present(st, GOOGLE_2FA_KEY)
    ensures r.0.Some? ==> r.0.value == parse(st[EMAIL_2FA_KEY])
    ensures r.1.Some? ==> r.1.value == parse(st[GOOGLE_2FA_KEY])
  {
    (if App.Present(st, EMAIL_2FA_KEY) then Some(parse(st[EMAIL_2FA_KEY])) else None,
     if App.Present(st, GOOGLE_2FA_KEY) then Some(parse(st[GOOGLE_2FA_KEY])) else None)
  }

  /**
   * The second factor a correct password leads to: the authenticator app
   * whenever it is enabled, whatever the e-mail setting says; e-mail when
   * only that is enabled; none otherwise.
   */
  function SecondFactor(email2FA: Option<TwoFactorConfig>, google2FA: Option<TwoFactorConfig>): (a: AuthType)
    ensures a == TotpAuth <==> Enabled(google2FA)
    ensures a == EmailAuth <==> !Enabled(google2FA) && Enabled(email2FA)
    ensures a == NoAuth <==> !Enabled(google2FA) && !Enabled(email2FA)
  {
    if Enabled(google2FA) then TotpAuth else if Enabled(email2FA) then EmailAuth else NoAuth
  }

  class LockScreen {
    var step: Step
    var password: string
    var isLoading: bool
    var error: string
    var email2FA: Option<TwoFactorConfig>
    var google2FA: Option<TwoFactorConfig>
    var otpCode: string
    var authType: AuthType

    /** `onUnlock` is this App's `HandleUnlock`; `auth` is the auth service's store. */
    const app: App.App
    const auth: AuthService.DemoStore

    /**
     * The second-factor step is only ever reached with a password that opens
     * the stored vault and with a factor chosen; an e-mail factor always has
     * its setting loaded. The settings are read once, at mounting, so a
     * factor once chosen is the one they still select.
     */
    ghost predicate Valid()
      reads this, app
    {
      && app.Valid()
      && (step == TwoFactorStep ==> authType != NoAuth && app.ReadVault(app.storage, password).Success?)
      && (authType == EmailAuth ==> email2FA.Some?)
      && (authType == NoAuth || authType == SecondFactor(email2FA, google2FA))
    }

    /** The code just entered passes the check of the chosen factor, against the current code store. */
    ghost predicate CodeAccepted()
      reads this, auth
    {
      || (authType == TotpAuth && AuthService.VerifyTOTP(otpCode))
      || (authType == EmailAuth && email2FA.Some? && AuthService.Verifies(auth.State(), email2FA.value.email, otpCode))
    }

    /** Mounting: the password step, nothing entered, and the settings read from storage. */
    constructor (app: App.App, auth: AuthService.DemoStore, parse: string -> TwoFactorConfig)
      requires app.Valid()
      ensures this.app == app && this.auth == auth
      ensures step == PasswordStep && password == "" && !isLoading && error == "" && otpCode == "" && authType == NoAuth
      ensures (email2FA, google2FA) == LoadConfig(app.storage, parse)
      ensures Valid()
    {
      this.app := app;
      this.auth := auth;
      step := PasswordStep;
      password := "";
      isLoading := false;
      error := "";
      otpCode := "";
      authType := NoAuth;
      var config := LoadConfig(app.storage, parse);
      email2FA := config.0;
      google2FA := config.1;
    }

    /** The password field's `onChange`. */
    method EnterPassword(value: string)
      requires Valid() && step == PasswordStep
      modifies this`password
      ensures password == value && Valid()
    {
      password := value;
    }

    /** The code field's `onChange`. */
    method EnterOtpCode(value: string)
      requires Valid() && step == TwoFactorStep
      modifies this`otpCode
      ensures otpCode == value && Valid()
    {
      otpCode := value;
    }

    /**
     * `handlePasswordSubmit`, reachable while the button is enabled: a
     * non-empty password and nothing loading. The screen reads and decrypts
     * the vault itself first; a missing, unparsable or unopenable vault gives
     * "Incorrect password" and leaves the App and the code store alone. With
     * the right password it moves to the second-factor step (issuing an
     * e-mail code when e-mail is the factor), or unlocks the App directly
     * when no factor is enabled; that unlock cannot fail, since it reads the
     * same vault with the same password.
     */
    method HandlePasswordSubmit(draw: AuthService.CodeDraw, salt: App.CryptoService.Salt, iv: App.CryptoService.Iv)
      requires Valid() && step == PasswordStep && password != "" && !isLoading
      requires app.hasVault && app.isLocked
      modifies this, app, auth
      ensures password == old(password) && email2FA == old(email2FA) && google2FA == old(google2FA)
      ensures otpCode == old(otpCode)
      ensures app.ReadVault(old(app.storage), password).Failure? ==>
                && step == PasswordStep && error == INCORRECT_PASSWORD && !isLoading && authType == old(authType)
                && unchanged(app) && unchanged(auth)
      ensures app.ReadVault(old(app.storage), password).Success? ==>
                && error == "" && authType == SecondFactor(email2FA, google2FA)
                && (authType != NoAuth ==> step == TwoFactorStep && !isLoading && unchanged(app))
                && (authType == TotpAuth ==> unchanged(auth))
                && (authType == EmailAuth ==> auth.State() == AuthService.Issue(email2FA.value.email, draw))
                && (authType == NoAuth ==>
                      && step == PasswordStep && isLoading && unchanged(auth)
                      && !app.isLocked && app.Route() == App.WalletView
                      && app.accounts == app.ReadVault(old(app.storage), password).value
                      && app.password == Some(password))
      ensures !app.isLocked ==> app.ReadVault(old(app.storage), password).Success?
      ensures app.Valid()
      ensures app.isLocked ==> Valid()
      ensures old(app.Consistent()) && App.Laws(app.crypto, app.accountsJson, app.vaultJson) ==> app.Consistent()
    {
      isLoading := true;
      error := "";
      var read := app.ReadVault(app.storage, password);
      if read.Failure? {
        error := INCORRECT_PASSWORD;
        isLoading := false;
        return;
      }
      if Enabled(google2FA) {
        authType := TotpAuth;
        step := TwoFactorStep;
        isLoading := false;
      } else if Enabled(email2FA) {
        authType := EmailAuth;
        step := TwoFactorStep;
        var _ := auth.SendEmailOTP(email2FA.value.email, draw);
        isLoading := false;
      } else {
        var _ := app.HandleUnlock(password, salt, iv);
      }
    }

    /**
     * `handle2FASubmit`, reachable while its button is enabled: a non-empty
     * code and nothing loading. When the chosen factor accepts the code, the
     * App is unlocked with the password of the first step (which cannot fail);
     * otherwise "Invalid Code" is shown and the screen stays on this step,
     * ready for another attempt: the number of attempts is not limited.
     */
    method Handle2FASubmit(salt: App.CryptoService.Salt, iv: App.CryptoService.Iv)
      requires Valid() && step == TwoFactorStep && otpCode != "" && !isLoading
      requires app.hasVault && app.isLocked
      modifies this`isLoading, this`error, app
      ensures unchanged(auth)
      ensures old(CodeAccepted()) ==>
                && isLoading && error == ""
                && !app.isLocked && app.Route() == App.WalletView
                && app.accounts == app.ReadVault(old(app.storage), password).value
                && app.password == Some(password)
      ensures !old(CodeAccepted()) ==>
                && error == INVALID_CODE && !isLoading && step == TwoFactorStep && unchanged(app) && Valid()
      ensures !app.isLocked ==> app.ReadVault(old(app.storage), password).Success?
      ensures app.Valid()
      ensures old(app.Consistent()) && App.Laws(app.crypto, app.accountsJson, app.vaultJson) ==> app.Consistent()
    {
      isLoading := true;
      error := "";
      var valid := false;
      if authType == TotpAuth {
        valid := AuthService.VerifyTOTP(otpCode);
      } else if authType == EmailAuth {
        valid := auth.VerifyEmailOTP(email2FA.value.email, otpCode);
      }
      if valid {
        var _ := app.HandleUnlock(password, salt, iv);
      } else {
        error := INVALID_CODE;
        isLoading := false;
      }
    }

    /** The second-factor step's Cancel: back to the password step with the password cleared. */
    method Cancel()
      requires Valid() && step == TwoFactorStep
      modifies this`step, this`password
      ensures step == PasswordStep && password == "" && Valid()
    {
      step := PasswordStep;
      password := "";
    }
  }
}
