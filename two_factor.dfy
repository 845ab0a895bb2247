/** Two-factor authentication: `TwoFactorService` (pure: it reads the user
    and returns values) and the enrollment endpoints of
    `TwoFactorController`, `setup` and `enable`, as a state machine over the
    user's secret, enabled flag and stored backup-code hashes. TOTP itself
    (RFC 6238), secret and backup-code generation, backup-code hashing and
    the QR image are parameters. */
module TwoFactor {
  import opened Wrappers
  import opened Text
  import opened Http
  import opened Security
  import Entities

  /** `new TwoFactorService($appName = 'MyApp')`: only the issuer is kept. */
  datatype TwoFactorService = TwoFactorService(issuer: string)

  function NewTwoFactorService(appName: Option<string>): (service: TwoFactorService)
    ensures appName.Some? ==> service.issuer == appName.value
    ensures appName.None? ==> service.issuer == "MyApp"
  {
    TwoFactorService(appName.GetOr("MyApp"))
  }

  /** The configured `TOTP` object: secret, label and issuer. */
  datatype Totp = Totp(secret: string, accountLabel: string, issuer: string)

  const NoSecretError: string := "User does not have a 2FA secret"
  const QrCodePrefix: string := "data:image/png;base64,"

  /** `getTOTP()`: fails on a null secret; the label is the email, or
      `'user'` when the email is null. */
  function GetTotp(service: TwoFactorService, user: Entities.User): (r: Result<Totp, string>)
    reads user
    ensures r.Err? <==> user.twoFactorSecret.None?
    ensures r.Err? ==> r.error == NoSecretError
    ensures r.Ok? ==> r.value.secret == user.twoFactorSecret.value && r.value.issuer == service.issuer
    ensures r.Ok? ==> r.value.accountLabel == if user.email.Some? then user.email.value else "user"
  {
    if user.twoFactorSecret.None? then Err(NoSecretError)
    else Ok(Totp(user.twoFactorSecret.value, user.email.GetOr("user"), service.issuer))
  }

  /** `getProvisioningUri()`; the URI format is the TOTP library's `uriOf`. */
  function ProvisioningUri(service: TwoFactorService, user: Entities.User, uriOf: Totp -> string): (r: Result<string, string>)
    reads user
    ensures r.Err? <==> user.twoFactorSecret.None?
    ensures r.Ok? ==> r.value == uriOf(Totp(user.twoFactorSecret.value, user.email.GetOr("user"), service.issuer))
  {
    match GetTotp(service, user)
    case Ok(totp) => Ok(uriOf(totp))
    case Err(e) => Err(e)
  }

  /** `getQrCode()`: the PNG of the provisioning URI as a base64 data URI;
      PNG rendering and base64 are parameters. */
  function QrCode(service: TwoFactorService, user: Entities.User, uriOf: Totp -> string,
                  png: string -> seq<int>, base64: seq<int> -> string): (r: Result<string, string>)
    reads user
    ensures r.Err? <==> user.twoFactorSecret.None?
    ensures r.Ok? ==> StartsWith(r.value, QrCodePrefix) && |r.value| >= |QrCodePrefix|
  {
    match ProvisioningUri(service, user, uriOf)
    case Ok(uri) =>
      var dataUri := QrCodePrefix + base64(png(uri));
      assert dataUri[..|QrCodePrefix|] == QrCodePrefix;
      Ok(dataUri)
    case Err(e) => Err(e)
  }

  /** `verifyCode()`: false without consulting TOTP when the secret is
      null or falsy (`''`, `'0'`); otherwise the library's verdict. */
  function VerifyCode(service: TwoFactorService, user: Entities.User, code: string,
                      totpVerify: (Totp, string) -> bool): (ok: bool)
    reads user
    ensures !Truthy(user.twoFactorSecret) ==> !ok
    ensures Truthy(user.twoFactorSecret) ==>
      ok == totpVerify(Totp(user.twoFactorSecret.value, user.email.GetOr("user"), service.issuer), code)
  {
    if !Truthy(user.twoFactorSecret) then false
    else totpVerify(GetTotp(service, user).value, code)
  }

  /** The enrollment state a user carries. */
  datatype TwoFactorState = TwoFactorState(secret: Option<string>, enabled: bool, backupCodes: Option<seq<string>>)

  function StateOf(user: Entities.User): TwoFactorState
    reads user
  {
    TwoFactorState(user.twoFactorSecret, user.twoFactorEnabled, user.twoFactorBackupCodes)
  }

  /** The `400` rejections of `enable`, in the order they are checked. */
  datatype EnableError = NoSecret | AlreadyEnabled | CodeRequired | InvalidCode {
    function Message(): string {
      match this
      case NoSecret => "No 2FA secret found. Please setup 2FA first."
      case AlreadyEnabled => "2FA is already enabled for this account."
      case CodeRequired => "Code is required"
      case InvalidCode => "Invalid code"
    }
  }

  /** `setup`: a new secret, and 2FA off until confirmed; stored backup
      codes stay as they were. */
  function SetupStep(s: TwoFactorState, secret: string): (t: TwoFactorState)
    ensures t.secret == Some(secret) && !t.enabled && t.backupCodes == s.backupCodes
  {
    s.(secret := Some(secret), enabled := false)
  }

  /** `enable`: the guards in order (a truthy secret, not yet enabled, a
      non-empty code, a code that verifies), then 2FA on with the new
      backup-code hashes stored. `codeValid` is `verifyCode`'s verdict. */
  function EnableStep(s: TwoFactorState, code: string, codeValid: bool, hashedCodes: seq<string>): (r: Result<TwoFactorState, EnableError>)
    ensures r.Err? ==> r.error == (if !Truthy(s.secret) then NoSecret
                                   else if s.enabled then AlreadyEnabled
                                   else if IsEmptyString(code) then CodeRequired
                                   else InvalidCode)
    ensures r.Ok? <==> Truthy(s.secret) && !s.enabled && !IsEmptyString(code) && codeValid
    ensures r.Ok? ==> r.value == TwoFactorState(s.secret, true, Some(hashedCodes))
  {
    if !Truthy(s.secret) then Err(NoSecret)
    else if s.enabled then Err(AlreadyEnabled)
    else if IsEmptyString(code) then Err(CodeRequired)
    else if !codeValid then Err(InvalidCode)
    else Ok(s.(enabled := true, backupCodes := Some(hashedCodes)))
  }

  /** `enable` as the controller is written: the service defines neither
      `generateBackupCodes` nor `hashBackupCodes`, so once every guard has
      passed the first of those calls raises an `Error`, which the kernel
      answers with a 500 before any field is set. The status is 400 for a
      failed guard and 500 otherwise; the state never changes. */
  function EnableAsWritten(s: TwoFactorState, code: string, codeValid: bool): (r: (int, TwoFactorState))
    ensures r.1 == s
    ensures r.0 == 500 <==> Truthy(s.secret) && !s.enabled && !IsEmptyString(code) && codeValid
    ensures r.0 != 500 ==> r.0 == 400
  {
    match EnableStep(s, code, codeValid, [])
    case Err(_) => (400, s)
    case Ok(_) => (500, s)
  }

  /** The discrepancy on one input: a fresh secret and a verified code. The
      intended step enables 2FA; the code as written answers 500 and
      leaves 2FA off. */
  lemma EnableAsWrittenCounterexample()
    ensures var s := TwoFactorState(Some("JBSWY3DPEHPK3PXP"), false, None);
      && EnableStep(s, "123456", true, ["h"]) == Ok(TwoFactorState(Some("JBSWY3DPEHPK3PXP"), true, Some(["h"])))
      && EnableAsWritten(s, "123456", true) == (500, s)
      && !EnableAsWritten(s, "123456", true).1.enabled
  {
    var s := TwoFactorState(Some("JBSWY3DPEHPK3PXP"), false, None);
    assert Truthy(s.secret) && !IsEmptyString("123456");
  }

  /** 2FA is on only with a usable secret and stored backup codes. */
  predicate Consistent(s: TwoFactorState) {
    s.enabled ==> Truthy(s.secret) && s.backupCodes.Some?
  }

  /** Both steps keep the state consistent. */
  lemma StepsKeepConsistent(s: TwoFactorState, secret: string, code: string, codeValid: bool, hashedCodes: seq<string>)
    requires Consistent(s)
    ensures Consistent(SetupStep(s, secret))
    ensures EnableStep(s, code, codeValid, hashedCodes).Ok? ==> Consistent(EnableStep(s, code, codeValid, hashedCodes).value)
  {
  }

  /** Enabling twice is refused, and leaves the state as it was. */
  lemma EnableTwiceRefused(s: TwoFactorState, c1: string, v1: bool, h1: seq<string>, c2: string, v2: bool, h2: seq<string>)
    requires EnableStep(s, c1, v1, h1).Ok?
    ensures EnableStep(EnableStep(s, c1, v1, h1).value, c2, v2, h2) == Err(AlreadyEnabled)
  {
  }

  /** A fresh setup followed by a verified code always enables 2FA; a new
      setup afterwards turns it off again until the next confirmation. */
  lemma SetupThenEnable(s: TwoFactorState, secret: string, code: string, hashedCodes: seq<string>, secret2: string)
    requires secret != "" && secret != "0" && !IsEmptyString(code)
    ensures EnableStep(SetupStep(s, secret), code, true, hashedCodes)
            == Ok(TwoFactorState(Some(secret), true, Some(hashedCodes)))
    ensures !SetupStep(TwoFactorState(Some(secret), true, Some(hashedCodes)), secret2).enabled
  {
  }

  /** A request to either endpoint, with what it brings: the secret
      `generateSecret()` would produce, or the submitted code with
      `verifyCode`'s verdict and the hashes of the generated backup codes. */
  datatype Action = Setup(secret: string) | Enable(code: string, codeValid: bool, hashedCodes: seq<string>)

  function Apply(s: TwoFactorState, a: Action): TwoFactorState {
    match a
    case Setup(secret) => SetupStep(s, secret)
    case Enable(code, valid, hashed) =>
      match EnableStep(s, code, valid, hashed)
      case Ok(t) => t
      case Err(_) => s
  }

  function Run(s: TwoFactorState, actions: seq<Action>): TwoFactorState
    decreases |actions|
  {
    if actions == [] then s else Run(Apply(s, actions[0]), actions[1..])
  }

  /** The action at `i` enabled 2FA with a code that verified, and no setup
      came after it. */
  predicate ConfirmedAt(actions: seq<Action>, i: int) {
    && 0 <= i < |actions|
    && actions[i].Enable? && actions[i].codeValid && !IsEmptyString(actions[i].code)
    && forall j :: i < j < |actions| ==> !actions[j].Setup?
  }

  /** Whatever sequence of requests a user sends, 2FA ends up enabled only
      if it was already enabled and no setup came, or some request confirmed
      a verified code after the last setup. */
  lemma {:induction false} EnabledOnlyByConfirmation(s: TwoFactorState, actions: seq<Action>)
    requires Run(s, actions).enabled
    ensures (s.enabled && forall j :: 0 <= j < |actions| ==> !actions[j].Setup?)
            || exists i :: ConfirmedAt(actions, i)
    decreases |actions|
  {
    if actions != [] {
      var next := Apply(s, actions[0]);
      EnabledOnlyByConfirmation(next, actions[1..]);
      if exists i :: ConfirmedAt(actions[1..], i) {
        var i :| ConfirmedAt(actions[1..], i);
        assert ConfirmedAt(actions, i + 1);
      } else {
        assert forall j :: 0 < j < |actions| ==> actions[j] == actions[1..][j - 1];
        if EnableStep(s, actions[0].code, actions[0].codeValid, actions[0].hashedCodes).Ok? {
          assert ConfirmedAt(actions, 0);
        }
      }
    }
  }

  const UserNotFound: string := "User not found"

  /** `setup`: a non-`User` caller gets 401 and nothing changes; otherwise
      the new secret is stored, 2FA is turned off, and the response carries
      the secret, its QR code and its provisioning URI. */
  method SetupEndpoint(principal: Principal, service: TwoFactorService, newSecret: string,
                       uriOf: Totp -> string, png: string -> seq<int>, base64: seq<int> -> string)
    returns (status: int, body: map<string, Json>)
    modifies (if principal.AppUser? then {principal.user} else {})`twoFactorSecret,
             (if principal.AppUser? then {principal.user} else {})`twoFactorEnabled
    ensures !principal.AppUser? ==> status == 401 && body == map["error" := JString(UserNotFound)]
    ensures principal.AppUser? ==>
      var user := principal.user;
      && StateOf(user) == SetupStep(old(StateOf(user)), newSecret)
      && status == 200
      && body.Keys == {"secret", "qr_code", "provisioning_uri", "message"}
      && body["secret"] == JString(newSecret)
      && body["qr_code"].JString? && StartsWith(body["qr_code"].text, QrCodePrefix)
      && body["provisioning_uri"] == JString(uriOf(Totp(newSecret, user.email.GetOr("user"), service.issuer)))
  {
    if !principal.AppUser? {
      return 401, map["error" := JString(UserNotFound)];
    }
    var user := principal.user;
    user.SetTwoFactorSecret(Some(newSecret));
    user.SetTwoFactorEnabled(false);
    var qrCodeDataUri := QrCode(service, user, uriOf, png, base64).value;
    var provisioningUri := ProvisioningUri(service, user, uriOf).value;
    status := 200;
    body := map["secret" := JString(newSecret),
                "qr_code" := JString(qrCodeDataUri),
                "provisioning_uri" := JString(provisioningUri),
                "message" := JString("Scan this QR code with your authenticator app...")];
  }

  /** `enable`: a non-`User` caller gets 401; a request failing a guard
      gets 400 with that guard's message and changes nothing; otherwise 2FA
      is turned on, the hashes of the generated backup codes are stored, and
      exactly those codes are returned in plain text. `requestCode` is the
      body's `code`, null when absent. */
  method EnableEndpoint(principal: Principal, service: TwoFactorService, requestCode: Option<string>,
                        totpVerify: (Totp, string) -> bool, backupCodes: seq<string>,
                        hashBackupCodes: seq<string> -> seq<string>)
    returns (status: int, body: map<string, Json>)
    modifies (if principal.AppUser? then {principal.user} else {})`twoFactorEnabled,
             (if principal.AppUser? then {principal.user} else {})`twoFactorBackupCodes
    ensures !principal.AppUser? ==> status == 401 && body == map["error" := JString(UserNotFound)]
    ensures principal.AppUser? ==>
      var user := principal.user;
      var code := requestCode.GetOr("");
      var r := EnableStep(old(StateOf(user)), code, old(VerifyCode(service, user, code, totpVerify)),
                          hashBackupCodes(backupCodes));
      && (r.Err? ==> status == 400 && body == map["error" := JString(r.error.Message())]
                     && StateOf(user) == old(StateOf(user)))
      && (r.Ok? ==> status == 200 && StateOf(user) == r.value
                    && user.twoFactorBackupCodes == Some(hashBackupCodes(backupCodes))
                    && "backup_codes" in body && body["backup_codes"] == JStrings(backupCodes))
  {
    if !principal.AppUser? {
      return 401, map["error" := JString(UserNotFound)];
    }
    var user := principal.user;
    if !Truthy(user.twoFactorSecret) {
      return 400, map["error" := JString(NoSecret.Message())];
    }
    if user.twoFactorEnabled {
      return 400, map["error" := JString(AlreadyEnabled.Message())];
    }
    var code := requestCode.GetOr("");
    if IsEmptyString(code) {
      return 400, map["error" := JString(CodeRequired.Message())];
    }
    if !VerifyCode(service, user, code, totpVerify) {
      return 400, map["error" := JString(InvalidCode.Message())];
    }
    var hashedBackupCodes := hashBackupCodes(backupCodes);
    user.SetTwoFactorEnabled(true);
    user.SetTwoFactorBackupCodes(Some(hashedBackupCodes));
    status := 200;
    body := map["message" := JString("2FA enabled successfully"),
                "backup_codes" := JStrings(backupCodes),
                "warning" := JString("Save these backup codes in a safe place. They will not be shown again.")];
  }
}
